/**
 Stable sorting of a sequence by a strict weak order. The library's stable sort is
 represented by insertion: the result of a stable sort is determined by its input
 and its order, whichever algorithm produces it.
 */
module StableSort {

  ghost predicate StrictWeakOrder<T(!new)>(less: (T, T) -> bool) {
    && (forall a :: !less(a, a))
    && (forall a, b, c :: less(a, b) && less(b, c) ==> less(a, c))
    && (forall a, b, c :: less(a, b) ==> less(a, c) || less(c, b))
  }

  ghost predicate Sorted<T>(less: (T, T) -> bool, s: seq<T>) {
    forall i, j :: 0 <= i < j < |s| ==> !less(s[j], s[i])
  }

  /** Any two elements at different places are strictly ordered one way or the other. */
  ghost predicate Comparable<T>(less: (T, T) -> bool, s: seq<T>) {
    forall i, j :: 0 <= i < j < |s| ==> less(s[i], s[j]) || less(s[j], s[i])
  }

  /** Places `x` after everything that does not follow it. */
  function Insert<T>(less: (T, T) -> bool, s: seq<T>, x: T): seq<T> {
    if s == [] then [x]
    else if less(x, s[0]) then [x] + s
    else [s[0]] + Insert(less, s[1..], x)
  }

  function Sort<T>(less: (T, T) -> bool, s: seq<T>): seq<T> {
    if s == [] then [] else Insert(less, Sort(less, s[..|s| - 1]), s[|s| - 1])
  }

  lemma {:induction false} InsertKeepsElements<T>(less: (T, T) -> bool, s: seq<T>, x: T)
    ensures multiset(Insert(less, s, x)) == multiset(s) + multiset{x}
  {
    if s != [] {
      assert s == [s[0]] + s[1..];
      if !less(x, s[0]) {
        InsertKeepsElements(less, s[1..], x);
      }
    }
  }

  lemma {:induction false} SortKeepsElements<T>(less: (T, T) -> bool, s: seq<T>)
    ensures multiset(Sort(less, s)) == multiset(s)
  {
    if s != [] {
      var n := |s| - 1;
      assert s == s[..n] + [s[n]];
      SortKeepsElements(less, s[..n]);
      InsertKeepsElements(less, Sort(less, s[..n]), s[n]);
    }
  }

  lemma {:induction false} SameElements<T>(s: seq<T>, t: seq<T>)
    requires multiset(s) == multiset(t)
    ensures |s| == |t|
    ensures forall x :: x in s <==> x in t
  {
    assert |multiset(s)| == |s| && |multiset(t)| == |t|;
    forall x
      ensures x in s <==> x in t
    {
      assert x in s <==> x in multiset(s);
      assert x in t <==> x in multiset(t);
    }
  }

  lemma {:induction false} WithoutOne<T>(s: seq<T>, j: nat)
    requires j < |s|
    ensures multiset(s[..j] + s[j + 1..]) == multiset(s) - multiset{s[j]}
  {
    assert s == s[..j] + ([s[j]] + s[j + 1..]);
    assert multiset(s) == multiset(s[..j]) + (multiset{s[j]} + multiset(s[j + 1..]));
  }

  lemma {:induction false} InsertSorted<T(!new)>(less: (T, T) -> bool, s: seq<T>, x: T)
    requires StrictWeakOrder(less) && Sorted(less, s)
    ensures Sorted(less, Insert(less, s, x))
  {
    if s != [] && !less(x, s[0]) {
      InsertSorted(less, s[1..], x);
      var rest := Insert(less, s[1..], x);
      InsertKeepsElements(less, s[1..], x);
      forall j | 0 <= j < |rest|
        ensures !less(rest[j], s[0])
      {
        assert rest[j] in multiset(rest);
        assert rest[j] in multiset(s[1..]) || rest[j] == x;
        if rest[j] != x {
          assert rest[j] in s[1..];
        }
      }
    }
  }

  lemma {:induction false} SortSorted<T(!new)>(less: (T, T) -> bool, s: seq<T>)
    requires StrictWeakOrder(less)
    ensures Sorted(less, Sort(less, s))
  {
    if s != [] {
      SortSorted(less, s[..|s| - 1]);
      InsertSorted(less, Sort(less, s[..|s| - 1]), s[|s| - 1]);
    }
  }

  /** Two insertions commute when the two elements are strictly ordered. */
  lemma {:induction false} InsertCommutes<T(!new)>(less: (T, T) -> bool, s: seq<T>, x: T, y: T)
    requires StrictWeakOrder(less)
    requires less(x, y) || less(y, x)
    ensures Insert(less, Insert(less, s, x), y) == Insert(less, Insert(less, s, y), x)
  {
    if s == [] {
    } else if less(x, s[0]) {
      assert ([x] + s)[1..] == s;
      if less(y, s[0]) {
        assert ([y] + s)[1..] == s;
      } else {
        assert !less(y, x);
        assert ([s[0]] + Insert(less, s[1..], y))[0] == s[0];
      }
    } else if less(y, s[0]) {
      assert ([y] + s)[1..] == s;
      assert !less(x, y);
    } else {
      InsertCommutes(less, s[1..], x, y);
      assert ([s[0]] + Insert(less, s[1..], x))[1..] == Insert(less, s[1..], x);
      assert ([s[0]] + Insert(less, s[1..], y))[1..] == Insert(less, s[1..], y);
    }
  }

  /** Strictly ordered elements have one sorted arrangement. */
  lemma {:induction false} SortedUnique<T>(less: (T, T) -> bool, s: seq<T>, t: seq<T>)
    requires Sorted(less, s) && Sorted(less, t) && Comparable(less, s) && Comparable(less, t)
    requires multiset(s) == multiset(t)
    ensures s == t
  {
    SameElements(s, t);
    if s != [] {
      SameHead(less, s, t);
      TailSorted(less, s);
      TailSorted(less, t);
      TailElements(s);
      TailElements(t);
      SortedUnique(less, s[1..], t[1..]);
    }
  }

  lemma {:induction false} TailSorted<T>(less: (T, T) -> bool, s: seq<T>)
    requires s != [] && Sorted(less, s) && Comparable(less, s)
    ensures Sorted(less, s[1..]) && Comparable(less, s[1..])
  {}

  lemma {:induction false} TailElements<T>(s: seq<T>)
    requires s != []
    ensures s == [s[0]] + s[1..]
    ensures multiset(s[1..]) == multiset(s) - multiset{s[0]}
  {}

  lemma {:induction false} SameHead<T>(less: (T, T) -> bool, s: seq<T>, t: seq<T>)
    requires Sorted(less, s) && Comparable(less, t)
    requires s != [] && t != [] && s[0] in t && t[0] in s
    requires Sorted(less, t)
    ensures s[0] == t[0]
  {}

  lemma {:induction false} ComparablePermutes<T(!new)>(less: (T, T) -> bool, s: seq<T>, t: seq<T>)
    requires StrictWeakOrder(less)
    requires Comparable(less, s) && multiset(s) == multiset(t)
    ensures Comparable(less, t)
  {
    SameElements(s, t);
    forall i, j | 0 <= i < j < |t|
      ensures less(t[i], t[j]) || less(t[j], t[i])
    {
      assert t[i] in t && t[j] in t;
      var a :| 0 <= a < |s| && s[a] == t[i];
      var b :| 0 <= b < |s| && s[b] == t[j];
      if a == b {
        TwiceCounted(t, i, j);
        var c := SecondPlace(s, a);
        assert false;
      }
    }
  }

  lemma {:induction false} TwiceCounted<T>(s: seq<T>, i: nat, j: nat)
    requires i < j < |s| && s[i] == s[j]
    ensures multiset(s)[s[i]] >= 2
  {
    assert s == s[..j] + s[j..];
    assert s[j..] == [s[j]] + s[j + 1..];
    assert s[i] in s[..j];
    assert multiset(s) == multiset(s[..j]) + multiset(s[j..]);
  }

  /** An element of a comparable sequence cannot occur twice. */
  lemma {:induction false} SecondPlace<T(!new)>(s: seq<T>, a: nat) returns (c: nat)
    requires a < |s| && multiset(s)[s[a]] >= 2
    ensures c < |s| && c != a && s[c] == s[a]
  {
    assert s == s[..a] + [s[a]] + s[a + 1..];
    if s[a] in s[..a] {
      c :| 0 <= c < a && s[c] == s[a];
    } else {
      assert multiset(s[..a])[s[a]] == 0;
      assert s[a] in multiset(s[a + 1..]);
      var k :| 0 <= k < |s[a + 1..]| && s[a + 1..][k] == s[a];
      c := a + 1 + k;
    }
  }

  /** The sort of a comparable sequence does not depend on its starting arrangement. */
  lemma {:induction false} SortIgnoresArrangement<T(!new)>(less: (T, T) -> bool, s: seq<T>, t: seq<T>)
    requires StrictWeakOrder(less)
    requires Comparable(less, s) && multiset(s) == multiset(t)
    ensures Sort(less, s) == Sort(less, t)
  {
    SortKeepsElements(less, s);
    SortKeepsElements(less, t);
    SortSorted(less, s);
    SortSorted(less, t);
    ComparablePermutes(less, s, Sort(less, s));
    ComparablePermutes(less, s, Sort(less, t));
    SortedUnique(less, Sort(less, s), Sort(less, t));
  }

  // ---------------------------------------------------------------- two passes

  /** Compares by `first`, and by `second` where `first` does not decide. */
  function Then<T>(first: (T, T) -> bool, second: (T, T) -> bool): (T, T) -> bool {
    (a, b) => first(a, b) || (!first(b, a) && second(a, b))
  }

  lemma {:induction false} ThenIsStrictWeak<T(!new)>(first: (T, T) -> bool, second: (T, T) -> bool)
    requires StrictWeakOrder(first) && StrictWeakOrder(second)
    ensures StrictWeakOrder(Then(first, second))
  {}

  /** A later element with the greatest second key inserts the same way under both orders. */
  lemma {:induction false} InsertIgnoresSecond<T>(
    first: (T, T) -> bool, second: (T, T) -> bool, s: seq<T>, x: T)
    requires forall e :: e in s ==> !second(x, e)
    ensures Insert(first, s, x) == Insert(Then(first, second), s, x)
  {
    if s != [] {
      assert s[0] in s;
      InsertIgnoresSecond(first, second, s[1..], x);
    }
  }

  lemma {:induction false} SortIgnoresSecond<T>(
    first: (T, T) -> bool, second: (T, T) -> bool, s: seq<T>)
    requires Sorted(second, s)
    ensures Sort(first, s) == Sort(Then(first, second), s)
  {
    if s != [] {
      var n := |s| - 1;
      SortIgnoresSecond(first, second, s[..n]);
      var before := Sort(Then(first, second), s[..n]);
      SortKeepsElements(Then(first, second), s[..n]);
      forall e | e in before
        ensures !second(s[n], e)
      {
        assert e in multiset(before);
        assert e in s[..n];
      }
      InsertIgnoresSecond(first, second, before, s[n]);
    }
  }

  lemma {:induction false} InsertBeforeLast<T>(less: (T, T) -> bool, s: seq<T>, y: T, x: T)
    requires less(x, y)
    ensures Insert(less, s + [y], x) == Insert(less, s, x) + [y]
  {
    if s == [] {
      assert [] + [y] == [y];
    } else {
      InsertBeforeLast(less, s[1..], y, x);
      assert (s + [y])[1..] == s[1..] + [y];
    }
  }

  lemma {:induction false} InsertAfterAll<T>(less: (T, T) -> bool, s: seq<T>, x: T)
    requires forall e :: e in s ==> !less(x, e)
    ensures Insert(less, s, x) == s + [x]
  {
    if s != [] {
      assert s[0] in s;
      InsertAfterAll(less, s[1..], x);
    }
  }

  lemma {:induction false} NotBeforeLast<T(!new)>(less: (T, T) -> bool, s: seq<T>, x: T)
    requires StrictWeakOrder(less) && Sorted(less, s)
    requires s != [] && !less(x, s[|s| - 1])
    ensures forall e :: e in s ==> !less(x, e)
  {}

  /** Sorting after an insertion by the second key is insertion after sorting. */
  lemma {:induction false} SortAfterInsert<T(!new)>(
    first: (T, T) -> bool, second: (T, T) -> bool, s: seq<T>, x: T)
    requires StrictWeakOrder(first) && StrictWeakOrder(second) && Sorted(second, s)
    ensures Sort(Then(first, second), Insert(second, s, x))
         == Insert(Then(first, second), Sort(Then(first, second), s), x)
  {
    var both := Then(first, second);
    if s != [] {
      var n := |s| - 1;
      var y := s[n];
      assert s == s[..n] + [y];
      if second(x, y) {
        InsertBeforeLast(second, s[..n], y, x);
        SortAfterInsert(first, second, s[..n], x);
        var inserted := Insert(second, s[..n], x);
        assert (inserted + [y])[..|inserted|] == inserted;
        ThenIsStrictWeak(first, second);
        InsertCommutes(both, Sort(both, s[..n]), x, y);
      } else {
        NotBeforeLast(second, s, x);
        InsertAfterAll(second, s, x);
        assert (s + [x])[..|s|] == s;
      }
    }
  }

  lemma {:induction false} SortAfterSort<T(!new)>(
    first: (T, T) -> bool, second: (T, T) -> bool, s: seq<T>)
    requires StrictWeakOrder(first) && StrictWeakOrder(second)
    ensures Sort(Then(first, second), Sort(second, s)) == Sort(Then(first, second), s)
  {
    if s != [] {
      var n := |s| - 1;
      SortAfterSort(first, second, s[..n]);
      SortSorted(second, s[..n]);
      SortAfterInsert(first, second, Sort(second, s[..n]), s[n]);
    }
  }

  /** Stable sorting by `second` and then by `first` is one lexicographic stable sort. */
  lemma {:induction false} TwoPassesAreOne<T(!new)>(first: (T, T) -> bool, second: (T, T) -> bool, s: seq<T>)
    requires StrictWeakOrder(first) && StrictWeakOrder(second)
    ensures Sort(first, Sort(second, s)) == Sort(Then(first, second), s)
  {
    SortSorted(second, s);
    SortIgnoresSecond(first, second, Sort(second, s));
    SortAfterSort(first, second, s);
  }
}
