/** The audio controller: queued commands, coalescing of repeated adjustments, one reply each. */
module AudioQueue {
  import opened Outcomes

  const I16_MIN := -0x8000
  const I16_MAX := 0x7FFF
  const I32_MIN := -0x8000_0000
  const I32_MAX := 0x7FFF_FFFF

  type I16 = x: int | I16_MIN <= x <= I16_MAX

  datatype Command =
    | Adjust(delta: I16)
    | SetMuted(muted: Option<bool>)
    | SetInputMuted(inputMuted: Option<bool>)

  /** The default sink, and the mute of the default source if there is one. */
  datatype Audio = Audio(volume: real, muted: bool, input: Option<bool>)

  datatype Entry = Entry(command: Command, reply: Option<nat>)

  datatype Answer = Answer(reply: nat, result: Option<Audio>)

  predicate InRange(a: Audio) {
    0.0 <= a.volume <= 1.0
  }

  function Level(v: real): real {
    if v < 0.0 then 0.0 else if v > 1.0 then 1.0 else v
  }

  function AdjustedVolume(v: real, delta: int): real {
    Level(v + delta as real / 100.0)
  }

  /** The device after a command, and the reported state; a missing source is an error. */
  function Execute(a: Audio, c: Command): (Audio, Option<Audio>) {
    match c
    case Adjust(d) =>
      var next := a.(volume := AdjustedVolume(a.volume, d), muted := false);
      (next, Some(next))
    case SetMuted(m) =>
      var next := a.(muted := m.GetOr(!a.muted));
      (next, Some(next))
    case SetInputMuted(m) =>
      if a.input.None? then (a, None)
      else
        var next := a.(input := Some(m.GetOr(!a.input.value)));
        (next, Some(next))
  }

  /** One command at a time, in order. */
  function Singly(a: Audio, entries: seq<Entry>): Audio {
    if entries == [] then a else Execute(Singly(a, entries[..|entries| - 1]), entries[|entries| - 1].command).0
  }

  function Signum(x: int): int {
    if x > 0 then 1 else if x < 0 then -1 else 0
  }

  /** The first `n` entries are adjustments in the direction of the first. */
  predicate Alike(entries: seq<Entry>, n: nat)
    requires n <= |entries|
  {
    n > 0 && entries[0].command.Adjust? ==>
      forall k :: 0 <= k < n ==>
        entries[k].command.Adjust? && Signum(entries[k].command.delta) == Signum(entries[0].command.delta)
  }

  function SumOf(entries: seq<Entry>): int
    requires forall k :: 0 <= k < |entries| ==> entries[k].command.Adjust?
  {
    if entries == [] then 0 else SumOf(entries[..|entries| - 1]) + entries[|entries| - 1].command.delta
  }

  /** How many leading entries are taken together, and the one command they become. */
  method Batch(entries: seq<Entry>) returns (count: nat, command: Command)
    requires entries != []
    ensures 1 <= count <= |entries|
    ensures !entries[0].command.Adjust? ==> count == 1 && command == entries[0].command
    ensures entries[0].command.Adjust? ==>
      && Alike(entries, count) && (count < |entries| ==> !Alike(entries, count + 1))
      && command == Adjust(Clamp(SumOf(entries[..count]), I16_MIN, I16_MAX))
  {
    if !entries[0].command.Adjust? {
      return 1, entries[0].command;
    }
    var first := entries[0].command.delta;
    count := 0;
    var delta := 0;
    while count < |entries|
      invariant count <= |entries|
      invariant Alike(entries, count)
      invariant delta == Clamp(SumOf(entries[..count]), I32_MIN, I32_MAX)
      invariant Signum(SumOf(entries[..count])) == (if count == 0 then 0 else Signum(first))
    {
      if !entries[count].command.Adjust? || Signum(entries[count].command.delta) != Signum(first) {
        break;
      }
      assert entries[..count + 1][..count] == entries[..count];
      delta := Clamp(delta + entries[count].command.delta, I32_MIN, I32_MAX);
      count := count + 1;
    }
    command := Adjust(Clamp(delta, I16_MIN, I16_MAX));
  }

  // ---------------------------------------------------------------- single commands

  /** One adjustment moves the volume by its hundredths, stopping at silence and at full, and unmutes. */
  lemma {:induction false} AdjustmentMoves(a: Audio, d: I16)
    ensures var (b, reply) := Execute(a, Adjust(d));
      var sum := a.volume * 100.0 + d as real;
      && b.volume * 100.0 == (if sum <= 0.0 then 0.0 else if sum >= 100.0 then 100.0 else sum)
      && !b.muted && b.input == a.input && reply == Some(b)
  {}

  /** A mute command sets what it is given and otherwise flips, and touches nothing else. */
  lemma {:induction false} MuteSetsOrFlips(a: Audio, m: Option<bool>)
    ensures var (b, reply) := Execute(a, SetMuted(m));
      && b.muted == (if m.Some? then m.value else !a.muted)
      && b.volume == a.volume && b.input == a.input && reply == Some(b)
    ensures var (b, reply) := Execute(a, SetInputMuted(m));
      && b.volume == a.volume && b.muted == a.muted
      && (a.input.None? ==> b == a && reply.None?)
      && (a.input.Some? ==>
            b.input == Some(if m.Some? then m.value else !a.input.value) && reply == Some(b))
  {}

  // ---------------------------------------------------------------- coalescing

  /** Two steps the same way are one step, even at the ends of the range. */
  lemma {:induction false} StepsMerge(v: real, sum: int, d: int)
    requires 0.0 <= v <= 1.0
    requires (sum >= 0 && d >= 0) || (sum <= 0 && d <= 0)
    ensures AdjustedVolume(AdjustedVolume(v, sum), d) == AdjustedVolume(v, sum + d)
  {}

  /** A saturated step goes as far as the sum. */
  lemma {:induction false} SaturationIsHarmless(v: real, sum: int)
    requires 0.0 <= v <= 1.0
    ensures AdjustedVolume(v, Clamp(sum, I16_MIN, I16_MAX)) == AdjustedVolume(v, sum)
  {}

  lemma {:induction false} AlikeSinglyIsSum(a: Audio, entries: seq<Entry>)
    requires InRange(a) && entries != [] && entries[0].command.Adjust? && Alike(entries, |entries|)
    ensures Singly(a, entries) == a.(volume := AdjustedVolume(a.volume, SumOf(entries)), muted := false)
    ensures Signum(SumOf(entries)) == Signum(entries[0].command.delta)
  {
    var n := |entries| - 1;
    if n == 0 {
      assert entries[..0] == [];
    } else {
      AlikeSinglyIsSum(a, entries[..n]);
      StepsMerge(a.volume, SumOf(entries[..n]), entries[n].command.delta);
    }
  }

  /** A batch has the effect of its entries one by one. */
  lemma {:induction false} BatchIsSingly(a: Audio, entries: seq<Entry>, command: Command)
    requires InRange(a) && entries != []
    requires if entries[0].command.Adjust?
      then Alike(entries, |entries|) && command == Adjust(Clamp(SumOf(entries), I16_MIN, I16_MAX))
      else |entries| == 1 && command == entries[0].command
    ensures Execute(a, command).0 == Singly(a, entries)
  {
    if entries[0].command.Adjust? {
      AlikeSinglyIsSum(a, entries);
      SaturationIsHarmless(a.volume, SumOf(entries));
    } else {
      assert entries[..0] == [];
    }
  }

  lemma {:induction false} SinglySplits(a: Audio, left: seq<Entry>, right: seq<Entry>)
    ensures Singly(a, left + right) == Singly(Singly(a, left), right)
    decreases |right|
  {
    if right == [] {
      assert left + right == left;
    } else {
      var n := |right| - 1;
      assert (left + right)[..|left| + n] == left + right[..n];
      SinglySplits(a, left, right[..n]);
    }
  }

  lemma {:induction false} SinglyInRange(a: Audio, entries: seq<Entry>)
    requires InRange(a)
    ensures InRange(Singly(a, entries))
  {
    if entries != [] {
      SinglyInRange(a, entries[..|entries| - 1]);
    }
  }

  // ---------------------------------------------------------------- replies

  /** Adjustments in the same direction. */
  predicate Like(a: Entry, b: Entry) {
    a.command.Adjust? && b.command.Adjust? && Signum(a.command.delta) == Signum(b.command.delta)
  }

  /** The first entry from `e` on that is not like entry `q`, or the end of the queue. */
  function RunTo(queue: seq<Entry>, q: nat, e: nat): (end: nat)
    requires q < |queue| && e <= |queue|
    ensures e <= end <= |queue|
    decreases |queue| - e
  {
    if e < |queue| && Like(queue[q], queue[e]) then RunTo(queue, q, e + 1) else e
  }

  /** How each transaction ends: `Some(left)` failed and left the device like that. A transaction is known
      by the position after its last entry. */
  type Fates = nat -> Option<Audio>

  /** A run of like commands ends before position `n`. */
  predicate RunEnds(queue: seq<Entry>, n: nat)
    requires 0 < n <= |queue|
  {
    n == |queue| || !Like(queue[n - 1], queue[n])
  }

  /** The device after the first `n` commands, one at a time, except where a run's transaction failed. */
  function DeviceAfter(start: Audio, queue: seq<Entry>, fates: Fates, n: nat): Audio
    requires n <= |queue|
  {
    if n == 0 then start
    else if RunEnds(queue, n) && fates(n).Some? then fates(n).value
    else Execute(DeviceAfter(start, queue, fates, n - 1), queue[n - 1].command).0
  }

  /** What the sender of entry `q` is told: the device after the run of like commands it is in, or an error. */
  function ReplyTo(start: Audio, queue: seq<Entry>, fates: Fates, q: nat): Option<Audio>
    requires q < |queue|
  {
    var end := RunTo(queue, q, q + 1);
    var after := DeviceAfter(start, queue, fates, end);
    if fates(end).Some? || (queue[q].command.SetInputMuted? && after.input.None?) then None else Some(after)
  }

  function AllReplies(start: Audio, queue: seq<Entry>, fates: Fates): (results: seq<Option<Audio>>)
    ensures |results| == |queue|
  {
    seq(|queue|, q requires 0 <= q < |queue| => ReplyTo(start, queue, fates, q))
  }

  /** The answers to the first `n` entries: one for each that waits, in queue order. */
  function Told(queue: seq<Entry>, results: seq<Option<Audio>>, n: nat): seq<Answer>
    requires n <= |queue| == |results|
  {
    if n == 0 then [] else Told(queue, results, n - 1) + Reply(queue[n - 1], results[n - 1])
  }

  function Replies(start: Audio, queue: seq<Entry>, fates: Fates, n: nat): seq<Answer>
    requires n <= |queue|
  {
    Told(queue, AllReplies(start, queue, fates), n)
  }

  function Reply(entry: Entry, result: Option<Audio>): seq<Answer> {
    if entry.reply.Some? then [Answer(entry.reply.value, result)] else []
  }

  /** The same result for every entry of a batch. */
  function Shared(entries: seq<Entry>, result: Option<Audio>): seq<Answer> {
    if entries == [] then []
    else Shared(entries[..|entries| - 1], result) + Reply(entries[|entries| - 1], result)
  }

  method Publish(entries: seq<Entry>, result: Option<Audio>) returns (answers: seq<Answer>)
    ensures answers == Shared(entries, result)
  {
    answers := [];
    var i := 0;
    while i < |entries|
      invariant i <= |entries|
      invariant answers == Shared(entries[..i], result)
    {
      assert entries[..i + 1][..i] == entries[..i];
      if entries[i].reply.Some? {
        answers := answers + [Answer(entries[i].reply.value, result)];
      }
      i := i + 1;
    }
    assert entries[..i] == entries;
  }

  lemma {:induction false} RunReaches(queue: seq<Entry>, q: nat, e: nat, end: nat)
    requires q < |queue| && e <= end <= |queue|
    requires forall k :: e <= k < end ==> Like(queue[q], queue[k])
    requires end < |queue| ==> !Like(queue[q], queue[end])
    ensures RunTo(queue, q, e) == end
    decreases end - e
  {
    if e < end {
      RunReaches(queue, q, e + 1, end);
    }
  }

  /** `command` is what entries `taken` to `end` of the queue become together. */
  ghost predicate Batched(queue: seq<Entry>, taken: nat, end: nat, command: Command) {
    && taken < end <= |queue|
    && (if queue[taken].command.Adjust?
        then && (forall k :: taken <= k < end ==> Like(queue[taken], queue[k]))
             && (end < |queue| ==> !Like(queue[taken], queue[end]))
             && command == Adjust(Clamp(SumOf(queue[taken..end]), I16_MIN, I16_MAX))
        else end == taken + 1 && command == queue[taken].command)
  }

  lemma {:induction false} BatchAlike(queue: seq<Entry>, taken: nat, end: nat, command: Command)
    requires Batched(queue, taken, end, command) && queue[taken].command.Adjust?
    ensures var batch := queue[taken..end];
      Alike(batch, |batch|) && command == Adjust(Clamp(SumOf(batch), I16_MIN, I16_MAX))
  {
    var batch := queue[taken..end];
    forall k | 0 <= k < |batch|
      ensures batch[k].command.Adjust? && Signum(batch[k].command.delta) == Signum(batch[0].command.delta)
    {
      assert Like(queue[taken], queue[taken + k]);
    }
  }

  /** Inside a run the device moves one command at a time. */
  lemma {:induction false} DeviceInRun(start: Audio, queue: seq<Entry>, fates: Fates, taken: nat, n: nat)
    requires taken <= n <= |queue|
    requires forall k :: taken < k <= n ==> !RunEnds(queue, k) || fates(k).None?
    ensures DeviceAfter(start, queue, fates, n) == Singly(DeviceAfter(start, queue, fates, taken), queue[taken..n])
    decreases n - taken
  {
    if taken < n {
      DeviceInRun(start, queue, fates, taken, n - 1);
      assert queue[taken..n][..n - 1 - taken] == queue[taken..n - 1];
    }
  }

  lemma {:induction false} OnlyLastEnds(queue: seq<Entry>, taken: nat, end: nat, command: Command)
    requires Batched(queue, taken, end, command)
    ensures RunEnds(queue, end) && forall k :: taken < k < end ==> !RunEnds(queue, k)
  {
    forall k | taken < k < end ensures Like(queue[k - 1], queue[k]) {
      assert Like(queue[taken], queue[k - 1]) && Like(queue[taken], queue[k]);
    }
    if end < |queue| && queue[taken].command.Adjust? {
      assert Like(queue[taken], queue[end - 1]);
    }
  }

  /** The device before `taken`, moved by the batch or left by its failure, is the device after it. */
  lemma {:induction false} BatchMoves(
    start: Audio, queue: seq<Entry>, fates: Fates, taken: nat, end: nat, command: Command)
    requires Batched(queue, taken, end, command) && InRange(DeviceAfter(start, queue, fates, taken))
    ensures fates(end).Some? ==> DeviceAfter(start, queue, fates, end) == fates(end).value
    ensures fates(end).None? ==>
      && DeviceAfter(start, queue, fates, end) == Execute(DeviceAfter(start, queue, fates, taken), command).0
      && InRange(DeviceAfter(start, queue, fates, end))
  {
    OnlyLastEnds(queue, taken, end, command);
    if fates(end).None? {
      var audio, batch := DeviceAfter(start, queue, fates, taken), queue[taken..end];
      DeviceInRun(start, queue, fates, taken, end);
      if queue[taken].command.Adjust? {
        BatchAlike(queue, taken, end, command);
      }
      BatchIsSingly(audio, batch, command);
      SinglyInRange(audio, batch);
    }
  }

  /** The result of a batch: an error if its transaction fails, else what was read back. */
  function ResultOf(audio: Audio, command: Command, fate: Option<Audio>): Option<Audio> {
    if fate.Some? then None else Execute(audio, command).1
  }

  /** Every entry of a batch is owed the batch's own result. */
  lemma {:induction false} BatchAnswers(
    start: Audio, queue: seq<Entry>, fates: Fates, taken: nat, end: nat, command: Command, q: nat)
    requires Batched(queue, taken, end, command) && InRange(DeviceAfter(start, queue, fates, taken))
    requires taken <= q < end
    ensures ReplyTo(start, queue, fates, q)
         == ResultOf(DeviceAfter(start, queue, fates, taken), command, fates(end))
  {
    BatchMoves(start, queue, fates, taken, end, command);
    if queue[taken].command.Adjust? {
      assert Like(queue[taken], queue[q]);
      RunReaches(queue, q, q + 1, end);
    }
  }

  lemma {:induction false} SharedTold(
    queue: seq<Entry>, results: seq<Option<Audio>>, taken: nat, end: nat, result: Option<Audio>)
    requires taken <= end <= |queue| == |results|
    requires forall q :: taken <= q < end ==> results[q] == result
    ensures Told(queue, results, end) == Told(queue, results, taken) + Shared(queue[taken..end], result)
    decreases end - taken
  {
    if taken < end {
      SharedTold(queue, results, taken, end - 1, result);
      SharedNext(queue, taken, end, result);
      JoinAnswers(Told(queue, results, taken), Shared(queue[taken..end - 1], result), Reply(queue[end - 1], result));
    }
  }

  lemma {:induction false} SharedNext(queue: seq<Entry>, taken: nat, end: nat, result: Option<Audio>)
    requires taken < end <= |queue|
    ensures Shared(queue[taken..end], result) == Shared(queue[taken..end - 1], result) + Reply(queue[end - 1], result)
  {
    assert queue[taken..end][..end - 1 - taken] == queue[taken..end - 1];
  }

  lemma {:induction false} JoinAnswers(a: seq<Answer>, b: seq<Answer>, c: seq<Answer>)
    ensures a + b + c == a + (b + c)
  {}

  /** What one pass of the loop does, over the whole queue. */
  lemma {:induction false} BatchTaken(
    start: Audio, queue: seq<Entry>, fates: Fates, taken: nat, end: nat, command: Command)
    requires Batched(queue, taken, end, command) && InRange(DeviceAfter(start, queue, fates, taken))
    ensures Replies(start, queue, fates, end)
         == Replies(start, queue, fates, taken)
            + Shared(queue[taken..end], ResultOf(DeviceAfter(start, queue, fates, taken), command, fates(end)))
  {
    var result := ResultOf(DeviceAfter(start, queue, fates, taken), command, fates(end));
    var results := AllReplies(start, queue, fates);
    forall q | taken <= q < end ensures results[q] == result {
      BatchAnswers(start, queue, fates, taken, end, command, q);
    }
    SharedTold(queue, results, taken, end, result);
  }

  /** The leading batch of the rest of a queue, in terms of the whole queue. */
  lemma {:induction false} BatchedFrom(queue: seq<Entry>, taken: nat, count: nat, command: Command)
    requires taken < |queue| && 1 <= count <= |queue| - taken
    requires var rest := queue[taken..];
      if rest[0].command.Adjust?
      then && Alike(rest, count) && (count < |rest| ==> !Alike(rest, count + 1))
           && command == Adjust(Clamp(SumOf(rest[..count]), I16_MIN, I16_MAX))
      else count == 1 && command == rest[0].command
    ensures Batched(queue, taken, taken + count, command)
  {
    var rest := queue[taken..];
    assert rest[..count] == queue[taken..taken + count];
    forall k | taken <= k < taken + count && queue[taken].command.Adjust?
      ensures Like(queue[taken], queue[k])
    {
      assert queue[k] == rest[k - taken];
    }
  }

  method TakeBatch(queue: seq<Entry>, taken: nat) returns (end: nat, command: Command)
    requires taken < |queue|
    ensures Batched(queue, taken, end, command)
  {
    var count;
    count, command := Batch(queue[taken..]);
    BatchedFrom(queue, taken, count, command);
    end := taken + count;
  }

  /** The device is as if each command had run alone, up to what failures left, and every waiting entry was
      answered once, in queue order, with the device after its own run of commands or that run's error. */
  ghost predicate Served(start: Audio, queue: seq<Entry>, fates: Fates, audio: Audio, answers: seq<Answer>) {
    && audio == DeviceAfter(start, queue, fates, |queue|)
    && answers == Replies(start, queue, fates, |queue|)
  }

  /** Drains what is queued. A failed transaction is answered with its error and never replayed. */
  method Drain(start: Audio, queue: seq<Entry>, fates: Fates) returns (audio: Audio, answers: seq<Answer>)
    requires InRange(start) && forall n :: fates(n).Some? ==> InRange(fates(n).value)
    ensures Served(start, queue, fates, audio, answers)
  {
    audio, answers := start, [];
    var taken := 0;
    while taken < |queue|
      invariant taken <= |queue|
      invariant audio == DeviceAfter(start, queue, fates, taken) && InRange(audio)
      invariant answers == Replies(start, queue, fates, taken)
    {
      var end, command := TakeBatch(queue, taken);
      BatchMoves(start, queue, fates, taken, end, command);
      BatchTaken(start, queue, fates, taken, end, command);
      var sent := Publish(queue[taken..end], ResultOf(audio, command, fates(end)));
      audio := if fates(end).Some? then fates(end).value else Execute(audio, command).0;
      answers := answers + sent;
      taken := end;
    }
  }

  /** Without failures the device ends as if each command had run alone. */
  lemma {:induction false} NoFailureIsSingly(start: Audio, queue: seq<Entry>, fates: Fates)
    requires forall n :: fates(n).None?
    ensures DeviceAfter(start, queue, fates, |queue|) == Singly(start, queue)
  {
    DeviceInRun(start, queue, fates, 0, |queue|);
    assert queue[0..|queue|] == queue;
  }

  function Waiting(entries: seq<Entry>): nat {
    if entries == [] then 0
    else Waiting(entries[..|entries| - 1]) + (if entries[|entries| - 1].reply.Some? then 1 else 0)
  }

  /** As many answers as entries that wait. */
  lemma {:induction false} OneReplyEach(queue: seq<Entry>, results: seq<Option<Audio>>, n: nat)
    requires n <= |queue| == |results|
    ensures |Told(queue, results, n)| == Waiting(queue[..n])
  {
    if n > 0 {
      OneReplyEach(queue, results, n - 1);
      assert queue[..n][..n - 1] == queue[..n - 1];
    }
  }

  /** Without the sign test the order of clamping would be lost: up and down again at full volume. */
  lemma {:induction false} MixedSignsDoNotMerge(d: int)
    requires 0 < d <= 100
    ensures AdjustedVolume(AdjustedVolume(1.0, d), -d) != AdjustedVolume(1.0, d + -d)
  {}
}
