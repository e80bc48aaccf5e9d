/**
 The wake-up protocol of the Legal pipeline: compare offsets, run the two stages, acknowledge what was
 seen at wake-up. Runs may fail and be retried at any task, and acknowledgements may be repeated.

 A stage runs a query that ends without an error only after it has processed everything that was
 available when it started; before that it may make any amount of progress and fail.
 */
module LegalSensor {
  import opened Collections

  datatype Watermarks = Watermarks(low: nat, high: nat)

  type Offsets = map<nat, nat>

  /** Where the group would read next: its committed offset, or the oldest retained message. */
  function StartOf(committed: Offsets, marks: map<nat, Watermarks>, p: nat): nat
    requires p in marks
  {
    if p in committed then committed[p] else marks[p].low
  }

  predicate IsPending(committed: Offsets, marks: map<nat, Watermarks>) {
    exists p :: p in marks && marks[p].high > StartOf(committed, marks, p)
  }

  function Highs(marks: map<nat, Watermarks>): Offsets {
    map p | p in marks :: marks[p].high
  }

  /** `pending_offsets`: the exclusive end offset of every partition, or None if nothing is new. An offset
      that was never committed is reported as a negative number. */
  method PendingOffsets(partitions: seq<nat>, committed: map<nat, int>, marks: map<nat, Watermarks>)
    returns (event: Option<Offsets>)
    requires Elements(partitions) == marks.Keys == committed.Keys
    ensures
      var known := map p | p in committed && committed[p] >= 0 :: committed[p] as nat;
      && (event.Some? <==> IsPending(known, marks))
      && (event.Some? ==> event.value == Highs(marks))
    // Something is new exactly if some partition holds a message beyond its start; the event says how far.
    ensures event.Some? <==>
              exists p :: p in marks && marks[p].high > if committed[p] < 0 then marks[p].low else committed[p]
    ensures event.Some? ==>
              event.value.Keys == marks.Keys && forall p :: p in marks ==> event.value[p] == marks[p].high
  {
    var ends: Offsets := map[];
    var pending := false;
    for i := 0 to |partitions|
      invariant ends.Keys == Elements(partitions[..i])
      invariant forall p :: p in ends ==> p in marks && ends[p] == marks[p].high
      invariant pending <==> exists p :: p in Elements(partitions[..i]) && p in marks && p in committed
                              && marks[p].high > (if committed[p] >= 0 then committed[p] else marks[p].low)
    {
      var p := partitions[i];
      assert p in Elements(partitions);
      assert Elements(partitions[..i + 1]) == Elements(partitions[..i]) + {p};
      ends := ends[p := marks[p].high];
      var start := if committed[p] >= 0 then committed[p] else marks[p].low;
      pending := pending || marks[p].high > start;
    }
    assert partitions[..|partitions|] == partitions;
    ghost var known := map p | p in committed && committed[p] >= 0 :: committed[p] as nat;
    assert forall p :: p in marks ==>
           StartOf(known, marks, p) == if committed[p] >= 0 then committed[p] else marks[p].low;
    if pending {
      return Some(ends);
    }
    return None;
  }

  /******* Runs of the DAG *******/

  /** A run begins as a probe of the sensor, which reads one thing at a time. */
  datatype Run =
    | Listed(begun: Offsets)  // the partitions are known; their ends at that moment, for reference
    | Probing(begun: Offsets, known: Offsets, ends: Offsets, pending: bool)
    | Woken(event: Offsets)
    | BronzeRunning(event: Offsets, target: Offsets)
    | BronzeDone(event: Offsets)
    | SilverRunning(event: Offsets, target: Offsets)
    | SilverDone(event: Offsets)

  datatype State = State(
    marks: map<nat, Watermarks>,
    bronze: Offsets,    // processed into Bronze
    silver: Offsets,    // processed into Silver
    committed: Offsets, // the sensor's own group
    runs: map<nat, Run>)

  datatype Step =
    | AddPartition(p: nat)
    | Produce(p: nat)
    | Expire(p: nat, low: nat)
    | BronzeProgress(ends: Offsets)
    | SilverProgress(ends: Offsets)
    | ListPartitions(id: nat)
    | ReadCommitted(id: nat)
    | ReadMarks(id: nat, p: nat)
    | Wake(id: nat)       // every partition is read, and something is pending
    | Sleep(id: nat)      // every partition is read, and nothing is; the next probe is another run
    | StartBronze(id: nat)
    | EndBronze(id: nat)
    | StartSilver(id: nat)
    | EndSilver(id: nat)
    | Fail(id: nat)       // the running task fails and will be retried
    | Drop(id: nat)       // the run fails for good
    | Acknowledge(id: nat)

  predicate AtMost(a: Offsets, b: Offsets) {
    forall p :: p in a ==> p in b && a[p] <= b[p]
  }

  /** A probe that has read the watermarks of every partition it listed. */
  predicate IsRead(r: Run) {
    r.Probing? && r.ends.Keys == r.begun.Keys
  }

  predicate Enabled(s: State, step: Step) {
    match step
    case AddPartition(p) => p !in s.marks
    case Produce(p) => p in s.marks
    case Expire(p, low) => p in s.marks && s.marks[p].low <= low <= s.marks[p].high
    case BronzeProgress(ends) => AtMost(s.bronze, ends) && AtMost(ends, Highs(s.marks))
    case SilverProgress(ends) => AtMost(s.silver, ends) && AtMost(ends, s.bronze)
    case ListPartitions(id) => id !in s.runs
    case ReadCommitted(id) => id in s.runs && s.runs[id].Listed?
    case ReadMarks(id, p) =>
      id in s.runs && s.runs[id].Probing? && p in s.runs[id].begun && p !in s.runs[id].ends && p in s.marks
    case Wake(id) => id in s.runs && IsRead(s.runs[id]) && s.runs[id].pending
    case Sleep(id) => id in s.runs && IsRead(s.runs[id]) && !s.runs[id].pending
    case StartBronze(id) => id in s.runs && s.runs[id].Woken?
    case EndBronze(id) => id in s.runs && s.runs[id].BronzeRunning? && AtMost(s.runs[id].target, s.bronze)
    case StartSilver(id) => id in s.runs && s.runs[id].BronzeDone?
    case EndSilver(id) => id in s.runs && s.runs[id].SilverRunning? && AtMost(s.runs[id].target, s.silver)
    case Fail(id) => id in s.runs
    case Drop(id) => id in s.runs
    case Acknowledge(id) => id in s.runs && s.runs[id].SilverDone?
  }

  function Retry(r: Run): Run {
    match r
    case BronzeRunning(event, _) => Woken(event)
    case SilverRunning(event, _) => BronzeDone(event)
    case _ => r
  }

  /** The body of the partition loop. */
  function WithMarks(r: Run, p: nat, marks: Watermarks): Run
    requires r.Probing?
  {
    var start := if p in r.known then r.known[p] else marks.low;
    r.(ends := r.ends[p := marks.high], pending := r.pending || marks.high > start)
  }

  function SetRun(s: State, id: nat, r: Run): State {
    s.(runs := s.runs[id := r])
  }

  function Next(s: State, step: Step): State
    requires Enabled(s, step)
  {
    match step
    case AddPartition(p) =>
      s.(marks := s.marks[p := Watermarks(0, 0)], bronze := s.bronze[p := 0], silver := s.silver[p := 0])
    case Produce(p) => s.(marks := s.marks[p := s.marks[p].(high := s.marks[p].high + 1)])
    case Expire(p, low) => s.(marks := s.marks[p := s.marks[p].(low := low)])
    case BronzeProgress(ends) => s.(bronze := ends)
    case SilverProgress(ends) => s.(silver := ends)
    case ListPartitions(id) => SetRun(s, id, Listed(Highs(s.marks)))
    case ReadCommitted(id) => SetRun(s, id, Probing(s.runs[id].begun, s.committed, map[], false))
    case ReadMarks(id, p) => SetRun(s, id, WithMarks(s.runs[id], p, s.marks[p]))
    case Wake(id) => SetRun(s, id, Woken(s.runs[id].ends))
    case Sleep(id) => s.(runs := s.runs - {id})
    case StartBronze(id) => SetRun(s, id, BronzeRunning(s.runs[id].event, Highs(s.marks)))
    case EndBronze(id) => SetRun(s, id, BronzeDone(s.runs[id].event))
    case StartSilver(id) => SetRun(s, id, SilverRunning(s.runs[id].event, s.bronze))
    case EndSilver(id) => SetRun(s, id, SilverDone(s.runs[id].event))
    case Fail(id) => SetRun(s, id, Retry(s.runs[id]))
    case Drop(id) => s.(runs := s.runs - {id})
    case Acknowledge(id) => s.(committed := s.committed + s.runs[id].event)
  }

  const INITIAL: State := State(map[], map[], map[], map[], map[])

  function Execute(steps: seq<Step>): State {
    if steps == [] then INITIAL else
      var s := Execute(steps[..|steps| - 1]);
      if Enabled(s, steps[|steps| - 1]) then Next(s, steps[|steps| - 1]) else s
  }

  /** What a probe has found so far: the ends have not moved back, and as long as nothing is pending every
      end is at or below what Silver, or retention, has done away with. */
  ghost predicate ProbeIsSound(s: State, r: Run)
    requires r.Probing?
  {
    && AtMost(r.begun, Highs(s.marks)) && AtMost(r.ends, Highs(s.marks)) && AtMost(r.known, s.silver)
    && (forall p :: p in r.ends ==> p in r.begun && r.begun[p] <= r.ends[p])
    && (!r.pending ==> forall p :: p in r.ends ==>
          r.ends[p] <= if p in r.known then r.known[p] else s.marks[p].low)
  }

  ghost predicate RunIsSound(s: State, r: Run) {
    match r
    case Listed(begun) => AtMost(begun, Highs(s.marks))
    case Probing(_, _, _, _) => ProbeIsSound(s, r)
    case Woken(event) => AtMost(event, Highs(s.marks))
    case BronzeRunning(event, target) => AtMost(event, Highs(s.marks)) && AtMost(event, target)
    case BronzeDone(event) => AtMost(event, s.bronze)
    case SilverRunning(event, target) => AtMost(event, target) && AtMost(event, s.bronze)
    case SilverDone(event) => AtMost(event, s.silver)
  }

  /** The sensor never acknowledges what Silver has not got. */
  ghost predicate OffsetsAreSound(s: State) {
    && s.bronze.Keys == s.silver.Keys == s.marks.Keys
    && AtMost(s.bronze, Highs(s.marks)) && AtMost(s.silver, s.bronze)
    && AtMost(s.committed, s.silver)
  }

  ghost predicate RunsAreSound(s: State) {
    forall id :: id in s.runs ==> RunIsSound(s, s.runs[id])
  }

  ghost predicate Inv(s: State) {
    OffsetsAreSound(s) && RunsAreSound(s)
  }

  lemma AtMostIsTransitive(a: Offsets, b: Offsets, c: Offsets)
    requires AtMost(a, b) && AtMost(b, c)
    ensures AtMost(a, c)
  {
  }

  /** Offsets and watermarks only move forward. */
  predicate Advances(s: State, s': State) {
    && AtMost(Highs(s.marks), Highs(s'.marks)) && AtMost(s.bronze, s'.bronze) && AtMost(s.silver, s'.silver)
    && forall p :: p in s.marks ==> p in s'.marks && s.marks[p].low <= s'.marks[p].low
  }

  lemma ProgressKeepsProbe(s: State, s': State, r: Run)
    requires r.Probing? && ProbeIsSound(s, r) && Advances(s, s')
    ensures ProbeIsSound(s', r)
  {
    AtMostIsTransitive(r.begun, Highs(s.marks), Highs(s'.marks));
    AtMostIsTransitive(r.ends, Highs(s.marks), Highs(s'.marks));
    AtMostIsTransitive(r.known, s.silver, s'.silver);
    assert forall p :: p in r.ends ==> p in Highs(s.marks);
  }

  /** Progress of the topic and of the stages keeps every run sound. */
  lemma ProgressKeepsRuns(s: State, s': State, r: Run)
    requires RunIsSound(s, r) && Advances(s, s')
    ensures RunIsSound(s', r)
  {
    match r
    case Listed(begun) =>
      AtMostIsTransitive(begun, Highs(s.marks), Highs(s'.marks));
    case Probing(_, _, _, _) =>
      ProgressKeepsProbe(s, s', r);
    case Woken(event) =>
      AtMostIsTransitive(event, Highs(s.marks), Highs(s'.marks));
    case BronzeRunning(event, _) =>
      AtMostIsTransitive(event, Highs(s.marks), Highs(s'.marks));
    case BronzeDone(event) =>
      AtMostIsTransitive(event, s.bronze, s'.bronze);
    case SilverRunning(event, _) =>
      AtMostIsTransitive(event, s.bronze, s'.bronze);
    case SilverDone(event) =>
      AtMostIsTransitive(event, s.silver, s'.silver);
  }

  lemma ReadingKeepsProbe(s: State, id: nat, p: nat)
    requires Inv(s) && Enabled(s, ReadMarks(id, p))
    ensures ProbeIsSound(s, WithMarks(s.runs[id], p, s.marks[p]))
  {
    var r := s.runs[id];
    assert RunIsSound(s, r);
    assert r.begun[p] <= Highs(s.marks)[p];
  }

  /** The run a step moves on is sound where it arrives. */
  lemma RunStepIsSound(s: State, step: Step)
    requires Inv(s) && Enabled(s, step) && IsRunStep(step)
    ensures RunIsSound(s, Next(s, step).runs[step.id])
  {
    if step.ReadMarks? {
      ReadingKeepsProbe(s, step.id, step.p);
    } else if !step.ListPartitions? {
      var r := s.runs[step.id];
      assert RunIsSound(s, r);
      if step.EndBronze? {
        AtMostIsTransitive(r.event, r.target, s.bronze);
      } else if step.StartSilver? {
        AtMostIsTransitive(r.event, s.bronze, s.bronze);
      } else if step.EndSilver? {
        AtMostIsTransitive(r.event, r.target, s.silver);
      } else if step.Fail? && r.SilverRunning? {
        assert AtMost(r.event, s.bronze);
      }
    }
  }

  /** Steps that only move one run on. */
  predicate IsRunStep(step: Step) {
    || step.ListPartitions? || step.ReadCommitted? || step.ReadMarks? || step.Wake?
    || step.StartBronze? || step.EndBronze? || step.StartSilver? || step.EndSilver? || step.Fail?
  }

  lemma NextAdvances(s: State, step: Step)
    requires OffsetsAreSound(s) && Enabled(s, step)
    ensures Advances(s, Next(s, step))
  {
    var s' := Next(s, step);
    assert forall p :: p in s.marks ==> p in s'.marks && s.marks[p].high <= s'.marks[p].high;
  }

  predicate SameOffsets(s: State, s': State) {
    s'.marks == s.marks && s'.bronze == s.bronze && s'.silver == s.silver && s'.committed == s.committed
  }

  lemma RunStepChangesRuns(s: State, step: Step)
    requires Enabled(s, step) && (IsRunStep(step) || step.Sleep? || step.Drop?)
    ensures SameOffsets(s, Next(s, step))
  {
  }

  lemma RunStepKeepsOffsets(s: State, step: Step)
    requires OffsetsAreSound(s) && Enabled(s, step) && (IsRunStep(step) || step.Sleep? || step.Drop?)
    ensures OffsetsAreSound(Next(s, step))
  {
    RunStepChangesRuns(s, step);
  }

  lemma TopicStepKeepsOffsets(s: State, step: Step)
    requires OffsetsAreSound(s) && Enabled(s, step) && (step.AddPartition? || step.Produce? || step.Expire?)
    ensures OffsetsAreSound(Next(s, step))
  {
    var s' := Next(s, step);
    assert s'.bronze.Keys == s'.silver.Keys == s'.marks.Keys;
    assert forall p :: p in s.bronze ==> s.bronze[p] <= Highs(s.marks)[p];
  }

  lemma StageStepKeepsOffsets(s: State, step: Step)
    requires OffsetsAreSound(s) && Enabled(s, step) && (step.BronzeProgress? || step.SilverProgress?)
    ensures OffsetsAreSound(Next(s, step))
  {
    if step.BronzeProgress? {
      assert forall p :: p in s.bronze ==> p in step.ends;
      assert forall p :: p in step.ends ==> p in Highs(s.marks);
      AtMostIsTransitive(s.silver, s.bronze, step.ends);
    } else {
      assert forall p :: p in s.silver ==> p in step.ends;
      AtMostIsTransitive(s.committed, s.silver, step.ends);
    }
  }

  lemma AcknowledgeKeepsOffsets(s: State, id: nat)
    requires Inv(s) && Enabled(s, Acknowledge(id))
    ensures OffsetsAreSound(Next(s, Acknowledge(id)))
  {
    assert RunIsSound(s, s.runs[id]);
  }

  lemma NextKeepsOffsets(s: State, step: Step)
    requires Inv(s) && Enabled(s, step)
    ensures OffsetsAreSound(Next(s, step))
  {
    if step.Acknowledge? {
      AcknowledgeKeepsOffsets(s, step.id);
    } else if step.BronzeProgress? || step.SilverProgress? {
      StageStepKeepsOffsets(s, step);
    } else if step.AddPartition? || step.Produce? || step.Expire? {
      TopicStepKeepsOffsets(s, step);
    } else {
      RunStepKeepsOffsets(s, step);
    }
  }

  lemma NextKeepsInv(s: State, step: Step)
    requires Inv(s) && Enabled(s, step)
    ensures Inv(Next(s, step))
  {
    var s' := Next(s, step);
    NextAdvances(s, step);
    NextKeepsOffsets(s, step);
    forall id | id in s'.runs ensures RunIsSound(s', s'.runs[id]) {
      if id in s.runs && s'.runs[id] == s.runs[id] {
        ProgressKeepsRuns(s, s', s.runs[id]);
      } else {
        RunStepIsSound(s, step);
        ProgressKeepsRuns(s, s', s'.runs[id]);
      }
    }
  }

  lemma {:induction false} RunKeepsInv(steps: seq<Step>)
    ensures Inv(Execute(steps))
    decreases |steps|
  {
    if steps != [] {
      RunKeepsInv(steps[..|steps| - 1]);
      var s := Execute(steps[..|steps| - 1]);
      if Enabled(s, steps[|steps| - 1]) {
        NextKeepsInv(s, steps[|steps| - 1]);
      }
    }
  }

  /** No wake-up is lost: as long as some retained message has not gone through both stages, the offsets
      say so, whatever runs failed, were retried or repeated an old acknowledgement. */
  lemma UnprocessedMessagesWakeTheSensor(steps: seq<Step>, p: nat, offset: nat)
    requires
      var s := Execute(steps);
      p in s.marks && s.marks[p].low <= offset < s.marks[p].high && (p in s.silver ==> s.silver[p] <= offset)
    ensures
      var s := Execute(steps);
      && IsPending(s.committed, s.marks)
      && p in Highs(s.marks) && Highs(s.marks)[p] > offset
  {
    RunKeepsInv(steps);
    var s := Execute(steps);
    assert IsBehind(s, p);
  }

  predicate IsBehind(s: State, p: nat) {
    p in s.marks && s.marks[p].high > StartOf(s.committed, s.marks, p)
  }

  /** What is acknowledged has been processed by both stages. */
  lemma AcknowledgedIsProcessed(steps: seq<Step>, p: nat)
    ensures
      var s := Execute(steps);
      p in s.committed ==> p in s.silver && p in s.bronze && s.committed[p] <= s.silver[p] <= s.bronze[p]
  {
    RunKeepsInv(steps);
  }

  /** And the sensor does become quiet: right after a run acknowledges the current ends, nothing is pending. */
  lemma AcknowledgingTheEndsIsQuiet(s: State, id: nat)
    requires Enabled(s, Acknowledge(id)) && s.runs[id].event == Highs(s.marks)
    ensures !IsPending(Next(s, Acknowledge(id)).committed, Next(s, Acknowledge(id)).marks)
  {
    var s' := Next(s, Acknowledge(id));
    forall p | p in s'.marks ensures s'.marks[p].high <= StartOf(s'.committed, s'.marks, p) {
      assert p in Highs(s.marks);
    }
  }

  /** And the sensor sees it, although it reads the group and the partitions one after the other while
      everything goes on: a message that was there when the probe began, and is still retained and not
      through both stages when the last partition is read, wakes the sensor with an end beyond it. */
  lemma ProbesSeeUnprocessedMessages(steps: seq<Step>, id: nat, p: nat, offset: nat)
    requires
      var s := Execute(steps);
      && id in s.runs && IsRead(s.runs[id]) && p in s.runs[id].begun && offset < s.runs[id].begun[p]
      && p in s.marks && s.marks[p].low <= offset && (p in s.silver ==> s.silver[p] <= offset)
    ensures
      var s := Execute(steps);
      Enabled(s, Wake(id)) && p in Next(s, Wake(id)).runs[id].event && Next(s, Wake(id)).runs[id].event[p] > offset
  {
    RunKeepsInv(steps);
    var s := Execute(steps);
    assert RunIsSound(s, s.runs[id]);
    assert p in s.runs[id].ends;
  }

  predicate NeverDropped(steps: seq<Step>, id: nat) {
    forall k :: 0 <= k < |steps| ==> steps[k] != Drop(id)
  }

  function ExecuteFrom(s: State, steps: seq<Step>): State {
    if steps == [] then s else
      var s' := ExecuteFrom(s, steps[..|steps| - 1]);
      if Enabled(s', steps[|steps| - 1]) then Next(s', steps[|steps| - 1]) else s'
  }

  predicate CarriesEvent(s: State, id: nat, event: Offsets) {
    id in s.runs && !s.runs[id].Listed? && !s.runs[id].Probing? && s.runs[id].event == event
  }

  lemma {:induction false} EventIsKept(s: State, later: seq<Step>, id: nat, event: Offsets)
    requires CarriesEvent(s, id, event) && NeverDropped(later, id)
    ensures CarriesEvent(ExecuteFrom(s, later), id, event)
    decreases |later|
  {
    if later != [] {
      EventIsKept(s, later[..|later| - 1], id, event);
      assert later[|later| - 1] != Drop(id);
    }
  }

  /** A run acknowledges exactly what its probe has seen. However long it takes and however often its tasks
      fail, once it has acknowledged, the sensor is due again if and only if some partition has gone beyond
      the end the probe read there, or one it did not list has something new. */
  lemma AcknowledgingLeavesTheNewMessages(s: State, later: seq<Step>, id: nat, event: Offsets)
    requires CarriesEvent(s, id, event) && NeverDropped(later, id)
    requires Enabled(ExecuteFrom(s, later), Acknowledge(id))
    ensures
      var s1 := ExecuteFrom(s, later);
      var s2 := Next(s1, Acknowledge(id));
      IsPending(s2.committed, s2.marks) <==>
        exists p :: p in s1.marks
            && s1.marks[p].high > if p in event then event[p] else StartOf(s1.committed, s1.marks, p)
  {
    EventIsKept(s, later, id, event);
    var s1 := ExecuteFrom(s, later);
    var s2 := Next(s1, Acknowledge(id));
    assert s2.committed == s1.committed + event && s2.marks == s1.marks;
    assert forall p :: p in s1.marks ==>
      StartOf(s2.committed, s2.marks, p) == if p in event then event[p] else StartOf(s1.committed, s1.marks, p);
  }

  /** One probe that nothing comes between: the group, then partition after partition. */
  function ProbeSteps(id: nat, partitions: seq<nat>): seq<Step> {
    if partitions == [] then [ListPartitions(id), ReadCommitted(id)] else
      ProbeSteps(id, partitions[..|partitions| - 1]) + [ReadMarks(id, partitions[|partitions| - 1])]
  }

  predicate HasProbed(s: State, s': State, id: nat, partitions: seq<nat>) {
    && id in s'.runs && s' == SetRun(s, id, s'.runs[id]) && s'.runs[id].Probing?
    && s'.runs[id].begun == Highs(s.marks) && s'.runs[id].known == s.committed
    && s'.runs[id].ends.Keys == Elements(partitions)
    && (forall p :: p in partitions ==> p in s.marks && s'.runs[id].ends[p] == s.marks[p].high)
    && (s'.runs[id].pending <==> exists p :: p in partitions && IsBehind(s, p))
  }

  lemma ExecuteSnoc(s: State, steps: seq<Step>, step: Step)
    requires Enabled(ExecuteFrom(s, steps), step)
    ensures ExecuteFrom(s, steps + [step]) == Next(ExecuteFrom(s, steps), step)
  {
    assert (steps + [step])[..|steps|] == steps;
  }

  lemma ProbeBegins(s: State, id: nat)
    requires id !in s.runs
    ensures HasProbed(s, ExecuteFrom(s, ProbeSteps(id, [])), id, [])
  {
    ExecuteSnoc(s, [], ListPartitions(id));
    assert [] + [ListPartitions(id)] == [ListPartitions(id)];
    ExecuteSnoc(s, [ListPartitions(id)], ReadCommitted(id));
    assert [ListPartitions(id)] + [ReadCommitted(id)] == ProbeSteps(id, []);
  }

  lemma OneMoreMark(s: State, s1: State, id: nat, before: seq<nat>, p: nat)
    requires HasProbed(s, s1, id, before) && p in s.marks && p !in before
    ensures Enabled(s1, ReadMarks(id, p)) && HasProbed(s, Next(s1, ReadMarks(id, p)), id, before + [p])
  {
    assert p !in Elements(before);
    var r, r' := s1.runs[id], WithMarks(s1.runs[id], p, s.marks[p]);
    assert r'.ends.Keys == Elements(before + [p]);
    assert r'.pending <==> r.pending || IsBehind(s, p);
    BehindAmong(s, before, p);
  }

  lemma BehindAmong(s: State, before: seq<nat>, p: nat)
    ensures (exists q :: q in before + [p] && IsBehind(s, q)) <==>
            (exists q :: q in before && IsBehind(s, q)) || IsBehind(s, p)
  {
    assert p in before + [p];
    if q :| q in before && IsBehind(s, q) {
      assert q in before + [p];
    }
  }

  lemma {:induction false} ProbeReads(s: State, id: nat, partitions: seq<nat>)
    requires id !in s.runs && Distinct(partitions) && Elements(partitions) <= s.marks.Keys
    ensures HasProbed(s, ExecuteFrom(s, ProbeSteps(id, partitions)), id, partitions)
    decreases |partitions|
  {
    if partitions == [] {
      ProbeBegins(s, id);
    } else {
      var before, p := partitions[..|partitions| - 1], partitions[|partitions| - 1];
      assert partitions == before + [p] && p in Elements(partitions);
      assert Elements(before) <= Elements(partitions);
      ProbeReads(s, id, before);
      OneMoreMark(s, ExecuteFrom(s, ProbeSteps(id, before)), id, before, p);
      ExecuteSnoc(s, ProbeSteps(id, before), ReadMarks(id, p));
    }
  }

  /** Read without a break, in whatever order, the probe comes to what `pending_offsets` returns: it wakes the
      sensor exactly if some partition holds a message beyond its start, and with the ends of all partitions. */
  lemma AProbeIsPendingOffsets(s: State, id: nat, partitions: seq<nat>)
    requires id !in s.runs && Distinct(partitions) && Elements(partitions) == s.marks.Keys
    ensures
      var s' := ExecuteFrom(s, ProbeSteps(id, partitions));
      && (Enabled(s', Wake(id)) <==> IsPending(s.committed, s.marks))
      && (Enabled(s', Sleep(id)) <==> !IsPending(s.committed, s.marks))
      && (Enabled(s', Wake(id)) ==> Next(s', Wake(id)).runs[id] == Woken(Highs(s.marks)))
  {
    ProbeReads(s, id, partitions);
    ProbedIsPending(s, ExecuteFrom(s, ProbeSteps(id, partitions)), id, partitions);
  }

  lemma ProbedIsPending(s: State, s': State, id: nat, partitions: seq<nat>)
    requires Elements(partitions) == s.marks.Keys && HasProbed(s, s', id, partitions)
    ensures IsRead(s'.runs[id]) && s'.runs[id].ends == Highs(s.marks)
    ensures s'.runs[id].pending <==> IsPending(s.committed, s.marks)
  {
    assert forall p :: p in s.marks <==> p in partitions by {
      assert forall p :: p in Elements(partitions) <==> p in partitions;
    }
    BehindIsPending(s);
  }

  lemma BehindIsPending(s: State)
    ensures IsPending(s.committed, s.marks) <==> exists p :: p in s.marks && IsBehind(s, p)
  {
    if p :| p in s.marks && IsBehind(s, p) {
      assert s.marks[p].high > StartOf(s.committed, s.marks, p);
    }
    if IsPending(s.committed, s.marks) {
      var p :| p in s.marks && s.marks[p].high > StartOf(s.committed, s.marks, p);
      assert IsBehind(s, p);
    }
  }
}
