/**
 Concurrent insert-only merges under optimistic concurrency control, and the retry loop around them.

 The Delta log is modelled by its commit rules: a commit lands only if no other commit landed
 after the snapshot it was computed from, and an attempt that raises a conflict has written
 nothing. Any other failure may strike before or after its commit became durable.
 */
module OptimisticMerge {
  import opened Collections
  import opened DeltaTables

  /******* The attempt loop *******/

  datatype Attempt<+T> = Success(value: T) | Error(message: string)

  const CONFLICTS: seq<string> := [
    "ConcurrentAppendException",
    "ConcurrentWriteException",
    "ConcurrentDeleteReadException",
    "ConcurrentDeleteDeleteException",
    "MetadataChangedException",
    "ProtocolChangedException",
    "DELTA_CONCURRENT"
  ]

  predicate Contains(text: string, part: string) {
    exists i :: 0 <= i <= |text| && part <= text[i..]
  }

  predicate IsConflict(message: string) {
    exists name :: name in CONFLICTS && Contains(message, name)
  }

  /** The name of one of the seven conflicts stands somewhere in the message. */
  ghost predicate MentionsConflict(message: string) {
    exists a, name, b ::
      && name in {"ConcurrentAppendException", "ConcurrentWriteException", "ConcurrentDeleteReadException",
                  "ConcurrentDeleteDeleteException", "MetadataChangedException", "ProtocolChangedException",
                  "DELTA_CONCURRENT"}
      && message == a + name + b
  }

  lemma ContainsIffSplits(text: string, part: string)
    ensures Contains(text, part) <==> exists a, b :: text == a + part + b
  {
    if i :| 0 <= i <= |text| && part <= text[i..] {
      assert text == text[..i] + part + text[i + |part|..];
    }
    if a, b :| text == a + part + b {
      assert part <= text[|a|..];
    }
  }

  lemma ConflictsAreMentioned(message: string)
    ensures IsConflict(message) <==> MentionsConflict(message)
  {
    if name :| name in CONFLICTS && Contains(message, name) {
      ContainsIffSplits(message, name);
      var a, b :| message == a + name + b;
    }
    if MentionsConflict(message) {
      var a, name, b :|
        && name in {"ConcurrentAppendException", "ConcurrentWriteException", "ConcurrentDeleteReadException",
                    "ConcurrentDeleteDeleteException", "MetadataChangedException", "ProtocolChangedException",
                    "DELTA_CONCURRENT"}
        && message == a + name + b;
      ContainsIffSplits(message, name);
      assert name in CONFLICTS by {
        assert CONFLICTS[0] in CONFLICTS && CONFLICTS[1] in CONFLICTS && CONFLICTS[2] in CONFLICTS;
        assert CONFLICTS[3] in CONFLICTS && CONFLICTS[4] in CONFLICTS && CONFLICTS[5] in CONFLICTS;
        assert CONFLICTS[6] in CONFLICTS;
      }
    }
  }

  ghost predicate Retriable<T>(a: Attempt<T>) {
    a.Error? && MentionsConflict(a.message)
  }

  function Power2(n: nat): (r: nat)
    ensures r >= 1
  {
    if n == 0 then 1 else 2 * Power2(n - 1)
  }

  function Pause(backoff: real, attempt: nat, jitter: real): real {
    backoff * (Power2(attempt) as real) + jitter
  }

  /** Without its random part the first pause is the backoff of the settings, and each later one twice the
      one before. */
  lemma PausesDouble(backoff: real, jitter: seq<real>, pauses: seq<real>)
    requires |pauses| <= |jitter|
    requires forall k :: 0 <= k < |pauses| ==> pauses[k] == Pause(backoff, k, jitter[k])
    ensures pauses != [] ==> pauses[0] == backoff + jitter[0]
    ensures forall j, k :: 0 <= j && k == j + 1 && k < |pauses| ==>
              pauses[k] - jitter[k] == 2.0 * (pauses[j] - jitter[j])
  {
    forall j, k | 0 <= j && k == j + 1 && k < |pauses|
      ensures pauses[k] - jitter[k] == 2.0 * (pauses[j] - jitter[j])
    {
      assert Power2(k) == 2 * Power2(j);
      assert Power2(k) as real == 2.0 * (Power2(j) as real);
    }
  }

  datatype RetryResult<+T> = Finished(value: T) | Raised(message: string) | FellThrough

  /** The loop of `retry`. Outcomes of the successive operation() calls are given by `calls`, the random
      parts of the pauses by `jitter`. */
  method Retry<T>(mergeAttempts: int, backoff: real, calls: seq<Attempt<T>>, jitter: seq<real>)
    returns (r: RetryResult<T>, made: nat, pauses: seq<real>)
    requires mergeAttempts <= |calls| && mergeAttempts <= |jitter|
    // An attempt count below one is the only way to return without having called at all.
    ensures r.FellThrough? <==> mergeAttempts < 1
    ensures r.FellThrough? ==> made == 0
    // Otherwise the result is that of the last call made, and every call before it was a conflict.
    ensures !r.FellThrough? ==> 1 <= made <= mergeAttempts
    ensures !r.FellThrough? ==> forall k :: 0 <= k < made - 1 ==> Retriable(calls[k])
    ensures r.Finished? ==> calls[made - 1] == Success(r.value)
    ensures r.Raised? ==> calls[made - 1] == Error(r.message)
    ensures r.Raised? && made < mergeAttempts ==> !MentionsConflict(r.message)
    // One pause between two consecutive calls; PausesDouble says how they grow.
    ensures !r.FellThrough? ==> |pauses| == made - 1
    ensures forall k :: 0 <= k < |pauses| && k < |jitter| ==> pauses[k] == Pause(backoff, k, jitter[k])
  {
    made, pauses := 0, [];
    var attempt := 0;
    while attempt < mergeAttempts
      invariant 0 <= made == attempt == |pauses| && (attempt <= mergeAttempts || attempt == 0)
      invariant forall k :: 0 <= k < attempt ==> Retriable(calls[k])
      invariant attempt == mergeAttempts ==> mergeAttempts < 1
      invariant forall k :: 0 <= k < |pauses| && k < |jitter| ==> pauses[k] == Pause(backoff, k, jitter[k])
    {
      made := made + 1;
      match calls[attempt]
      case Success(value) =>
        return Finished(value), made, pauses;
      case Error(message) =>
        ConflictsAreMentioned(message);
        if !IsConflict(message) || attempt + 1 == mergeAttempts {
          return Raised(message), made, pauses;
        }
        pauses := pauses + [Pause(backoff, attempt, jitter[attempt])];
        attempt := attempt + 1;
    }
    r := FellThrough;
  }

  /******* Any number of writers over one log *******/

  datatype Phase =
    | Ready(attempt: nat)                  // about to read the snapshot of this attempt
    | Merging(attempt: nat, version: nat)  // computing against that snapshot
    | Returned                             // retry returned to its caller
    | Failed(attempt: nat, conflict: bool) // retry raised, on a conflict or on another error

  datatype Call<R> = Call(source: seq<R>, phase: Phase)
  datatype Commit<R> = Commit(call: nat, source: seq<R>, inserted: seq<R>)
  datatype State<R> = State(base: seq<R>, log: seq<Commit<R>>, calls: map<nat, Call<R>>)

  datatype Step<R> =
    | Invoke(id: nat, source: seq<R>)
    | ReadSnapshot(id: nat)
    | TryCommit(id: nat)
    | Fault(id: nat, landed: bool)

  function ContentsOf<R>(base: seq<R>, log: seq<Commit<R>>): (r: seq<R>)
    ensures base <= r
  {
    if log == [] then base else ContentsOf(base, log[..|log| - 1]) + log[|log| - 1].inserted
  }

  function Contents<R>(s: State<R>): seq<R> {
    ContentsOf(s.base, s.log)
  }

  /** What insert_once would do to the table if its callers took turns. */
  function Serial<R(==), K(==)>(base: seq<R>, log: seq<Commit<R>>, key: R -> K): seq<R> {
    if log == [] then base
    else InsertOnce(Serial(base, log[..|log| - 1], key), log[|log| - 1].source, key)
  }

  function CommitOf<R(==), K(==)>(s: State<R>, id: nat, version: nat, key: R -> K): Commit<R>
    requires id in s.calls && version <= |s.log|
  {
    var source := s.calls[id].source;
    Commit(id, source, Filter(Unmatched(Keys(ContentsOf(s.base, s.log[..version]), key), key), source))
  }

  predicate Enabled<R>(s: State<R>, step: Step<R>) {
    match step
    case Invoke(id, _) => id !in s.calls
    case ReadSnapshot(id) => id in s.calls && s.calls[id].phase.Ready?
    case TryCommit(id) =>
      id in s.calls && s.calls[id].phase.Merging? && s.calls[id].phase.version <= |s.log|
    case Fault(id, landed) =>
      && id in s.calls
      && (s.calls[id].phase.Ready? || s.calls[id].phase.Merging?)
      && (landed ==> s.calls[id].phase.Merging? && s.calls[id].phase.version == |s.log|)
  }

  function WithPhase<R>(s: State<R>, id: nat, phase: Phase): State<R>
    requires id in s.calls
  {
    s.(calls := s.calls[id := s.calls[id].(phase := phase)])
  }

  function Next<R(==), K(==)>(s: State<R>, step: Step<R>, key: R -> K, mergeAttempts: nat): State<R>
    requires Enabled(s, step)
  {
    match step
    case Invoke(id, source) => s.(calls := s.calls[id := Call(source, Ready(0))])
    case ReadSnapshot(id) => WithPhase(s, id, Merging(s.calls[id].phase.attempt, |s.log|))
    case TryCommit(id) =>
      var Merging(attempt, version) := s.calls[id].phase;
      if version == |s.log| then
        WithPhase(s, id, Returned).(log := s.log + [CommitOf(s, id, version, key)])
      else if attempt + 1 == mergeAttempts then
        WithPhase(s, id, Failed(attempt, true))
      else
        WithPhase(s, id, Ready(attempt + 1))
    case Fault(id, landed) =>
      var s' := WithPhase(s, id, Failed(s.calls[id].phase.attempt, false));
      if landed then s'.(log := s.log + [CommitOf(s, id, |s.log|, key)]) else s'
  }

  function IsCommitOf<R>(id: nat): Commit<R> -> bool {
    (c: Commit<R>) => c.call == id
  }

  /** How often the writes of call `id` reached the table. */
  function Landed<R>(s: State<R>, id: nat): nat {
    |Filter(IsCommitOf(id), s.log)|
  }

  function Initial<R>(base: seq<R>): State<R> {
    State(base, [], map[])
  }

  /** Every list of steps is a run: a step that is not enabled leaves the state as it is. */
  function Execute<R(==), K(==)>(s: State<R>, steps: seq<Step<R>>, key: R -> K, mergeAttempts: nat): State<R> {
    if steps == [] then s else
      var s' := Execute(s, steps[..|steps| - 1], key, mergeAttempts);
      if Enabled(s', steps[|steps| - 1]) then Next(s', steps[|steps| - 1], key, mergeAttempts) else s'
  }

  /** A call between whose snapshot and commit no other one lands succeeds at once, and leaves what a MERGE into
      the table as it was leaves. */
  lemma UndisturbedCallsCommit<R, K>(s: State<R>, id: nat, key: R -> K, mergeAttempts: nat)
    requires id in s.calls && s.calls[id].phase.Ready?
    ensures
      var s' := Execute(s, [ReadSnapshot(id), TryCommit(id)], key, mergeAttempts);
      && id in s'.calls && s'.calls[id].phase == Returned
      && Contents(s') == InsertOnce(Contents(s), s.calls[id].source, key)
  {
    var steps: seq<Step<R>> := [ReadSnapshot(id), TryCommit(id)];
    var first: seq<Step<R>> := [ReadSnapshot(id)];
    assert steps[..1] == first && first[..0] == [];
    assert Enabled(Execute(s, first[..0], key, mergeAttempts), first[0]);
    var s1 := Execute(s, first, key, mergeAttempts);
    assert s1 == Next(s, ReadSnapshot(id), key, mergeAttempts);
    assert s.log[..|s.log|] == s.log;
    var c := CommitOf(s1, id, |s.log|, key);
    assert (s.log + [c])[..|s.log|] == s.log;
  }

  /******* What every step keeps *******/

  ghost predicate LogIsComputed<R, K>(s: State<R>, key: R -> K) {
    forall i :: 0 <= i < |s.log| ==>
      s.log[i].inserted == Filter(Unmatched(Keys(ContentsOf(s.base, s.log[..i]), key), key), s.log[i].source)
  }

  ghost predicate LogIsKnown<R>(s: State<R>) {
    forall i :: 0 <= i < |s.log| ==>
      s.log[i].call in s.calls && s.log[i].source == s.calls[s.log[i].call].source
  }

  predicate Bounded(phase: Phase, version: nat, mergeAttempts: nat) {
    match phase
    case Ready(attempt) => attempt < mergeAttempts
    case Merging(attempt, snapshot) => attempt < mergeAttempts && snapshot <= version
    case Failed(attempt, _) => attempt < mergeAttempts
    case Returned => true
  }

  ghost predicate PhasesAreBounded<R>(s: State<R>, mergeAttempts: nat) {
    forall id :: id in s.calls ==> Bounded(s.calls[id].phase, |s.log|, mergeAttempts)
  }

  /** A call that returned has exactly one commit; one that is still trying, or raised on its last
      conflict, has none; one that raised on another error has at most one. */
  ghost predicate LandedOnce<R>(s: State<R>) {
    forall id :: id in s.calls ==>
      match s.calls[id].phase
      case Returned => Landed(s, id) == 1
      case Failed(_, conflict) => Landed(s, id) <= (if conflict then 0 else 1)
      case _ => Landed(s, id) == 0
  }

  ghost predicate Inv<R, K>(s: State<R>, key: R -> K, mergeAttempts: nat) {
    LogIsComputed(s, key) && LogIsKnown(s) && PhasesAreBounded(s, mergeAttempts) && LandedOnce(s)
  }

  lemma LogGrows<R, K>(s: State<R>, c: Commit<R>, key: R -> K)
    requires LogIsComputed(s, key)
    requires c.inserted == Filter(Unmatched(Keys(Contents(s), key), key), c.source)
    ensures LogIsComputed(s.(log := s.log + [c]), key)
    ensures Contents(s.(log := s.log + [c])) == Contents(s) + c.inserted
  {
    var log' := s.log + [c];
    forall i | 0 <= i < |log'|
      ensures log'[i].inserted == Filter(Unmatched(Keys(ContentsOf(s.base, log'[..i]), key), key), log'[i].source)
    {
      assert log'[..i] == s.log[..i];
      if i == |s.log| {
        assert s.log[..i] == s.log;
      }
    }
    assert log'[..|s.log|] == s.log;
  }

  lemma UnknownCallsHaveNotLanded<R>(s: State<R>, id: nat)
    requires LogIsKnown(s) && id !in s.calls
    ensures Landed(s, id) == 0
  {
    FilterNone(IsCommitOf(id), s.log);
  }

  lemma LandedAfter<R>(s: State<R>, s': State<R>, c: Commit<R>, id: nat)
    requires s'.log == s.log + [c]
    ensures Landed(s', id) == Landed(s, id) + (if c.call == id then 1 else 0)
  {
    FilterSnoc(IsCommitOf(id), s.log, c);
  }

  /** A step either leaves the log alone or appends the commit of the call that took it. */
  lemma NextLog<R, K>(s: State<R>, step: Step<R>, key: R -> K, mergeAttempts: nat)
    requires Enabled(s, step)
    ensures
      var s' := Next(s, step, key, mergeAttempts);
      && s'.base == s.base
      && s'.calls.Keys == s.calls.Keys + {step.id}
      && (forall id :: id in s.calls && id != step.id ==> s'.calls[id] == s.calls[id])
      && (step.id in s.calls ==> s'.calls[step.id].source == s.calls[step.id].source)
      && (s'.log == s.log || (step.id in s.calls && s'.log == s.log + [CommitOf(s, step.id, |s.log|, key)]))
  {
  }

  lemma CommitKeepsLog<R, K>(s: State<R>, s': State<R>, id: nat, key: R -> K)
    requires LogIsComputed(s, key) && id in s.calls
    requires s'.base == s.base && s'.log == s.log + [CommitOf(s, id, |s.log|, key)]
    ensures LogIsComputed(s', key) && Contents(s) <= Contents(s')
  {
    assert s.log[..|s.log|] == s.log;
    LogGrows(s, CommitOf(s, id, |s.log|, key), key);
  }

  lemma NextKeepsKnown<R, K>(s: State<R>, step: Step<R>, key: R -> K, mergeAttempts: nat)
    requires LogIsKnown(s) && Enabled(s, step)
    ensures LogIsKnown(Next(s, step, key, mergeAttempts))
  {
    NextLog(s, step, key, mergeAttempts);
  }

  lemma NextKeepsLog<R, K>(s: State<R>, step: Step<R>, key: R -> K, mergeAttempts: nat)
    requires LogIsComputed(s, key) && Enabled(s, step)
    ensures
      var s' := Next(s, step, key, mergeAttempts);
      LogIsComputed(s', key) && Contents(s) <= Contents(s')
  {
    NextLog(s, step, key, mergeAttempts);
    var s' := Next(s, step, key, mergeAttempts);
    if s'.log != s.log {
      CommitKeepsLog(s, s', step.id, key);
    }
  }

  /** A step raises the count of its own call by one if it commits, and no other count. */
  lemma NextLanded<R, K>(s: State<R>, step: Step<R>, key: R -> K, mergeAttempts: nat, id: nat)
    requires LogIsKnown(s) && Enabled(s, step)
    ensures
      var s' := Next(s, step, key, mergeAttempts);
      && (id !in s.calls ==> Landed(s, id) == 0)
      && Landed(s', id) == Landed(s, id) + (if s'.log != s.log && id == step.id then 1 else 0)
  {
    NextLog(s, step, key, mergeAttempts);
    var s' := Next(s, step, key, mergeAttempts);
    if id !in s.calls {
      UnknownCallsHaveNotLanded(s, id);
    }
    if s'.log != s.log {
      LandedAfter(s, s', CommitOf(s, step.id, |s.log|, key), id);
    }
  }

  lemma NextKeepsLandedOnce<R, K>(s: State<R>, step: Step<R>, key: R -> K, mergeAttempts: nat)
    requires LogIsKnown(s) && LandedOnce(s) && Enabled(s, step)
    ensures LandedOnce(Next(s, step, key, mergeAttempts))
  {
    var s' := Next(s, step, key, mergeAttempts);
    forall id | id in s'.calls
      ensures id !in s.calls ==> Landed(s, id) == 0
      ensures Landed(s', id) == Landed(s, id) + (if s'.log != s.log && id == step.id then 1 else 0)
    {
      NextLanded(s, step, key, mergeAttempts, id);
    }
  }

  lemma NextKeepsPhases<R, K>(s: State<R>, step: Step<R>, key: R -> K, mergeAttempts: nat)
    requires PhasesAreBounded(s, mergeAttempts) && Enabled(s, step) && mergeAttempts >= 1
    ensures PhasesAreBounded(Next(s, step, key, mergeAttempts), mergeAttempts)
  {
    NextLog(s, step, key, mergeAttempts);
    var s' := Next(s, step, key, mergeAttempts);
    forall id | id in s'.calls ensures Bounded(s'.calls[id].phase, |s'.log|, mergeAttempts) {
      if id in s.calls {
        assert Bounded(s.calls[id].phase, |s.log|, mergeAttempts);
      }
    }
  }

  lemma NextKeepsInv<R, K>(s: State<R>, step: Step<R>, key: R -> K, mergeAttempts: nat)
    requires Inv(s, key, mergeAttempts) && Enabled(s, step) && mergeAttempts >= 1
    ensures Inv(Next(s, step, key, mergeAttempts), key, mergeAttempts)
    ensures Contents(s) <= Contents(Next(s, step, key, mergeAttempts))
  {
    NextKeepsLog(s, step, key, mergeAttempts);
    NextKeepsKnown(s, step, key, mergeAttempts);
    NextKeepsPhases(s, step, key, mergeAttempts);
    NextKeepsLandedOnce(s, step, key, mergeAttempts);
  }

  lemma {:induction false} RunKeepsInv<R, K>(base: seq<R>, steps: seq<Step<R>>, key: R -> K, mergeAttempts: nat)
    requires mergeAttempts >= 1
    ensures Inv(Execute(Initial(base), steps, key, mergeAttempts), key, mergeAttempts)
    ensures Execute(Initial(base), steps, key, mergeAttempts).base == base
    decreases |steps|
  {
    if steps != [] {
      RunKeepsInv(base, steps[..|steps| - 1], key, mergeAttempts);
      var s := Execute(Initial(base), steps[..|steps| - 1], key, mergeAttempts);
      if Enabled(s, steps[|steps| - 1]) {
        NextKeepsInv(s, steps[|steps| - 1], key, mergeAttempts);
      }
    }
  }

  lemma {:induction false} LogIsSerial<R, K>(base: seq<R>, log: seq<Commit<R>>, key: R -> K)
    requires LogIsComputed(State(base, log, map[]), key)
    ensures ContentsOf(base, log) == Serial(base, log, key)
    decreases |log|
  {
    if log != [] {
      var before := log[..|log| - 1];
      forall i | 0 <= i < |before| ensures before[..i] == log[..i] {
      }
      LogIsSerial(base, before, key);
      assert log[|log| - 1].inserted
          == Filter(Unmatched(Keys(ContentsOf(base, before), key), key), log[|log| - 1].source);
    }
  }

  lemma {:induction false} SerialIsUnique<R, K>(base: seq<R>, log: seq<Commit<R>>, key: R -> K)
    requires UniqueBy(base, key)
    requires forall i :: 0 <= i < |log| ==> UniqueBy(log[i].source, key)
    ensures UniqueBy(Serial(base, log, key), key)
    decreases |log|
  {
    if log != [] {
      SerialIsUnique(base, log[..|log| - 1], key);
      InsertOnceUnique(Serial(base, log[..|log| - 1], key), log[|log| - 1].source, key);
    }
  }

  /******* The theorems *******/

  /** Concurrent merges behave as if their callers had taken turns, in the order of the commits. */
  lemma ConcurrentMergesAreSerial<R, K>(base: seq<R>, steps: seq<Step<R>>, key: R -> K, mergeAttempts: nat)
    requires mergeAttempts >= 1
    ensures
      var s := Execute(Initial(base), steps, key, mergeAttempts);
      Contents(s) == Serial(base, s.log, key)
  {
    RunKeepsInv(base, steps, key, mergeAttempts);
    var s := Execute(Initial(base), steps, key, mergeAttempts);
    assert LogIsComputed(State(base, s.log, map[]), key);
    LogIsSerial(base, s.log, key);
  }

  /** If every caller deduplicates its own rows, no interleaving puts one key into the table twice. */
  lemma ConcurrentMergesStayUnique<R, K>(base: seq<R>, steps: seq<Step<R>>, key: R -> K, mergeAttempts: nat)
    requires mergeAttempts >= 1 && UniqueBy(base, key)
    requires
      var s := Execute(Initial(base), steps, key, mergeAttempts);
      forall id :: id in s.calls ==> UniqueBy(s.calls[id].source, key)
    ensures UniqueBy(Contents(Execute(Initial(base), steps, key, mergeAttempts)), key)
  {
    RunKeepsInv(base, steps, key, mergeAttempts);
    ConcurrentMergesAreSerial(base, steps, key, mergeAttempts);
    SerialIsUnique(base, Execute(Initial(base), steps, key, mergeAttempts).log, key);
  }

  /** Whatever runs next, the rows already in the table stay where they are. */
  lemma {:induction false} RowsAreNeverChanged<R, K>(
      base: seq<R>, earlier: seq<Step<R>>, later: seq<Step<R>>, key: R -> K, mergeAttempts: nat)
    requires mergeAttempts >= 1
    ensures Contents(Execute(Initial(base), earlier, key, mergeAttempts))
         <= Contents(Execute(Initial(base), earlier + later, key, mergeAttempts))
    decreases |later|
  {
    if later == [] {
      assert earlier + later == earlier;
    } else {
      var steps := earlier + later;
      assert steps[..|steps| - 1] == earlier + later[..|later| - 1];
      RowsAreNeverChanged(base, earlier, later[..|later| - 1], key, mergeAttempts);
      RunKeepsInv(base, steps[..|steps| - 1], key, mergeAttempts);
      var s := Execute(Initial(base), steps[..|steps| - 1], key, mergeAttempts);
      if Enabled(s, steps[|steps| - 1]) {
        NextKeepsInv(s, steps[|steps| - 1], key, mergeAttempts);
      }
    }
  }

  /** A call returns after exactly one commit of its rows, raises on conflicts with none and after
      exactly the configured number of attempts, and never tries more often than that. */
  lemma CallsCommitOnceOrRaise<R, K>(
      base: seq<R>, steps: seq<Step<R>>, key: R -> K, mergeAttempts: nat, id: nat)
    requires mergeAttempts >= 1
    requires id in Execute(Initial(base), steps, key, mergeAttempts).calls
    ensures
      var s := Execute(Initial(base), steps, key, mergeAttempts);
      && LandedOnce(s)
      && (s.calls[id].phase.Returned? ==> Landed(s, id) == 1)
      && (s.calls[id].phase.Failed? ==> s.calls[id].phase.attempt + 1 <= mergeAttempts)
      && (s.calls[id].phase.Failed? && s.calls[id].phase.conflict ==>
            Landed(s, id) == 0 && s.calls[id].phase.attempt + 1 == mergeAttempts)
      && (s.calls[id].phase.Ready? || s.calls[id].phase.Merging? ==> Landed(s, id) == 0)
  {
    RunKeepsInv(base, steps, key, mergeAttempts);
    ConflictsExhaustTheAttempts(base, steps, key, mergeAttempts, id);
  }

  lemma {:induction false} ConflictsExhaustTheAttempts<R, K>(
      base: seq<R>, steps: seq<Step<R>>, key: R -> K, mergeAttempts: nat, id: nat)
    ensures
      var s := Execute(Initial(base), steps, key, mergeAttempts);
      id in s.calls && s.calls[id].phase.Failed? && s.calls[id].phase.conflict ==>
        s.calls[id].phase.attempt + 1 == mergeAttempts
    decreases |steps|
  {
    if steps != [] {
      ConflictsExhaustTheAttempts(base, steps[..|steps| - 1], key, mergeAttempts, id);
    }
  }
}
