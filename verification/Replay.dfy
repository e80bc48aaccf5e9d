/**
 Crash and replay of one micro-batch. The checkpoint hands the same batch, under the same run id, to
 every attempt; each attempt may die between any two of its table writes, and merges of other
 batches may run between the attempts.
 */
module Replay {
  import opened Collections
  import opened DeltaTables
  import opened Rows
  import opened Checks
  import opened SilverBatch
  import opened BatchConservation

  datatype Happening =
    | Try(attempt: Attempt, landed: nat)
    | Others(rows: seq<SilverRow>)

  function MergeOthers(silver: seq<SilverRow>, rows: seq<SilverRow>): seq<SilverRow> {
    InsertOnce(silver, rows, EventIdOf)
  }

  function PlayOne(m: Monitoring, st: Store, b: Batch, x: Happening): Store {
    match x
    case Try(a, landed) => RunAttempt(m, st, b, a, landed)
    case Others(rows) => st.(silver := MergeOthers(st.silver, rows))
  }

  function Play(m: Monitoring, st: Store, b: Batch, h: seq<Happening>): Store {
    if h == [] then st else PlayOne(m, Play(m, st, b, h[..|h| - 1]), b, h[|h| - 1])
  }

  /** Silver as the other batches alone would have made it. */
  function OthersOnly(silver: seq<SilverRow>, h: seq<Happening>): seq<SilverRow> {
    if h == [] then silver else
      var silver' := OthersOnly(silver, h[..|h| - 1]);
      match h[|h| - 1]
      case Try(_, _) => silver'
      case Others(rows) => MergeOthers(silver', rows)
  }

  /** The first attempt that got as far as its `writes`-th write. */
  function First(h: seq<Happening>, writes: nat): (r: Option<nat>)
    ensures r.Some? ==> r.value < |h| && h[r.value].Try? && h[r.value].landed >= writes
    ensures r.Some? ==> forall k :: 0 <= k < r.value && h[k].Try? ==> h[k].landed < writes
    ensures r.None? ==> forall k :: 0 <= k < |h| && h[k].Try? ==> h[k].landed < writes
  {
    if h == [] then None else
      var r := First(h[..|h| - 1], writes);
      if r.Some? then r
      else if h[|h| - 1].Try? && h[|h| - 1].landed >= writes then Some(|h| - 1)
      else None
  }

  /** The clock of this attempt judges every row of the batch as the clock `now` does. */
  ghost predicate SameVerdict(b: Batch, now: int, a: Attempt) {
    forall r :: r in Diagnosed(b) ==> FailedChecks(r, a.now) == FailedChecks(r, now)
  }

  /** Every row one attempt puts into quarantine, the other one would put there too. */
  ghost predicate NoNewInvalid(b: Batch, first: Attempt, a: Attempt) {
    forall r :: r in Diagnosed(b) && IsValid(first.now)(r) ==> IsValid(a.now)(r)
  }

  /** An attempt quarantines no row that the first one to write there did not quarantine; */
  ghost predicate AddsNoRow(b: Batch, h: seq<Happening>, k: nat)
    requires k < |h| && h[k].Try?
  {
    h[k].landed >= 1 ==>
      (First(h, 1).Some? && NoNewInvalid(b, h[First(h, 1).value].attempt, h[k].attempt))
  }

  /** records no result for a source the first one did not report; */
  ghost predicate AddsNoSource(b: Batch, h: seq<Happening>, k: nat)
    requires k < |h| && h[k].Try?
  {
    h[k].landed >= 2 ==>
      (First(h, 2).Some? &&
       Sources(ValidRows(b, h[k].attempt.now)) <= Sources(ValidRows(b, h[First(h, 2).value].attempt.now)))
  }

  /** and merges no event id the first one did not merge. */
  ghost predicate AddsNoId(b: Batch, h: seq<Happening>, k: nat)
    requires k < |h| && h[k].Try?
  {
    h[k].landed >= WRITES ==>
      (First(h, WRITES).Some? &&
       Ids(ValidRows(b, h[k].attempt.now)) <= Ids(ValidRows(b, h[First(h, WRITES).value].attempt.now)))
  }

  ghost predicate AddsNothing(b: Batch, h: seq<Happening>, k: nat)
    requires k < |h| && h[k].Try?
  {
    AddsNoRow(b, h, k) && AddsNoSource(b, h, k) && AddsNoId(b, h, k)
  }

  /** The clocks of the attempts may differ, and so may their verdicts about `requested_at <= now`, as long as
      that does not bring new rows into quarantine, new sources into the results or new ids into Silver. */
  ghost predicate Replayable(b: Batch, h: seq<Happening>) {
    forall k :: 0 <= k < |h| && h[k].Try? ==> Feasible(b, h[k].attempt) && AddsNothing(b, h, k)
  }

  /** The three attempts that were first to reach a table speak with one voice: the first two found the same
      failed checks, and the third one merged what was valid for them. */
  ghost predicate OneVerdict(b: Batch, h: seq<Happening>) {
    First(h, 1).Some? && First(h, 2).Some? && First(h, WRITES).Some? &&
    var q, d, s := h[First(h, 1).value].attempt, h[First(h, 2).value].attempt, h[First(h, WRITES).value].attempt;
    SameVerdict(b, d.now, q) && Representatives(ValidRows(b, d.now), s.merged)
  }

  lemma {:induction false} ReplayablePrefix(b: Batch, h: seq<Happening>)
    requires h != [] && Replayable(b, h)
    ensures Replayable(b, h[..|h| - 1])
  {
    var before := h[..|h| - 1];
    forall k | 0 <= k < |before| && before[k].Try? ensures Feasible(b, before[k].attempt) && AddsNothing(b, before, k) {
      assert h[k] == before[k] && AddsNothing(b, h, k);
    }
  }

  /******* Attempts with the same verdicts write the same keys *******/

  lemma SameRows(b: Batch, now: int, a: Attempt)
    requires SameVerdict(b, now, a)
    ensures ValidRows(b, a.now) == ValidRows(b, now) && InvalidRows(b, a.now) == InvalidRows(b, now)
  {
    FilterAgree(IsValid(a.now), IsValid(now), Diagnosed(b));
    FilterAgree(IsInvalid(a.now), IsInvalid(now), Diagnosed(b));
  }

  lemma SameQuarantine(b: Batch, now: int, a: Attempt)
    requires SameVerdict(b, now, a)
    ensures QuarantineFrame(b, a) == QuarantineFrame(b, a.(now := now))
  {
    SameRows(b, now, a);
    FilterMembers(IsInvalid(now), Diagnosed(b));
    var rows := InvalidRows(b, now);
    forall i | 0 <= i < |rows| ensures QuarantineFrame(b, a)[i] == QuarantineFrame(b, a.(now := now))[i] {
      assert rows[i] in rows;
    }
  }

  lemma QuarantineKeysAgree(b: Batch, a: Attempt, first: Attempt)
    requires NoNewInvalid(b, first, a)
    ensures Keys(QuarantineFrame(b, a), QuarantineKeyOf) <= Keys(QuarantineFrame(b, first), QuarantineKeyOf)
  {
    forall k | k in Keys(QuarantineFrame(b, a), QuarantineKeyOf)
      ensures k in Keys(QuarantineFrame(b, first), QuarantineKeyOf)
    {
      var q :| q in QuarantineFrame(b, a) && QuarantineKeyOf(q) == k;
      var row := QuarantinedFrom(b, a, q);
      InvalidRowIsQuarantined(b, first, Diagnose(b.drifted)(row));
    }
  }

  lemma SilverKeyIsValid(b: Batch, a: Attempt, id: string)
    requires Feasible(b, a) && id in Keys(SilverFrame(a), EventIdOf)
    ensures Some(id) in Ids(ValidRows(b, a.now))
  {
    var x :| x in SilverFrame(a) && EventIdOf(x) == id;
    var i :| 0 <= i < |SilverFrame(a)| && SilverFrame(a)[i] == x;
    UniqueRowsAreValid(b, a, a.merged[i]);
    assert IdOf(a.merged[i]) == Some(id);
  }

  lemma ValidIdIsKey(b: Batch, a: Attempt, id: string)
    requires Feasible(b, a) && Some(id) in Ids(ValidRows(b, a.now))
    ensures id in Keys(SilverFrame(a), EventIdOf)
  {
    assert Some(id) in Ids(a.merged);
    var r :| r in a.merged && IdOf(r) == Some(id);
    var i :| 0 <= i < |a.merged| && a.merged[i] == r;
    assert SilverFrame(a)[i] in SilverFrame(a) && EventIdOf(SilverFrame(a)[i]) == id;
  }

  /** The merge of an attempt offers exactly the event ids of the valid rows, whichever representatives
      were kept. */
  lemma SilverKeys(b: Batch, a: Attempt)
    requires Feasible(b, a)
    ensures forall id :: id in Keys(SilverFrame(a), EventIdOf) <==> Some(id) in Ids(ValidRows(b, a.now))
  {
    forall id ensures id in Keys(SilverFrame(a), EventIdOf) <==> Some(id) in Ids(ValidRows(b, a.now)) {
      if id in Keys(SilverFrame(a), EventIdOf) {
        SilverKeyIsValid(b, a, id);
      }
      if Some(id) in Ids(ValidRows(b, a.now)) {
        ValidIdIsKey(b, a, id);
      }
    }
  }

  /** The keys of write_dq depend on the groups and the checks, not on the counts. */
  lemma {:induction false} SourceResultKeys(m: Monitoring, b: Batch, a: Attempt, source: string, checks: seq<Check>)
    ensures Keys(SourceResults(m, b, a, source, checks), DqKeyOf)
         == set c | c in checks :: DqKey(b.runId, ReportedSource(source), c)
    decreases |checks|
  {
    if checks != [] {
      var before, c := checks[..|checks| - 1], checks[|checks| - 1];
      assert checks == before + [c];
      SourceResultKeys(m, b, a, source, before);
      KeysOfConcat(SourceResults(m, b, a, source, before), [CheckResult(m, b, a, source, c)], DqKeyOf);
      KeysOfOne(CheckResult(m, b, a, source, c), DqKeyOf);
    }
  }

  lemma KeysOfConcat<R, K>(s: seq<R>, t: seq<R>, key: R -> K)
    ensures Keys(s + t, key) == Keys(s, key) + Keys(t, key)
  {
    forall k | k in Keys(s, key) + Keys(t, key) ensures k in Keys(s + t, key) {
      var r :| (r in s || r in t) && key(r) == k;
      assert r in s + t;
    }
  }

  lemma KeysOfOne<R, K>(r: R, key: R -> K)
    ensures Keys([r], key) == {key(r)}
  {
    assert r in [r];
  }

  function GroupKeys(runId: string, sources: set<string>, checks: seq<Check>): set<DqKey> {
    set s, c | s in sources && c in checks :: DqKey(runId, ReportedSource(s), c)
  }

  lemma {:induction false} RowCheckKeys(m: Monitoring, b: Batch, a: Attempt, sources: seq<string>)
    ensures Keys(RowCheckResults(m, b, a, sources), DqKeyOf) == GroupKeys(b.runId, Elements(sources), ROW_CHECKS)
    decreases |sources|
  {
    if sources != [] {
      var before, s := sources[..|sources| - 1], sources[|sources| - 1];
      assert sources == before + [s];
      RowCheckKeys(m, b, a, before);
      SourceResultKeys(m, b, a, s, ROW_CHECKS);
      KeysOfConcat(RowCheckResults(m, b, a, before), SourceResults(m, b, a, s, ROW_CHECKS), DqKeyOf);
    }
  }

  lemma GroupKeysSnoc(runId: string, before: seq<string>, s: string, c: Check)
    ensures GroupKeys(runId, Elements(before + [s]), [c])
         == GroupKeys(runId, Elements(before), [c]) + {DqKey(runId, ReportedSource(s), c)}
  {
    assert Elements(before + [s]) == Elements(before) + {s};
    assert c in [c] && s in {s};
    assert DqKey(runId, ReportedSource(s), c) in GroupKeys(runId, {s}, [c]);
  }

  lemma {:induction false} InBatchKeys(m: Monitoring, b: Batch, a: Attempt, sources: seq<string>)
    ensures Keys(InBatchResults(m, b, a, sources), DqKeyOf)
         == GroupKeys(b.runId, Elements(sources), [DuplicateEventIdInBatch])
    decreases |sources|
  {
    if sources != [] {
      var before, s := sources[..|sources| - 1], sources[|sources| - 1];
      assert sources == before + [s];
      InBatchKeys(m, b, a, before);
      KeysOfConcat(InBatchResults(m, b, a, before), [InBatchResult(m, b, a, s)], DqKeyOf);
      KeysOfOne(InBatchResult(m, b, a, s), DqKeyOf);
      GroupKeysSnoc(b.runId, before, s, DuplicateEventIdInBatch);
    }
  }

  lemma {:induction false} InSilverKeys(m: Monitoring, b: Batch, a: Attempt, ids: set<string>, sources: seq<string>)
    ensures Keys(InSilverResults(m, b, a, ids, sources), DqKeyOf)
         == GroupKeys(b.runId, Elements(sources), [DuplicateEventIdAlreadyInSilver])
    decreases |sources|
  {
    if sources != [] {
      var before, s := sources[..|sources| - 1], sources[|sources| - 1];
      assert sources == before + [s];
      InSilverKeys(m, b, a, ids, before);
      KeysOfConcat(InSilverResults(m, b, a, ids, before), [InSilverResult(m, b, a, ids, s)], DqKeyOf);
      KeysOfOne(InSilverResult(m, b, a, ids, s), DqKeyOf);
      GroupKeysSnoc(b.runId, before, s, DuplicateEventIdAlreadyInSilver);
    }
  }

  lemma DqKeysAgree(m: Monitoring, b: Batch, a: Attempt, ids: set<string>, a': Attempt, ids': set<string>)
    requires Feasible(b, a) && Feasible(b, a') && Sources(ValidRows(b, a.now)) <= Sources(ValidRows(b, a'.now))
    ensures Keys(DqFrame(m, b, a, ids), DqKeyOf) <= Keys(DqFrame(m, b, a', ids'), DqKeyOf)
  {
    DqFrameKeys(m, b, a, ids);
    DqFrameKeys(m, b, a', ids');
    GroupKeysGrow(b.runId, Elements(a.validSources), Elements(a'.validSources), [DuplicateEventIdInBatch]);
    GroupKeysGrow(b.runId, Elements(a.validSources), Elements(a'.validSources), [DuplicateEventIdAlreadyInSilver]);
  }

  lemma GroupKeysGrow(runId: string, s: set<string>, t: set<string>, checks: seq<Check>)
    requires s <= t
    ensures GroupKeys(runId, s, checks) <= GroupKeys(runId, t, checks)
  {
  }

  lemma DqFrameKeys(m: Monitoring, b: Batch, a: Attempt, ids: set<string>)
    ensures Keys(DqFrame(m, b, a, ids), DqKeyOf)
         == GroupKeys(b.runId, Elements(a.sources), ROW_CHECKS)
            + GroupKeys(b.runId, Elements(a.validSources), [DuplicateEventIdInBatch])
            + GroupKeys(b.runId, Elements(a.validSources), [DuplicateEventIdAlreadyInSilver])
  {
    RowCheckKeys(m, b, a, a.sources);
    InBatchKeys(m, b, a, a.validSources);
    InSilverKeys(m, b, a, ids, a.validSources);
    var x, y, z := RowCheckResults(m, b, a, a.sources), InBatchResults(m, b, a, a.validSources),
                   InSilverResults(m, b, a, ids, a.validSources);
    KeysOfConcat(x + y, z, DqKeyOf);
    KeysOfConcat(x, y, DqKeyOf);
  }

  /******* The tables after any history *******/

  function QuarantineAfter(st: Store, b: Batch, h: seq<Happening>): seq<Quarantined> {
    match First(h, 1)
    case None => st.quarantine
    case Some(i) => InsertOnce(st.quarantine, QuarantineFrame(b, h[i].attempt), QuarantineKeyOf)
  }

  function DqAfter(m: Monitoring, st: Store, b: Batch, h: seq<Happening>): seq<DqResult> {
    match First(h, 2)
    case None => st.dq
    case Some(i) =>
      InsertOnce(st.dq, DqFrame(m, b, h[i].attempt, SilverIds(OthersOnly(st.silver, h[..i]))), DqKeyOf)
  }

  function SilverAfter(st: Store, h: seq<Happening>): seq<SilverRow> {
    match First(h, WRITES)
    case None => OthersOnly(st.silver, h)
    case Some(i) =>
      OthersOnly(InsertOnce(OthersOnly(st.silver, h[..i]), SilverFrame(h[i].attempt), EventIdOf), h[i + 1..])
  }

  lemma {:induction false} OthersOnlyGrows(silver: seq<SilverRow>, h: seq<Happening>)
    ensures silver <= OthersOnly(silver, h)
    decreases |h|
  {
    if h != [] {
      OthersOnlyGrows(silver, h[..|h| - 1]);
    }
  }

  lemma KeysGrow<R, K>(s: seq<R>, t: seq<R>, key: R -> K)
    requires s <= t
    ensures Keys(s, key) <= Keys(t, key)
  {
    assert t == s + t[|s|..];
    KeysOfConcat(s, t[|s|..], key);
  }

  lemma LastQuarantine(st: Store, b: Batch, h: seq<Happening>)
    requires h != [] && Replayable(b, h) && h[|h| - 1].Try? && h[|h| - 1].landed >= 1
    ensures InsertOnce(QuarantineAfter(st, b, h[..|h| - 1]), QuarantineFrame(b, h[|h| - 1].attempt), QuarantineKeyOf)
         == QuarantineAfter(st, b, h)
  {
    var before, a := h[..|h| - 1], h[|h| - 1].attempt;
    if First(before, 1).Some? {
      var a0 := before[First(before, 1).value].attempt;
      assert AddsNoRow(b, h, |h| - 1) && First(h, 1) == First(before, 1);
      InsertOnceKeys(st.quarantine, QuarantineFrame(b, a0), QuarantineKeyOf);
      QuarantineKeysAgree(b, a, a0);
      InsertOnceNoOp(QuarantineAfter(st, b, before), QuarantineFrame(b, a), QuarantineKeyOf);
    }
  }

  /** Once a result row with the same keys is recorded, recording again changes nothing. */
  lemma RecordAgain(m: Monitoring, dq: seq<DqResult>, b: Batch,
                    a0: Attempt, ids0: set<string>, a: Attempt, ids: set<string>)
    requires Feasible(b, a0) && Feasible(b, a) && Sources(ValidRows(b, a.now)) <= Sources(ValidRows(b, a0.now))
    ensures
      var recorded := InsertOnce(dq, DqFrame(m, b, a0, ids0), DqKeyOf);
      InsertOnce(recorded, DqFrame(m, b, a, ids), DqKeyOf) == recorded
  {
    InsertOnceKeys(dq, DqFrame(m, b, a0, ids0), DqKeyOf);
    DqKeysAgree(m, b, a, ids, a0, ids0);
    InsertOnceNoOp(InsertOnce(dq, DqFrame(m, b, a0, ids0), DqKeyOf), DqFrame(m, b, a, ids), DqKeyOf);
  }

  lemma LastDq(m: Monitoring, st: Store, b: Batch, h: seq<Happening>, ids: set<string>)
    requires h != [] && Replayable(b, h) && h[|h| - 1].Try? && h[|h| - 1].landed >= 2
    requires First(h[..|h| - 1], WRITES).None? ==> ids == SilverIds(OthersOnly(st.silver, h[..|h| - 1]))
    ensures InsertOnce(DqAfter(m, st, b, h[..|h| - 1]), DqFrame(m, b, h[|h| - 1].attempt, ids), DqKeyOf)
         == DqAfter(m, st, b, h)
  {
    if First(h[..|h| - 1], 2).Some? {
      LaterDq(m, st, b, h, First(h[..|h| - 1], 2).value, ids);
    } else {
      DqIs(m, st, b, h, |h| - 1, h[|h| - 1].attempt, ids);
    }
  }

  lemma LaterDq(m: Monitoring, st: Store, b: Batch, h: seq<Happening>, i: nat, ids: set<string>)
    requires h != [] && Replayable(b, h) && h[|h| - 1].Try? && h[|h| - 1].landed >= 2
    requires First(h[..|h| - 1], 2) == Some(i)
    ensures InsertOnce(DqAfter(m, st, b, h[..|h| - 1]), DqFrame(m, b, h[|h| - 1].attempt, ids), DqKeyOf)
         == DqAfter(m, st, b, h)
  {
    var before, a0 := h[..|h| - 1], h[i].attempt;
    assert before[i] == h[i] && h[..i] == before[..i] && First(h, 2) == Some(i);
    assert AddsNoSource(b, h, |h| - 1) && Feasible(b, a0);
    var ids0 := SilverIds(OthersOnly(st.silver, h[..i]));
    DqIs(m, st, b, before, i, a0, ids0);
    DqIs(m, st, b, h, i, a0, ids0);
    RecordAgain(m, st.dq, b, a0, ids0, h[|h| - 1].attempt, ids);
  }

  /** Merging the batch again, after any merges of other batches, changes nothing. */
  lemma MergeAgain(silver: seq<SilverRow>, b: Batch, a0: Attempt, a: Attempt, others: seq<Happening>)
    requires Feasible(b, a0) && Feasible(b, a) && Ids(ValidRows(b, a.now)) <= Ids(ValidRows(b, a0.now))
    ensures
      var after := OthersOnly(InsertOnce(silver, SilverFrame(a0), EventIdOf), others);
      InsertOnce(after, SilverFrame(a), EventIdOf) == after
  {
    var merged := InsertOnce(silver, SilverFrame(a0), EventIdOf);
    InsertOnceKeys(silver, SilverFrame(a0), EventIdOf);
    OthersOnlyGrows(merged, others);
    KeysGrow(merged, OthersOnly(merged, others), EventIdOf);
    SilverKeys(b, a);
    SilverKeys(b, a0);
    InsertOnceNoOp(OthersOnly(merged, others), SilverFrame(a), EventIdOf);
  }

  /** Once an attempt has merged, later attempts do not move the place of the first one. */
  lemma SilverAfterATry(st: Store, h: seq<Happening>)
    requires h != [] && h[|h| - 1].Try? && First(h[..|h| - 1], WRITES).Some?
    ensures SilverAfter(st, h) == SilverAfter(st, h[..|h| - 1])
  {
    var before := h[..|h| - 1];
    var i := First(before, WRITES).value;
    assert h[..i] == before[..i] && h[i] == before[i];
    assert h[i + 1..][..|h| - i - 2] == before[i + 1..];
  }

  lemma LastSilver(st: Store, b: Batch, h: seq<Happening>)
    requires h != [] && Replayable(b, h) && h[|h| - 1].Try? && h[|h| - 1].landed >= WRITES
    ensures InsertOnce(SilverAfter(st, h[..|h| - 1]), SilverFrame(h[|h| - 1].attempt), EventIdOf) == SilverAfter(st, h)
  {
    var before, a := h[..|h| - 1], h[|h| - 1].attempt;
    if First(before, WRITES).Some? {
      var i := First(before, WRITES).value;
      SilverAfterATry(st, h);
      assert before[i] == h[i] && AddsNoId(b, h, |h| - 1) && First(h, WRITES) == Some(i);
      MergeAgain(OthersOnly(st.silver, before[..i]), b, before[i].attempt, a, before[i + 1..]);
    }
  }

  lemma SilverIs(st: Store, h: seq<Happening>, i: nat, a: Attempt)
    requires First(h, WRITES) == Some(i) && h[i].attempt == a
    ensures SilverAfter(st, h)
         == OthersOnly(InsertOnce(OthersOnly(st.silver, h[..i]), SilverFrame(a), EventIdOf), h[i + 1..])
  {
  }

  lemma OthersSnoc(silver: seq<SilverRow>, h: seq<Happening>)
    requires h != []
    ensures OthersOnly(silver, h)
         == match h[|h| - 1] {
              case Try(_, _) => OthersOnly(silver, h[..|h| - 1])
              case Others(rows) => MergeOthers(OthersOnly(silver, h[..|h| - 1]), rows)
            }
  {
  }

  lemma SilverSnoc(st: Store, h: seq<Happening>)
    requires h != [] && (h[|h| - 1].Try? ==> h[|h| - 1].landed < WRITES)
    ensures SilverAfter(st, h)
         == match h[|h| - 1] {
              case Try(_, _) => SilverAfter(st, h[..|h| - 1])
              case Others(rows) => MergeOthers(SilverAfter(st, h[..|h| - 1]), rows)
            }
  {
    var before := h[..|h| - 1];
    if First(before, WRITES).Some? {
      var i := First(before, WRITES).value;
      assert First(h, WRITES) == Some(i) && h[i] == before[i] && h[..i] == before[..i];
      SilverIs(st, h, i, h[i].attempt);
      SilverIs(st, before, i, h[i].attempt);
      assert h[i + 1..][..|h[i + 1..]| - 1] == before[i + 1..];
      OthersSnoc(InsertOnce(OthersOnly(st.silver, h[..i]), SilverFrame(h[i].attempt), EventIdOf), h[i + 1..]);
    } else {
      assert First(h, WRITES).None?;
    }
  }

  lemma UnwrittenSnoc(m: Monitoring, st: Store, b: Batch, h: seq<Happening>)
    requires h != []
    ensures (h[|h| - 1].Try? && h[|h| - 1].landed >= 1)
            || QuarantineAfter(st, b, h) == QuarantineAfter(st, b, h[..|h| - 1])
    ensures (h[|h| - 1].Try? && h[|h| - 1].landed >= 2) || DqAfter(m, st, b, h) == DqAfter(m, st, b, h[..|h| - 1])
  {
    var before := h[..|h| - 1];
    if First(before, 2).Some? {
      assert h[..First(before, 2).value] == before[..First(before, 2).value];
    }
  }

  /** Each table holds what the first attempt to reach it wrote; everything later was a no-op. The DQ
      results of the batch were computed from a Silver without any of the batch's own rows. */
  lemma {:induction false} FirstWriteWins(m: Monitoring, st: Store, b: Batch, h: seq<Happening>)
    requires b.rows != [] && Replayable(b, h)
    ensures Play(m, st, b, h) == Tables(m, st, b, h)
    decreases |h|
  {
    if h != [] {
      var before := h[..|h| - 1];
      ReplayablePrefix(b, h);
      FirstWriteWins(m, st, b, before);
      if h[|h| - 1].Others? || h[|h| - 1].landed == 0 {
        OtherHappening(m, st, b, h);
      } else if h[|h| - 1].landed == 1 {
        CutAfterOne(m, st, b, h);
      } else {
        TwoOrMoreWrites(m, st, b, h);
      }
    }
  }

  /** The tables that the first writes of a history make. */
  function Tables(m: Monitoring, st: Store, b: Batch, h: seq<Happening>): Store {
    Store(SilverAfter(st, h), QuarantineAfter(st, b, h), DqAfter(m, st, b, h))
  }

  lemma OtherHappening(m: Monitoring, st: Store, b: Batch, h: seq<Happening>)
    requires h != [] && (h[|h| - 1].Try? ==> h[|h| - 1].landed == 0)
    ensures PlayOne(m, Tables(m, st, b, h[..|h| - 1]), b, h[|h| - 1]) == Tables(m, st, b, h)
  {
    UnwrittenSnoc(m, st, b, h);
    SilverSnoc(st, h);
  }

  /** The writes of an attempt cut after its second write, or not cut at all. */
  lemma WritesOf(m: Monitoring, st: Store, b: Batch, a: Attempt, landed: nat)
    requires b.rows != [] && landed >= 2
    ensures RunAttempt(m, st, b, a, landed)
         == Store(if landed >= WRITES then InsertOnce(st.silver, SilverFrame(a), EventIdOf) else st.silver,
                  InsertOnce(st.quarantine, QuarantineFrame(b, a), QuarantineKeyOf),
                  InsertOnce(st.dq, DqFrame(m, b, a, SilverIds(st.silver)), DqKeyOf))
  {
  }

  lemma SilverBeforeTheMerge(st: Store, h: seq<Happening>)
    requires First(h, WRITES).None?
    ensures SilverAfter(st, h) == OthersOnly(st.silver, h)
  {
  }

  lemma CutAfterOne(m: Monitoring, st: Store, b: Batch, h: seq<Happening>)
    requires b.rows != [] && h != [] && Replayable(b, h) && h[|h| - 1].Try? && h[|h| - 1].landed == 1
    ensures PlayOne(m, Tables(m, st, b, h[..|h| - 1]), b, h[|h| - 1]) == Tables(m, st, b, h)
  {
    SilverSnoc(st, h);
    LastQuarantine(st, b, h);
    UnwrittenSnoc(m, st, b, h);
  }

  lemma TwoOrMoreWrites(m: Monitoring, st: Store, b: Batch, h: seq<Happening>)
    requires b.rows != [] && h != [] && Replayable(b, h) && h[|h| - 1].Try? && h[|h| - 1].landed >= 2
    ensures PlayOne(m, Tables(m, st, b, h[..|h| - 1]), b, h[|h| - 1]) == Tables(m, st, b, h)
  {
    var before := h[..|h| - 1];
    if First(before, WRITES).None? {
      SilverBeforeTheMerge(st, before);
    }
    WritesOf(m, Tables(m, st, b, before), b, h[|h| - 1].attempt, h[|h| - 1].landed);
    LastQuarantine(st, b, h);
    LastDq(m, st, b, h, SilverIds(SilverAfter(st, before)));
    if h[|h| - 1].landed >= WRITES {
      LastSilver(st, b, h);
    } else {
      SilverSnoc(st, h);
    }
  }

  /******* The theorems *******/

  lemma FirstIsMonotone(h: seq<Happening>)
    ensures First(h, WRITES).Some? ==>
              && First(h, 1).Some? && First(h, 2).Some?
              && First(h, 1).value <= First(h, 2).value <= First(h, WRITES).value
  {
  }

  lemma AfterTheFirst(m: Monitoring, st: Store, b: Batch, h: seq<Happening>, i: nat, j: nat)
    requires First(h, 2) == Some(i) && First(h, WRITES) == Some(j)
    ensures SilverAfter(st, h)
         == OthersOnly(InsertOnce(OthersOnly(st.silver, h[..j]), SilverFrame(h[j].attempt), EventIdOf), h[j + 1..])
    ensures DqAfter(m, st, b, h)
         == InsertOnce(st.dq, DqFrame(m, b, h[i].attempt, SilverIds(OthersOnly(st.silver, h[..i]))), DqKeyOf)
  {
  }

  /** Other batches may merge at any point: Silver is what it would be had this batch been merged once,
      in one piece, by the first attempt that got so far, and the recorded counts of rows already in
      Silver were taken from the other batches' rows alone. */
  lemma ReplayIsOneMerge(m: Monitoring, st: Store, b: Batch, h: seq<Happening>, i: nat, j: nat)
    requires b.rows != [] && Replayable(b, h)
    requires First(h, 2) == Some(i) && First(h, WRITES) == Some(j)
    ensures i <= j
    ensures Play(m, st, b, h).silver
         == OthersOnly(InsertOnce(OthersOnly(st.silver, h[..j]), SilverFrame(h[j].attempt), EventIdOf), h[j + 1..])
    ensures Play(m, st, b, h).dq
         == InsertOnce(st.dq, DqFrame(m, b, h[i].attempt, SilverIds(OthersOnly(st.silver, h[..i]))), DqKeyOf)
  {
    FirstIsMonotone(h);
    AfterTheFirst(m, st, b, h, i, j);
    FirstWriteWins(m, st, b, h);
  }

  lemma {:induction false} SourceResultsAgree(m: Monitoring, b: Batch, now: int, a: Attempt, a': Attempt,
                                              source: string, checks: seq<Check>)
    requires SameVerdict(b, now, a) && SameVerdict(b, now, a') && a.checkedAt == a'.checkedAt
    ensures SourceResults(m, b, a, source, checks) == SourceResults(m, b, a', source, checks)
    decreases |checks|
  {
    if checks != [] {
      var c := checks[|checks| - 1];
      SourceResultsAgree(m, b, now, a, a', source, checks[..|checks| - 1]);
      FilterMembers(FromSource(source), Diagnosed(b));
      FilterAgree(FailsCheck(c, a.now), FailsCheck(c, a'.now), Filter(FromSource(source), Diagnosed(b)));
    }
  }

  lemma {:induction false} RowCheckResultsAgree(m: Monitoring, b: Batch, now: int, a: Attempt, a': Attempt,
                                                sources: seq<string>)
    requires SameVerdict(b, now, a) && SameVerdict(b, now, a') && a.checkedAt == a'.checkedAt
    ensures RowCheckResults(m, b, a, sources) == RowCheckResults(m, b, a', sources)
    decreases |sources|
  {
    if sources != [] {
      RowCheckResultsAgree(m, b, now, a, a', sources[..|sources| - 1]);
      SourceResultsAgree(m, b, now, a, a', sources[|sources| - 1], ROW_CHECKS);
    }
  }

  lemma InSilverResultAgrees(m: Monitoring, b: Batch, a: Attempt, a': Attempt, ids: set<string>, source: string)
    requires ValidRows(b, a.now) == ValidRows(b, a'.now) && a.checkedAt == a'.checkedAt
    requires a.counted == a'.counted
    ensures InSilverResult(m, b, a, ids, source) == InSilverResult(m, b, a', ids, source)
  {
  }

  lemma InBatchResultAgrees(m: Monitoring, b: Batch, a: Attempt, a': Attempt, source: string)
    requires ValidRows(b, a.now) == ValidRows(b, a'.now) && a.checkedAt == a'.checkedAt
    ensures InBatchResult(m, b, a, source) == InBatchResult(m, b, a', source)
  {
  }

  lemma {:induction false} DuplicateResultsAgree(m: Monitoring, b: Batch, a: Attempt, a': Attempt, ids: set<string>,
                                                 sources: seq<string>)
    requires ValidRows(b, a.now) == ValidRows(b, a'.now) && a.checkedAt == a'.checkedAt
    requires a.counted == a'.counted
    ensures InBatchResults(m, b, a, sources) == InBatchResults(m, b, a', sources)
    ensures InSilverResults(m, b, a, ids, sources) == InSilverResults(m, b, a', ids, sources)
    decreases |sources|
  {
    if sources != [] {
      DuplicateResultsAgree(m, b, a, a', ids, sources[..|sources| - 1]);
      InSilverResultAgrees(m, b, a, a', ids, sources[|sources| - 1]);
      InBatchResultAgrees(m, b, a, a', sources[|sources| - 1]);
    }
  }

  /** The uninterrupted attempt whose result a history of interrupted ones amounts to: its quarantine is
      written when that of attempt `q` is, its clock and its DQ results are those of `d`, its merge that of `s`. */
  function Condense(q: Attempt, d: Attempt, s: Attempt): Attempt {
    Attempt(d.now, q.quarantinedAt, d.sources, d.validSources, d.counted, s.merged, d.checkedAt, s.processedAt)
  }

  lemma CondensedAttempt(m: Monitoring, b: Batch, q: Attempt, d: Attempt, s: Attempt, ids: set<string>)
    requires Feasible(b, d) && SameVerdict(b, d.now, q) && Representatives(ValidRows(b, d.now), s.merged)
    ensures
      var a := Condense(q, d, s);
      && Feasible(b, a)
      && QuarantineFrame(b, a) == QuarantineFrame(b, q)
      && DqFrame(m, b, a, ids) == DqFrame(m, b, d, ids)
      && SilverFrame(a) == SilverFrame(s)
  {
    var a := Condense(q, d, s);
    SameQuarantine(b, d.now, q);
    assert QuarantineFrame(b, a) == QuarantineFrame(b, q.(now := d.now));
    RowCheckResultsAgree(m, b, d.now, d, a, d.sources);
    DuplicateResultsAgree(m, b, d, a, ids, d.validSources);
  }

  ghost predicate AllTries(h: seq<Happening>) {
    forall k :: 0 <= k < |h| ==> h[k].Try?
  }

  lemma AllTriesIn(h: seq<Happening>, i: nat)
    requires AllTries(h) && i < |h|
    ensures AllTries(h[..i]) && AllTries(h[i + 1..])
  {
  }

  /** The tables after attempts with no other batch in between, in terms of the three attempts that
      were first to reach each of them. */
  lemma TriesAlone(m: Monitoring, st: Store, b: Batch, h: seq<Happening>)
    requires b.rows != [] && Replayable(b, h) && AllTries(h) && First(h, WRITES).Some?
    ensures First(h, 1).Some? && First(h, 2).Some?
    ensures
      var q, d, s := h[First(h, 1).value].attempt, h[First(h, 2).value].attempt, h[First(h, WRITES).value].attempt;
      Play(m, st, b, h) == Store(InsertOnce(st.silver, SilverFrame(s), EventIdOf),
                                 InsertOnce(st.quarantine, QuarantineFrame(b, q), QuarantineKeyOf),
                                 InsertOnce(st.dq, DqFrame(m, b, d, SilverIds(st.silver)), DqKeyOf))
  {
    FirstWriteWins(m, st, b, h);
    FirstIsMonotone(h);
    var d, s := First(h, 2).value, First(h, WRITES).value;
    AfterTheFirst(m, st, b, h, d, s);
    AllTriesIn(h, d);
    AllTriesIn(h, s);
    NobodyElse(st.silver, h[..d]);
    NobodyElse(st.silver, h[..s]);
    NobodyElse(InsertOnce(st.silver, SilverFrame(h[s].attempt), EventIdOf), h[s + 1..]);
  }

  /** Any number of attempts, each cut after any of its writes, one of them at last complete, leave
      Silver, the quarantine and the DQ results exactly as one uninterrupted attempt would, as long as their
      clocks do not contradict each other. `Verdicts` shows that this is no more than is needed. */
  lemma ReplayEqualsOneAttempt(m: Monitoring, st: Store, b: Batch, h: seq<Happening>)
    requires Replayable(b, h) && OneVerdict(b, h) && AllTries(h)
    ensures exists a :: Feasible(b, a) && Play(m, st, b, h) == RunAttempt(m, st, b, a, WRITES)
  {
    if b.rows == [] {
      EmptyBatchWritesNothing(m, st, b, h);
      var a := h[First(h, WRITES).value].attempt;
      assert Feasible(b, a) && Play(m, st, b, h) == RunAttempt(m, st, b, a, WRITES);
    } else {
      TriesAlone(m, st, b, h);
      var q, d, s := h[First(h, 1).value].attempt, h[First(h, 2).value].attempt, h[First(h, WRITES).value].attempt;
      CondensedAttempt(m, b, q, d, s, SilverIds(st.silver));
      var a := Condense(q, d, s);
      WritesOf(m, st, b, a, WRITES);
      assert Feasible(b, a) && Play(m, st, b, h) == RunAttempt(m, st, b, a, WRITES);
    }
  }

  /** The same history with one attempt `a` in place of all the others: its quarantine and its DQ results
      are written at place `d`, its rows are merged at place `s`. */
  function OneAttempt(h: seq<Happening>, a: Attempt, d: nat, s: nat): seq<Happening> {
    seq(|h|, k requires 0 <= k < |h| =>
      if h[k].Others? then h[k] else Try(a, if k == s then WRITES else if k == d then 2 else 0))
  }

  ghost predicate SameOthers(h: seq<Happening>, h': seq<Happening>) {
    |h| == |h'| && forall k :: 0 <= k < |h| ==> h[k].Try? == h'[k].Try? && (h[k].Others? ==> h'[k] == h[k])
  }

  lemma {:induction false} OthersAgree(silver: seq<SilverRow>, h: seq<Happening>, h': seq<Happening>)
    requires SameOthers(h, h')
    ensures OthersOnly(silver, h) == OthersOnly(silver, h')
    decreases |h|
  {
    if h != [] {
      OthersAgree(silver, h[..|h| - 1], h'[..|h| - 1]);
    }
  }

  lemma FirstIs(h: seq<Happening>, writes: nat, i: nat)
    requires i < |h| && h[i].Try? && h[i].landed >= writes
    requires forall k :: 0 <= k < i && h[k].Try? ==> h[k].landed < writes
    ensures First(h, writes) == Some(i)
  {
  }

  lemma FirstOfOne(h: seq<Happening>, a: Attempt, d: nat, s: nat)
    requires d <= s < |h| && h[d].Try? && h[s].Try?
    ensures
      var h' := OneAttempt(h, a, d, s);
      First(h', 1) == First(h', 2) == Some(d) && First(h', WRITES) == Some(s)
  {
    var h' := OneAttempt(h, a, d, s);
    FirstIs(h', 1, d);
    FirstIs(h', 2, d);
    FirstIs(h', WRITES, s);
  }

  lemma DqIs(m: Monitoring, st: Store, b: Batch, h: seq<Happening>, d: nat, a: Attempt, ids: set<string>)
    requires First(h, 2) == Some(d) && h[d].attempt == a && ids == SilverIds(OthersOnly(st.silver, h[..d]))
    ensures DqAfter(m, st, b, h) == InsertOnce(st.dq, DqFrame(m, b, a, ids), DqKeyOf)
  {
  }

  lemma SameDq(m: Monitoring, st: Store, b: Batch, h: seq<Happening>, h': seq<Happening>, d: nat,
               a: Attempt, a': Attempt, ids: set<string>)
    requires First(h, 2) == First(h', 2) == Some(d) && h[d].attempt == a && h'[d].attempt == a'
    requires ids == SilverIds(OthersOnly(st.silver, h[..d]))
             && OthersOnly(st.silver, h[..d]) == OthersOnly(st.silver, h'[..d])
    requires DqFrame(m, b, a', ids) == DqFrame(m, b, a, ids)
    ensures DqAfter(m, st, b, h') == DqAfter(m, st, b, h)
  {
    DqIs(m, st, b, h, d, a, ids);
    DqIs(m, st, b, h', d, a', ids);
  }

  lemma SameSilver(st: Store, h: seq<Happening>, h': seq<Happening>, s: nat, a: Attempt, a': Attempt,
                   frame: seq<SilverRow>)
    requires First(h, WRITES) == First(h', WRITES) == Some(s) && SameOthers(h, h')
    requires h[s].attempt == a && h'[s].attempt == a' && SilverFrame(a) == SilverFrame(a') == frame
    ensures SilverAfter(st, h') == SilverAfter(st, h)
  {
    OthersAgree(st.silver, h[..s], h'[..s]);
    SilverIs(st, h, s, a);
    SilverIs(st, h', s, a');
    OthersAgree(InsertOnce(OthersOnly(st.silver, h[..s]), frame, EventIdOf), h[s + 1..], h'[s + 1..]);
  }

  lemma QuarantineIs(st: Store, b: Batch, h: seq<Happening>, q: nat, a: Attempt)
    requires First(h, 1) == Some(q) && h[q].attempt == a
    ensures QuarantineAfter(st, b, h) == InsertOnce(st.quarantine, QuarantineFrame(b, a), QuarantineKeyOf)
  {
  }

  lemma SameQuarantineTable(st: Store, b: Batch, h: seq<Happening>, h': seq<Happening>, q: nat, d: nat,
                            a: Attempt, a': Attempt)
    requires First(h, 1) == Some(q) && First(h', 1) == Some(d) && h[q].attempt == a && h'[d].attempt == a'
    requires QuarantineFrame(b, a') == QuarantineFrame(b, a)
    ensures QuarantineAfter(st, b, h') == QuarantineAfter(st, b, h)
  {
    QuarantineIs(st, b, h, q, a);
    QuarantineIs(st, b, h', d, a');
  }

  lemma OthersStayInPlace(h: seq<Happening>, a: Attempt, d: nat, s: nat)
    ensures SameOthers(h, OneAttempt(h, a, d, s))
  {
  }

  lemma SameTables(m: Monitoring, st: Store, b: Batch, h: seq<Happening>, a: Attempt, q: nat, d: nat, s: nat,
                   ids: set<string>)
    requires First(h, 1) == Some(q) && First(h, 2) == Some(d) && First(h, WRITES) == Some(s) && d <= s
    requires QuarantineFrame(b, a) == QuarantineFrame(b, h[q].attempt) && SilverFrame(a) == SilverFrame(h[s].attempt)
    requires ids == SilverIds(OthersOnly(st.silver, h[..d]))
    requires DqFrame(m, b, a, ids) == DqFrame(m, b, h[d].attempt, ids)
    ensures
      var h' := OneAttempt(h, a, d, s);
      && SilverAfter(st, h') == SilverAfter(st, h)
      && QuarantineAfter(st, b, h') == QuarantineAfter(st, b, h)
      && DqAfter(m, st, b, h') == DqAfter(m, st, b, h)
  {
    FirstOfOne(h, a, d, s);
    OthersStayInPlace(h, a, d, s);
    SameTablesAs(m, st, b, h, OneAttempt(h, a, d, s), a, q, d, s, ids);
  }

  lemma SameTablesAs(m: Monitoring, st: Store, b: Batch, h: seq<Happening>, h': seq<Happening>, a: Attempt,
                     q: nat, d: nat, s: nat, ids: set<string>)
    requires First(h, 1) == Some(q) && First(h, 2) == Some(d) && First(h, WRITES) == Some(s)
    requires First(h', 1) == First(h', 2) == Some(d) && First(h', WRITES) == Some(s)
    requires SameOthers(h, h') && h'[d].attempt == h'[s].attempt == a
    requires QuarantineFrame(b, a) == QuarantineFrame(b, h[q].attempt) && SilverFrame(a) == SilverFrame(h[s].attempt)
    requires ids == SilverIds(OthersOnly(st.silver, h[..d]))
    requires DqFrame(m, b, a, ids) == DqFrame(m, b, h[d].attempt, ids)
    ensures SilverAfter(st, h') == SilverAfter(st, h)
    ensures QuarantineAfter(st, b, h') == QuarantineAfter(st, b, h)
    ensures DqAfter(m, st, b, h') == DqAfter(m, st, b, h)
  {
    OthersAgree(st.silver, h[..d], h'[..d]);
    SameDq(m, st, b, h, h', d, h[d].attempt, a, ids);
    SameQuarantineTable(st, b, h, h', q, d, h[q].attempt, a);
    SameSilver(st, h, h', s, h[s].attempt, a, SilverFrame(a));
  }

  lemma OneAttemptIsReplayable(b: Batch, h: seq<Happening>, a: Attempt, d: nat, s: nat)
    requires Feasible(b, a) && d <= s < |h| && h[d].Try? && h[s].Try?
    ensures Replayable(b, OneAttempt(h, a, d, s))
  {
    FirstOfOne(h, a, d, s);
  }

  lemma CondensedReplay(m: Monitoring, st: Store, b: Batch, h: seq<Happening>, q: nat, d: nat, s: nat)
    returns (a: Attempt)
    requires b.rows != [] && Replayable(b, h) && OneVerdict(b, h)
    requires First(h, 1) == Some(q) && First(h, 2) == Some(d) && First(h, WRITES) == Some(s) && d <= s
    ensures Feasible(b, a) && Play(m, st, b, OneAttempt(h, a, d, s)) == Play(m, st, b, h)
  {
    a := Condense(h[q].attempt, h[d].attempt, h[s].attempt);
    var ids := SilverIds(OthersOnly(st.silver, h[..d]));
    CondensedAttempt(m, b, h[q].attempt, h[d].attempt, h[s].attempt, ids);
    OneAttemptIsReplayable(b, h, a, d, s);
    SameTables(m, st, b, h, a, q, d, s, ids);
    FirstWriteWins(m, st, b, h);
    FirstWriteWins(m, st, b, OneAttempt(h, a, d, s));
  }

  /** The same among other batches: whatever they merge between the attempts, the tables are those of one
      single attempt that writes its quarantine and its DQ results at one moment of this history and merges
      at a later one, with the other batches merging when they did. */
  lemma ReplayEqualsOneAttemptAmongOthers(m: Monitoring, st: Store, b: Batch, h: seq<Happening>)
    requires b.rows != [] && Replayable(b, h) && OneVerdict(b, h)
    ensures First(h, 2).Some? && First(h, 2).value <= First(h, WRITES).value
    ensures exists a :: Feasible(b, a)
              && Play(m, st, b, h) == Play(m, st, b, OneAttempt(h, a, First(h, 2).value, First(h, WRITES).value))
  {
    FirstIsMonotone(h);
    var a := CondensedReplay(m, st, b, h, First(h, 1).value, First(h, 2).value, First(h, WRITES).value);
  }

  lemma {:induction false} NobodyElse(silver: seq<SilverRow>, h: seq<Happening>)
    requires AllTries(h)
    ensures OthersOnly(silver, h) == silver
    decreases |h|
  {
    if h != [] {
      NobodyElse(silver, h[..|h| - 1]);
    }
  }

  lemma {:induction false} EmptyBatchWritesNothing(m: Monitoring, st: Store, b: Batch, h: seq<Happening>)
    requires b.rows == [] && AllTries(h)
    ensures Play(m, st, b, h) == st
    decreases |h|
  {
    if h != [] {
      EmptyBatchWritesNothing(m, st, b, h[..|h| - 1]);
    }
  }

  /******* Uniqueness and permanence of Silver *******/

  lemma SilverFrameIsUnique(b: Batch, a: Attempt)
    requires Feasible(b, a)
    ensures UniqueBy(SilverFrame(a), EventIdOf)
  {
    var f := SilverFrame(a);
    forall i, j | 0 <= i < j < |f| ensures Map(EventIdOf, f)[i] != Map(EventIdOf, f)[j] {
      UniqueRowsAreValid(b, a, a.merged[i]);
      UniqueRowsAreValid(b, a, a.merged[j]);
      assert Map(IdOf, a.merged)[i] != Map(IdOf, a.merged)[j];
    }
  }

  /** Through any history of attempts, whatever their clocks and wherever they are cut, and of merges of
      other batches, Silver keeps its rows and never holds two with one event id. */
  lemma {:induction false} SilverStaysUnique(m: Monitoring, st: Store, b: Batch, h: seq<Happening>)
    requires UniqueBy(st.silver, EventIdOf)
    requires forall k :: 0 <= k < |h| ==>
               (h[k].Try? ==> Feasible(b, h[k].attempt)) && (h[k].Others? ==> UniqueBy(h[k].rows, EventIdOf))
    ensures UniqueBy(Play(m, st, b, h).silver, EventIdOf) && st.silver <= Play(m, st, b, h).silver
    decreases |h|
  {
    if h != [] {
      SilverStaysUnique(m, st, b, h[..|h| - 1]);
      var silver := Play(m, st, b, h[..|h| - 1]).silver;
      match h[|h| - 1]
      case Try(a, _) =>
        SilverFrameIsUnique(b, a);
        InsertOnceUnique(silver, SilverFrame(a), EventIdOf);
      case Others(rows) =>
        InsertOnceUnique(silver, rows, EventIdOf);
    }
  }

  /******* Streams and backfills, interleaved *******/

  /** One attempt at one batch of some stream or backfill, up to its `landed`-th write. */
  datatype Piece = Piece(batch: Batch, attempt: Attempt, landed: nat)

  function PlayAll(m: Monitoring, st: Store, h: seq<Piece>): Store {
    if h == [] then st else
      var p := h[|h| - 1];
      RunAttempt(m, PlayAll(m, st, h[..|h| - 1]), p.batch, p.attempt, p.landed)
  }

  /** The event ids of the rows that were valid in an attempt whose merge landed. */
  function MergedIds(h: seq<Piece>): set<Option<string>> {
    if h == [] then {} else
      var p := h[|h| - 1];
      MergedIds(h[..|h| - 1]) + if p.landed >= WRITES then Ids(ValidRows(p.batch, p.attempt.now)) else {}
  }

  lemma SilverOfPiece(m: Monitoring, st: Store, p: Piece)
    ensures RunAttempt(m, st, p.batch, p.attempt, p.landed).silver
         == if p.batch.rows == [] || p.landed < WRITES then st.silver
            else InsertOnce(st.silver, SilverFrame(p.attempt), EventIdOf)
  {
  }

  lemma OnePieceIds(m: Monitoring, st: Store, p: Piece)
    requires UniqueBy(st.silver, EventIdOf) && Feasible(p.batch, p.attempt)
    ensures
      var silver := RunAttempt(m, st, p.batch, p.attempt, p.landed).silver;
      && UniqueBy(silver, EventIdOf) && st.silver <= silver
      && forall id :: id in SilverIds(silver) <==>
           id in SilverIds(st.silver) || (p.landed >= WRITES && Some(id) in Ids(ValidRows(p.batch, p.attempt.now)))
  {
    SilverOfPiece(m, st, p);
    if p.batch.rows == [] {
      assert Diagnosed(p.batch) == [];
    } else if p.landed >= WRITES {
      SilverFrameIsUnique(p.batch, p.attempt);
      InsertOnceUnique(st.silver, SilverFrame(p.attempt), EventIdOf);
      InsertOnceKeys(st.silver, SilverFrame(p.attempt), EventIdOf);
      SilverKeys(p.batch, p.attempt);
    }
  }

  /** Attempts of any batches of any streams and backfills, in any interleaving, cut anywhere, whatever the
      clocks: Silver keeps its rows and stays unique, and it holds exactly the events it held and the valid
      events of every attempt whose merge landed. */
  lemma {:induction false} StreamsFillSilver(m: Monitoring, st: Store, h: seq<Piece>)
    requires UniqueBy(st.silver, EventIdOf)
    requires forall k :: 0 <= k < |h| ==> Feasible(h[k].batch, h[k].attempt)
    ensures
      var silver := PlayAll(m, st, h).silver;
      && UniqueBy(silver, EventIdOf) && st.silver <= silver
      && forall id :: id in SilverIds(silver) <==> id in SilverIds(st.silver) || Some(id) in MergedIds(h)
    decreases |h|
  {
    if h != [] {
      StreamsFillSilver(m, st, h[..|h| - 1]);
      OnePieceIds(m, PlayAll(m, st, h[..|h| - 1]), h[|h| - 1]);
    }
  }

  /******* Why the clock verdict has to be the same *******/

  function RowKey(b: Batch, r: Row): QuarantineKey {
    QuarantineKey(b.runId, r.topic, r.partition, r.offset)
  }

  /** No other row of the batch has the coordinates of this one. */
  ghost predicate HasOwnPlace(b: Batch, r: Row) {
    r in Diagnosed(b) && forall x :: x in Diagnosed(b) && RowKey(b, x) == RowKey(b, r) ==> x == r
  }

  /** And none has its event id. */
  ghost predicate IsAlone(b: Batch, r: Row) {
    && HasOwnPlace(b, r) && r.event.eventId.Some?
    && forall x :: x in Diagnosed(b) && IdOf(x) == IdOf(r) ==> x == r
  }

  lemma InvalidRowIsQuarantined(b: Batch, a: Attempt, r: Row)
    requires r in Diagnosed(b)
    ensures IsInvalid(a.now)(r) ==> RowKey(b, r) in Keys(QuarantineFrame(b, a), QuarantineKeyOf)
    ensures HasOwnPlace(b, r) && RowKey(b, r) in Keys(QuarantineFrame(b, a), QuarantineKeyOf) ==> IsInvalid(a.now)(r)
  {
    var rows, frame := InvalidRows(b, a.now), QuarantineFrame(b, a);
    FilterMembers(IsInvalid(a.now), Diagnosed(b));
    if IsInvalid(a.now)(r) {
      assert r in rows;
      var i :| 0 <= i < |rows| && rows[i] == r;
      assert frame[i] in frame && QuarantineKeyOf(frame[i]) == RowKey(b, r);
    }
    if HasOwnPlace(b, r) && RowKey(b, r) in Keys(frame, QuarantineKeyOf) {
      var q :| q in frame && QuarantineKeyOf(q) == RowKey(b, r);
      var row := QuarantinedFrom(b, a, q);
      assert Diagnose(b.drifted)(row) == r;
    }
  }

  lemma ValidRowIsMerged(b: Batch, a: Attempt, r: Row)
    requires Feasible(b, a) && IsAlone(b, r)
    ensures r.event.eventId.value in Keys(SilverFrame(a), EventIdOf) <==> IsValid(a.now)(r)
  {
    SilverKeys(b, a);
    FilterMembers(IsValid(a.now), Diagnosed(b));
    if IsValid(a.now)(r) {
      assert r in ValidRows(b, a.now) && IdOf(r) in Ids(ValidRows(b, a.now));
    }
  }

  /** One more happening adds to the tables, and an attempt adds what it wrote. */
  lemma HappeningQuarantines(m: Monitoring, st: Store, b: Batch, x: Happening)
    requires b.rows != []
    ensures
      var keys := Keys(PlayOne(m, st, b, x).quarantine, QuarantineKeyOf);
      && Keys(st.quarantine, QuarantineKeyOf) <= keys
      && (x.Try? && x.landed >= 1 ==> Keys(QuarantineFrame(b, x.attempt), QuarantineKeyOf) <= keys)
  {
    if x.Try? && x.landed >= 1 {
      var quarantine := InsertOnce(st.quarantine, QuarantineFrame(b, x.attempt), QuarantineKeyOf);
      assert PlayOne(m, st, b, x).quarantine == quarantine;
      InsertOnceKeys(st.quarantine, QuarantineFrame(b, x.attempt), QuarantineKeyOf);
    } else {
      assert PlayOne(m, st, b, x).quarantine == st.quarantine;
    }
  }

  lemma HappeningMerges(m: Monitoring, st: Store, b: Batch, x: Happening)
    requires b.rows != []
    ensures
      var ids := SilverIds(PlayOne(m, st, b, x).silver);
      && SilverIds(st.silver) <= ids
      && (x.Try? && x.landed >= WRITES ==> Keys(SilverFrame(x.attempt), EventIdOf) <= ids)
  {
    match x
    case Others(rows) =>
      InsertOnceKeys(st.silver, rows, EventIdOf);
    case Try(a, landed) =>
      SilverOfPiece(m, st, Piece(b, a, landed));
      InsertOnceKeys(st.silver, SilverFrame(a), EventIdOf);
  }

  /** What some attempt has written stays written, whatever follows. */
  lemma {:induction false} WrittenStays(m: Monitoring, st: Store, b: Batch, h: seq<Happening>, k: nat)
    requires b.rows != [] && k < |h| && h[k].Try?
    ensures
      var st', a := Play(m, st, b, h), h[k].attempt;
      && (h[k].landed >= 1 ==> Keys(QuarantineFrame(b, a), QuarantineKeyOf) <= Keys(st'.quarantine, QuarantineKeyOf))
      && (h[k].landed >= WRITES ==> Keys(SilverFrame(a), EventIdOf) <= SilverIds(st'.silver))
    decreases |h|
  {
    var before := Play(m, st, b, h[..|h| - 1]);
    assert Play(m, st, b, h) == PlayOne(m, before, b, h[|h| - 1]);
    HappeningQuarantines(m, before, b, h[|h| - 1]);
    HappeningMerges(m, before, b, h[|h| - 1]);
    if k < |h| - 1 {
      WrittenStays(m, st, b, h[..|h| - 1], k);
    }
  }

  /** If, in any history, some attempt quarantines a row and another one merges it, its verdict having
      changed in between, the row ends up in both tables, and no single attempt could have done that. */
  lemma VerdictChangeIsVisible(m: Monitoring, st: Store, b: Batch, r: Row, h: seq<Happening>, i: nat, j: nat,
                               a: Attempt)
    requires IsAlone(b, r) && Feasible(b, a)
    requires RowKey(b, r) !in Keys(st.quarantine, QuarantineKeyOf) && r.event.eventId.value !in SilverIds(st.silver)
    requires i < |h| && h[i].Try? && h[i].landed >= 1 && !IsValid(h[i].attempt.now)(r)
    requires j < |h| && h[j].Try? && h[j].landed >= WRITES && IsValid(h[j].attempt.now)(r) && Feasible(b, h[j].attempt)
    ensures RowKey(b, r) in Keys(Play(m, st, b, h).quarantine, QuarantineKeyOf)
    ensures r.event.eventId.value in SilverIds(Play(m, st, b, h).silver)
    ensures Play(m, st, b, h) != RunAttempt(m, st, b, a, WRITES)
  {
    WrittenStays(m, st, b, h, i);
    InvalidRowIsQuarantined(b, h[i].attempt, r);
    WrittenStays(m, st, b, h, j);
    ValidRowIsMerged(b, h[j].attempt, r);
    InvalidRowIsQuarantined(b, a, r);
    ValidRowIsMerged(b, a, r);
    WritesOf(m, st, b, a, WRITES);
    InsertOnceKeys(st.quarantine, QuarantineFrame(b, a), QuarantineKeyOf);
    InsertOnceKeys(st.silver, SilverFrame(a), EventIdOf);
  }
}
