/**
 The clock verdicts of repeated attempts. `Replay` shows that a replayed batch leaves the tables of one
 uninterrupted attempt if the verdicts about `requested_at <= now` do not contradict each other; here it is
 shown that this is exactly what it takes.
 */
module Verdicts {
  import opened Collections
  import opened DeltaTables
  import opened Rows
  import opened Checks
  import opened SilverBatch
  import opened BatchConservation
  import opened Replay
  import opened BatchReports
  import opened DqKeys

  /******* The batch and the tables it meets *******/

  /** As Bronze guarantees: a coordinate names one row. */
  ghost predicate PlacesAreOwn(b: Batch) {
    forall r :: r in Diagnosed(b) ==> HasOwnPlace(b, r)
  }

  /** The tables do not know this batch yet. */
  ghost predicate IsNew(st: Store, b: Batch) {
    && (forall r :: r in Diagnosed(b) ==> RowKey(b, r) !in Keys(st.quarantine, QuarantineKeyOf))
    && (forall r :: r in Diagnosed(b) && r.event.eventId.Some? ==> r.event.eventId.value !in SilverIds(st.silver))
    && (forall k :: k in Keys(st.dq, DqKeyOf) ==> k.runId != b.runId)
  }

  /** Attempts follow each other, and the clock does not run backwards between them. */
  ghost predicate ClocksAdvance(h: seq<Happening>) {
    forall i, j :: 0 <= i < j < |h| && h[i].Try? && h[j].Try? ==> h[i].attempt.now <= h[j].attempt.now
  }

  ghost predicate AllFeasible(b: Batch, h: seq<Happening>) {
    forall k :: 0 <= k < |h| && h[k].Try? ==> Feasible(b, h[k].attempt)
  }

  /******* What a complete attempt leaves behind *******/

  lemma InsertNew<R, K>(t: seq<R>, source: seq<R>, key: R -> K)
    requires Keys(t, key) !! Keys(source, key)
    ensures InsertOnce(t, source, key) == t + source
  {
    forall r | r in source ensures Unmatched(Keys(t, key), key)(r) {
      assert key(r) in Keys(source, key);
    }
    FilterAll(Unmatched(Keys(t, key), key), source);
  }

  lemma QuarantineIsNew(st: Store, b: Batch, a: Attempt)
    requires IsNew(st, b)
    ensures Keys(st.quarantine, QuarantineKeyOf) !! Keys(QuarantineFrame(b, a), QuarantineKeyOf)
  {
    forall k | k in Keys(QuarantineFrame(b, a), QuarantineKeyOf) ensures k !in Keys(st.quarantine, QuarantineKeyOf) {
      var q :| q in QuarantineFrame(b, a) && QuarantineKeyOf(q) == k;
      var row := QuarantinedFrom(b, a, q);
      assert k == RowKey(b, Diagnose(b.drifted)(row));
    }
  }

  lemma SilverIsNew(st: Store, b: Batch, a: Attempt)
    requires IsNew(st, b) && Feasible(b, a)
    ensures SilverIds(st.silver) !! Keys(SilverFrame(a), EventIdOf)
  {
    SilverKeys(b, a);
    FilterMembers(IsValid(a.now), Diagnosed(b));
    forall id | id in Keys(SilverFrame(a), EventIdOf) ensures id !in SilverIds(st.silver) {
      var r :| r in ValidRows(b, a.now) && IdOf(r) == Some(id);
    }
  }

  lemma DqIsNew(m: Monitoring, st: Store, b: Batch, a: Attempt, ids: set<string>)
    requires IsNew(st, b)
    ensures Keys(st.dq, DqKeyOf) !! Keys(DqFrame(m, b, a, ids), DqKeyOf)
  {
    DqFrameKeys(m, b, a, ids);
    KeysNameTheirRun(b.runId, Elements(a.sources), ROW_CHECKS);
    KeysNameTheirRun(b.runId, Elements(a.validSources), [DuplicateEventIdInBatch]);
    KeysNameTheirRun(b.runId, Elements(a.validSources), [DuplicateEventIdAlreadyInSilver]);
  }

  lemma KeysNameTheirRun(runId: string, sources: set<string>, checks: seq<Check>)
    ensures forall k :: k in GroupKeys(runId, sources, checks) ==>
              k.runId == runId && k.check in checks && exists s :: s in sources && ReportedSource(s) == k.source
  {
  }

  lemma CompleteTables(m: Monitoring, st: Store, b: Batch, a: Attempt)
    requires b.rows != [] && IsNew(st, b) && Feasible(b, a)
    ensures RunAttempt(m, st, b, a, WRITES)
         == Store(st.silver + SilverFrame(a), st.quarantine + QuarantineFrame(b, a),
                  st.dq + DqFrame(m, b, a, SilverIds(st.silver)))
  {
    WritesOf(m, st, b, a, WRITES);
    QuarantineIsNew(st, b, a);
    SilverIsNew(st, b, a);
    DqIsNew(m, st, b, a, SilverIds(st.silver));
    InsertNew(st.silver, SilverFrame(a), EventIdOf);
    InsertNew(st.quarantine, QuarantineFrame(b, a), QuarantineKeyOf);
    InsertNew(st.dq, DqFrame(m, b, a, SilverIds(st.silver)), DqKeyOf);
  }

  lemma CompleteKeys(m: Monitoring, st: Store, b: Batch, a: Attempt)
    requires b.rows != []
    ensures
      var st' := RunAttempt(m, st, b, a, WRITES);
      && Keys(st'.quarantine, QuarantineKeyOf)
         == Keys(st.quarantine, QuarantineKeyOf) + Keys(QuarantineFrame(b, a), QuarantineKeyOf)
      && SilverIds(st'.silver) == SilverIds(st.silver) + Keys(SilverFrame(a), EventIdOf)
      && Keys(st'.dq, DqKeyOf) == Keys(st.dq, DqKeyOf) + Keys(DqFrame(m, b, a, SilverIds(st.silver)), DqKeyOf)
  {
    WritesOf(m, st, b, a, WRITES);
    InsertOnceKeys(st.quarantine, QuarantineFrame(b, a), QuarantineKeyOf);
    InsertOnceKeys(st.silver, SilverFrame(a), EventIdOf);
    InsertOnceKeys(st.dq, DqFrame(m, b, a, SilverIds(st.silver)), DqKeyOf);
  }

  /******* If the tables are those of one attempt, no attempt added anything *******/

  lemma {:induction false} DqStays(m: Monitoring, st: Store, b: Batch, h: seq<Happening>, k: nat)
    returns (ids: set<string>)
    requires b.rows != [] && k < |h| && h[k].Try? && h[k].landed >= 2
    ensures Keys(DqFrame(m, b, h[k].attempt, ids), DqKeyOf) <= Keys(Play(m, st, b, h).dq, DqKeyOf)
    decreases |h|
  {
    var before := Play(m, st, b, h[..|h| - 1]);
    if k == |h| - 1 {
      ids := SilverIds(before.silver);
      WritesOf(m, before, b, h[k].attempt, h[k].landed);
      InsertOnceKeys(before.dq, DqFrame(m, b, h[k].attempt, ids), DqKeyOf);
    } else {
      ids := DqStays(m, st, b, h[..|h| - 1], k);
      DqGrows(m, before, b, h[|h| - 1]);
      KeysGrow(before.dq, Play(m, st, b, h).dq, DqKeyOf);
    }
  }

  lemma DqGrows(m: Monitoring, st: Store, b: Batch, x: Happening)
    ensures st.dq <= PlayOne(m, st, b, x).dq
  {
  }

  /** No attempt quarantines a row that is valid for the one attempt whose tables these are. */
  lemma NobodyQuarantinesMore(m: Monitoring, st: Store, b: Batch, h: seq<Happening>, k: nat, a: Attempt)
    requires b.rows != [] && PlacesAreOwn(b) && IsNew(st, b) && k < |h| && h[k].Try? && h[k].landed >= 1
    requires Play(m, st, b, h) == RunAttempt(m, st, b, a, WRITES)
    ensures NoNewInvalid(b, a, h[k].attempt)
  {
    WrittenStays(m, st, b, h, k);
    CompleteKeys(m, st, b, a);
    forall r | r in Diagnosed(b) && IsValid(a.now)(r) ensures IsValid(h[k].attempt.now)(r) {
      InvalidRowIsQuarantined(b, h[k].attempt, r);
      InvalidRowIsQuarantined(b, a, r);
    }
  }

  lemma NobodyMergesMore(m: Monitoring, st: Store, b: Batch, h: seq<Happening>, k: nat, a: Attempt)
    requires b.rows != [] && IsNew(st, b) && k < |h| && h[k].Try? && h[k].landed >= WRITES
    requires Feasible(b, h[k].attempt) && Feasible(b, a)
    requires Play(m, st, b, h) == RunAttempt(m, st, b, a, WRITES)
    ensures Ids(ValidRows(b, h[k].attempt.now)) <= Ids(ValidRows(b, a.now))
  {
    WrittenStays(m, st, b, h, k);
    CompleteKeys(m, st, b, a);
    SilverIsNew(st, b, h[k].attempt);
    SilverKeys(b, h[k].attempt);
    SilverKeys(b, a);
    FilterMembers(IsValid(h[k].attempt.now), Diagnosed(b));
    forall id | id in Ids(ValidRows(b, h[k].attempt.now)) ensures id in Ids(ValidRows(b, a.now)) {
      var r :| r in ValidRows(b, h[k].attempt.now) && IdOf(r) == id;
      ValidIffWellFormed(r, h[k].attempt.now);
      assert id == Some(id.value) && id.value in Keys(SilverFrame(h[k].attempt), EventIdOf);
    }
  }

  lemma ReportedSourceIsGroup(m: Monitoring, b: Batch, a: Attempt, ids: set<string>, s: string)
    requires Feasible(b, a) && s in {UI, CUSTOMER_SUCCESS, LEGAL}
    requires DqKey(b.runId, ReportedSource(s), DuplicateEventIdInBatch) in Keys(DqFrame(m, b, a, ids), DqKeyOf)
    ensures s in Sources(ValidRows(b, a.now))
  {
    DqFrameKeys(m, b, a, ids);
    KeysNameTheirRun(b.runId, Elements(a.sources), ROW_CHECKS);
    KeysNameTheirRun(b.runId, Elements(a.validSources), [DuplicateEventIdInBatch]);
    KeysNameTheirRun(b.runId, Elements(a.validSources), [DuplicateEventIdAlreadyInSilver]);
    DuplicatesAreNotListed();
    var s' :| s' in Elements(a.validSources) && ReportedSource(s') == ReportedSource(s);
    ValidSourcesAreNamed(b, a, s');
  }

  lemma NobodyReportsMore(m: Monitoring, st: Store, b: Batch, h: seq<Happening>, k: nat, a: Attempt)
    requires b.rows != [] && IsNew(st, b) && k < |h| && h[k].Try? && h[k].landed >= 2
    requires Feasible(b, h[k].attempt) && Feasible(b, a)
    requires Play(m, st, b, h) == RunAttempt(m, st, b, a, WRITES)
    ensures Sources(ValidRows(b, h[k].attempt.now)) <= Sources(ValidRows(b, a.now))
  {
    var ids := DqStays(m, st, b, h, k);
    CompleteKeys(m, st, b, a);
    DqFrameKeys(m, b, h[k].attempt, ids);
    forall s | s in Sources(ValidRows(b, h[k].attempt.now)) ensures s in Sources(ValidRows(b, a.now)) {
      assert s in Elements(h[k].attempt.validSources);
      ValidSourcesAreNamed(b, h[k].attempt, s);
      var key := DqKey(b.runId, ReportedSource(s), DuplicateEventIdInBatch);
      assert DuplicateEventIdInBatch in [DuplicateEventIdInBatch];
      assert key in GroupKeys(b.runId, Elements(h[k].attempt.validSources), [DuplicateEventIdInBatch]);
      ReportedSourceIsGroup(m, b, a, SilverIds(st.silver), s);
    }
  }

  lemma MoreValidRows(b: Batch, x: Attempt, y: Attempt)
    requires NoNewInvalid(b, x, y)
    ensures Ids(ValidRows(b, x.now)) <= Ids(ValidRows(b, y.now))
    ensures Sources(ValidRows(b, x.now)) <= Sources(ValidRows(b, y.now))
  {
    FilterMembers(IsValid(x.now), Diagnosed(b));
    FilterMembers(IsValid(y.now), Diagnosed(b));
    assert forall r :: r in ValidRows(b, x.now) ==> r in ValidRows(b, y.now);
  }

  lemma LaterClocksRejectLess(b: Batch, x: Attempt, y: Attempt)
    requires x.now <= y.now
    ensures NoNewInvalid(b, x, y)
  {
    forall r | r in Diagnosed(b) && IsValid(x.now)(r) ensures IsValid(y.now)(r) {
      ValidityOnlyGrows(r, x.now, y.now);
    }
  }

  lemma NobodyAddsARow(b: Batch, h: seq<Happening>, k: nat)
    requires ClocksAdvance(h) && k < |h| && h[k].Try?
    ensures AddsNoRow(b, h, k)
  {
    if h[k].landed >= 1 {
      LaterClocksRejectLess(b, h[First(h, 1).value].attempt, h[k].attempt);
    }
  }

  lemma NobodyAddsASource(m: Monitoring, st: Store, b: Batch, h: seq<Happening>, k: nat, a: Attempt)
    requires b.rows != [] && PlacesAreOwn(b) && IsNew(st, b) && AllFeasible(b, h) && Feasible(b, a)
    requires Play(m, st, b, h) == RunAttempt(m, st, b, a, WRITES)
    requires k < |h| && h[k].Try?
    ensures AddsNoSource(b, h, k)
  {
    if h[k].landed >= 2 {
      var d := First(h, 2).value;
      NobodyReportsMore(m, st, b, h, k, a);
      NobodyQuarantinesMore(m, st, b, h, d, a);
      MoreValidRows(b, a, h[d].attempt);
    }
  }

  lemma NobodyAddsAnId(m: Monitoring, st: Store, b: Batch, h: seq<Happening>, k: nat, a: Attempt)
    requires b.rows != [] && PlacesAreOwn(b) && IsNew(st, b) && AllFeasible(b, h) && Feasible(b, a)
    requires Play(m, st, b, h) == RunAttempt(m, st, b, a, WRITES)
    requires k < |h| && h[k].Try?
    ensures AddsNoId(b, h, k)
  {
    if h[k].landed >= WRITES {
      var s := First(h, WRITES).value;
      NobodyMergesMore(m, st, b, h, k, a);
      NobodyQuarantinesMore(m, st, b, h, s, a);
      MoreValidRows(b, a, h[s].attempt);
    }
  }

  lemma NobodyAddsAnything(m: Monitoring, st: Store, b: Batch, h: seq<Happening>, a: Attempt)
    requires b.rows != [] && PlacesAreOwn(b) && IsNew(st, b) && ClocksAdvance(h) && AllFeasible(b, h)
    requires Feasible(b, a) && Play(m, st, b, h) == RunAttempt(m, st, b, a, WRITES)
    ensures Replayable(b, h)
  {
    forall k | 0 <= k < |h| && h[k].Try? ensures Feasible(b, h[k].attempt) && AddsNothing(b, h, k) {
      NobodyAddsARow(b, h, k);
      NobodyAddsASource(m, st, b, h, k, a);
      NobodyAddsAnId(m, st, b, h, k, a);
    }
  }

  /******* And the three first ones agree *******/

  lemma SameFrameSameVerdict(b: Batch, q: Attempt, a: Attempt, r: Row)
    requires HasOwnPlace(b, r) && QuarantineFrame(b, q) == QuarantineFrame(b, a)
    ensures FailedChecks(r, q.now) == FailedChecks(r, a.now)
  {
    InvalidRowIsQuarantined(b, q, r);
    InvalidRowIsQuarantined(b, a, r);
    if IsInvalid(q.now)(r) {
      FilterMembers(IsInvalid(q.now), Diagnosed(b));
      assert r in InvalidRows(b, q.now);
      var i :| 0 <= i < |InvalidRows(b, q.now)| && InvalidRows(b, q.now)[i] == r;
      assert QuarantineFrame(b, q)[i] == Quarantining(b.runId, q.now, q.quarantinedAt)(r);
      var r' := InvalidRows(b, a.now)[i];
      FilterMembers(IsInvalid(a.now), Diagnosed(b));
      assert r' in InvalidRows(b, a.now);
      assert QuarantineFrame(b, a)[i] == Quarantining(b.runId, a.now, a.quarantinedAt)(r');
    }
  }

  lemma {:induction false} SameCountSameRows<T>(p: T -> bool, q: T -> bool, s: seq<T>)
    requires forall x :: x in s && p(x) ==> q(x)
    ensures |Filter(p, s)| <= |Filter(q, s)|
    ensures |Filter(p, s)| == |Filter(q, s)| ==> forall x :: x in s ==> p(x) == q(x)
    decreases |s|
  {
    if s != [] {
      var u, x := s[..|s| - 1], s[|s| - 1];
      SameCountSameRows(p, q, u);
      assert s == u + [x] && x in s;
    }
  }

  /** Only `requested_at_not_future` depends on the clock. */
  lemma OnlyTheFutureCheckMoves(r: Row, t: int, u: int)
    requires (RequestedAtNotFuture in FailedChecks(r, t)) == (RequestedAtNotFuture in FailedChecks(r, u))
    ensures FailedChecks(r, t) == FailedChecks(r, u)
  {
    FilterMembers(Fails(r, t), ROW_CHECKS);
    FilterMembers(Fails(r, u), ROW_CHECKS);
    forall c | c in ROW_CHECKS ensures Fails(r, t)(c) == Fails(r, u)(c) {
      if c != RequestedAtNotFuture {
        assert Rule(c, r, t) == Rule(c, r, u);
      }
    }
    FilterAgree(Fails(r, t), Fails(r, u), ROW_CHECKS);
  }

  lemma LaterClocksFailLess(r: Row, t: int, u: int)
    requires t <= u && RequestedAtNotFuture in FailedChecks(r, u)
    ensures RequestedAtNotFuture in FailedChecks(r, t)
  {
    FilterMembers(Fails(r, t), ROW_CHECKS);
    FilterMembers(Fails(r, u), ROW_CHECKS);
    assert Fails(r, u)(RequestedAtNotFuture);
    EveryRowCheckIsListed();
  }

  /** Two clocks that find equally many rows in the future find the same ones. */
  lemma SameCountSameVerdict(b: Batch, t: int, u: int)
    requires t <= u
    requires |Filter(FailsCheck(RequestedAtNotFuture, t), Diagnosed(b))|
          == |Filter(FailsCheck(RequestedAtNotFuture, u), Diagnosed(b))|
    ensures forall r :: r in Diagnosed(b) ==> FailedChecks(r, t) == FailedChecks(r, u)
  {
    forall r | r in Diagnosed(b) && FailsCheck(RequestedAtNotFuture, u)(r)
      ensures FailsCheck(RequestedAtNotFuture, t)(r)
    {
      LaterClocksFailLess(r, t, u);
    }
    SameCountSameRows(FailsCheck(RequestedAtNotFuture, u), FailsCheck(RequestedAtNotFuture, t), Diagnosed(b));
    forall r | r in Diagnosed(b) ensures FailedChecks(r, t) == FailedChecks(r, u) {
      assert FailsCheck(RequestedAtNotFuture, u)(r) == FailsCheck(RequestedAtNotFuture, t)(r);
      OnlyTheFutureCheckMoves(r, t, u);
    }
  }

  lemma SameResultsSameVerdict(m: Monitoring, b: Batch, d: Attempt, a: Attempt, ids: set<string>)
    requires Feasible(b, d) && Feasible(b, a) && DqFrame(m, b, d, ids) == DqFrame(m, b, a, ids)
    ensures SameVerdict(b, d.now, a)
  {
    EveryRowCheckIsListed();
    RowChecksCoverTheBatch(m, b, d, ids, RequestedAtNotFuture);
    RowChecksCoverTheBatch(m, b, a, ids, RequestedAtNotFuture);
    FailingMeansViolating(Diagnosed(b), RequestedAtNotFuture, d.now);
    FailingMeansViolating(Diagnosed(b), RequestedAtNotFuture, a.now);
    if d.now <= a.now {
      SameCountSameVerdict(b, d.now, a.now);
    } else {
      SameCountSameVerdict(b, a.now, d.now);
    }
  }

  /** A merged row that looks like a valid one is itself valid. */
  lemma MergedIsValid(b: Batch, s: Attempt, a: Attempt, i: nat)
    requires Feasible(b, s) && Feasible(b, a) && SilverFrame(s) == SilverFrame(a) && i < |s.merged|
    ensures s.merged[i] in ValidRows(b, a.now)
  {
    UniqueRowsAreValid(b, s, s.merged[i]);
    assert SilverFrame(s)[i] == ToSilver(s.processedAt)(s.merged[i]);
    assert |a.merged| == |SilverFrame(a)|;
    UniqueRowsAreValid(b, a, a.merged[i]);
    assert SilverFrame(a)[i] == ToSilver(a.processedAt)(a.merged[i]);
    ValidIffWellFormed(s.merged[i], a.now);
    FilterMembers(IsValid(a.now), Diagnosed(b));
  }

  lemma SameFrameSameRepresentatives(b: Batch, s: Attempt, a: Attempt)
    requires Feasible(b, s) && Feasible(b, a) && SilverFrame(s) == SilverFrame(a)
    ensures Representatives(ValidRows(b, a.now), s.merged)
  {
    forall r | r in s.merged ensures r in ValidRows(b, a.now) {
      var i :| 0 <= i < |s.merged| && s.merged[i] == r;
      MergedIsValid(b, s, a, i);
    }
    SilverKeys(b, s);
    SilverKeys(b, a);
    ValidIdsAreTexts(b, s.now);
    ValidIdsAreTexts(b, a.now);
    forall id ensures id in Ids(s.merged) <==> id in Ids(ValidRows(b, a.now)) {
      if id.Some? {
        assert id == Some(id.value);
      }
    }
  }

  lemma ValidIdsAreTexts(b: Batch, now: int)
    ensures forall id :: id in Ids(ValidRows(b, now)) ==> id.Some?
  {
    FilterMembers(IsValid(now), Diagnosed(b));
    forall r | r in ValidRows(b, now) ensures IdOf(r).Some? {
      ValidIffWellFormed(r, now);
    }
  }

  lemma TheFirstOnesAgree(m: Monitoring, st: Store, b: Batch, h: seq<Happening>, a: Attempt)
    requires b.rows != [] && PlacesAreOwn(b) && IsNew(st, b) && AllFeasible(b, h) && AllTries(h) && Replayable(b, h)
    requires First(h, WRITES).Some?
    requires Feasible(b, a) && Play(m, st, b, h) == RunAttempt(m, st, b, a, WRITES)
    ensures OneVerdict(b, h)
  {
    TriesAlone(m, st, b, h);
    var q, d, s := h[First(h, 1).value].attempt, h[First(h, 2).value].attempt, h[First(h, WRITES).value].attempt;
    FramesAgree(m, st, b, q, d, s, a);
    VerdictsAgree(m, b, q, d, s, a, SilverIds(st.silver));
  }

  lemma FramesAgree(m: Monitoring, st: Store, b: Batch, q: Attempt, d: Attempt, s: Attempt, a: Attempt)
    requires b.rows != [] && IsNew(st, b) && Feasible(b, s) && Feasible(b, a)
    requires RunAttempt(m, st, b, a, WRITES)
          == Store(InsertOnce(st.silver, SilverFrame(s), EventIdOf),
                   InsertOnce(st.quarantine, QuarantineFrame(b, q), QuarantineKeyOf),
                   InsertOnce(st.dq, DqFrame(m, b, d, SilverIds(st.silver)), DqKeyOf))
    ensures QuarantineFrame(b, q) == QuarantineFrame(b, a) && SilverFrame(s) == SilverFrame(a)
    ensures DqFrame(m, b, d, SilverIds(st.silver)) == DqFrame(m, b, a, SilverIds(st.silver))
  {
    var ids := SilverIds(st.silver);
    CompleteTables(m, st, b, a);
    QuarantineIsNew(st, b, q);
    SilverIsNew(st, b, s);
    DqIsNew(m, st, b, d, ids);
    InsertNew(st.silver, SilverFrame(s), EventIdOf);
    InsertNew(st.quarantine, QuarantineFrame(b, q), QuarantineKeyOf);
    InsertNew(st.dq, DqFrame(m, b, d, ids), DqKeyOf);
    SameRest(st.silver, SilverFrame(s), SilverFrame(a));
    SameRest(st.quarantine, QuarantineFrame(b, q), QuarantineFrame(b, a));
    SameRest(st.dq, DqFrame(m, b, d, ids), DqFrame(m, b, a, ids));
  }

  lemma SameRest<T>(s: seq<T>, t: seq<T>, u: seq<T>)
    requires s + t == s + u
    ensures t == u
  {
    assert t == (s + t)[|s|..] && u == (s + u)[|s|..];
  }

  lemma VerdictsAgree(m: Monitoring, b: Batch, q: Attempt, d: Attempt, s: Attempt, a: Attempt, ids: set<string>)
    requires PlacesAreOwn(b) && Feasible(b, d) && Feasible(b, s) && Feasible(b, a)
    requires QuarantineFrame(b, q) == QuarantineFrame(b, a) && SilverFrame(s) == SilverFrame(a)
    requires DqFrame(m, b, d, ids) == DqFrame(m, b, a, ids)
    ensures SameVerdict(b, d.now, q) && Representatives(ValidRows(b, d.now), s.merged)
  {
    SameResultsSameVerdict(m, b, d, a, ids);
    forall r | r in Diagnosed(b) ensures FailedChecks(r, q.now) == FailedChecks(r, d.now) {
      SameFrameSameVerdict(b, q, a, r);
    }
    SameRows(b, d.now, a);
    SameFrameSameRepresentatives(b, s, a);
  }

  /******* The theorem *******/

  /** Exactly which verdicts replay tolerates. For a batch that is new to the tables, any number of attempts
      under a clock that does not run backwards, cut anywhere, one of them complete, leave all tables as some
      uninterrupted attempt does, if and only if no attempt adds a row, a source or an id to what the first one
      wrote to the same table, and the first three writers agree: the same failed checks in the quarantine and
      in the results, and only rows merged that were valid there. */
  lemma OneVerdictIsWhatItTakes(m: Monitoring, st: Store, b: Batch, h: seq<Happening>)
    requires b.rows != [] && PlacesAreOwn(b) && IsNew(st, b)
    requires AllTries(h) && AllFeasible(b, h) && ClocksAdvance(h) && First(h, WRITES).Some?
    ensures
      (exists a :: Feasible(b, a) && Play(m, st, b, h) == RunAttempt(m, st, b, a, WRITES))
      <==> Replayable(b, h) && OneVerdict(b, h)
  {
    if a :| Feasible(b, a) && Play(m, st, b, h) == RunAttempt(m, st, b, a, WRITES) {
      NobodyAddsAnything(m, st, b, h, a);
      TheFirstOnesAgree(m, st, b, h, a);
    }
    if Replayable(b, h) && OneVerdict(b, h) {
      ReplayEqualsOneAttempt(m, st, b, h);
    }
  }

  ghost predicate AllAgree(b: Batch, now: int, h: seq<Happening>) {
    forall k :: 0 <= k < |h| && h[k].Try? ==> Feasible(b, h[k].attempt) && SameVerdict(b, now, h[k].attempt)
  }

  lemma SameVerdictAddsNothing(b: Batch, now: int, x: Attempt, y: Attempt)
    requires SameVerdict(b, now, x) && SameVerdict(b, now, y)
    ensures ValidRows(b, x.now) == ValidRows(b, y.now) && NoNewInvalid(b, x, y)
  {
    SameRows(b, now, x);
    SameRows(b, now, y);
  }

  /** In particular it is enough that all attempts reach the same verdict on every row, whatever their clocks
      say and whatever other batches do in between. */
  lemma SameVerdictsAreEnough(b: Batch, now: int, h: seq<Happening>)
    requires AllAgree(b, now, h) && First(h, WRITES).Some?
    ensures Replayable(b, h) && OneVerdict(b, h)
  {
    FirstIsMonotone(h);
    forall k | 0 <= k < |h| && h[k].Try? ensures Feasible(b, h[k].attempt) && AddsNothing(b, h, k) {
      if h[k].landed >= 1 {
        SameVerdictAddsNothing(b, now, h[First(h, 1).value].attempt, h[k].attempt);
      }
      if h[k].landed >= 2 {
        SameVerdictAddsNothing(b, now, h[First(h, 2).value].attempt, h[k].attempt);
      }
      if h[k].landed >= WRITES {
        SameVerdictAddsNothing(b, now, h[First(h, WRITES).value].attempt, h[k].attempt);
      }
    }
    SameVerdictAddsNothing(b, now, h[First(h, 2).value].attempt, h[First(h, WRITES).value].attempt);
  }

  /******* It can go wrong *******/

  const EMPTY: Store := Store([], [], [])

  /** A batch of one row, tried once just before the time of its request and again at that time. */
  function TwoTries(r: Row, t: int): seq<Happening> {
    [Try(Attempt(t - 1, 0, [SourceOf(r)], [], [], [], 0, 0), 1),
     Try(Attempt(t, 0, [SourceOf(r)], [SourceOf(r)], [r], [r], 0, 0), WRITES)]
  }

  lemma OneRow(runId: string, r: Row, now: int)
    ensures
      var b := Batch(runId, [r], {});
      && Diagnosed(b) == [r]
      && ValidRows(b, now) == if WellFormed(r, now) then [r] else []
  {
    var b := Batch(runId, [r], {});
    assert Diagnosed(b) == [r];
    ValidIffWellFormed(r, now);
    assert r in [r] && [r][..0] == [];
    if WellFormed(r, now) {
      FilterAll(IsValid(now), [r]);
    } else {
      FilterNone(IsValid(now), [r]);
    }
  }

  lemma OneRowIsFeasible(runId: string, r: Row, t: int)
    requires WellFormed(r, t) && !WellFormed(r, t - 1)
    ensures AllFeasible(Batch(runId, [r], {}), TwoTries(r, t))
  {
    var b := Batch(runId, [r], {});
    OneRow(runId, r, t);
    OneRow(runId, r, t - 1);
    KeysOfOne(r, SourceOf);
    KeysOfOne(r, IdOf);
    assert Elements([SourceOf(r)]) == {SourceOf(r)};
    assert Keys<Row, string>([], SourceOf) == {} && Elements<string>([]) == {};
  }

  lemma TwoTriesSuit(runId: string, r: Row, t: int)
    requires WellFormed(r, t) && !WellFormed(r, t - 1)
    ensures
      var b, h := Batch(runId, [r], {}), TwoTries(r, t);
      PlacesAreOwn(b) && IsNew(EMPTY, b) && AllTries(h) && ClocksAdvance(h) && First(h, WRITES).Some?
  {
    var h := TwoTries(r, t);
    OneRow(runId, r, t);
    FirstIs(h, WRITES, 1);
  }

  lemma TwoTriesDisagree(m: Monitoring, b: Batch, r: Row, t: int, a: Attempt)
    requires b.rows == [r] && Diagnosed(b) == [r] && WellFormed(r, t) && !WellFormed(r, t - 1)
    requires AllFeasible(b, TwoTries(r, t)) && Feasible(b, a)
    ensures Play(m, EMPTY, b, TwoTries(r, t)) != RunAttempt(m, EMPTY, b, a, WRITES)
  {
    var h := TwoTries(r, t);
    ValidIffWellFormed(r, t);
    ValidIffWellFormed(r, t - 1);
    assert r in [r] && IsAlone(b, r);
    assert h[0].attempt.now == t - 1 && h[1].attempt.now == t;
    assert Feasible(b, h[1].attempt);
    VerdictChangeIsVisible(m, EMPTY, b, r, h, 0, 1, a);
  }

  /** Every well-formed row can do this: quarantined by an attempt whose clock is behind its request, and merged
      by the next one, it leaves tables that no single attempt leaves. */
  lemma AReplayCanDisagree(m: Monitoring, runId: string, r: Row, t: int)
    requires WellFormed(r, t) && r.event.requestedAt == Some(t)
    ensures
      var b, h := Batch(runId, [r], {}), TwoTries(r, t);
      && PlacesAreOwn(b) && IsNew(EMPTY, b) && AllTries(h) && AllFeasible(b, h) && ClocksAdvance(h)
      && First(h, WRITES).Some?
      && forall a :: Feasible(b, a) ==> Play(m, EMPTY, b, h) != RunAttempt(m, EMPTY, b, a, WRITES)
  {
    var b := Batch(runId, [r], {});
    OneRow(runId, r, t);
    OneRowIsFeasible(runId, r, t);
    TwoTriesSuit(runId, r, t);
    forall a | Feasible(b, a) ensures Play(m, EMPTY, b, TwoTries(r, t)) != RunAttempt(m, EMPTY, b, a, WRITES) {
      TwoTriesDisagree(m, b, r, t, a);
    }
  }
}
