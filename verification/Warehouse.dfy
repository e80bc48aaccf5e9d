/** The jobs that change the analytics tables: validation and merge, Gold refresh, backfill. */
module Warehouse {
  import opened Collections
  import opened DeltaTables
  import opened Rows
  import opened Checks
  import opened SilverBatch
  import opened BatchConservation
  import opened Gold
  import opened GoldChecks
  import R = Replay

  /** groupBy(...).collect(): the groups in an arbitrary order. */
  method CollectSources(rows: seq<Row>) returns (order: seq<string>)
    ensures Enumerates(order, rows)
  {
    var left := Sources(rows);
    order := [];
    while left != {}
      invariant Distinct(order) && Elements(order) + left == Sources(rows) && Elements(order) !! left
      decreases left
    {
      var source :| source in left;
      left := left - {source};
      assert Elements(order + [source]) == Elements(order) + {source};
      order := order + [source];
    }
  }

  /** dropDuplicates(["event_id"]): which of several rows with one id survives is left open. */
  method DropDuplicates(rows: seq<Row>) returns (unique: seq<Row>)
    ensures Representatives(rows, unique)
  {
    unique := [];
    for i := 0 to |rows|
      invariant Representatives(rows[..i], unique)
    {
      var row := rows[i];
      assert rows[..i + 1] == rows[..i] + [row];
      R.KeysOfConcat(rows[..i], [row], IdOf);
      R.KeysOfOne(row, IdOf);
      if IdOf(row) !in Ids(unique) {
        KeepNew(unique, row);
        R.KeysOfConcat(unique, [row], IdOf);
        unique := unique + [row];
      } else if * {
        var k :| 0 <= k < |unique| && IdOf(unique[k]) == IdOf(row);
        ReplaceSame(unique, k, row);
        unique := unique[k := row];
      }
    }
    assert rows[..|rows|] == rows;
  }

  lemma KeepNew(unique: seq<Row>, row: Row)
    requires UniqueBy(unique, IdOf) && IdOf(row) !in Ids(unique)
    ensures UniqueBy(unique + [row], IdOf)
  {
    var u := unique + [row];
    forall i, j | 0 <= i < j < |u| ensures Map(IdOf, u)[i] != Map(IdOf, u)[j] {
      assert unique[i] in unique;
      if j < |unique| {
        assert Map(IdOf, unique)[i] != Map(IdOf, unique)[j];
      }
    }
  }

  lemma ReplaceSame(unique: seq<Row>, k: nat, row: Row)
    requires UniqueBy(unique, IdOf) && k < |unique| && IdOf(unique[k]) == IdOf(row)
    ensures UniqueBy(unique[k := row], IdOf) && Ids(unique[k := row]) == Ids(unique)
    ensures forall r :: r in unique[k := row] ==> r in unique || r == row
  {
    var u := unique[k := row];
    assert Map(IdOf, u) == Map(IdOf, unique);
    forall id ensures id in Ids(u) <==> id in Ids(unique) {
      if id in Ids(u) {
        var r :| r in u && IdOf(r) == id;
        var i :| 0 <= i < |u| && u[i] == r;
        assert unique[i] in unique && IdOf(unique[i]) == id;
      }
      if id in Ids(unique) {
        var r :| r in unique && IdOf(r) == id;
        var i :| 0 <= i < |unique| && unique[i] == r;
        assert u[i] in u && IdOf(u[i]) == id;
      }
    }
  }

  datatype BackfillLayer = SilverLayer | GoldLayer

  datatype Clocks = Clocks(now: int, quarantinedAt: int, checkedAt: int, processedAt: int)

  /** The rows of a Bronze table whose event date lies in the range; a null date never does. */
  function InRange(start: int, end: int): Row -> bool {
    (row: Row) => var d := EventDate(row.event); d.Some? && start <= d.value <= end
  }

  function RangeBatch(runId: string, bronze: seq<Row>, start: int, end: int): Batch {
    Batch(runId, Filter(InRange(start, end), bronze), {})
  }

  /** Requested in UTC on a day of the range, its last day included. */
  predicate IsInRange(row: Row, start: int, end: int) {
    && row.event.requestedAt.Some?
    && start * 86_400_000_000 <= row.event.requestedAt.value < (end + 1) * 86_400_000_000
  }

  lemma RangeIsInDays(row: Row, start: int, end: int)
    ensures InRange(start, end)(row) <==> IsInRange(row, start, end)
  {
    if row.event.requestedAt.Some? {
      EventDateIsTheUtcDay(row.event, row.event.requestedAt.value / 86_400_000_000);
    }
  }

  /** The rows that a backfill of this table has to bring into Silver. */
  predicate IsDue(row: Row, start: int, end: int, now: int) {
    WellFormed(row, now) && IsInRange(row, start, end)
  }

  lemma ValidInRange(runId: string, bronze: seq<Row>, start: int, end: int, now: int)
    ensures forall r :: r in ValidRows(RangeBatch(runId, bronze, start, end), now) <==>
              r in bronze && IsDue(r, start, end, now)
  {
    var b := RangeBatch(runId, bronze, start, end);
    assert Diagnosed(b) == b.rows;
    FilterMembers(InRange(start, end), bronze);
    FilterMembers(IsValid(now), b.rows);
    forall r ensures r in ValidRows(b, now) <==> r in bronze && IsDue(r, start, end, now) {
      ValidIffWellFormed(r, now);
      RangeIsInDays(r, start, end);
    }
  }

  lemma RangeIds(runId: string, bronze: seq<Row>, start: int, end: int, now: int)
    ensures forall id :: Some(id) in Ids(ValidRows(RangeBatch(runId, bronze, start, end), now)) <==>
              IsDueId(bronze, start, end, now, id)
  {
    ValidInRange(runId, bronze, start, end, now);
    var valid := ValidRows(RangeBatch(runId, bronze, start, end), now);
    forall id ensures Some(id) in Ids(valid) <==> IsDueId(bronze, start, end, now, id) {
      if Some(id) in Ids(valid) {
        var r :| r in valid && IdOf(r) == Some(id);
        assert r in bronze && IsDue(r, start, end, now);
      }
    }
  }

  ghost predicate IsDueId(bronze: seq<Row>, start: int, end: int, now: int, id: string) {
    exists r :: r in bronze && IsDue(r, start, end, now) && r.event.eventId == Some(id)
  }

  function RangeDates(silver: seq<SilverRow>, gold: GoldTable, start: int, end: int): set<int> {
    (set r | r in silver && start <= DateOf(r) <= end :: DateOf(r))
    + (set g | g in gold && start <= g.date <= end :: g.date)
  }

  /** Within the range Gold is the aggregate of Silver, group by group. */
  ghost predicate RangeIsRebuilt(silver: seq<SilverRow>, gold: GoldTable, start: int, end: int) {
    forall g: Group :: start <= g.date <= end ==>
      && (g in gold <==> g in Groups(silver))
      && (g in gold ==> gold[g].aggregate == Summarize(RowsOf(silver, g)))
  }

  ghost predicate OutsideIsKept(before: GoldTable, after: GoldTable, start: int, end: int) {
    forall g: Group :: !(start <= g.date <= end) ==>
      && (g in after <==> g in before)
      && (g in after ==> after[g] == before[g])
  }

  lemma RangeRefresh(silver: seq<SilverRow>, gold: GoldTable, start: int, end: int, now: int)
    ensures
      var gold' := Refreshed(silver, gold, RangeDates(silver, gold, start, end), now);
      RangeIsRebuilt(silver, gold', start, end) && OutsideIsKept(gold, gold', start, end)
  {
    var dates := RangeDates(silver, gold, start, end);
    var gold' := Refreshed(silver, gold, dates, now);
    forall g: Group
      ensures start <= g.date <= end ==> (g in gold' <==> g in Groups(silver))
      ensures start <= g.date <= end && g in gold' ==> gold'[g].aggregate == Summarize(RowsOf(silver, g))
      ensures !(start <= g.date <= end) ==> (g in gold' <==> g in gold)
      ensures !(start <= g.date <= end) && g in gold' ==> gold'[g] == gold[g]
    {
      RefreshedKeys(silver, gold, dates, now, g);
      if g in Groups(silver) && start <= g.date <= end {
        var r :| r in silver && GroupOf(r) == g;
        assert DateOf(r) in dates;
      }
    }
  }

  ghost predicate IsGoldResultOf(m: Monitoring, runId: string, silver: seq<SilverRow>, gold: GoldTable, dates: set<int>,
                                 checkedAt: int, sources: set<string>, r: DqResult)
  {
    exists source :: source in sources && r in GoldSourceResults(m, runId, silver, gold, dates, source, checkedAt)
  }

  /** The results are those of the four checks for each of the sources, and no others. */
  ghost predicate AllReported(m: Monitoring, runId: string, silver: seq<SilverRow>, gold: GoldTable, dates: set<int>,
                              checkedAt: int, sources: set<string>, results: seq<DqResult>)
  {
    forall r :: r in results <==> IsGoldResultOf(m, runId, silver, gold, dates, checkedAt, sources, r)
  }

  ghost predicate AllClean(m: Monitoring, results: seq<DqResult>) {
    forall r :: r in results ==> IsClean(m, r)
  }

  lemma OneMoreSource(m: Monitoring, runId: string, silver: seq<SilverRow>, before: GoldTable, gold: GoldTable,
                      dates: set<int>, now: int, checkedAt: int, sources: set<string>, source: string,
                      results: seq<DqResult>, added: seq<DqResult>)
    requires dates != {} && gold == Refreshed(silver, before, dates, now)
    requires AllClean(m, results) && AllReported(m, runId, silver, gold, dates, checkedAt, sources, results)
    requires added == GoldSourceResults(m, runId, silver, gold, dates, source, checkedAt)
    ensures AllClean(m, results + added)
    ensures AllReported(m, runId, silver, gold, dates, checkedAt, sources + {source}, results + added)
  {
    SourceResultsAreClean(m, runId, silver, before, dates, now, source, checkedAt);
    forall r
      ensures r in results + added <==> IsGoldResultOf(m, runId, silver, gold, dates, checkedAt, sources + {source}, r)
    {
      assert IsGoldResultOf(m, runId, silver, gold, dates, checkedAt, sources + {source}, r) <==>
             r in added || IsGoldResultOf(m, runId, silver, gold, dates, checkedAt, sources, r);
    }
  }

  /** The check results of all sources, in the order in which the groups happen to be collected. */
  method CheckGold(m: Monitoring, runId: string, silver: seq<SilverRow>, ghost before: GoldTable, gold: GoldTable,
                   dates: set<int>, ghost now: int, checkedAt: int) returns (results: seq<DqResult>)
    requires dates != {} && gold == Refreshed(silver, before, dates, now)
    ensures AllClean(m, results)
    ensures AllReported(m, runId, silver, gold, dates, checkedAt, JoinedSources(silver, gold, dates), results)
  {
    results := [];
    var left := JoinedSources(silver, gold, dates);
    ghost var done: set<string> := {};
    while left != {}
      invariant done + left == JoinedSources(silver, gold, dates)
      invariant AllClean(m, results) && AllReported(m, runId, silver, gold, dates, checkedAt, done, results)
      decreases left
    {
      var source :| source in left;
      var added := GoldSourceResults(m, runId, silver, gold, dates, source, checkedAt);
      OneMoreSource(m, runId, silver, before, gold, dates, now, checkedAt, done, source, results, added);
      results := results + added;
      left, done := left - {source}, done + {source};
    }
  }

  function AgeOf(r: SilverRow, now: int): int {
    now / 1_000_000 - r.processedAt / 1_000_000
  }

  predicate IsUnresolvedFrom(gold: GoldTable, source: string, r: SilverRow) {
    r.source == source && RowIsUnresolved(gold, r)
  }

  lemma PendingGroupsHaveUnresolvedRows(silver: seq<SilverRow>, gold: GoldTable, source: string)
    ensures (exists g :: g in Groups(silver) && g.source == source && Pending(silver, gold, g))
       <==> exists r :: r in silver && IsUnresolvedFrom(gold, source, r)
  {
    if g :| g in Groups(silver) && g.source == source && Pending(silver, gold, g) {
      FreshnessAgreesWithTouched(silver, gold, g);
    }
    if r :| r in silver && IsUnresolvedFrom(gold, source, r) {
      FreshnessAgreesWithTouched(silver, gold, GroupOf(r));
      assert GroupOf(r) in Groups(silver);
    }
  }

  class Tables {
    var priority: seq<Row>        // bronze.unsubscribe_priority
    var legal: seq<Row>           // bronze.unsubscribe_legal
    var silver: seq<SilverRow>
    var gold: GoldTable
    var quarantine: seq<Quarantined>
    var dq: seq<DqResult>

    constructor ()
      ensures priority == [] && legal == [] && silver == [] && gold == map[] && quarantine == [] && dq == []
    {
      priority, legal, silver, gold, quarantine, dq := [], [], [], map[], [], [];
    }

    function Contents(): Store
      reads this
    {
      Store(silver, quarantine, dq)
    }

    /** `_validate_and_merge` up to its `landed`-th table write; WRITES of them are a complete run. */
    method ValidateAndMerge(m: Monitoring, b: Batch, clocks: Clocks, landed: nat) returns (a: Attempt)
      modifies this`silver, this`quarantine, this`dq
      ensures Feasible(b, a)
      ensures a.now == clocks.now && a.processedAt == clocks.processedAt
      ensures a.quarantinedAt == clocks.quarantinedAt && a.checkedAt == clocks.checkedAt
      ensures Contents() == RunAttempt(m, old(Contents()), b, a, landed)
    {
      var sources := CollectSources(Diagnosed(b));
      var validSources := CollectSources(ValidRows(b, clocks.now));
      var counted := DropDuplicates(ValidRows(b, clocks.now));
      var merged := DropDuplicates(ValidRows(b, clocks.now));
      a := Attempt(clocks.now, clocks.quarantinedAt, sources, validSources, counted, merged,
                   clocks.checkedAt, clocks.processedAt);
      if b.rows == [] || landed == 0 {
        return;
      }
      var results := CheckRows(m, b, a);
      quarantine := InsertOnce(quarantine, QuarantineFrame(b, a), QuarantineKeyOf);
      if landed == 1 {
        return;
      }
      var inBatch := CheckInBatch(m, b, a);
      var inSilver := CheckInSilver(m, b, a, SilverIds(silver));
      dq := InsertOnce(dq, results + inBatch + inSilver, DqKeyOf);
      if landed == 2 {
        return;
      }
      silver := InsertOnce(silver, SilverFrame(a), EventIdOf);
    }

    /** The results of the seven row checks for one group. */
    method CheckGroup(m: Monitoring, b: Batch, a: Attempt, source: string) returns (results: seq<DqResult>)
      ensures results == SourceResults(m, b, a, source, ROW_CHECKS)
    {
      results := [];
      for k := 0 to |ROW_CHECKS|
        invariant results == SourceResults(m, b, a, source, ROW_CHECKS[..k])
      {
        assert ROW_CHECKS[..k + 1][..k] == ROW_CHECKS[..k];
        results := results + [CheckResult(m, b, a, source, ROW_CHECKS[k])];
      }
      assert ROW_CHECKS[..|ROW_CHECKS|] == ROW_CHECKS;
    }

    /** The results of the row checks, group by group. */
    method CheckRows(m: Monitoring, b: Batch, a: Attempt) returns (results: seq<DqResult>)
      ensures results == RowCheckResults(m, b, a, a.sources)
    {
      results := [];
      for i := 0 to |a.sources|
        invariant results == RowCheckResults(m, b, a, a.sources[..i])
      {
        assert a.sources[..i + 1][..i] == a.sources[..i];
        var group := CheckGroup(m, b, a, a.sources[i]);
        results := results + group;
      }
      assert a.sources[..|a.sources|] == a.sources;
    }

    method CheckInBatch(m: Monitoring, b: Batch, a: Attempt) returns (results: seq<DqResult>)
      ensures results == InBatchResults(m, b, a, a.validSources)
    {
      results := [];
      for i := 0 to |a.validSources|
        invariant results == InBatchResults(m, b, a, a.validSources[..i])
      {
        assert a.validSources[..i + 1][..i] == a.validSources[..i];
        results := results + [InBatchResult(m, b, a, a.validSources[i])];
      }
      assert a.validSources[..|a.validSources|] == a.validSources;
    }

    /** `existing` are the event ids of Silver as it is before the merge. */
    method CheckInSilver(m: Monitoring, b: Batch, a: Attempt, existing: set<string>) returns (results: seq<DqResult>)
      ensures results == InSilverResults(m, b, a, existing, a.validSources)
    {
      results := [];
      for i := 0 to |a.validSources|
        invariant results == InSilverResults(m, b, a, existing, a.validSources[..i])
      {
        assert a.validSources[..i + 1][..i] == a.validSources[..i];
        results := results + [InSilverResult(m, b, a, existing, a.validSources[i])];
      }
      assert a.validSources[..|a.validSources|] == a.validSources;
    }

    /** `_refresh`: the overwrite of the given dates, then its checks. */
    method Refresh(m: Monitoring, dates: set<int>, runId: string, now: int,
                   checkedAt: int) returns (results: seq<DqResult>)
      modifies this`gold, this`dq
      ensures gold == Refreshed(silver, old(gold), dates, now)
      ensures forall d, source :: d in dates ==> CountsTheDay(silver, gold, d, source)
      ensures dq == InsertOnce(old(dq), results, DqKeyOf)
      ensures AllClean(m, results)
      ensures dates == {} ==> results == []
      ensures dates != {} ==>
              AllReported(m, runId, silver, gold, dates, checkedAt, JoinedSources(silver, gold, dates), results)
    {
      if dates == {} {
        results := [];
        InsertOnceNoOp(dq, results, DqKeyOf);
        return;
      }
      RefreshCountsItsDays(silver, gold, dates, now);
      ghost var before := gold;
      gold := Refreshed(silver, gold, dates, now);
      results := CheckGold(m, runId, silver, before, gold, dates, now, checkedAt);
      dq := InsertOnce(dq, results, DqKeyOf);
    }

    /** `backfill`: replay the range of both Bronze tables if asked to, then rebuild Gold's range. */
    method Backfill(m: Monitoring, layer: BackfillLayer, start: int, end: int, runId: string,
                    clocks: Clocks, refreshedAt: int) returns (ok: bool)
      modifies this`silver, this`quarantine, this`dq, this`gold
      ensures ok <==> start <= end
      ensures !ok ==> Contents() == old(Contents()) && gold == old(gold)
      ensures old(silver) <= silver
      ensures layer.GoldLayer? ==> silver == old(silver) && quarantine == old(quarantine)
      ensures ok && layer.SilverLayer? ==>
                RangeIsInSilver(priority, silver, start, end, clocks.now)
                    && RangeIsInSilver(legal, silver, start, end, clocks.now)
      ensures forall id :: id in SilverIds(silver) && id !in SilverIds(old(silver)) ==>
                IsDueId(priority, start, end, clocks.now, id) || IsDueId(legal, start, end, clocks.now, id)
      ensures (RangeIsInSilver(priority, old(silver), start, end, clocks.now)
               && RangeIsInSilver(legal, old(silver), start, end, clocks.now)) ==> silver == old(silver)
      ensures ok ==> forall d, source :: start <= d <= end ==> CountsTheDay(silver, gold, d, source)
      ensures ok ==> RangeIsRebuilt(silver, gold, start, end) && OutsideIsKept(old(gold), gold, start, end)
    {
      if start > end {
        return false;
      }
      if layer.SilverLayer? {
        var _, _ := ReplayBoth(m, runId, start, end, clocks);
      }
      var dates := RangeDates(silver, gold, start, end);
      RangeRefresh(silver, gold, start, end, refreshedAt);
      var _ := Refresh(m, dates, runId, refreshedAt, clocks.checkedAt);
      RangeCountsItsDays(silver, gold, start, end);
      return true;
    }

    /** The channel loop of `backfill`: one complete attempt per channel, each under a run id of its own. */
    method ReplayBoth(m: Monitoring, runId: string, start: int, end: int, clocks: Clocks)
      returns (ghost p: Attempt, ghost l: Attempt)
      modifies this`silver, this`quarantine, this`dq
      ensures
        var first, second := RangeBatch(runId + ":priority", priority, start, end),
                             RangeBatch(runId + ":legal", legal, start, end);
        && Feasible(first, p) && Feasible(second, l) && p.now == l.now == clocks.now
        && Contents() == RunAttempt(m, RunAttempt(m, old(Contents()), first, p, WRITES), second, l, WRITES)
      ensures old(silver) <= silver
      ensures forall id :: id in SilverIds(silver) && id !in SilverIds(old(silver)) ==>
                IsDueId(priority, start, end, clocks.now, id) || IsDueId(legal, start, end, clocks.now, id)
      ensures RangeIsInSilver(priority, silver, start, end, clocks.now)
              && RangeIsInSilver(legal, silver, start, end, clocks.now)
      ensures (RangeIsInSilver(priority, old(silver), start, end, clocks.now)
               && RangeIsInSilver(legal, old(silver), start, end, clocks.now)) ==> silver == old(silver)
    {
      ghost var st0 := Contents();
      p := ReplayRange(m, runId + ":priority", priority, start, end, clocks);
      ghost var after := silver;
      ghost var st1 := Contents();
      assert st1 == RunAttempt(m, st0, RangeBatch(runId + ":priority", priority, start, end), p, WRITES);
      l := ReplayRange(m, runId + ":legal", legal, start, end, clocks);
      assert Contents() == RunAttempt(m, st1, RangeBatch(runId + ":legal", legal, start, end), l, WRITES);
      TwoReplays(priority, legal, old(silver), after, silver, start, end, clocks.now);
    }

    /** Validation and merge of one Bronze table's rows in the range. */
    method ReplayRange(m: Monitoring, runId: string, bronze: seq<Row>, start: int, end: int, clocks: Clocks)
      returns (ghost a: Attempt)
      modifies this`silver, this`quarantine, this`dq
      ensures
        var b := RangeBatch(runId, bronze, start, end);
        Feasible(b, a) && a.now == clocks.now && Contents() == RunAttempt(m, old(Contents()), b, a, WRITES)
      ensures old(silver) <= silver
      ensures NewIdsAreDue(bronze, old(silver), silver, start, end, clocks.now)
      ensures RangeIsInSilver(bronze, silver, start, end, clocks.now)
      ensures RangeIsInSilver(bronze, old(silver), start, end, clocks.now) ==> silver == old(silver)
    {
      var b := RangeBatch(runId, bronze, start, end);
      a := ValidateAndMerge(m, b, clocks, WRITES);
      RangeIds(runId, bronze, start, end, clocks.now);
      DueRowsHaveIds(bronze, start, end, clocks.now);
      MergedIds(old(silver), b, a);
      if b.rows != [] {
        R.WritesOf(m, old(Contents()), b, a, WRITES);
      }
    }

    /** `freshness` for one source: the age, in whole seconds, of its oldest unresolved Silver row. */
    method PendingAge(source: string, now: int) returns (age: int)
      ensures (exists g :: g in Groups(silver) && g.source == source && Pending(silver, gold, g)) ==>
                && (exists r :: r in silver && IsUnresolvedFrom(gold, source, r)
                      && age == now / 1_000_000 - r.processedAt / 1_000_000)
                && (forall r :: r in silver && IsUnresolvedFrom(gold, source, r) ==>
                      now / 1_000_000 - r.processedAt / 1_000_000 <= age)
      ensures !(exists g :: g in Groups(silver) && g.source == source && Pending(silver, gold, g)) ==> age == 0
    {
      age := 0;
      var found := false;
      for i := 0 to |silver|
        invariant found <==> exists r :: r in silver[..i] && IsUnresolvedFrom(gold, source, r)
        invariant found ==> exists r :: r in silver[..i] && IsUnresolvedFrom(gold, source, r) && age == AgeOf(r, now)
        invariant forall r :: r in silver[..i] && IsUnresolvedFrom(gold, source, r) ==> AgeOf(r, now) <= age
        invariant !found ==> age == 0
      {
        var row := silver[i];
        assert silver[..i + 1] == silver[..i] + [row];
        if IsUnresolvedFrom(gold, source, row) && (!found || AgeOf(row, now) > age) {
          age, found := AgeOf(row, now), true;
        }
      }
      assert silver[..|silver|] == silver;
      PendingGroupsHaveUnresolvedRows(silver, gold, source);
    }

    /** Bronze rows are deleted by arrival time, and nothing else is. */
    method EnforceBronzeRetention(priorityCutoff: int, legalCutoff: int)
      modifies this`priority, this`legal
      ensures priority == Filter(Retained(priorityCutoff), old(priority))
              && legal == Filter(Retained(legalCutoff), old(legal))
      ensures forall r :: r in priority <==> r in old(priority) && r.ingestedAt >= priorityCutoff
      ensures forall r :: r in legal <==> r in old(legal) && r.ingestedAt >= legalCutoff
      ensures forall silver', start, end, now :: RangeIsInSilver(old(priority), silver', start, end, now) ==>
                RangeIsInSilver(priority, silver', start, end, now)
      ensures forall silver', start, end, now :: RangeIsInSilver(old(legal), silver', start, end, now) ==>
                RangeIsInSilver(legal, silver', start, end, now)
    {
      FilterMembers(Retained(priorityCutoff), priority);
      FilterMembers(Retained(legalCutoff), legal);
      priority := Filter(Retained(priorityCutoff), priority);
      legal := Filter(Retained(legalCutoff), legal);
    }

    /** Running the same Silver backfill again, with the same verdict on every row, leaves Silver as it
        is, row for row, and yields the same Gold aggregates. */
    method BackfillTwice(m: Monitoring, start: int, end: int, runId: string, runId': string,
                         clocks: Clocks, clocks': Clocks, refreshedAt: int, refreshedAt': int)
      returns (silverBetween: seq<SilverRow>, goldBetween: GoldTable)
      requires start <= end
      requires forall r :: r in priority || r in legal ==>
                 (IsDue(r, start, end, clocks.now) <==> IsDue(r, start, end, clocks'.now))
      modifies this`silver, this`quarantine, this`dq, this`gold
      ensures silver == silverBetween
      ensures RangeIsRebuilt(silver, goldBetween, start, end) && RangeIsRebuilt(silver, gold, start, end)
      ensures Aggregates(gold) == Aggregates(goldBetween)
    {
      var ok := Backfill(m, SilverLayer, start, end, runId, clocks, refreshedAt);
      silverBetween, goldBetween := silver, gold;
      ok := Backfill(m, SilverLayer, start, end, runId', clocks', refreshedAt');
      SameRangeSameAggregates(silver, goldBetween, gold, start, end);
    }
  }

  ghost predicate RangeIsInSilver(bronze: seq<Row>, silver: seq<SilverRow>, start: int, end: int, now: int) {
    forall r :: r in bronze && IsDue(r, start, end, now) ==> r.event.eventId.value in SilverIds(silver)
  }

  /** Every id that is new in Silver is that of a due row of this table. */
  ghost predicate NewIdsAreDue(bronze: seq<Row>, before: seq<SilverRow>, after: seq<SilverRow>, start: int, end: int,
                               now: int)
  {
    forall id :: id in SilverIds(after) && id !in SilverIds(before) ==> IsDueId(bronze, start, end, now, id)
  }

  lemma TwoReplays(priority: seq<Row>, legal: seq<Row>, before: seq<SilverRow>, between: seq<SilverRow>,
                   after: seq<SilverRow>, start: int, end: int, now: int)
    requires before <= between <= after
    requires NewIdsAreDue(priority, before, between, start, end, now)
    requires NewIdsAreDue(legal, between, after, start, end, now)
    requires RangeIsInSilver(priority, between, start, end, now) && RangeIsInSilver(legal, after, start, end, now)
    requires RangeIsInSilver(priority, before, start, end, now) ==> between == before
    requires RangeIsInSilver(legal, between, start, end, now) ==> after == between
    ensures forall id :: id in SilverIds(after) && id !in SilverIds(before) ==>
              IsDueId(priority, start, end, now, id) || IsDueId(legal, start, end, now, id)
    ensures RangeIsInSilver(priority, after, start, end, now)
    ensures RangeIsInSilver(priority, before, start, end, now) && RangeIsInSilver(legal, before, start, end, now) ==>
              after == before
  {
    IdsStayInSilver(priority, between, after, start, end, now);
  }

  lemma IdsStayInSilver(bronze: seq<Row>, before: seq<SilverRow>, after: seq<SilverRow>, start: int, end: int, now: int)
    requires before <= after && RangeIsInSilver(bronze, before, start, end, now)
    ensures RangeIsInSilver(bronze, after, start, end, now)
  {
    R.KeysGrow(before, after, EventIdOf);
  }

  /** A complete attempt leaves every valid id in Silver, and Silver alone if they all were. */
  lemma MergedIds(silver: seq<SilverRow>, b: Batch, a: Attempt)
    requires Feasible(b, a)
    ensures
      var valid := Ids(ValidRows(b, a.now));
      var silver' := InsertOnce(silver, SilverFrame(a), EventIdOf);
      && (b.rows != [] ==> forall id :: id in SilverIds(silver') <==> id in SilverIds(silver) || Some(id) in valid)
      && ((forall id :: Some(id) in valid ==> id in SilverIds(silver)) ==> silver' == silver)
      && (b.rows == [] ==> valid == {})
  {
    R.SilverKeys(b, a);
    InsertOnceKeys(silver, SilverFrame(a), EventIdOf);
    if forall id :: Some(id) in Ids(ValidRows(b, a.now)) ==> id in SilverIds(silver) {
      InsertOnceNoOp(silver, SilverFrame(a), EventIdOf);
    }
  }

  function Retained(cutoff: int): Row -> bool {
    (row: Row) => row.ingestedAt >= cutoff
  }

  lemma DueRowsHaveIds(bronze: seq<Row>, start: int, end: int, now: int)
    ensures forall r :: r in bronze && IsDue(r, start, end, now) ==>
              r.event.eventId.Some? && IsDueId(bronze, start, end, now, r.event.eventId.value)
  {
  }

  /** A rebuilt range counts every day of it, for every source. */
  lemma RangeCountsItsDays(silver: seq<SilverRow>, gold: GoldTable, start: int, end: int)
    requires RangeIsRebuilt(silver, gold, start, end)
    ensures forall d, source :: start <= d <= end ==> CountsTheDay(silver, gold, d, source)
  {
    forall d, source | start <= d <= end ensures CountsTheDay(silver, gold, d, source) {
      AggregatesCountTheDay(silver, gold, d, source);
    }
  }

  /** A row merged from a batch is counted under the day of its event. */
  lemma InsertedRowsKeepTheirDay(b: Batch, a: Attempt, silver: seq<SilverRow>, x: SilverRow)
    requires Feasible(b, a) && x in Inserted(a, silver)
    ensures exists r :: r in Diagnosed(b) && r.event.eventId == Some(x.eventId) && EventDate(r.event) == Some(DateOf(x))
  {
    InsertedRowsAreBatchRows(b, a, silver, x);
  }

  lemma SameRangeSameAggregates(silver: seq<SilverRow>, gold: GoldTable, gold': GoldTable, start: int, end: int)
    requires RangeIsRebuilt(silver, gold, start, end) && RangeIsRebuilt(silver, gold', start, end)
    requires OutsideIsKept(gold, gold', start, end)
    ensures Aggregates(gold') == Aggregates(gold)
  {
    forall g: Group
      ensures g in gold' <==> g in gold
      ensures g in gold ==> gold'[g].aggregate == gold[g].aggregate
    {
    }
    assert Aggregates(gold').Keys == Aggregates(gold).Keys;
  }
}
