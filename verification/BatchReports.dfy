/** What the recorded DQ results of a batch, taken together, say about the batch. */
module BatchReports {
  import opened Collections
  import opened DeltaTables
  import opened Rows
  import opened Checks
  import opened SilverBatch
  import opened BatchConservation
  import opened Replay

  /** Rows looked at, and rows found failing, over all recorded results of one check. */
  function Considered(results: seq<DqResult>, check: Check): int {
    if results == [] then 0 else
      var r := results[|results| - 1];
      Considered(results[..|results| - 1], check) + if r.check == check then r.total else 0
  }

  function Reported(results: seq<DqResult>, check: Check): int {
    if results == [] then 0 else
      var r := results[|results| - 1];
      Reported(results[..|results| - 1], check) + if r.check == check then r.failed else 0
  }

  lemma {:induction false} TotalsConcat(s: seq<DqResult>, t: seq<DqResult>, check: Check)
    ensures Considered(s + t, check) == Considered(s, check) + Considered(t, check)
    ensures Reported(s + t, check) == Reported(s, check) + Reported(t, check)
    decreases |t|
  {
    if t == [] {
      assert s + t == s;
    } else {
      assert (s + t)[..|s + t| - 1] == s + t[..|t| - 1];
      TotalsConcat(s, t[..|t| - 1], check);
    }
  }

  lemma TotalsSnoc(s: seq<DqResult>, r: DqResult, check: Check)
    ensures Considered(s + [r], check) == Considered(s, check) + if r.check == check then r.total else 0
    ensures Reported(s + [r], check) == Reported(s, check) + if r.check == check then r.failed else 0
  {
    assert (s + [r])[..|s|] == s;
  }

  lemma CheckResultCounts(m: Monitoring, b: Batch, a: Attempt, source: string, check: Check)
    ensures
      var r := CheckResult(m, b, a, source, check);
      && r.check == check && r.total == GroupSize(Diagnosed(b))(source)
      && r.failed == FailuresFrom(Diagnosed(b), check, a.now)(source)
  {
  }

  lemma {:induction false} SourceTotals(m: Monitoring, b: Batch, a: Attempt, source: string, checks: seq<Check>,
                                        check: Check)
    requires Distinct(checks)
    ensures Considered(SourceResults(m, b, a, source, checks), check)
         == if check in checks then GroupSize(Diagnosed(b))(source) else 0
    ensures Reported(SourceResults(m, b, a, source, checks), check)
         == if check in checks then FailuresFrom(Diagnosed(b), check, a.now)(source) else 0
    decreases |checks|
  {
    if checks != [] {
      var before, last := checks[..|checks| - 1], checks[|checks| - 1];
      assert checks == before + [last];
      SourceTotals(m, b, a, source, before, check);
      CheckResultCounts(m, b, a, source, last);
      TotalsSnoc(SourceResults(m, b, a, source, before), CheckResult(m, b, a, source, last), check);
    }
  }

  /** The row checks of all groups, for any list of checks. */
  function GroupResults(m: Monitoring, b: Batch, a: Attempt, sources: seq<string>, checks: seq<Check>): seq<DqResult> {
    if sources == [] then [] else
      GroupResults(m, b, a, sources[..|sources| - 1], checks) + SourceResults(m, b, a, sources[|sources| - 1], checks)
  }

  lemma {:induction false} GroupTotals(m: Monitoring, b: Batch, a: Attempt, sources: seq<string>, checks: seq<Check>,
                                       check: Check)
    requires Distinct(checks)
    ensures Considered(GroupResults(m, b, a, sources, checks), check)
         == if check in checks then SumOver(GroupSize(Diagnosed(b)), sources) else 0
    ensures Reported(GroupResults(m, b, a, sources, checks), check)
         == if check in checks then SumOver(FailuresFrom(Diagnosed(b), check, a.now), sources) else 0
    decreases |sources|
  {
    if sources != [] {
      var before, source := sources[..|sources| - 1], sources[|sources| - 1];
      GroupTotals(m, b, a, before, checks, check);
      SourceTotals(m, b, a, source, checks, check);
      TotalsConcat(GroupResults(m, b, a, before, checks), SourceResults(m, b, a, source, checks), check);
    }
  }

  lemma {:induction false} RowCheckGroups(m: Monitoring, b: Batch, a: Attempt, sources: seq<string>)
    ensures RowCheckResults(m, b, a, sources) == GroupResults(m, b, a, sources, ROW_CHECKS)
    decreases |sources|
  {
    if sources != [] {
      RowCheckGroups(m, b, a, sources[..|sources| - 1]);
    }
  }

  lemma RowChecksAreDistinct()
    ensures Distinct(ROW_CHECKS)
  {
  }

  lemma RowCheckTotals(m: Monitoring, b: Batch, a: Attempt, sources: seq<string>, check: Check)
    requires IsRowCheck(check)
    ensures Considered(RowCheckResults(m, b, a, sources), check) == SumOver(GroupSize(Diagnosed(b)), sources)
    ensures Reported(RowCheckResults(m, b, a, sources), check)
            == SumOver(FailuresFrom(Diagnosed(b), check, a.now), sources)
  {
    RowCheckGroups(m, b, a, sources);
    RowChecksAreDistinct();
    GroupTotals(m, b, a, sources, ROW_CHECKS, check);
  }

  lemma {:induction false} OtherChecksCountNothing(results: seq<DqResult>, check: Check)
    requires forall r :: r in results ==> r.check != check
    ensures Considered(results, check) == Reported(results, check) == 0
    decreases |results|
  {
    if results != [] {
      OtherChecksCountNothing(results[..|results| - 1], check);
      assert results[|results| - 1] in results;
    }
  }

  lemma {:induction false} InBatchTotals(m: Monitoring, b: Batch, a: Attempt, sources: seq<string>, check: Check)
    ensures
      var valid := ValidRows(b, a.now);
      var results := InBatchResults(m, b, a, sources);
      if check == DuplicateEventIdInBatch then
        && Considered(results, check) == SumOver(GroupSize(valid), sources)
        && Reported(results, check) == SumOver(GroupSize(valid), sources) - SumOver(GroupIdCount(valid), sources)
      else Considered(results, check) == Reported(results, check) == 0
    decreases |sources|
  {
    if sources != [] {
      var before, source := sources[..|sources| - 1], sources[|sources| - 1];
      InBatchTotals(m, b, a, before, check);
      TotalsSnoc(InBatchResults(m, b, a, before), InBatchResult(m, b, a, source), check);
    }
  }

  lemma {:induction false} InSilverTotals(m: Monitoring, b: Batch, a: Attempt, ids: set<string>, sources: seq<string>,
                                          check: Check)
    ensures
      var results := InSilverResults(m, b, a, ids, sources);
      if check == DuplicateEventIdAlreadyInSilver then
        && Considered(results, check) == SumOver(GroupIdCount(ValidRows(b, a.now)), sources)
        && Reported(results, check) == SumOver(AlreadyCount(a, ids), sources)
      else Considered(results, check) == Reported(results, check) == 0
    decreases |sources|
  {
    if sources != [] {
      var before, source := sources[..|sources| - 1], sources[|sources| - 1];
      InSilverTotals(m, b, a, ids, before, check);
      TotalsSnoc(InSilverResults(m, b, a, ids, before), InSilverResult(m, b, a, ids, source), check);
    }
  }

  lemma ThreeParts(r: seq<DqResult>, i: seq<DqResult>, s: seq<DqResult>, check: Check)
    ensures Considered(r + i + s, check) == Considered(r, check) + Considered(i, check) + Considered(s, check)
    ensures Reported(r + i + s, check) == Reported(r, check) + Reported(i, check) + Reported(s, check)
  {
    TotalsConcat(r, i, check);
    TotalsConcat(r + i, s, check);
  }

  lemma DuplicatesAreNoRowChecks(m: Monitoring, b: Batch, a: Attempt, ids: set<string>, sources: seq<string>,
                                 check: Check)
    requires IsRowCheck(check)
    ensures
      var i, s := InBatchResults(m, b, a, sources), InSilverResults(m, b, a, ids, sources);
      Considered(i, check) == Considered(s, check) == Reported(i, check) == Reported(s, check) == 0
  {
    InBatchTotals(m, b, a, sources, check);
    InSilverTotals(m, b, a, ids, sources, check);
  }

  lemma RowChecksAreNoDuplicates(m: Monitoring, b: Batch, a: Attempt, sources: seq<string>, check: Check)
    requires IsDuplicateCheck(check)
    ensures Considered(RowCheckResults(m, b, a, sources), check)
            == Reported(RowCheckResults(m, b, a, sources), check) == 0
  {
    RowCheckMembers(m, b, a, sources);
    DuplicatesAreNotListed();
    forall r | r in RowCheckResults(m, b, a, sources) ensures r.check != check {
      var s, c :| s in sources && c in ROW_CHECKS && r == CheckResult(m, b, a, s, c);
    }
    OtherChecksCountNothing(RowCheckResults(m, b, a, sources), check);
  }

  lemma RowCheckFrame(m: Monitoring, b: Batch, a: Attempt, ids: set<string>, check: Check)
    requires IsRowCheck(check)
    ensures Considered(DqFrame(m, b, a, ids), check) == Considered(RowCheckResults(m, b, a, a.sources), check)
    ensures Reported(DqFrame(m, b, a, ids), check) == Reported(RowCheckResults(m, b, a, a.sources), check)
  {
    ThreeParts(RowCheckResults(m, b, a, a.sources), InBatchResults(m, b, a, a.validSources),
               InSilverResults(m, b, a, ids, a.validSources), check);
    DuplicatesAreNoRowChecks(m, b, a, ids, a.validSources, check);
  }

  lemma DuplicatesFrame(m: Monitoring, b: Batch, a: Attempt, ids: set<string>, check: Check)
    requires IsDuplicateCheck(check)
    ensures
      var i, s := InBatchResults(m, b, a, a.validSources), InSilverResults(m, b, a, ids, a.validSources);
      && Considered(DqFrame(m, b, a, ids), check) == Considered(i, check) + Considered(s, check)
      && Reported(DqFrame(m, b, a, ids), check) == Reported(i, check) + Reported(s, check)
  {
    ThreeParts(RowCheckResults(m, b, a, a.sources), InBatchResults(m, b, a, a.validSources),
               InSilverResults(m, b, a, ids, a.validSources), check);
    RowChecksAreNoDuplicates(m, b, a, a.sources, check);
  }

  lemma InBatchFrame(m: Monitoring, b: Batch, a: Attempt, ids: set<string>)
    ensures
      var dq, valid := DqFrame(m, b, a, ids), ValidRows(b, a.now);
      && Considered(dq, DuplicateEventIdInBatch) == SumOver(GroupSize(valid), a.validSources)
      && Reported(dq, DuplicateEventIdInBatch)
         == SumOver(GroupSize(valid), a.validSources) - SumOver(GroupIdCount(valid), a.validSources)
  {
    DuplicatesFrame(m, b, a, ids, DuplicateEventIdInBatch);
    InBatchTotals(m, b, a, a.validSources, DuplicateEventIdInBatch);
    InSilverTotals(m, b, a, ids, a.validSources, DuplicateEventIdInBatch);
  }

  lemma InSilverFrame(m: Monitoring, b: Batch, a: Attempt, ids: set<string>)
    ensures
      var dq := DqFrame(m, b, a, ids);
      && Considered(dq, DuplicateEventIdAlreadyInSilver) == SumOver(GroupIdCount(ValidRows(b, a.now)), a.validSources)
      && Reported(dq, DuplicateEventIdAlreadyInSilver) == SumOver(AlreadyCount(a, ids), a.validSources)
  {
    DuplicatesFrame(m, b, a, ids, DuplicateEventIdAlreadyInSilver);
    InBatchTotals(m, b, a, a.validSources, DuplicateEventIdAlreadyInSilver);
    InSilverTotals(m, b, a, ids, a.validSources, DuplicateEventIdAlreadyInSilver);
  }

  function Violating(check: Check, now: int): Row -> bool {
    (row: Row) => Violates(check, row, now)
  }

  lemma FailingMeansViolating(rows: seq<Row>, check: Check, now: int)
    ensures Filter(FailsCheck(check, now), rows) == Filter(Violating(check, now), rows)
  {
    forall r | r in rows ensures FailsCheck(check, now)(r) == Violating(check, now)(r) {
      FailedMeansViolated(r, now);
    }
    FilterAgree(FailsCheck(check, now), Violating(check, now), rows);
  }

  /** Every row check is reported on every row of the batch, and its failures are the rows that violate it. */
  lemma RowChecksCoverTheBatch(m: Monitoring, b: Batch, a: Attempt, ids: set<string>, check: Check)
    requires Feasible(b, a) && IsRowCheck(check)
    ensures Considered(DqFrame(m, b, a, ids), check) == |b.rows|
    ensures Reported(DqFrame(m, b, a, ids), check) == |Filter(Violating(check, a.now), Diagnosed(b))|
  {
    FailingMeansViolating(Diagnosed(b), check, a.now);
    RowCheckFrame(m, b, a, ids, check);
    RowCheckTotals(m, b, a, a.sources, check);
    GroupsPartitionTheRows(Diagnosed(b), a.sources);
    FailuresAddUp(b, a, check);
  }

  /** The two duplicate checks form a chain: what enters the first are the rows not quarantined, what
      leaves it enters the second, and what leaves the second is never less than what the MERGE inserts.
      The chain is exact if and only if no event id occurs under two sources. */
  lemma DuplicateChecksChainUp(m: Monitoring, b: Batch, a: Attempt, silver: seq<SilverRow>)
    requires Feasible(b, a)
    ensures
      var dq := DqFrame(m, b, a, SilverIds(silver));
      var inBatch, inSilver := DuplicateEventIdInBatch, DuplicateEventIdAlreadyInSilver;
      && Considered(dq, inBatch) == |b.rows| - |QuarantineFrame(b, a)|
      && Considered(dq, inSilver) == Considered(dq, inBatch) - Reported(dq, inBatch)
      && Considered(dq, inSilver) - Reported(dq, inSilver) >= |Inserted(a, silver)|
      && (Considered(dq, inSilver) - Reported(dq, inSilver) == |Inserted(a, silver)| <==>
            NoIdSpansSources(ValidRows(b, a.now), a.validSources))
  {
    var ids := SilverIds(silver);
    InBatchFrame(m, b, a, ids);
    InSilverFrame(m, b, a, ids);
    BatchIsConserved(b, a, silver);
    ReportedDuplicates(b, a);
    GroupsPartitionTheRows(ValidRows(b, a.now), a.validSources);
    FilterSplit(IsValid(a.now), Diagnosed(b));
    FilterAgree(IsInvalid(a.now), Negation(IsValid(a.now)), Diagnosed(b));
  }

  function RowOf(source: string): Row {
    Row(Event(Some("e"), Some("u"), Some("w"), Some(source), Some(0)), None, "", 0, 0, 0, None, Payload(None))
  }

  lemma RowOfIsValid(source: string)
    requires source in {UI, CUSTOMER_SUCCESS, LEGAL}
    ensures IsValid(0)(RowOf(source))
  {
    assert "e"[0] == 'e' && "u"[0] == 'u' && "w"[0] == 'w';
    assert !IsBlank("e"[0]) && !IsBlank("u"[0]) && !IsBlank("w"[0]);
    ValidIffWellFormed(RowOf(source), 0);
  }

  const TWICE: Batch := Batch("", [RowOf(UI), RowOf(LEGAL)], {})
  const TWICE_ATTEMPT: Attempt := Attempt(0, 0, [UI, LEGAL], [UI, LEGAL], [RowOf(UI)], [RowOf(UI)], 0, 0)

  lemma TwiceRows()
    ensures Diagnosed(TWICE) == ValidRows(TWICE, 0) == [RowOf(UI), RowOf(LEGAL)]
  {
    var rows := [RowOf(UI), RowOf(LEGAL)];
    RowOfIsValid(UI);
    RowOfIsValid(LEGAL);
    assert Diagnosed(TWICE) == rows;
    FilterAll(IsValid(0), rows);
  }

  lemma TwiceGroups(rows: seq<Row>)
    requires rows == [RowOf(UI), RowOf(LEGAL)]
    ensures Sources(rows) == {UI, LEGAL} == Elements([UI, LEGAL])
    ensures Ids(rows) == {Some("e")} == Ids([rows[0]])
  {
    var x, y := rows[0], rows[1];
    assert x in rows && y in rows && x in [x];
    assert SourceOf(x) == UI && SourceOf(y) == LEGAL && IdOf(x) == IdOf(y) == Some("e");
    assert UI in Sources(rows) && LEGAL in Sources(rows);
    assert Some("e") in Ids(rows) && Some("e") in Ids([x]);
  }

  lemma TwiceSpans(rows: seq<Row>)
    requires rows == [RowOf(UI), RowOf(LEGAL)]
    ensures !NoIdSpansSources(rows, [UI, LEGAL])
  {
    FilterMembers(FromSource(UI), rows);
    FilterMembers(FromSource(LEGAL), rows);
    var x, y := rows[0], rows[1];
    assert x in rows && y in rows;
    assert x in Filter(FromSource(UI), rows) && y in Filter(FromSource(LEGAL), rows);
    assert Some("e") in GroupIds(rows, [UI, LEGAL][0]) && Some("e") in GroupIds(rows, [UI, LEGAL][1]);
  }

  /** One event id can occur under two sources, and then the reports promise more rows than are inserted. */
  lemma IdsCanSpanSources(m: Monitoring, silver: seq<SilverRow>)
    ensures Feasible(TWICE, TWICE_ATTEMPT)
    ensures
      var dq := DqFrame(m, TWICE, TWICE_ATTEMPT, SilverIds(silver));
      Considered(dq, DuplicateEventIdAlreadyInSilver) - Reported(dq, DuplicateEventIdAlreadyInSilver)
      > |Inserted(TWICE_ATTEMPT, silver)|
  {
    TwiceRows();
    TwiceGroups(ValidRows(TWICE, 0));
    TwiceSpans(ValidRows(TWICE, 0));
    DuplicateChecksChainUp(m, TWICE, TWICE_ATTEMPT, silver);
  }

  /******* The results of one group *******/

  /** The name under which a row's group is formed. */
  function SourceColumnOf(row: Row): string {
    if row.event.source.Some? then row.event.source.value else "UNKNOWN"
  }

  function From(source: string): Row -> bool {
    (row: Row) => SourceColumnOf(row) == source
  }

  function ViolatingFrom(source: string, check: Check, now: int): Row -> bool {
    (row: Row) => SourceColumnOf(row) == source && Violates(check, row, now)
  }

  /** What is recorded about one group: its rows, and how many of them violate this check. */
  ghost predicate IsGroupReport(b: Batch, a: Attempt, source: string, r: DqResult) {
    && r.runId == b.runId && r.layer == SILVER && r.checkedAt == a.checkedAt
    && r.source == (if source == "" then "UNKNOWN" else source)
    && r.total == |Filter(From(source), Diagnosed(b))|
    && r.failed == |Filter(ViolatingFrom(source, r.check, a.now), Diagnosed(b))|
  }

  lemma CheckResultIsGroupReport(m: Monitoring, b: Batch, a: Attempt, source: string, check: Check)
    ensures CheckResult(m, b, a, source, check).check == check
    ensures IsGroupReport(b, a, source, CheckResult(m, b, a, source, check))
  {
    var rows := Diagnosed(b);
    FilterAgree(FromSource(source), From(source), rows);
    FailingMeansViolating(Filter(From(source), rows), check, a.now);
    FilterTwice(Violating(check, a.now), From(source), ViolatingFrom(source, check, a.now), rows);
  }

  lemma {:induction false} FilterTwice<T>(p: T -> bool, q: T -> bool, both: T -> bool, s: seq<T>)
    requires forall x :: x in s ==> (both(x) <==> q(x) && p(x))
    ensures Filter(p, Filter(q, s)) == Filter(both, s)
    decreases |s|
  {
    if s != [] {
      var u, x := s[..|s| - 1], s[|s| - 1];
      assert s == u + [x] && x in s;
      FilterTwice(p, q, both, u);
      FilterSnoc(p, Filter(q, u), x);
    }
  }

  lemma {:induction false} SourceResultMembers(m: Monitoring, b: Batch, a: Attempt, source: string, checks: seq<Check>)
    ensures forall r :: r in SourceResults(m, b, a, source, checks) ==>
              exists c :: c in checks && r == CheckResult(m, b, a, source, c)
    ensures forall c :: c in checks ==> CheckResult(m, b, a, source, c) in SourceResults(m, b, a, source, checks)
    decreases |checks|
  {
    if checks != [] {
      var before, c := checks[..|checks| - 1], checks[|checks| - 1];
      assert checks == before + [c];
      SourceResultMembers(m, b, a, source, before);
    }
  }

  lemma {:induction false} RowCheckMembers(m: Monitoring, b: Batch, a: Attempt, sources: seq<string>)
    ensures forall r :: r in RowCheckResults(m, b, a, sources) ==>
              exists s, c :: s in sources && c in ROW_CHECKS && r == CheckResult(m, b, a, s, c)
    ensures forall s, c :: s in sources && c in ROW_CHECKS ==>
              CheckResult(m, b, a, s, c) in RowCheckResults(m, b, a, sources)
    decreases |sources|
  {
    if sources != [] {
      var before, s := sources[..|sources| - 1], sources[|sources| - 1];
      assert sources == before + [s];
      RowCheckMembers(m, b, a, before);
      SourceResultMembers(m, b, a, s, ROW_CHECKS);
    }
  }

  lemma {:induction false} DuplicateMembers(m: Monitoring, b: Batch, a: Attempt, ids: set<string>, sources: seq<string>)
    ensures forall r :: r in InBatchResults(m, b, a, sources) + InSilverResults(m, b, a, ids, sources) ==>
              r.check in {DuplicateEventIdInBatch, DuplicateEventIdAlreadyInSilver}
    decreases |sources|
  {
    if sources != [] {
      DuplicateMembers(m, b, a, ids, sources[..|sources| - 1]);
      var before := sources[..|sources| - 1];
      var i, s := InBatchResults(m, b, a, before), InSilverResults(m, b, a, ids, before);
      assert forall r :: r in i || r in s ==> r in i + s;
    }
  }

  /** Group by group and check by check: for every row of the batch and every row check there is a recorded
      result about the row's source, and every result of a row check is one of these. It counts the rows of
      that source and those of them that violate the check. */
  lemma EveryGroupIsReported(m: Monitoring, b: Batch, a: Attempt, ids: set<string>, check: Check)
    requires Feasible(b, a) && IsRowCheck(check)
    ensures forall row :: row in Diagnosed(b) ==>
              exists r :: r in DqFrame(m, b, a, ids) && r.check == check && IsGroupReport(b, a, SourceColumnOf(row), r)
    ensures forall r :: r in DqFrame(m, b, a, ids) && r.check == check ==>
              exists row :: row in Diagnosed(b) && IsGroupReport(b, a, SourceColumnOf(row), r)
  {
    forall row | row in Diagnosed(b)
      ensures exists r :: r in DqFrame(m, b, a, ids) && r.check == check
                && IsGroupReport(b, a, SourceColumnOf(row), r)
    {
      GroupIsReported(m, b, a, ids, check, row);
    }
    forall r | r in DqFrame(m, b, a, ids) && r.check == check
      ensures exists row :: row in Diagnosed(b) && IsGroupReport(b, a, SourceColumnOf(row), r)
    {
      ReportIsOfAGroup(m, b, a, ids, r);
    }
  }

  lemma GroupIsReported(m: Monitoring, b: Batch, a: Attempt, ids: set<string>, check: Check, row: Row)
    requires Feasible(b, a) && IsRowCheck(check) && row in Diagnosed(b)
    ensures exists r :: r in DqFrame(m, b, a, ids) && r.check == check && IsGroupReport(b, a, SourceColumnOf(row), r)
  {
    RowCheckMembers(m, b, a, a.sources);
    var source := SourceColumnOf(row);
    assert SourceOf(row) == source && source in Elements(a.sources);
    var r := CheckResult(m, b, a, source, check);
    CheckResultIsGroupReport(m, b, a, source, check);
    assert r in RowCheckResults(m, b, a, a.sources) && r in DqFrame(m, b, a, ids);
  }

  lemma RowCheckOfFrame(m: Monitoring, b: Batch, a: Attempt, ids: set<string>, r: DqResult)
    requires r in DqFrame(m, b, a, ids) && r.check !in {DuplicateEventIdInBatch, DuplicateEventIdAlreadyInSilver}
    ensures r in RowCheckResults(m, b, a, a.sources)
  {
    var i, s := InBatchResults(m, b, a, a.validSources), InSilverResults(m, b, a, ids, a.validSources);
    DuplicateMembers(m, b, a, ids, a.validSources);
    assert r in i || r in s ==> r in i + s;
  }

  lemma ReportOfSource(m: Monitoring, b: Batch, a: Attempt, source: string, check: Check)
    requires Feasible(b, a) && source in a.sources
    ensures exists row :: row in Diagnosed(b)
              && IsGroupReport(b, a, SourceColumnOf(row), CheckResult(m, b, a, source, check))
  {
    CheckResultIsGroupReport(m, b, a, source, check);
    assert source in Elements(a.sources);
    var row :| row in Diagnosed(b) && SourceOf(row) == source;
    assert SourceColumnOf(row) == source;
  }

  lemma ReportIsOfAGroup(m: Monitoring, b: Batch, a: Attempt, ids: set<string>, r: DqResult)
    requires Feasible(b, a) && r in DqFrame(m, b, a, ids) && IsRowCheck(r.check)
    ensures exists row :: row in Diagnosed(b) && IsGroupReport(b, a, SourceColumnOf(row), r)
  {
    DuplicatesAreNotListed();
    RowCheckOfFrame(m, b, a, ids, r);
    RowCheckMembers(m, b, a, a.sources);
    var source, c :| source in a.sources && c in ROW_CHECKS && r == CheckResult(m, b, a, source, c);
    ReportOfSource(m, b, a, source, c);
  }

  lemma DuplicatesAreNotListed()
    ensures DuplicateEventIdInBatch !in ROW_CHECKS && DuplicateEventIdAlreadyInSilver !in ROW_CHECKS
  {
  }

  function WellFormedFrom(source: string, now: int): Row -> bool {
    (row: Row) => SourceColumnOf(row) == source && WellFormed(row, now)
  }

  lemma ValidFromSource(b: Batch, now: int, source: string)
    ensures Filter(FromSource(source), ValidRows(b, now)) == Filter(WellFormedFrom(source, now), Diagnosed(b))
  {
    forall r ensures IsValid(now)(r) <==> WellFormed(r, now) {
      ValidIffWellFormed(r, now);
    }
    FilterTwice(FromSource(source), IsValid(now), WellFormedFrom(source, now), Diagnosed(b));
  }

  /** The two duplicate results of a group: of its well-formed rows, those whose event id another one has; of
      its distinct event ids, those that Silver holds already among the rows kept for the count. */
  lemma DuplicateResultsOfAGroup(m: Monitoring, b: Batch, a: Attempt, ids: set<string>, source: string)
    ensures
      var rows := Filter(WellFormedFrom(source, a.now), Diagnosed(b));
      var distinct := set row | row in rows :: row.event.eventId;
      var name := if source == "" then "UNKNOWN" else source;
      var i, s := InBatchResult(m, b, a, source), InSilverResult(m, b, a, ids, source);
      && i.runId == s.runId == b.runId && i.layer == s.layer == SILVER && i.source == s.source == name
      && i.checkedAt == s.checkedAt == a.checkedAt
      && i.check == DuplicateEventIdInBatch && s.check == DuplicateEventIdAlreadyInSilver
      && i.total == |rows| && i.failed == |rows| - |distinct| && s.total == |distinct|
      && s.failed == |Filter(KnownFrom(source, ids), a.counted)|
  {
    ValidFromSource(b, a.now, source);
    var rows := Filter(WellFormedFrom(source, a.now), Diagnosed(b));
    assert (set row | row in rows :: row.event.eventId) == Keys(rows, IdOf);
    FilterTwice(FromSource(source), InSilver(ids), KnownFrom(source, ids), a.counted);
  }

  function KnownFrom(source: string, ids: set<string>): Row -> bool {
    (row: Row) => SourceColumnOf(row) == source && row.event.eventId.Some? && row.event.eventId.value in ids
  }

  /******* The recorded levels *******/

  /** A failure to decode is red at once; every other result is judged by its rate. */
  predicate LevelIsDue(m: Monitoring, r: DqResult) {
    if r.check == SchemaAndDecode && r.failed > 0 then r.level == RED
    else r.level == Status(Some(FailedRate(r.total, r.failed)), Some(ThresholdsOf(m, r.check)))
  }

  ghost predicate LevelsAreDue(m: Monitoring, results: seq<DqResult>) {
    forall r :: r in results ==> LevelIsDue(m, r)
  }

  lemma {:induction false} SourceLevelsAreDue(m: Monitoring, b: Batch, a: Attempt, source: string, checks: seq<Check>)
    ensures LevelsAreDue(m, SourceResults(m, b, a, source, checks))
    decreases |checks|
  {
    if checks != [] {
      SourceLevelsAreDue(m, b, a, source, checks[..|checks| - 1]);
    }
  }

  lemma {:induction false} GroupLevelsAreDue(m: Monitoring, b: Batch, a: Attempt, sources: seq<string>,
                                             checks: seq<Check>)
    ensures LevelsAreDue(m, GroupResults(m, b, a, sources, checks))
    decreases |sources|
  {
    if sources != [] {
      GroupLevelsAreDue(m, b, a, sources[..|sources| - 1], checks);
      SourceLevelsAreDue(m, b, a, sources[|sources| - 1], checks);
    }
  }

  lemma OneLevelIsDue(m: Monitoring, results: seq<DqResult>, last: DqResult)
    requires LevelsAreDue(m, results) && LevelIsDue(m, last)
    ensures LevelsAreDue(m, results + [last])
  {
  }

  lemma {:induction false} InBatchLevelsAreDue(m: Monitoring, b: Batch, a: Attempt, sources: seq<string>)
    ensures LevelsAreDue(m, InBatchResults(m, b, a, sources))
    decreases |sources|
  {
    if sources != [] {
      var before := sources[..|sources| - 1];
      InBatchLevelsAreDue(m, b, a, before);
      OneLevelIsDue(m, InBatchResults(m, b, a, before), InBatchResult(m, b, a, sources[|sources| - 1]));
    }
  }

  lemma {:induction false} InSilverLevelsAreDue(m: Monitoring, b: Batch, a: Attempt, ids: set<string>,
                                                sources: seq<string>)
    ensures LevelsAreDue(m, InSilverResults(m, b, a, ids, sources))
    decreases |sources|
  {
    if sources != [] {
      var before := sources[..|sources| - 1];
      InSilverLevelsAreDue(m, b, a, ids, before);
      OneLevelIsDue(m, InSilverResults(m, b, a, ids, before), InSilverResult(m, b, a, ids, sources[|sources| - 1]));
    }
  }

  /** The level of every recorded Silver result follows from the counts recorded with it. */
  lemma RecordedLevelsFollowTheCounts(m: Monitoring, b: Batch, a: Attempt, ids: set<string>)
    ensures LevelsAreDue(m, DqFrame(m, b, a, ids))
  {
    RowCheckGroups(m, b, a, a.sources);
    GroupLevelsAreDue(m, b, a, a.sources, ROW_CHECKS);
    InBatchLevelsAreDue(m, b, a, a.validSources);
    InSilverLevelsAreDue(m, b, a, ids, a.validSources);
  }
}
