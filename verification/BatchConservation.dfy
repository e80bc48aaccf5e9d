/** Row accounting of one batch: every row is quarantined, dropped as a duplicate, found in Silver or
    inserted, and the reported numbers add up to exactly that. */
module BatchConservation {
  import opened Collections
  import opened DeltaTables
  import opened Rows
  import opened Checks
  import opened SilverBatch

  function SumOver(f: string -> nat, order: seq<string>): nat {
    if order == [] then 0 else SumOver(f, order[..|order| - 1]) + f(order[|order| - 1])
  }

  function GroupSize(rows: seq<Row>): string -> nat {
    source => |Filter(FromSource(source), rows)|
  }

  function GroupIdCount(rows: seq<Row>): string -> nat {
    source => |GroupIds(rows, source)|
  }

  /** The rows that belong to one of these sources. */
  function FromAny(order: seq<string>): Row -> bool {
    (row: Row) => SourceOf(row) in order
  }

  lemma {:induction false} FilterDisjunction(rows: seq<Row>, order: seq<string>, source: string)
    requires source !in order
    ensures |Filter(FromAny(order + [source]), rows)|
         == |Filter(FromAny(order), rows)| + |Filter(FromSource(source), rows)|
    decreases |rows|
  {
    if rows != [] {
      FilterDisjunction(rows[..|rows| - 1], order, source);
    }
  }

  lemma {:induction false} GroupsAddUpTo(rows: seq<Row>, order: seq<string>)
    requires Distinct(order)
    ensures SumOver(GroupSize(rows), order) == |Filter(FromAny(order), rows)|
    decreases |order|
  {
    if order == [] {
      FilterNone(FromAny(order), rows);
    } else {
      var before, source := order[..|order| - 1], order[|order| - 1];
      assert order == before + [source];
      GroupsAddUpTo(rows, before);
      FilterDisjunction(rows, before, source);
    }
  }

  /** The sizes of the groups add up to the number of rows: no row is in two groups or in none. */
  lemma GroupsPartitionTheRows(rows: seq<Row>, order: seq<string>)
    requires Distinct(order) && Sources(rows) <= Elements(order)
    ensures SumOver(GroupSize(rows), order) == |rows|
  {
    GroupsAddUpTo(rows, order);
    forall r | r in rows ensures FromAny(order)(r) {
      assert SourceOf(r) in Sources(rows);
    }
    FilterAll(FromAny(order), rows);
  }

  /******* Event ids that span several sources *******/

  ghost predicate NoIdSpansSources(rows: seq<Row>, order: seq<string>) {
    forall i, j :: 0 <= i < j < |order| ==> GroupIds(rows, order[i]) !! GroupIds(rows, order[j])
  }

  function IdsFrom(rows: seq<Row>, order: seq<string>): set<Option<string>> {
    Ids(Filter(FromAny(order), rows))
  }

  lemma IdsFromSnoc(rows: seq<Row>, order: seq<string>, source: string)
    ensures IdsFrom(rows, order + [source]) == IdsFrom(rows, order) + GroupIds(rows, source)
  {
    FilterMembers(FromAny(order + [source]), rows);
    FilterMembers(FromAny(order), rows);
    FilterMembers(FromSource(source), rows);
    var a, b, c := Filter(FromAny(order + [source]), rows), Filter(FromAny(order), rows),
        Filter(FromSource(source), rows);
    forall id | id in Ids(a) ensures id in Ids(b) + Ids(c) {
      var r :| r in a && IdOf(r) == id;
      assert r in b || r in c;
    }
    forall id | id in Ids(b) + Ids(c) ensures id in Ids(a) {
      var r :| (r in b || r in c) && IdOf(r) == id;
      assert r in a;
    }
  }

  lemma GroupIdsAreFrom(rows: seq<Row>, order: seq<string>, source: string)
    requires source in order
    ensures GroupIds(rows, source) <= IdsFrom(rows, order)
  {
    FilterMembers(FromAny(order), rows);
    FilterMembers(FromSource(source), rows);
    var b, c := Filter(FromAny(order), rows), Filter(FromSource(source), rows);
    forall id | id in Ids(c) ensures id in Ids(b) {
      var r :| r in c && IdOf(r) == id;
      assert r in b;
    }
  }

  lemma IdFromHasSource(rows: seq<Row>, order: seq<string>, id: Option<string>) returns (i: nat)
    requires id in IdsFrom(rows, order)
    ensures i < |order| && id in GroupIds(rows, order[i])
  {
    FilterMembers(FromAny(order), rows);
    var r :| r in Filter(FromAny(order), rows) && IdOf(r) == id;
    i :| 0 <= i < |order| && order[i] == SourceOf(r);
    FilterMembers(FromSource(order[i]), rows);
    assert r in Filter(FromSource(order[i]), rows);
  }

  lemma UnionSize<T>(a: set<T>, b: set<T>)
    ensures |a + b| <= |a| + |b|
    ensures |a + b| == |a| + |b| <==> a !! b
  {
    assert |a + b| == |a| + |b| - |a * b|;
    if a * b == {} {
      assert forall x :: x in a && x in b ==> x in a * b;
    }
  }

  lemma SpansSnoc(rows: seq<Row>, before: seq<string>, source: string)
    ensures NoIdSpansSources(rows, before + [source])
       <==> NoIdSpansSources(rows, before) && IdsFrom(rows, before) !! GroupIds(rows, source)
  {
    var order := before + [source];
    if NoIdSpansSources(rows, order) {
      forall id | id in IdsFrom(rows, before) ensures id !in GroupIds(rows, source) {
        var i := IdFromHasSource(rows, before, id);
        assert GroupIds(rows, order[i]) !! GroupIds(rows, order[|before|]);
      }
      forall i, j | 0 <= i < j < |before| ensures GroupIds(rows, before[i]) !! GroupIds(rows, before[j]) {
        assert order[i] == before[i] && order[j] == before[j];
      }
    }
    if NoIdSpansSources(rows, before) && IdsFrom(rows, before) !! GroupIds(rows, source) {
      forall i, j | 0 <= i < j < |order| ensures GroupIds(rows, order[i]) !! GroupIds(rows, order[j]) {
        if j < |before| {
          assert GroupIds(rows, before[i]) !! GroupIds(rows, before[j]);
        } else {
          GroupIdsAreFrom(rows, before, before[i]);
        }
      }
    }
  }

  /** Counting distinct ids per source over-counts exactly the ids that several sources share. */
  lemma {:induction false} PerSourceIdCounts(rows: seq<Row>, order: seq<string>)
    requires Distinct(order)
    ensures SumOver(GroupIdCount(rows), order) >= |IdsFrom(rows, order)|
    ensures SumOver(GroupIdCount(rows), order) == |IdsFrom(rows, order)| <==> NoIdSpansSources(rows, order)
    decreases |order|
  {
    if order == [] {
      FilterNone(FromAny(order), rows);
    } else {
      var before, source := order[..|order| - 1], order[|order| - 1];
      assert order == before + [source];
      PerSourceIdCounts(rows, before);
      IdsFromSnoc(rows, before, source);
      SpansSnoc(rows, before, source);
      UnionSize(IdsFrom(rows, before), GroupIds(rows, source));
    }
  }

  /******* One attempt *******/

  /** Rows dropped because a row with the same event id is kept. */
  function InBatchDuplicates(b: Batch, a: Attempt): int {
    |ValidRows(b, a.now)| - |a.merged|
  }

  function Inserted(a: Attempt, silver: seq<SilverRow>): seq<SilverRow> {
    Filter(Unmatched(SilverIds(silver), EventIdOf), SilverFrame(a))
  }

  function AlreadyCount(a: Attempt, ids: set<string>): string -> nat {
    source => AlreadyInSilver(a.counted, ids, source)
  }

  lemma UniqueRowsAreValid(b: Batch, a: Attempt, r: Row)
    requires Feasible(b, a) && (r in a.counted || r in a.merged)
    ensures r in ValidRows(b, a.now) && r in Diagnosed(b) && IsValid(a.now)(r) && WellFormed(r, a.now)
  {
    FilterMembers(IsValid(a.now), Diagnosed(b));
    ValidIffWellFormed(r, a.now);
  }

  lemma UnmatchedMeansNotInSilver(now: int, r: Row, ids: set<string>, at: int)
    requires WellFormed(r, now)
    ensures Unmatched(ids, EventIdOf)(ToSilver(at)(r)) == Negation(InSilver(ids))(r)
  {
    assert EventIdOf(ToSilver(at)(r)) == r.event.eventId.value;
  }

  /** The rows the MERGE inserts are those of the deduplicated batch that Silver does not hold. */
  lemma {:induction false} InsertedAreTheRest(now: int, unique: seq<Row>, ids: set<string>, at: int)
    requires forall r :: r in unique ==> WellFormed(r, now)
    ensures Filter(Unmatched(ids, EventIdOf), Map(ToSilver(at), unique))
         == Map(ToSilver(at), Filter(Negation(InSilver(ids)), unique))
  {
    forall r | r in unique ensures Unmatched(ids, EventIdOf)(ToSilver(at)(r)) == Negation(InSilver(ids))(r) {
      UnmatchedMeansNotInSilver(now, r, ids, at);
    }
    FilterThroughMap(Unmatched(ids, EventIdOf), Negation(InSilver(ids)), ToSilver(at), unique);
  }

  /** How many deduplicated rows Silver already holds does not depend on the rows that were kept. */
  lemma ChoiceDoesNotMatter(rows: seq<Row>, u: seq<Row>, v: seq<Row>, ids: set<string>)
    requires Representatives(rows, u) && Representatives(rows, v)
    ensures |Filter(InSilver(ids), u)| == |Filter(InSilver(ids), v)|
  {
    FilterKeepsDistinct(InSilver(ids), u, IdOf);
    FilterKeepsDistinct(InSilver(ids), v, IdOf);
    UniqueRowsCountIds(Filter(InSilver(ids), u));
    UniqueRowsCountIds(Filter(InSilver(ids), v));
    KeptIds(rows, u, ids);
    KeptIds(rows, v, ids);
    assert Ids(Filter(InSilver(ids), u)) == Ids(Filter(InSilver(ids), v));
  }

  lemma KeptIds(rows: seq<Row>, u: seq<Row>, ids: set<string>)
    requires Representatives(rows, u)
    ensures forall id :: id in Ids(Filter(InSilver(ids), u)) <==> id in Ids(rows) && id.Some? && id.value in ids
  {
    FilterMembers(InSilver(ids), u);
    forall id ensures id in Ids(Filter(InSilver(ids), u)) <==> id in Ids(rows) && id.Some? && id.value in ids {
      if id in Ids(rows) && id.Some? && id.value in ids {
        assert id in Ids(u);
        var r :| r in u && IdOf(r) == id;
        assert r in Filter(InSilver(ids), u);
      }
    }
  }

  /** Batch size = quarantined + duplicates in the batch + already in Silver + inserted, where the last
      but one is the sum of the reported per-source counts. */
  lemma BatchIsConserved(b: Batch, a: Attempt, silver: seq<SilverRow>)
    requires Feasible(b, a)
    ensures |b.rows| == |QuarantineFrame(b, a)| + InBatchDuplicates(b, a)
                        + SumOver(AlreadyCount(a, SilverIds(silver)), a.validSources) + |Inserted(a, silver)|
    ensures InBatchDuplicates(b, a) >= 0
  {
    var rows, valid, ids := Diagnosed(b), ValidRows(b, a.now), SilverIds(silver);
    FilterSplit(IsValid(a.now), rows);
    FilterAgree(IsInvalid(a.now), Negation(IsValid(a.now)), rows);
    FilterSplit(InSilver(ids), a.merged);
    forall r | r in a.merged ensures WellFormed(r, a.now) {
      UniqueRowsAreValid(b, a, r);
    }
    InsertedAreTheRest(a.now, a.merged, ids, a.processedAt);
    AlreadyAddsUp(b, a, ids);
    ChoiceDoesNotMatter(valid, a.counted, a.merged, ids);
    RepresentativesAreFewer(valid, a.merged);
  }

  lemma AlreadyAddsUp(b: Batch, a: Attempt, ids: set<string>)
    requires Feasible(b, a)
    ensures SumOver(AlreadyCount(a, ids), a.validSources) == |Filter(InSilver(ids), a.counted)|
  {
    var already := Filter(InSilver(ids), a.counted);
    FilterMembers(InSilver(ids), a.counted);
    forall s | s in Sources(already) ensures s in Elements(a.validSources) {
      var r :| r in already && SourceOf(r) == s;
      UniqueRowsAreValid(b, a, r);
      assert SourceOf(r) in Sources(ValidRows(b, a.now));
    }
    GroupsPartitionTheRows(already, a.validSources);
    SumsAgree(AlreadyCount(a, ids), GroupSize(already), a.validSources);
  }

  lemma {:induction false} SumsAgree(f: string -> nat, g: string -> nat, order: seq<string>)
    requires forall s :: f(s) == g(s)
    ensures SumOver(f, order) == SumOver(g, order)
    decreases |order|
  {
    if order != [] {
      SumsAgree(f, g, order[..|order| - 1]);
    }
  }

  lemma {:induction false} IdsAreFewer(rows: seq<Row>)
    ensures |Ids(rows)| <= |rows|
    decreases |rows|
  {
    if rows == [] {
      assert Ids(rows) == {};
    } else {
      var u, r := rows[..|rows| - 1], rows[|rows| - 1];
      IdsAreFewer(u);
      assert rows == u + [r];
      assert Ids(rows) == Ids(u) + {IdOf(r)};
    }
  }

  lemma UniqueRowsCountIds(unique: seq<Row>)
    requires UniqueBy(unique, IdOf)
    ensures |Ids(unique)| == |unique|
  {
    DistinctCardinality(Map(IdOf, unique));
    forall id ensures id in Elements(Map(IdOf, unique)) <==> id in Ids(unique) {
      if id in Elements(Map(IdOf, unique)) {
        var i :| 0 <= i < |unique| && Map(IdOf, unique)[i] == id;
        assert unique[i] in unique;
      }
      if id in Ids(unique) {
        var r :| r in unique && IdOf(r) == id;
        var i :| 0 <= i < |unique| && unique[i] == r;
        assert Map(IdOf, unique)[i] == id;
      }
    }
    assert Elements(Map(IdOf, unique)) == Ids(unique);
  }

  lemma RepresentativesAreFewer(rows: seq<Row>, unique: seq<Row>)
    requires Representatives(rows, unique)
    ensures |unique| == |Ids(rows)| <= |rows|
  {
    IdsAreFewer(rows);
    UniqueRowsCountIds(unique);
  }

  /** The duplicates reported per source never exceed those of the batch, and equal them exactly when
      no event id occurs under two sources. */
  lemma ReportedDuplicates(b: Batch, a: Attempt)
    requires Feasible(b, a)
    ensures
      var valid := ValidRows(b, a.now);
      var reported := SumOver(GroupSize(valid), a.validSources) - SumOver(GroupIdCount(valid), a.validSources);
      && reported <= InBatchDuplicates(b, a)
      && (reported == InBatchDuplicates(b, a) <==> NoIdSpansSources(valid, a.validSources))
  {
    var valid := ValidRows(b, a.now);
    GroupsPartitionTheRows(valid, a.validSources);
    PerSourceIdCounts(valid, a.validSources);
    RepresentativesAreFewer(valid, a.merged);
    forall r | r in valid ensures FromAny(a.validSources)(r) {
      assert SourceOf(r) in Sources(valid);
    }
    FilterAll(FromAny(a.validSources), valid);
  }

  /******* The reported counts *******/

  ghost predicate CountsAreSane(results: seq<DqResult>) {
    forall r :: r in results ==> 0 <= r.failed <= r.total
  }

  lemma AlreadyIsBounded(b: Batch, a: Attempt, ids: set<string>, source: string)
    requires Feasible(b, a)
    ensures AlreadyInSilver(a.counted, ids, source) <= |GroupIds(ValidRows(b, a.now), source)|
  {
    var valid := ValidRows(b, a.now);
    var already := Filter(InSilver(ids), a.counted);
    var mine := Filter(FromSource(source), already);
    FilterMembers(InSilver(ids), a.counted);
    FilterMembers(FromSource(source), already);
    FilterMembers(FromSource(source), valid);
    FilterKeepsDistinct(InSilver(ids), a.counted, IdOf);
    FilterKeepsDistinct(FromSource(source), already, IdOf);
    UniqueRowsCountIds(mine);
    forall id | id in Ids(mine) ensures id in GroupIds(valid, source) {
      var r :| r in mine && IdOf(r) == id;
      assert r in Filter(FromSource(source), valid);
    }
    SubsetSize(Ids(mine), GroupIds(valid, source));
  }

  lemma SubsetSize<T>(a: set<T>, b: set<T>)
    requires a <= b
    ensures |a| <= |b|
  {
    assert b == a + (b - a);
  }

  lemma {:induction false} SourceResultsAreSane(m: Monitoring, b: Batch, a: Attempt, source: string, checks: seq<Check>)
    ensures CountsAreSane(SourceResults(m, b, a, source, checks))
    decreases |checks|
  {
    if checks != [] {
      SourceResultsAreSane(m, b, a, source, checks[..|checks| - 1]);
    }
  }

  lemma {:induction false} RowCheckResultsAreSane(m: Monitoring, b: Batch, a: Attempt, sources: seq<string>)
    ensures CountsAreSane(RowCheckResults(m, b, a, sources))
    decreases |sources|
  {
    if sources != [] {
      RowCheckResultsAreSane(m, b, a, sources[..|sources| - 1]);
      SourceResultsAreSane(m, b, a, sources[|sources| - 1], ROW_CHECKS);
    }
  }

  lemma {:induction false} DuplicateResultsAreSane(m: Monitoring, b: Batch, a: Attempt, ids: set<string>,
                                                   sources: seq<string>)
    requires Feasible(b, a)
    ensures CountsAreSane(InBatchResults(m, b, a, sources)) && CountsAreSane(InSilverResults(m, b, a, ids, sources))
    decreases |sources|
  {
    if sources != [] {
      var source := sources[|sources| - 1];
      DuplicateResultsAreSane(m, b, a, ids, sources[..|sources| - 1]);
      IdsAreFewer(Filter(FromSource(source), ValidRows(b, a.now)));
      AlreadyIsBounded(b, a, ids, source);
    }
  }

  /** Every Silver result reports between none and all of its rows as failed, also when one event id
      spans several sources. */
  lemma DqCountsAreSane(m: Monitoring, b: Batch, a: Attempt, ids: set<string>)
    requires Feasible(b, a)
    ensures CountsAreSane(DqFrame(m, b, a, ids))
  {
    RowCheckResultsAreSane(m, b, a, a.sources);
    DuplicateResultsAreSane(m, b, a, ids, a.validSources);
  }

  /******* Schema drift *******/

  /** A column of the wrong type is never cast into accepted values: the whole batch is quarantined, none
      of it reaches Silver, and the schema check is red for every source. */
  lemma DriftedBatchesAreQuarantined(m: Monitoring, b: Batch, a: Attempt)
    requires b.drifted != {} && Feasible(b, a)
    ensures |QuarantineFrame(b, a)| == |b.rows| && SilverFrame(a) == []
    ensures forall source :: source in a.sources ==> CheckResult(m, b, a, source, SchemaAndDecode).level == RED
  {
    var rows := Diagnosed(b);
    forall r | r in rows ensures !IsValid(a.now)(r) && FailsCheck(SchemaAndDecode, a.now)(r) {
      assert r.decodeError == Some(MISMATCH);
      ValidIffWellFormed(r, a.now);
      FilterMembers(Fails(r, a.now), ROW_CHECKS);
      assert SchemaAndDecode in ROW_CHECKS;
    }
    FilterNone(IsValid(a.now), rows);
    FilterAll(IsInvalid(a.now), rows);
    RepresentativesAreFewer([], a.merged);
    forall source | source in a.sources ensures Failures(rows, source, SchemaAndDecode, a.now) > 0 {
      assert source in Sources(rows);
      var r :| r in rows && SourceOf(r) == source;
      var group := Filter(FromSource(source), rows);
      FilterMembers(FromSource(source), rows);
      FilterAll(FailsCheck(SchemaAndDecode, a.now), group);
      assert r in group;
    }
  }

  /******* What the written rows say *******/

  lemma QuarantinedFrom(b: Batch, a: Attempt, q: Quarantined) returns (row: Row)
    requires q in QuarantineFrame(b, a)
    ensures row in b.rows && IsInvalid(a.now)(Diagnose(b.drifted)(row)) && Diagnose(b.drifted)(row) in Diagnosed(b)
    ensures q == Quarantining(b.runId, a.now, a.quarantinedAt)(Diagnose(b.drifted)(row))
  {
    var rows := InvalidRows(b, a.now);
    var k :| 0 <= k < |rows| && QuarantineFrame(b, a)[k] == q;
    FilterMembers(IsInvalid(a.now), Diagnosed(b));
    assert rows[k] in rows;
    var i :| 0 <= i < |b.rows| && Diagnosed(b)[i] == rows[k];
    row := b.rows[i];
  }

  predicate NulledColumns(drifted: set<Column>, q: Quarantined) {
    && (EventIdColumn in drifted ==> q.eventId.None?) && (UserIdColumn in drifted ==> q.userId.None?)
    && (WriterIdColumn in drifted ==> q.writerId.None?) && (SourceColumn in drifted ==> q.source == "UNKNOWN")
    && (RequestedAtColumn in drifted ==> q.requestedAt.None?)
  }

  predicate KeptColumns(drifted: set<Column>, was: Event, q: Quarantined) {
    && (EventIdColumn !in drifted ==> q.eventId == was.eventId)
    && (UserIdColumn !in drifted ==> q.userId == was.userId)
    && (WriterIdColumn !in drifted ==> q.writerId == was.writerId)
    && (SourceColumn !in drifted ==> q.source == if was.source.Some? then was.source.value else "UNKNOWN")
    && (RequestedAtColumn !in drifted ==> q.requestedAt == was.requestedAt)
  }

  /** A quarantined row is a row of the batch, with its coordinates and the columns that have the right
      type, and lists exactly the checks the diagnosed row violates, of which there is at least one. Its
      raw_value is that of the row, or, in a drifted batch, the whole row. */
  lemma QuarantineExplainsItself(b: Batch, a: Attempt, q: Quarantined)
    requires q in QuarantineFrame(b, a)
    ensures q.runId == b.runId && q.quarantinedAt == a.quarantinedAt && q.failedChecks != []
    ensures NulledColumns(b.drifted, q)
    ensures exists r :: r in b.rows && !WellFormed(Diagnose(b.drifted)(r), a.now)
              && QuarantineKeyOf(q) == QuarantineKey(b.runId, r.topic, r.partition, r.offset)
              && KeptColumns(b.drifted, r.event, q)
              && q.rawValue == (if b.drifted == {} then r.rawValue else RowAsJson(r))
              && forall c :: c in q.failedChecks <==> Violates(c, Diagnose(b.drifted)(r), a.now)
  {
    var row := QuarantinedFrom(b, a, q);
    var r := Diagnose(b.drifted)(row);
    ValidIffWellFormed(r, a.now);
    FailedMeansViolated(r, a.now);
  }

  /** No mistyped value is cast, and none is lost: a drifted batch can be read back, row by row, from what
      its quarantined rows keep as JSON. */
  lemma DriftedRowsAreKept(b: Batch, a: Attempt)
    requires b.drifted != {}
    ensures |QuarantineFrame(b, a)| == |b.rows|
    ensures forall i :: 0 <= i < |b.rows| ==> QuarantineFrame(b, a)[i].rawValue == RowAsJson(b.rows[i])
    ensures forall r :: r in Diagnosed(b) ==> r.decodeError == Some("schema_type_mismatch")
    ensures forall q :: q in QuarantineFrame(b, a) ==> NulledColumns(b.drifted, q)
  {
    var rows := Diagnosed(b);
    forall r | r in rows ensures IsInvalid(a.now)(r) {
      assert r.decodeError == Some(MISMATCH);
      ValidIffWellFormed(r, a.now);
    }
    FilterAll(IsInvalid(a.now), rows);
    forall q | q in QuarantineFrame(b, a) ensures NulledColumns(b.drifted, q) {
      QuarantineExplainsItself(b, a, q);
    }
  }

  /** A row inserted into Silver is, column by column, a well-formed row of the batch. */
  lemma InsertedRowsAreBatchRows(b: Batch, a: Attempt, silver: seq<SilverRow>, x: SilverRow)
    requires Feasible(b, a) && x in Inserted(a, silver)
    ensures x.processedAt == a.processedAt && x.eventId !in SilverIds(silver)
    ensures exists r :: r in Diagnosed(b) && WellFormed(r, a.now)
              && r.event
                  == Event(Some(x.eventId), Some(x.userId), Some(x.writerId), Some(x.source), Some(x.requestedAt))
  {
    FilterMembers(Unmatched(SilverIds(silver), EventIdOf), SilverFrame(a));
    assert x in SilverFrame(a);
    var i :| 0 <= i < |a.merged| && SilverFrame(a)[i] == x;
    UniqueRowsAreValid(b, a, a.merged[i]);
  }

  function FailuresFrom(rows: seq<Row>, check: Check, now: int): string -> nat {
    source => Failures(rows, source, check, now)
  }

  lemma {:induction false} FiltersCommute<T>(p: T -> bool, q: T -> bool, s: seq<T>)
    ensures Filter(p, Filter(q, s)) == Filter(q, Filter(p, s))
    decreases |s|
  {
    if s != [] {
      var u, x := s[..|s| - 1], s[|s| - 1];
      assert s == u + [x];
      FiltersCommute(p, q, u);
      FilterSnoc(p, u, x);
      FilterSnoc(q, u, x);
      FilterSnoc(p, Filter(q, u), x);
      FilterSnoc(q, Filter(p, u), x);
    }
  }

  /** The failures reported for a check, summed over the sources, are all rows of the batch that fail it. */
  lemma FailuresAddUp(b: Batch, a: Attempt, check: Check)
    requires Feasible(b, a)
    ensures SumOver(FailuresFrom(Diagnosed(b), check, a.now), a.sources)
         == |Filter(FailsCheck(check, a.now), Diagnosed(b))|
  {
    var rows := Diagnosed(b);
    var failing := Filter(FailsCheck(check, a.now), rows);
    FilterMembers(FailsCheck(check, a.now), rows);
    forall s | s in Sources(failing) ensures s in Elements(a.sources) {
      var r :| r in failing && SourceOf(r) == s;
      assert SourceOf(r) in Sources(rows);
    }
    GroupsPartitionTheRows(failing, a.sources);
    forall source ensures FailuresFrom(rows, check, a.now)(source) == GroupSize(failing)(source) {
      FiltersCommute(FailsCheck(check, a.now), FromSource(source), rows);
    }
    SumsAgree(FailuresFrom(rows, check, a.now), GroupSize(failing), a.sources);
  }
}
