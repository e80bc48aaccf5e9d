/**
 The stream from Kafka into Bronze: micro-batch identity, the guarded append, crash and replay.

 The checkpoint fixes the offset range of a batch before the batch is processed and counts it as
 done only afterwards; a restarted query is handed the same range under the same batch id. A Delta
 append carrying a (txnAppId, txnVersion) that is not newer than the last one is skipped.
 */
module BronzeStream {
  import opened Collections
  import opened Rows
  import opened Decoding

  /******* The guarded append *******/

  class BronzeTable {
    var rows: seq<Row>
    var versions: map<string, int> // the last txnVersion of every txnAppId

    constructor ()
      ensures rows == [] && versions == map[]
    {
      rows, versions := [], map[];
    }

    /** `append_bronze`. */
    method Append(frame: seq<Row>, appId: string, version: int)
      modifies this
      ensures rows == if IsNewer(old(versions), appId, version) then old(rows) + frame else old(rows)
      ensures versions
              == if IsNewer(old(versions), appId, version) then old(versions)[appId := version] else old(versions)
      ensures (rows, Lookup(versions, appId))
           == AppendAll(old(rows), Lookup(old(versions), appId), [Write(frame, version)])
    {
      assert AppendAll(rows, Lookup(versions, appId), [Write(frame, version)][..0]) == (rows, Lookup(versions, appId));
      if IsNewer(versions, appId, version) {
        rows, versions := rows + frame, versions[appId := version];
      }
    }

    /** The `process` closure of the Kafka-to-Bronze query. */
    method Process(batch: seq<Record>, batchId: nat, identity: string, registry: Registry, parse: Parser, at: int)
      returns (ok: bool)
      modifies this
      ensures !ok || batch == [] ==> rows == old(rows) && versions == old(versions)
      // It raises exactly when the registry does not know the schema of some record.
      ensures ok <==> forall id :: id in SchemaIds(batch) ==> Resolvable(id, registry)
      ensures ok && batch != [] && !IsNewer(old(versions), identity, batchId) ==>
              rows == old(rows) && versions == old(versions)
      ensures ok && batch != [] && IsNewer(old(versions), identity, batchId) ==>
                && versions == old(versions)[identity := batchId]
                && old(rows) <= rows
                && IsDecodingOf(rows[|old(rows)|..], batch, registry, parse, at)
    {
      if batch == [] {
        return true;
      }
      var decoded := Decode(batch, registry, parse, at);
      if decoded.Raised? {
        return false;
      }
      if decoded.value.None? {
        return true;
      }
      Append(decoded.value.value, identity, batchId);
      assert IsNewer(old(versions), identity, batchId) ==> rows[|old(rows)|..] == decoded.value.value;
      return true;
    }
  }

  predicate IsNewer(versions: map<string, int>, appId: string, version: int) {
    appId in versions ==> versions[appId] < version
  }

  /** These rows are the decoded records of the batch, in some order. */
  ghost predicate IsDecodingOf(rows: seq<Row>, batch: seq<Record>, registry: Registry, parse: Parser, at: int) {
    multiset(rows) == multiset(Map(DecodeRow(registry, parse, at), batch))
  }

  /** One guarded append under the identity of some query. */
  datatype Write = Write(frame: seq<Row>, version: int)

  /** The table, and the last version it remembers for that identity, after all of these. */
  function AppendAll(rows: seq<Row>, last: Option<int>, writes: seq<Write>): (seq<Row>, Option<int>) {
    if writes == [] then (rows, last) else
      var (rows', last') := AppendAll(rows, last, writes[..|writes| - 1]);
      var w := writes[|writes| - 1];
      if last'.None? || last'.value < w.version then (rows' + w.frame, Some(w.version)) else (rows', last')
  }

  /** The frames of the writes whose version is beyond every version before it. */
  function FirstFrames(writes: seq<Write>): seq<Row> {
    if writes == [] then [] else
      var before, w := writes[..|writes| - 1], writes[|writes| - 1];
      FirstFrames(before) + if forall x :: x in before ==> x.version < w.version then w.frame else []
  }

  /** The largest version among these writes. */
  ghost predicate IsLatest(writes: seq<Write>, version: int) {
    && (exists w :: w in writes && w.version == version)
    && (forall w :: w in writes ==> w.version <= version)
  }

  lemma LatestSnoc(before: seq<Write>, w: Write, version: int)
    requires before == [] || IsLatest(before, version)
    ensures IsLatest(before + [w], if before == [] || version < w.version then w.version else version)
  {
    var writes := before + [w];
    assert w in writes;
    if before != [] {
      var x :| x in before && x.version == version;
      assert x in writes;
    }
  }

  lemma AppendSnoc(rows: seq<Row>, before: seq<Write>, w: Write)
    ensures
      var all, last := AppendAll(rows, None, before).0, AppendAll(rows, None, before).1;
      AppendAll(rows, None, before + [w])
      == if last.None? || last.value < w.version then (all + w.frame, Some(w.version)) else (all, last)
  {
    assert (before + [w])[..|before|] == before;
  }

  lemma {:induction false} LatestIsRemembered(rows: seq<Row>, writes: seq<Write>)
    requires writes != []
    ensures
      var last := AppendAll(rows, None, writes).1;
      last.Some? && IsLatest(writes, last.value)
    decreases |writes|
  {
    var before, w := writes[..|writes| - 1], writes[|writes| - 1];
    assert writes == before + [w];
    AppendSnoc(rows, before, w);
    if before == [] {
      LatestSnoc(before, w, w.version);
    } else {
      LatestIsRemembered(rows, before);
      LatestSnoc(before, w, AppendAll(rows, None, before).1.value);
    }
  }

  /** Whatever is attempted, repeated or comes late under one identity, each version reaches the table at most
      once, the first time, and only beyond all versions tried before. */
  lemma {:induction false} EachVersionLandsOnce(rows: seq<Row>, writes: seq<Write>)
    ensures AppendAll(rows, None, writes).0 == rows + FirstFrames(writes)
    ensures
      var last := AppendAll(rows, None, writes).1;
      if writes == [] then last.None? else last.Some? && IsLatest(writes, last.value)
    decreases |writes|
  {
    if writes != [] {
      LatestIsRemembered(rows, writes);
      var before, w := writes[..|writes| - 1], writes[|writes| - 1];
      EachVersionLandsOnce(rows, before);
      var last := AppendAll(rows, None, before).1;
      assert last.None? || last.value < w.version <==> forall x :: x in before ==> x.version < w.version;
    }
  }

  /******* Runs with crashes *******/

  datatype Name = Name(topic: string, partition: nat)
  datatype Coordinate = Coordinate(name: Name, offset: nat)

  function RecordCoordinate(r: Record): Coordinate {
    Coordinate(Name(r.topic, r.partition), r.offset)
  }

  function RowCoordinate(r: Row): Coordinate {
    Coordinate(Name(r.topic, r.partition), r.offset)
  }

  datatype State = State(
    names: seq<Name>,      // the partitions of the subscribed topics
    log: seq<seq<Record>>, // what they hold, partition by partition
    start: seq<nat>,       // where the first batch began
    plan: seq<seq<nat>>,   // the offset log: where each batch ends
    done: nat,             // the commit log: batches known to be finished
    processed: bool,       // the running query has processed the open batch
    version: int,          // last txnVersion seen by the table, -1 for none
    bronze: seq<Row>)

  datatype Step =
    | AddPartition(name: Name)
    | Arrive(index: nat, value: Option<seq<byte>>)
    | Plan(ends: seq<nat>)
    | Process(rows: seq<Row>, at: int)
    | Finish
    | Crash

  function EndsOf(start: seq<nat>, plan: seq<seq<nat>>, k: nat): seq<nat>
    requires k <= |plan|
  {
    if k == 0 then start else plan[k - 1]
  }

  /** Where batch number k begins, and the one before it ends. */
  function Ends(s: State, k: nat): seq<nat>
    requires k <= |s.plan|
  {
    EndsOf(s.start, s.plan, k)
  }

  /** The records of partitions below `n` between two offset vectors. */
  function Range(log: seq<seq<Record>>, from: seq<nat>, to: seq<nat>, n: nat): seq<Record>
    requires Within(log, from, to) && n <= |log|
  {
    if n == 0 then [] else Range(log, from, to, n - 1) + log[n - 1][from[n - 1]..to[n - 1]]
  }

  predicate Within(log: seq<seq<Record>>, from: seq<nat>, to: seq<nat>) {
    |from| == |to| == |log| && forall p :: 0 <= p < |log| ==> from[p] <= to[p] <= |log[p]|
  }

  function BatchRecords(s: State): seq<Record>
    requires s.done < |s.plan| && Within(s.log, Ends(s, s.done), Ends(s, s.done + 1))
  {
    Range(s.log, Ends(s, s.done), Ends(s, s.done + 1), |s.log|)
  }

  ghost predicate Enabled(s: State, step: Step, registry: Registry, parse: Parser) {
    match step
    case AddPartition(name) => name !in s.names
    case Arrive(i, _) => i < |s.log| == |s.names|
    case Plan(ends) => s.done == |s.plan| && Within(s.log, Ends(s, s.done), ends)
    case Process(rows, at) =>
      && s.done < |s.plan| && Within(s.log, Ends(s, s.done), Ends(s, s.done + 1))
      && IsDecodingOf(rows, BatchRecords(s), registry, parse, at)
    case Finish => s.processed
    case Crash => true
  }

  function Padded(ends: seq<nat>): seq<nat> {
    ends + [0]
  }

  /** A partition that offset vectors do not mention yet begins at zero in each of them. */
  function WithPartition(s: State, name: Name): State {
    s.(names := s.names + [name], log := s.log + [[]], start := Padded(s.start), plan := Map(Padded, s.plan))
  }

  function Next(s: State, step: Step): State
    requires step.Arrive? ==> step.index < |s.log| == |s.names|
  {
    match step
    case AddPartition(name) => WithPartition(s, name)
    case Arrive(i, value) =>
      var record := Record(s.names[i].topic, s.names[i].partition, |s.log[i]|, value);
      s.(log := s.log[i := s.log[i] + [record]])
    case Plan(ends) => s.(plan := s.plan + [ends])
    case Process(rows, _) =>
      if rows == [] || s.done <= s.version then s.(processed := true)
      else s.(processed := true, bronze := s.bronze + rows, version := s.done)
    case Finish => s.(done := s.done + 1, processed := false)
    case Crash => s.(processed := false)
  }

  /** Where the contents of the table end. */
  function Frontier(s: State): seq<nat>
    requires s.done <= |s.plan|
  {
    if s.version == s.done && s.done < |s.plan| then Ends(s, s.done + 1) else Ends(s, s.done)
  }

  predicate InPart(names: seq<Name>, from: seq<nat>, to: seq<nat>, c: Coordinate, i: nat) {
    i < |names| && i < |from| && i < |to| && names[i] == c.name && from[i] <= c.offset < to[i]
  }

  ghost predicate InRange(names: seq<Name>, from: seq<nat>, to: seq<nat>, c: Coordinate) {
    exists i :: InPart(names, from, to, c, i)
  }

  /** The table holds every consumed coordinate once, and no other. */
  ghost predicate OncePerOffset(s: State)
    requires s.done <= |s.plan|
  {
    forall c :: multiset(Map(RowCoordinate, s.bronze))[c] == if InRange(s.names, s.start, Frontier(s), c) then 1 else 0
  }

  ghost predicate IsDecoded(r: Row, log: seq<seq<Record>>, registry: Registry, parse: Parser) {
    exists i :: 0 <= i < |log| && r.offset < |log[i]| && r == DecodeRow(registry, parse, r.ingestedAt)(log[i][r.offset])
  }

  ghost predicate AreDecoded(rows: seq<Row>, log: seq<seq<Record>>, registry: Registry, parse: Parser) {
    forall r :: r in rows ==> IsDecoded(r, log, registry, parse)
  }

  /** Each row is the decoding of the record at its coordinates. */
  ghost predicate RowsAreDecoded(s: State, registry: Registry, parse: Parser) {
    AreDecoded(s.bronze, s.log, registry, parse)
  }

  ghost predicate LogIsNumbered(names: seq<Name>, log: seq<seq<Record>>) {
    && |names| == |log| && Distinct(names)
    && forall i, o :: 0 <= i < |log| && 0 <= o < |log[i]| ==> RecordCoordinate(log[i][o]) == Coordinate(names[i], o)
  }

  /** Batch number k runs forward, inside the log. */
  predicate RunsForward(log: seq<seq<Record>>, start: seq<nat>, plan: seq<seq<nat>>, k: nat)
    requires k < |plan|
  {
    Within(log, EndsOf(start, plan, k), plan[k]) && Within(log, start, plan[k])
  }

  predicate IsMonotone(log: seq<seq<Record>>, start: seq<nat>, plan: seq<seq<nat>>) {
    && |start| == |log|
    && Within(log, start, start)
    && forall k :: 0 <= k < |plan| ==> RunsForward(log, start, plan, k)
  }

  predicate PlanIsMonotone(s: State) {
    IsMonotone(s.log, s.start, s.plan)
  }

  ghost predicate Inv(s: State, registry: Registry, parse: Parser) {
    && s.done <= |s.plan| <= s.done + 1
    && s.version <= s.done
    && (s.version == s.done ==> s.done < |s.plan|)
    && LogIsNumbered(s.names, s.log)
    && PlanIsMonotone(s)
    && (s.processed ==>
          && s.done < |s.plan| && RunsForward(s.log, s.start, s.plan, s.done)
          && (s.version == s.done || BatchRecords(s) == []))
    && OncePerOffset(s)
    && RowsAreDecoded(s, registry, parse)
  }

  /******* Counting coordinates *******/

  function Once(b: bool): nat {
    if b then 1 else 0
  }

  lemma {:induction false} SliceCount(names: seq<Name>, log: seq<seq<Record>>, i: nat, lo: nat, hi: nat, c: Coordinate)
    requires LogIsNumbered(names, log) && i < |log| && lo <= hi <= |log[i]|
    ensures multiset(Map(RecordCoordinate, log[i][lo..hi]))[c] == Once(c.name == names[i] && lo <= c.offset < hi)
    decreases hi - lo
  {
    if lo < hi {
      SliceCount(names, log, i, lo, hi - 1, c);
      assert log[i][lo..hi] == log[i][lo..hi - 1] + [log[i][hi - 1]];
      MapConcat(RecordCoordinate, log[i][lo..hi - 1], [log[i][hi - 1]]);
    }
  }

  lemma {:induction false} RangeCount(names: seq<Name>, log: seq<seq<Record>>, from: seq<nat>, to: seq<nat>, n: nat,
                                      c: Coordinate)
    requires LogIsNumbered(names, log) && Within(log, from, to) && n <= |log|
    ensures multiset(Map(RecordCoordinate, Range(log, from, to, n)))[c] == Once(InRange(names[..n], from, to, c))
  {
    if n > 0 {
      RangeCount(names, log, from, to, n - 1, c);
      SliceCount(names, log, n - 1, from[n - 1], to[n - 1], c);
      MapConcat(RecordCoordinate, Range(log, from, to, n - 1), log[n - 1][from[n - 1]..to[n - 1]]);
      InRangeSnoc(names[..n - 1], names[n - 1], from, to, c);
      assert names[..n] == names[..n - 1] + [names[n - 1]];
    }
  }

  lemma InRangeSnoc(names: seq<Name>, name: Name, from: seq<nat>, to: seq<nat>, c: Coordinate)
    ensures InRange(names + [name], from, to, c) <==>
              InRange(names, from, to, c) || InPart(names + [name], from, to, c, |names|)
  {
    if InRange(names + [name], from, to, c) {
      var i: nat :| InPart(names + [name], from, to, c, i);
      assert i < |names| ==> InPart(names, from, to, c, i);
    }
    if InRange(names, from, to, c) {
      var i :| InPart(names, from, to, c, i);
      assert InPart(names + [name], from, to, c, i);
    }
  }

  lemma DecodingKeepsCoordinates(rows: seq<Row>, batch: seq<Record>, registry: Registry, parse: Parser, at: int)
    requires IsDecodingOf(rows, batch, registry, parse, at)
    ensures multiset(Map(RowCoordinate, rows)) == multiset(Map(RecordCoordinate, batch))
    ensures |rows| == |batch|
  {
    var decoded := Map(DecodeRow(registry, parse, at), batch);
    MapKeepsMultiset(RowCoordinate, rows, decoded);
    assert Map(RowCoordinate, decoded) == Map(RecordCoordinate, batch);
    assert |multiset(rows)| == |multiset(decoded)|;
  }

  lemma {:induction false} RangeMembers(log: seq<seq<Record>>, from: seq<nat>, to: seq<nat>, n: nat, r: Record)
    requires Within(log, from, to) && n <= |log| && r in Range(log, from, to, n)
    ensures exists i, o :: 0 <= i < n && 0 <= o < |log[i]| && log[i][o] == r
  {
    if r in Range(log, from, to, n - 1) {
      RangeMembers(log, from, to, n - 1, r);
    } else {
      var o :| from[n - 1] <= o < to[n - 1] && log[n - 1][o] == r;
    }
  }

  /******* What every step keeps *******/

  lemma FrontierIsPlanned(s: State)
    requires PlanIsMonotone(s) && s.done <= |s.plan|
    ensures Within(s.log, s.start, Frontier(s))
    ensures forall k :: 0 <= k <= |s.plan| ==> Within(s.log, s.start, Ends(s, k))
  {
    forall k | 0 <= k <= |s.plan| ensures Within(s.log, s.start, Ends(s, k)) {
      if k > 0 {
        assert RunsForward(s.log, s.start, s.plan, k - 1);
      }
    }
  }

  lemma GrowthKeepsPlan(s: State, log': seq<seq<Record>>)
    requires PlanIsMonotone(s) && |s.log| == |log'| && forall p :: 0 <= p < |s.log| ==> s.log[p] <= log'[p]
    ensures PlanIsMonotone(s.(log := log'))
  {
    var s' := s.(log := log');
    forall k | 0 <= k < |s.plan| ensures RunsForward(log', s.start, s.plan, k) {
      assert RunsForward(s.log, s.start, s.plan, k);
    }
  }

  lemma GrowthKeepsRows(rows: seq<Row>, log: seq<seq<Record>>, log': seq<seq<Record>>, registry: Registry,
                        parse: Parser)
    requires AreDecoded(rows, log, registry, parse)
    requires |log| <= |log'| && forall p :: 0 <= p < |log| ==> log[p] <= log'[p]
    ensures AreDecoded(rows, log', registry, parse)
  {
    forall r | r in rows ensures IsDecoded(r, log', registry, parse) {
      assert IsDecoded(r, log, registry, parse);
      var i :| 0 <= i < |log| && r.offset < |log[i]| && r == DecodeRow(registry, parse, r.ingestedAt)(log[i][r.offset]);
      assert log'[i][r.offset] == log[i][r.offset];
    }
  }

  lemma ArriveKeepsInv(s: State, step: Step, registry: Registry, parse: Parser)
    requires Inv(s, registry, parse) && step.Arrive? && Enabled(s, step, registry, parse)
    ensures Inv(Next(s, step), registry, parse)
  {
    var s' := Next(s, step);
    GrowthKeepsPlan(s, s'.log);
    GrowthKeepsRows(s.bronze, s.log, s'.log, registry, parse);
    assert Frontier(s') == Frontier(s);
    assert OncePerOffset(s');
    if s.processed {
      assert RunsForward(s.log, s.start, s.plan, s.done);
      SameRange(s.log, s'.log, Ends(s, s.done), Ends(s, s.done + 1), |s.log|);
    }
  }

  /******* A new partition *******/

  lemma PaddedWithin(log: seq<seq<Record>>, from: seq<nat>, to: seq<nat>)
    requires Within(log, from, to)
    ensures Within(log + [[]], Padded(from), Padded(to))
    ensures Range(log + [[]], Padded(from), Padded(to), |log| + 1) == Range(log, from, to, |log|)
  {
    SamePaddedRange(log, from, to, |log|);
  }

  lemma {:induction false} SamePaddedRange(log: seq<seq<Record>>, from: seq<nat>, to: seq<nat>, n: nat)
    requires Within(log, from, to) && n <= |log|
    ensures Within(log + [[]], Padded(from), Padded(to))
    ensures Range(log + [[]], Padded(from), Padded(to), n) == Range(log, from, to, n)
  {
    if n > 0 {
      SamePaddedRange(log, from, to, n - 1);
    }
  }

  lemma PaddedEnds(s: State, name: Name, k: nat)
    requires k <= |s.plan|
    ensures |WithPartition(s, name).plan| == |s.plan| && Ends(WithPartition(s, name), k) == Padded(Ends(s, k))
  {
  }

  lemma PaddedInRange(names: seq<Name>, name: Name, from: seq<nat>, to: seq<nat>, c: Coordinate)
    requires |names| == |from| == |to|
    ensures InRange(names + [name], Padded(from), Padded(to), c) <==> InRange(names, from, to, c)
  {
    if InRange(names + [name], Padded(from), Padded(to), c) {
      var i :| InPart(names + [name], Padded(from), Padded(to), c, i);
      assert InPart(names, from, to, c, i);
    }
    if InRange(names, from, to, c) {
      var i :| InPart(names, from, to, c, i);
      assert InPart(names + [name], Padded(from), Padded(to), c, i);
    }
  }

  lemma PaddedPlan(s: State, name: Name)
    requires PlanIsMonotone(s)
    ensures PlanIsMonotone(WithPartition(s, name))
  {
    var s' := WithPartition(s, name);
    PaddedWithin(s.log, s.start, s.start);
    forall k | 0 <= k < |s'.plan| ensures RunsForward(s'.log, s'.start, s'.plan, k) {
      assert RunsForward(s.log, s.start, s.plan, k);
      PaddedEnds(s, name, k);
      PaddedEnds(s, name, k + 1);
      PaddedWithin(s.log, Ends(s, k), s.plan[k]);
      PaddedWithin(s.log, s.start, s.plan[k]);
    }
  }

  lemma PaddedOnce(s: State, name: Name)
    requires PlanIsMonotone(s) && |s.names| == |s.log| && s.done <= |s.plan| && OncePerOffset(s)
    ensures OncePerOffset(WithPartition(s, name))
  {
    var s' := WithPartition(s, name);
    FrontierIsPlanned(s);
    PaddedEnds(s, name, s.done);
    if s.done < |s.plan| {
      PaddedEnds(s, name, s.done + 1);
    }
    assert Frontier(s') == Padded(Frontier(s));
    forall c ensures InRange(s'.names, s'.start, Frontier(s'), c) <==> InRange(s.names, s.start, Frontier(s), c) {
      PaddedInRange(s.names, name, s.start, Frontier(s), c);
    }
  }

  lemma AddPartitionKeepsInv(s: State, name: Name, registry: Registry, parse: Parser)
    requires Inv(s, registry, parse) && name !in s.names
    ensures Inv(WithPartition(s, name), registry, parse)
  {
    var s' := WithPartition(s, name);
    PaddedPlan(s, name);
    PaddedOnce(s, name);
    GrowthKeepsRows(s.bronze, s.log, s'.log, registry, parse);
    assert LogIsNumbered(s'.names, s'.log);
    if s.processed {
      assert RunsForward(s.log, s.start, s.plan, s.done);
      PaddedEnds(s, name, s.done);
      PaddedEnds(s, name, s.done + 1);
      PaddedWithin(s.log, Ends(s, s.done), Ends(s, s.done + 1));
      assert RunsForward(s'.log, s'.start, s'.plan, s.done);
    }
  }

  lemma {:induction false} SameRange(log: seq<seq<Record>>, log': seq<seq<Record>>, from: seq<nat>, to: seq<nat>,
                                     n: nat)
    requires |log| == |log'| && Within(log, from, to) && n <= |log|
    requires forall p :: 0 <= p < |log| ==> log[p] <= log'[p]
    ensures Within(log', from, to) && Range(log', from, to, n) == Range(log, from, to, n)
  {
    if n > 0 {
      SameRange(log, log', from, to, n - 1);
    }
  }

  lemma PlanStaysMonotone(s: State, ends: seq<nat>)
    requires PlanIsMonotone(s) && s.done == |s.plan| && Within(s.log, Ends(s, s.done), ends)
    ensures PlanIsMonotone(s.(plan := s.plan + [ends]))
  {
    var plan := s.plan + [ends];
    assert EndsOf(s.start, plan, |s.plan|) == Ends(s, s.done);
    assert Within(s.log, s.start, Ends(s, s.done)) by {
      if s.plan != [] {
        assert RunsForward(s.log, s.start, s.plan, |s.plan| - 1);
      }
    }
    forall k | 0 <= k < |plan| ensures RunsForward(s.log, s.start, plan, k) {
      if k < |s.plan| {
        assert EndsOf(s.start, plan, k) == EndsOf(s.start, s.plan, k);
        assert RunsForward(s.log, s.start, s.plan, k);
      }
    }
  }

  lemma PlanKeepsInv(s: State, ends: seq<nat>, registry: Registry, parse: Parser)
    requires Inv(s, registry, parse) && s.done == |s.plan| && Within(s.log, Ends(s, s.done), ends)
    ensures Inv(Next(s, Plan(ends)), registry, parse)
  {
    PlanStaysMonotone(s, ends);
    var s' := Next(s, Plan(ends));
    assert Ends(s', s.done) == Ends(s, s.done);
    assert Frontier(s') == Frontier(s);
    assert OncePerOffset(s');
    assert RowsAreDecoded(s', registry, parse);
  }

  /** Two ranges that follow each other do not overlap, and together are the range from end to end. */
  lemma InRangeSplit(names: seq<Name>, log: seq<seq<Record>>, start: seq<nat>, from: seq<nat>, to: seq<nat>,
                     c: Coordinate)
    requires LogIsNumbered(names, log) && Within(log, start, from) && Within(log, from, to)
    ensures Once(InRange(names, start, to, c))
            == Once(InRange(names, start, from, c)) + Once(InRange(names, from, to, c))
  {
    if InRange(names, start, to, c) {
      var i :| InPart(names, start, to, c, i);
      assert InPart(names, start, from, c, i) || InPart(names, from, to, c, i);
    }
    if InRange(names, start, from, c) {
      var i :| InPart(names, start, from, c, i);
      assert InPart(names, start, to, c, i);
    }
    if InRange(names, from, to, c) {
      var i :| InPart(names, from, to, c, i);
      assert InPart(names, start, to, c, i);
    }
  }

  /** Appending the open batch moves the frontier over exactly its offsets. */
  lemma AppendKeepsOnce(s: State, rows: seq<Row>, at: int, registry: Registry, parse: Parser)
    requires s.done < |s.plan| && s.version < s.done
    requires LogIsNumbered(s.names, s.log) && PlanIsMonotone(s) && OncePerOffset(s)
    requires Within(s.log, Ends(s, s.done), Ends(s, s.done + 1))
    requires IsDecodingOf(rows, BatchRecords(s), registry, parse, at)
    ensures OncePerOffset(s.(bronze := s.bronze + rows, version := s.done))
  {
    var s' := s.(bronze := s.bronze + rows, version := s.done);
    var from, to := Ends(s, s.done), Ends(s, s.done + 1);
    FrontierIsPlanned(s);
    assert Within(s.log, s.start, from);
    DecodingKeepsCoordinates(rows, BatchRecords(s), registry, parse, at);
    MapConcat(RowCoordinate, s.bronze, rows);
    assert s.names[..|s.log|] == s.names;
    forall c ensures multiset(Map(RowCoordinate, s'.bronze))[c] == Once(InRange(s.names, s.start, to, c)) {
      RangeCount(s.names, s.log, from, to, |s.log|, c);
      InRangeSplit(s.names, s.log, s.start, from, to, c);
      assert multiset(Map(RowCoordinate, s.bronze))[c] == Once(InRange(s.names, s.start, from, c));
    }
    assert Frontier(s') == to;
  }

  lemma SkipKeepsInv(s: State, registry: Registry, parse: Parser)
    requires Inv(s, registry, parse) && s.done < |s.plan|
    requires Within(s.log, Ends(s, s.done), Ends(s, s.done + 1))
    requires s.version == s.done || BatchRecords(s) == []
    ensures Inv(s.(processed := true), registry, parse)
  {
    var s' := s.(processed := true);
    assert BatchRecords(s') == BatchRecords(s);
    assert Frontier(s') == Frontier(s);
    assert OncePerOffset(s');
    assert RowsAreDecoded(s', registry, parse);
  }

  lemma AppendKeepsInv(s: State, rows: seq<Row>, at: int, registry: Registry, parse: Parser)
    requires Inv(s, registry, parse) && s.done < |s.plan| && s.version < s.done
    requires Within(s.log, Ends(s, s.done), Ends(s, s.done + 1))
    requires IsDecodingOf(rows, BatchRecords(s), registry, parse, at)
    ensures Inv(s.(processed := true, bronze := s.bronze + rows, version := s.done), registry, parse)
  {
    AppendKeepsOnce(s, rows, at, registry, parse);
    NewRowsAreDecoded(s, rows, at, registry, parse);
    var s' := s.(processed := true, bronze := s.bronze + rows, version := s.done);
    assert OncePerOffset(s.(bronze := s.bronze + rows, version := s.done));
    assert Frontier(s') == Ends(s, s.done + 1);
    assert OncePerOffset(s');
    assert RowsAreDecoded(s', registry, parse);
  }

  lemma ProcessKeepsInv(s: State, rows: seq<Row>, at: int, registry: Registry, parse: Parser)
    requires Inv(s, registry, parse) && s.done < |s.plan|
    requires Within(s.log, Ends(s, s.done), Ends(s, s.done + 1))
    requires IsDecodingOf(rows, BatchRecords(s), registry, parse, at)
    ensures Inv(Next(s, Process(rows, at)), registry, parse)
  {
    DecodingKeepsCoordinates(rows, BatchRecords(s), registry, parse, at);
    if rows != [] && s.version < s.done {
      AppendKeepsInv(s, rows, at, registry, parse);
    } else {
      SkipKeepsInv(s, registry, parse);
    }
  }

  lemma NewRowIsDecoded(batch: seq<Record>, rows: seq<Row>, r: Row, registry: Registry, parse: Parser, at: int)
    requires IsDecodingOf(rows, batch, registry, parse, at) && r in rows
    ensures exists record :: record in batch && r == DecodeRow(registry, parse, at)(record)
  {
    var decoded := Map(DecodeRow(registry, parse, at), batch);
    assert r in multiset(decoded);
    var i :| 0 <= i < |decoded| && decoded[i] == r;
    assert batch[i] in batch && r == DecodeRow(registry, parse, at)(batch[i]);
  }

  lemma NewRowsAreDecoded(s: State, rows: seq<Row>, at: int, registry: Registry, parse: Parser)
    requires LogIsNumbered(s.names, s.log) && RowsAreDecoded(s, registry, parse)
    requires s.done < |s.plan| && Within(s.log, Ends(s, s.done), Ends(s, s.done + 1))
    requires IsDecodingOf(rows, BatchRecords(s), registry, parse, at)
    ensures RowsAreDecoded(s.(bronze := s.bronze + rows), registry, parse)
  {
    forall r | r in rows ensures IsDecoded(r, s.log, registry, parse) {
      NewRowIsDecoded(BatchRecords(s), rows, r, registry, parse, at);
      var record :| record in BatchRecords(s) && r == DecodeRow(registry, parse, at)(record);
      RangeMembers(s.log, Ends(s, s.done), Ends(s, s.done + 1), |s.log|, record);
      var i, o :| 0 <= i < |s.log| && 0 <= o < |s.log[i]| && s.log[i][o] == record;
      assert RecordCoordinate(record).offset == o;
    }
  }

  /** An empty batch ends where it began. */
  lemma EmptyBatchMovesNothing(s: State, c: Coordinate)
    requires LogIsNumbered(s.names, s.log) && PlanIsMonotone(s) && s.done < |s.plan|
    requires Within(s.log, Ends(s, s.done), Ends(s, s.done + 1)) && BatchRecords(s) == []
    ensures InRange(s.names, s.start, Ends(s, s.done + 1), c) == InRange(s.names, s.start, Ends(s, s.done), c)
  {
    FrontierIsPlanned(s);
    assert s.names[..|s.log|] == s.names;
    RangeCount(s.names, s.log, Ends(s, s.done), Ends(s, s.done + 1), |s.log|, c);
    InRangeSplit(s.names, s.log, s.start, Ends(s, s.done), Ends(s, s.done + 1), c);
  }

  lemma FinishKeepsOnce(s: State)
    requires LogIsNumbered(s.names, s.log) && PlanIsMonotone(s) && s.done < |s.plan| && s.version <= s.done
             && OncePerOffset(s)
    requires Within(s.log, Ends(s, s.done), Ends(s, s.done + 1))
    requires s.version == s.done || BatchRecords(s) == []
    ensures OncePerOffset(s.(done := s.done + 1, processed := false))
  {
    var s' := s.(done := s.done + 1, processed := false);
    assert Frontier(s') == Ends(s, s.done + 1);
    forall c ensures InRange(s.names, s.start, Frontier(s'), c) == InRange(s.names, s.start, Frontier(s), c) {
      if s.version != s.done {
        EmptyBatchMovesNothing(s, c);
      }
    }
  }

  lemma FinishKeepsInv(s: State, registry: Registry, parse: Parser)
    requires Inv(s, registry, parse) && s.processed
    ensures Inv(Next(s, Finish), registry, parse)
  {
    assert RunsForward(s.log, s.start, s.plan, s.done);
    FinishKeepsOnce(s);
  }

  lemma CrashKeepsInv(s: State, registry: Registry, parse: Parser)
    requires Inv(s, registry, parse)
    ensures Inv(Next(s, Crash), registry, parse)
  {
    var s' := Next(s, Crash);
    assert Frontier(s') == Frontier(s);
    assert OncePerOffset(s');
    assert RowsAreDecoded(s', registry, parse);
  }

  lemma NextKeepsInv(s: State, step: Step, registry: Registry, parse: Parser)
    requires Inv(s, registry, parse) && Enabled(s, step, registry, parse)
    ensures Inv(Next(s, step), registry, parse)
  {
    match step {
      case AddPartition(name) =>
        AddPartitionKeepsInv(s, name, registry, parse);
        assert step == AddPartition(name);
      case Arrive(_, _) =>
        ArriveKeepsInv(s, step, registry, parse);
      case Plan(ends) =>
        PlanKeepsInv(s, ends, registry, parse);
        assert step == Plan(ends);
      case Process(rows, at) =>
        ProcessKeepsInv(s, rows, at, registry, parse);
        assert step == Process(rows, at);
      case Finish =>
        FinishKeepsInv(s, registry, parse);
        assert step == Finish;
      case Crash =>
        CrashKeepsInv(s, registry, parse);
        assert step == Crash;
    }
  }

  ghost predicate Startable(s: State) {
    && s.plan == [] && s.done == 0 && !s.processed && s.version == -1 && s.bronze == []
    && LogIsNumbered(s.names, s.log) && |s.start| == |s.log| && Within(s.log, s.start, s.start)
  }

  /** A run: consecutive states linked by enabled steps. */
  ghost predicate IsRun(states: seq<State>, steps: seq<Step>, registry: Registry, parse: Parser) {
    && |states| == |steps| + 1 && Startable(states[0])
    && forall i :: 0 <= i < |steps| ==>
        Enabled(states[i], steps[i], registry, parse) && states[i + 1] == Next(states[i], steps[i])
  }

  lemma {:induction false} RunKeepsInv(states: seq<State>, steps: seq<Step>, registry: Registry, parse: Parser, i: nat)
    requires IsRun(states, steps, registry, parse) && i < |states|
    ensures Inv(states[i], registry, parse)
  {
    if i > 0 {
      RunKeepsInv(states, steps, registry, parse, i - 1);
      NextKeepsInv(states[i - 1], steps[i - 1], registry, parse);
    }
  }

  /** After any history of crashes and replays, Bronze holds each consumed (partition, offset) exactly
      once, as the decoding of the record at that place, and nothing else; once every batch is finished
      the consumed offsets are those up to the end of the last batch. */
  lemma BronzeHoldsEachOffsetOnce(states: seq<State>, steps: seq<Step>, registry: Registry, parse: Parser, i: nat)
    requires IsRun(states, steps, registry, parse) && i < |states|
    ensures
      var s := states[i];
      && s.done <= |s.plan|
      && OncePerOffset(s) && RowsAreDecoded(s, registry, parse)
      && (s.done == |s.plan| ==> Frontier(s) == Ends(s, |s.plan|))
  {
    RunKeepsInv(states, steps, registry, parse, i);
  }

  /** Processing a batch again, after a crash and at another time, leaves everything as it was. */
  lemma ReplayIsANoOp(s: State, rows: seq<Row>, at: int, rows': seq<Row>, at': int, registry: Registry, parse: Parser)
    requires s.done < |s.plan| && Within(s.log, Ends(s, s.done), Ends(s, s.done + 1))
    requires IsDecodingOf(rows, BatchRecords(s), registry, parse, at)
    requires IsDecodingOf(rows', BatchRecords(s), registry, parse, at')
    ensures Next(Next(Next(s, Process(rows, at)), Crash), Process(rows', at')) == Next(s, Process(rows, at))
  {
    DecodingKeepsCoordinates(rows, BatchRecords(s), registry, parse, at);
    DecodingKeepsCoordinates(rows', BatchRecords(s), registry, parse, at');
  }

  /** What the table keeps for this query. */
  predicate TableIs(s: State, rows: seq<Row>, versions: map<string, int>, identity: string) {
    s.bronze == rows && (if identity in versions then s.version == versions[identity] else s.version == -1)
  }

  /** A call of the `process` closure that raises nothing is the step `Process` of this state machine: the
      rows it leaves in the table are those of some enabled step. */
  lemma ProcessIsAStep(s: State, rows: seq<Row>, versions: map<string, int>,
                       rows': seq<Row>, versions': map<string, int>,
                       identity: string, registry: Registry, parse: Parser, at: int)
    returns (decoded: seq<Row>)
    requires TableIs(s, rows, versions, identity) && s.version >= -1
    requires s.done < |s.plan| && Within(s.log, Ends(s, s.done), Ends(s, s.done + 1))
    // The contract of BronzeTable.Process for this batch.
    requires BatchRecords(s) == [] || !IsNewer(versions, identity, s.done) ==> rows' == rows && versions' == versions
    requires BatchRecords(s) != [] && IsNewer(versions, identity, s.done) ==>
               && versions' == versions[identity := s.done] && rows <= rows'
               && IsDecodingOf(rows'[|rows|..], BatchRecords(s), registry, parse, at)
    ensures Enabled(s, Process(decoded, at), registry, parse)
    ensures TableIs(Next(s, Process(decoded, at)), rows', versions', identity)
  {
    var batch := BatchRecords(s);
    if batch != [] && IsNewer(versions, identity, s.done) {
      decoded := rows'[|rows|..];
      DecodingKeepsCoordinates(decoded, batch, registry, parse, at);
      assert rows' == rows + decoded;
    } else {
      decoded := Map(DecodeRow(registry, parse, at), batch);
    }
  }
}
