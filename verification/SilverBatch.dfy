/**
 One Bronze micro-batch on its way into Silver: what each of its table writes contains.

 The choices Spark leaves open (the order in which groups are collected, the representative
 that dropDuplicates keeps, the clock readings) are the fields of an `Attempt`.
 */
module SilverBatch {
  import opened Collections
  import opened DeltaTables
  import opened Rows
  import opened Checks

  /******* The tables *******/

  datatype SilverRow = SilverRow(
    eventId: string,
    userId: string,
    writerId: string,
    source: string,
    requestedAt: int,
    processedAt: int)

  datatype Quarantined = Quarantined(
    runId: string,
    source: string,
    eventId: Option<string>,
    userId: Option<string>,
    writerId: Option<string>,
    requestedAt: Option<int>,
    topic: string,
    partition: nat,
    offset: nat,
    failedChecks: seq<Check>,
    quarantinedAt: int,
    rawValue: Raw)

  datatype QuarantineKey = QuarantineKey(runId: string, topic: string, partition: nat, offset: nat)

  datatype Store = Store(silver: seq<SilverRow>, quarantine: seq<Quarantined>, dq: seq<DqResult>)

  function EventIdOf(r: SilverRow): string {
    r.eventId
  }

  function QuarantineKeyOf(q: Quarantined): QuarantineKey {
    QuarantineKey(q.runId, q.topic, q.partition, q.offset)
  }

  /******* The batch *******/

  datatype Column = EventIdColumn | UserIdColumn | WriterIdColumn | SourceColumn | RequestedAtColumn

  /** `drifted` are the event columns whose type differs from Silver's, or that are missing. In such a column
      a value stands for whatever the batch holds there. */
  datatype Batch = Batch(runId: string, rows: seq<Row>, drifted: set<Column>)

  datatype Attempt = Attempt(
    now: int,                  // the clock of requested_at_not_future
    quarantinedAt: int,
    sources: seq<string>,      // the groups of the checked rows, as collected
    validSources: seq<string>, // the groups of the valid rows, as collected
    counted: seq<Row>,         // what dropDuplicates kept when the join with Silver was counted
    merged: seq<Row>,          // what it kept when the rows were merged: the plan is evaluated again
    checkedAt: int,
    processedAt: int)

  const MISMATCH := "schema_type_mismatch"

  /** Typed nulls in place of the drifted columns, the drift recorded as a decode error, and the row as it
      came, mistyped values included, kept as JSON. */
  function Diagnose(drifted: set<Column>): Row -> Row {
    (row: Row) =>
      if drifted == {} then row else
        var e := row.event;
        row.(event := Event(
               if EventIdColumn in drifted then None else e.eventId,
               if UserIdColumn in drifted then None else e.userId,
               if WriterIdColumn in drifted then None else e.writerId,
               if SourceColumn in drifted then None else e.source,
               if RequestedAtColumn in drifted then None else e.requestedAt),
             decodeError := Some(MISMATCH),
             rawValue := RowAsJson(row))
  }

  function Diagnosed(b: Batch): seq<Row> {
    Map(Diagnose(b.drifted), b.rows)
  }

  function SourceOf(row: Row): string {
    match row.event.source
    case None => UNKNOWN
    case Some(s) => s
  }

  function FromSource(source: string): Row -> bool {
    (row: Row) => SourceOf(row) == source
  }

  function IdOf(row: Row): Option<string> {
    row.event.eventId
  }

  function Ids(rows: seq<Row>): set<Option<string>> {
    Keys(rows, IdOf)
  }

  function ValidRows(b: Batch, now: int): seq<Row> {
    Filter(IsValid(now), Diagnosed(b))
  }

  function InvalidRows(b: Batch, now: int): seq<Row> {
    Filter(IsInvalid(now), Diagnosed(b))
  }

  function Sources(rows: seq<Row>): set<string> {
    Keys(rows, SourceOf)
  }

  /** The order in which the groups of these rows were collected. */
  ghost predicate Enumerates(order: seq<string>, rows: seq<Row>) {
    Distinct(order) && Elements(order) == Sources(rows)
  }

  /** dropDuplicates(["event_id"]): one arbitrary row of every event id. */
  ghost predicate Representatives(rows: seq<Row>, unique: seq<Row>) {
    && UniqueBy(unique, IdOf)
    && (forall r :: r in unique ==> r in rows)
    && Ids(unique) == Ids(rows)
  }

  ghost predicate Feasible(b: Batch, a: Attempt) {
    && Enumerates(a.sources, Diagnosed(b))
    && Enumerates(a.validSources, ValidRows(b, a.now))
    && Representatives(ValidRows(b, a.now), a.counted)
    && Representatives(ValidRows(b, a.now), a.merged)
  }

  /******* The writes *******/

  function Quarantining(runId: string, now: int, at: int): Row -> Quarantined {
    (row: Row) =>
      Quarantined(runId, SourceOf(row), row.event.eventId, row.event.userId, row.event.writerId, row.event.requestedAt,
                  row.topic, row.partition, row.offset, FailedChecks(row, now), at, row.rawValue)
  }

  function QuarantineFrame(b: Batch, a: Attempt): seq<Quarantined> {
    Map(Quarantining(b.runId, a.now, a.quarantinedAt), InvalidRows(b, a.now))
  }

  function FailsCheck(check: Check, now: int): Row -> bool {
    (row: Row) => check in FailedChecks(row, now)
  }

  /** One group's count of rows failing one check. */
  function Failures(rows: seq<Row>, source: string, check: Check, now: int): nat {
    |Filter(FailsCheck(check, now), Filter(FromSource(source), rows))|
  }

  function CheckResult(m: Monitoring, b: Batch, a: Attempt, source: string, check: Check): DqResult {
    var rows := Diagnosed(b);
    var failed := Failures(rows, source, check, a.now);
    MakeResult(m, b.runId, SILVER, source, check, |Filter(FromSource(source), rows)|, failed,
               check == SchemaAndDecode && failed > 0, a.checkedAt)
  }

  function SourceResults(m: Monitoring, b: Batch, a: Attempt, source: string, checks: seq<Check>): seq<DqResult> {
    if checks == [] then [] else
      SourceResults(m, b, a, source, checks[..|checks| - 1]) + [CheckResult(m, b, a, source, checks[|checks| - 1])]
  }

  function RowCheckResults(m: Monitoring, b: Batch, a: Attempt, sources: seq<string>): seq<DqResult> {
    if sources == [] then [] else
      RowCheckResults(m, b, a, sources[..|sources| - 1])
      + SourceResults(m, b, a, sources[|sources| - 1], ROW_CHECKS)
  }

  /** Valid rows of one source, and their distinct event ids. */
  function GroupTotal(valid: seq<Row>, source: string): nat {
    |Filter(FromSource(source), valid)|
  }

  function GroupIds(valid: seq<Row>, source: string): set<Option<string>> {
    Ids(Filter(FromSource(source), valid))
  }

  function SilverIds(silver: seq<SilverRow>): set<string> {
    Keys(silver, EventIdOf)
  }

  function InSilver(ids: set<string>): Row -> bool {
    (row: Row) => row.event.eventId.Some? && row.event.eventId.value in ids
  }

  /** The left-semi join of the deduplicated rows with Silver, per source. */
  function AlreadyInSilver(unique: seq<Row>, ids: set<string>, source: string): nat {
    |Filter(FromSource(source), Filter(InSilver(ids), unique))|
  }

  function InBatchResult(m: Monitoring, b: Batch, a: Attempt, source: string): DqResult {
    var valid := ValidRows(b, a.now);
    var total := GroupTotal(valid, source);
    MakeResult(m, b.runId, SILVER, source, DuplicateEventIdInBatch,
               total, total - |GroupIds(valid, source)|, false, a.checkedAt)
  }

  function InSilverResult(m: Monitoring, b: Batch, a: Attempt, ids: set<string>, source: string): DqResult {
    MakeResult(m, b.runId, SILVER, source, DuplicateEventIdAlreadyInSilver,
               |GroupIds(ValidRows(b, a.now), source)|, AlreadyInSilver(a.counted, ids, source), false, a.checkedAt)
  }

  function InBatchResults(m: Monitoring, b: Batch, a: Attempt, sources: seq<string>): seq<DqResult> {
    if sources == [] then [] else
      InBatchResults(m, b, a, sources[..|sources| - 1]) + [InBatchResult(m, b, a, sources[|sources| - 1])]
  }

  function InSilverResults(m: Monitoring, b: Batch, a: Attempt, ids: set<string>, sources: seq<string>): seq<DqResult> {
    if sources == [] then [] else
      InSilverResults(m, b, a, ids, sources[..|sources| - 1]) + [InSilverResult(m, b, a, ids, sources[|sources| - 1])]
  }

  /** Everything write_dq is given; `ids` are the event ids Silver holds at that moment. */
  function DqFrame(m: Monitoring, b: Batch, a: Attempt, ids: set<string>): seq<DqResult> {
    RowCheckResults(m, b, a, a.sources)
    + InBatchResults(m, b, a, a.validSources)
    + InSilverResults(m, b, a, ids, a.validSources)
  }

  function ToSilver(at: int): Row -> SilverRow {
    (row: Row) =>
      SilverRow(Text(row.event.eventId), Text(row.event.userId), Text(row.event.writerId), Text(row.event.source),
                if row.event.requestedAt.Some? then row.event.requestedAt.value else 0, at)
  }

  function Text(s: Option<string>): string {
    if s.Some? then s.value else ""
  }

  function SilverFrame(a: Attempt): seq<SilverRow> {
    Map(ToSilver(a.processedAt), a.merged)
  }

  function WriteQuarantine(st: Store, b: Batch, a: Attempt): Store {
    st.(quarantine := InsertOnce(st.quarantine, QuarantineFrame(b, a), QuarantineKeyOf))
  }

  function WriteDq(m: Monitoring, st: Store, b: Batch, a: Attempt): Store {
    st.(dq := InsertOnce(st.dq, DqFrame(m, b, a, SilverIds(st.silver)), DqKeyOf))
  }

  function WriteSilver(st: Store, a: Attempt): Store {
    st.(silver := InsertOnce(st.silver, SilverFrame(a), EventIdOf))
  }

  const WRITES: nat := 3

  /** An attempt of which only the first `landed` table writes survive: the process died, or the
      next write raised. */
  function RunAttempt(m: Monitoring, st: Store, b: Batch, a: Attempt, landed: nat): Store {
    if b.rows == [] || landed == 0 then st else
      var st1 := WriteQuarantine(st, b, a);
      if landed == 1 then st1 else
        var st2 := WriteDq(m, st1, b, a);
        if landed == 2 then st2 else WriteSilver(st2, a)
  }
}
