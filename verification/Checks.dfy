/** The inline data-quality checks: SQL three-valued rules, failed-check lists, result rows and levels. */
module Checks {
  import opened Collections
  import opened Rows

  datatype Check =
    | EventIdRequired
    | UserIdRequired
    | WriterIdRequired
    | SourceValid
    | RequestedAtRequired
    | RequestedAtNotFuture
    | SchemaAndDecode
    | DuplicateEventIdInBatch
    | DuplicateEventIdAlreadyInSilver
    | NonnegativeCount
    | ReaderBound
    | WriterBound
    | SilverReconciliation

  const ROW_CHECKS: seq<Check> := [
    EventIdRequired, UserIdRequired, WriterIdRequired, SourceValid,
    RequestedAtRequired, RequestedAtNotFuture, SchemaAndDecode
  ]

  predicate IsRowCheck(c: Check) {
    c in ROW_CHECKS
  }

  /******* Three-valued rules *******/

  /** A SQL boolean: a comparison with null is neither true nor false. */
  datatype Ternary = True | False | Null

  function Lift(b: bool): Ternary {
    if b then True else False
  }

  function And(a: Ternary, b: Ternary): Ternary {
    if a == False || b == False then False
    else if a == Null || b == Null then Null
    else True
  }

  function CoalesceFalse(a: Ternary): bool {
    a == True
  }

  function NotEmpty(s: Option<string>): Ternary {
    match s
    case None => Null
    case Some(text) => Lift(Trim(text) != "")
  }

  function Rule(check: Check, row: Row, now: int): Ternary {
    match check
    case EventIdRequired => And(Lift(row.event.eventId.Some?), NotEmpty(row.event.eventId))
    case UserIdRequired => And(Lift(row.event.userId.Some?), NotEmpty(row.event.userId))
    case WriterIdRequired => And(Lift(row.event.writerId.Some?), NotEmpty(row.event.writerId))
    case SourceValid =>
      (match row.event.source
       case None => Null
       case Some(source) => Lift(source in {UI, CUSTOMER_SUCCESS, LEGAL}))
    case RequestedAtRequired => Lift(row.event.requestedAt.Some?)
    case RequestedAtNotFuture =>
      (match row.event.requestedAt
       case None => Null
       case Some(t) => Lift(t <= now))
    case SchemaAndDecode => Lift(row.decodeError.None?)
    case _ => True
  }

  function Fails(row: Row, now: int): Check -> bool {
    (c: Check) => !CoalesceFalse(Rule(c, row, now))
  }

  /** The failed_checks column. */
  function FailedChecks(row: Row, now: int): seq<Check> {
    Filter(Fails(row, now), ROW_CHECKS)
  }

  function IsValid(now: int): Row -> bool {
    (row: Row) => FailedChecks(row, now) == []
  }

  function IsInvalid(now: int): Row -> bool {
    (row: Row) => FailedChecks(row, now) != []
  }

  predicate Present(s: Option<string>) {
    s.Some? && !Blank(s.value)
  }

  /** What the documentation promises of a row that may enter Silver, in two-valued terms. */
  predicate WellFormed(row: Row, now: int) {
    && Present(row.event.eventId) && Present(row.event.userId) && Present(row.event.writerId)
    && row.event.source.Some? && row.event.source.value in {UI, CUSTOMER_SUCCESS, LEGAL}
    && row.event.requestedAt.Some? && row.event.requestedAt.value <= now
    && row.decodeError.None?
  }

  lemma RequiredMeansPresent(s: Option<string>)
    ensures CoalesceFalse(And(Lift(s.Some?), NotEmpty(s))) <==> Present(s)
  {
    if s.Some? {
      TrimmedAwayIffBlank(s.value);
    }
  }

  /** No null slips through the three-valued rules: a row has no failed check exactly when it is
      well formed. */
  lemma ValidIffWellFormed(row: Row, now: int)
    ensures IsValid(now)(row) <==> WellFormed(row, now)
  {
    RequiredMeansPresent(row.event.eventId);
    RequiredMeansPresent(row.event.userId);
    RequiredMeansPresent(row.event.writerId);
    var fails := Fails(row, now);
    FilterMembers(fails, ROW_CHECKS);
    if FailedChecks(row, now) == [] {
      forall c | c in ROW_CHECKS ensures !fails(c) {
        assert c in ROW_CHECKS && fails(c) ==> c in FailedChecks(row, now);
      }
      EveryRowCheckIsListed();
    } else {
      var c := FailedChecks(row, now)[0];
      assert c in FailedChecks(row, now);
      assert fails(c);
    }
  }

  /** Null, or nothing but spaces. */
  predicate IsMissing(s: Option<string>) {
    s.None? || forall i :: 0 <= i < |s.value| ==> s.value[i] == ' '
  }

  /** What a row does wrong, check by check, in terms of its columns. */
  predicate Violates(check: Check, row: Row, now: int) {
    match check
    case EventIdRequired => IsMissing(row.event.eventId)
    case UserIdRequired => IsMissing(row.event.userId)
    case WriterIdRequired => IsMissing(row.event.writerId)
    case SourceValid => row.event.source.None? || row.event.source.value !in {"UI", "CUSTOMER_SUCCESS", "LEGAL"}
    case RequestedAtRequired => row.event.requestedAt.None?
    case RequestedAtNotFuture => row.event.requestedAt.None? || now < row.event.requestedAt.value
    case SchemaAndDecode => row.decodeError.Some?
    case _ => false
  }

  lemma MissingMeansNotPresent(s: Option<string>)
    ensures IsMissing(s) <==> !Present(s)
  {
    if s.Some? {
      TrimmedAwayIffBlank(s.value);
    }
  }

  lemma FailsWhatItViolates(check: Check, row: Row, now: int)
    requires check in ROW_CHECKS
    ensures Fails(row, now)(check) <==> Violates(check, row, now)
  {
    RequiredMeansPresent(row.event.eventId);
    RequiredMeansPresent(row.event.userId);
    RequiredMeansPresent(row.event.writerId);
    MissingMeansNotPresent(row.event.eventId);
    MissingMeansNotPresent(row.event.userId);
    MissingMeansNotPresent(row.event.writerId);
  }

  /** The failed checks of a row are those it violates: an id is missing or blank, the source is null or none of
      the three, the time is null or, for the clock, in the future, the row could not be decoded. They are
      listed in the order of the checks. */
  lemma FailedChecksInOrder(row: Row, now: int)
    ensures
      FailedChecks(row, now)
      == (if IsMissing(row.event.eventId) then [EventIdRequired] else [])
         + (if IsMissing(row.event.userId) then [UserIdRequired] else [])
         + (if IsMissing(row.event.writerId) then [WriterIdRequired] else [])
         + (if row.event.source.Some? && row.event.source.value in {"UI", "CUSTOMER_SUCCESS", "LEGAL"} then []
            else [SourceValid])
         + (if row.event.requestedAt.None? then [RequestedAtRequired] else [])
         + (if row.event.requestedAt.Some? && row.event.requestedAt.value <= now then [] else [RequestedAtNotFuture])
         + (if row.decodeError.Some? then [SchemaAndDecode] else [])
  {
    forall c | c in ROW_CHECKS ensures Fails(row, now)(c) == Violates(c, row, now) {
      FailsWhatItViolates(c, row, now);
    }
    FilterOfSeven(Fails(row, now));
  }

  lemma FilterOfSeven(p: Check -> bool)
    ensures
      Filter(p, ROW_CHECKS)
      == (if p(EventIdRequired) then [EventIdRequired] else [])
         + (if p(UserIdRequired) then [UserIdRequired] else [])
         + (if p(WriterIdRequired) then [WriterIdRequired] else [])
         + (if p(SourceValid) then [SourceValid] else [])
         + (if p(RequestedAtRequired) then [RequestedAtRequired] else [])
         + (if p(RequestedAtNotFuture) then [RequestedAtNotFuture] else [])
         + (if p(SchemaAndDecode) then [SchemaAndDecode] else [])
  {
    var one := [] + [EventIdRequired];
    var two := one + [UserIdRequired];
    var three := two + [WriterIdRequired];
    var four := three + [SourceValid];
    var five := four + [RequestedAtRequired];
    var six := five + [RequestedAtNotFuture];
    FilterSnoc(p, [], EventIdRequired);
    FilterSnoc(p, one, UserIdRequired);
    FilterSnoc(p, two, WriterIdRequired);
    FilterSnoc(p, three, SourceValid);
    FilterSnoc(p, four, RequestedAtRequired);
    FilterSnoc(p, five, RequestedAtNotFuture);
    FilterSnoc(p, six, SchemaAndDecode);
    assert ROW_CHECKS == six + [SchemaAndDecode];
  }

  lemma FailedMeansViolated(row: Row, now: int)
    ensures forall c :: c in FailedChecks(row, now) <==> Violates(c, row, now)
  {
    FilterMembers(Fails(row, now), ROW_CHECKS);
    forall c ensures c in FailedChecks(row, now) <==> Violates(c, row, now) {
      assert c in FailedChecks(row, now) <==> c in ROW_CHECKS && Fails(row, now)(c);
      if c in ROW_CHECKS {
        FailsWhatItViolates(c, row, now);
      } else {
        EveryRowCheckIsListed();
      }
    }
  }

  lemma EveryRowCheckIsListed()
    ensures EventIdRequired in ROW_CHECKS && UserIdRequired in ROW_CHECKS && WriterIdRequired in ROW_CHECKS
    ensures SourceValid in ROW_CHECKS && RequestedAtRequired in ROW_CHECKS
    ensures RequestedAtNotFuture in ROW_CHECKS && SchemaAndDecode in ROW_CHECKS
  {
    assert ROW_CHECKS[0] == EventIdRequired && ROW_CHECKS[1] == UserIdRequired && ROW_CHECKS[2] == WriterIdRequired;
    assert ROW_CHECKS[3] == SourceValid && ROW_CHECKS[4] == RequestedAtRequired;
    assert ROW_CHECKS[5] == RequestedAtNotFuture && ROW_CHECKS[6] == SchemaAndDecode;
  }

  /** A row once valid stays valid; only the clock can turn an invalid row into a valid one, and only
      when it was rejected for lying in the future. */
  lemma ValidityOnlyGrows(row: Row, earlier: int, later: int)
    requires earlier <= later
    ensures IsValid(earlier)(row) ==> IsValid(later)(row)
    ensures !IsValid(earlier)(row) && IsValid(later)(row) ==>
              FailedChecks(row, earlier) == [RequestedAtNotFuture]
  {
    ValidIffWellFormed(row, earlier);
    ValidIffWellFormed(row, later);
    if !IsValid(earlier)(row) && IsValid(later)(row) {
      var fails := Fails(row, earlier);
      FilterMembers(Fails(row, later), ROW_CHECKS);
      forall c | c in ROW_CHECKS && c != RequestedAtNotFuture ensures !fails(c) {
        assert c in ROW_CHECKS && Fails(row, later)(c) ==> c in FailedChecks(row, later);
        assert Rule(c, row, earlier) == Rule(c, row, later);
      }
      assert fails(RequestedAtNotFuture);
      FilterNone(fails, ROW_CHECKS[..5]);
      assert ROW_CHECKS[..6] == ROW_CHECKS[..5] + [RequestedAtNotFuture];
      FilterSnoc(fails, ROW_CHECKS[..5], RequestedAtNotFuture);
      assert ROW_CHECKS == ROW_CHECKS[..6] + [SchemaAndDecode];
      assert SchemaAndDecode in ROW_CHECKS;
      FilterSnoc(fails, ROW_CHECKS[..6], SchemaAndDecode);
    }
  }

  /******* Result rows *******/

  datatype Level = GREEN | YELLOW | RED | NOT_MEASURED

  datatype Thresholds = Thresholds(yellow: real, red: real)

  /** config/monitoring.yaml: dq_failed_rate and duplicate_failed_rate. */
  datatype Monitoring = Monitoring(dqRate: Thresholds, duplicateRate: Thresholds)

  function Status(value: Option<real>, thresholds: Option<Thresholds>): Level {
    if thresholds.None? || value.None? then NOT_MEASURED
    else if value.value >= thresholds.value.red then RED
    else if value.value >= thresholds.value.yellow then YELLOW
    else GREEN
  }

  datatype Layer = SILVER | GOLD

  datatype DqResult = DqResult(
    runId: string,
    layer: Layer,
    source: string,
    check: Check,
    level: Level,
    total: nat,
    failed: int,
    checkedAt: int)

  datatype DqKey = DqKey(runId: string, source: string, check: Check)

  function DqKeyOf(r: DqResult): DqKey {
    DqKey(r.runId, r.source, r.check)
  }

  predicate IsDuplicateCheck(c: Check) {
    c == DuplicateEventIdInBatch || c == DuplicateEventIdAlreadyInSilver
  }

  function FailedRate(total: nat, failed: int): real {
    if total == 0 then 0.0 else failed as real / total as real
  }

  /** `source or "UNKNOWN"`: an empty source is reported as unknown too. */
  function ReportedSource(source: string): string {
    if source == "" then UNKNOWN else source
  }

  function MakeResult(m: Monitoring, runId: string, layer: Layer, source: string, check: Check,
                      total: nat, failed: int, forceRed: bool, checkedAt: int): DqResult
  {
    var thresholds := if IsDuplicateCheck(check) then m.duplicateRate else m.dqRate;
    var level := if forceRed then RED else Status(Some(FailedRate(total, failed)), Some(thresholds));
    DqResult(runId, layer, ReportedSource(source), check, level, total, failed, checkedAt)
  }

  /** The two duplicate checks have thresholds of their own. */
  function ThresholdsOf(m: Monitoring, check: Check): Thresholds {
    match check
    case DuplicateEventIdInBatch => m.duplicateRate
    case DuplicateEventIdAlreadyInSilver => m.duplicateRate
    case _ => m.dqRate
  }

  predicate Positive(t: Thresholds) {
    0.0 < t.yellow && 0.0 < t.red
  }

  function Severity(level: Level): nat {
    match level
    case GREEN => 0
    case YELLOW => 1
    case RED => 2
    case NOT_MEASURED => 3
  }

  lemma RateOnlyGrows(total: nat, failed: int, more: int)
    requires failed <= more
    ensures FailedRate(total, failed) <= FailedRate(total, more)
  {
    if total != 0 {
      var t, d := total as real, (more - failed) as real;
      assert more as real / t == failed as real / t + d / t;
      assert d / t >= 0.0;
    }
  }

  /** Among the same rows, more failures never make a result look better, and every recorded result is
      measured; whatever the thresholds. */
  lemma MoreFailuresAreNoBetter(m: Monitoring, runId: string, layer: Layer, source: string, check: Check,
                                total: nat, failed: int, more: int, forceRed: bool, checkedAt: int)
    requires failed <= more
    ensures
      var result, worse := MakeResult(m, runId, layer, source, check, total, failed, forceRed, checkedAt),
                           MakeResult(m, runId, layer, source, check, total, more, forceRed, checkedAt);
      Severity(result.level) <= Severity(worse.level) <= Severity(RED)
  {
    RateOnlyGrows(total, failed, more);
  }

  lemma RateAgainst(total: nat, failed: int, threshold: real)
    requires total > 0
    ensures FailedRate(total, failed) >= threshold <==> failed as real >= threshold * total as real
  {
    var t, rate := total as real, FailedRate(total, failed);
    assert rate * t == failed as real;
    if rate >= threshold {
      assert (rate - threshold) * t >= 0.0;
    } else {
      assert (threshold - rate) * t > 0.0;
    }
  }

  /** In counts instead of rates: a result is red from the red share of the rows on, and green below both
      shares. A red threshold below the yellow one leaves no room for yellow. No rows are like no failures. */
  lemma LevelsInCounts(m: Monitoring, runId: string, layer: Layer, source: string, check: Check,
                       total: nat, failed: int, forceRed: bool, checkedAt: int)
    ensures
      var level := MakeResult(m, runId, layer, source, check, total, failed, forceRed, checkedAt).level;
      var t := ThresholdsOf(m, check);
      var n, f := if total == 0 then 1.0 else total as real, if total == 0 then 0.0 else failed as real;
      && (level == RED <==> forceRed || f >= t.red * n)
      && (level == GREEN <==> !forceRed && f < t.red * n && f < t.yellow * n)
      && (level == YELLOW ==> t.yellow < t.red)
  {
    var t := ThresholdsOf(m, check);
    if total > 0 {
      RateAgainst(total, failed, t.red);
      RateAgainst(total, failed, t.yellow);
    }
  }

  /** Zero failures are green exactly when both thresholds are positive. */
  lemma NoFailuresAreGreen(m: Monitoring, runId: string, layer: Layer, source: string, check: Check,
                           total: nat, checkedAt: int)
    ensures
      MakeResult(m, runId, layer, source, check, total, 0, false, checkedAt).level == GREEN <==>
      Positive(ThresholdsOf(m, check))
  {
    if total != 0 {
      assert 0 as real / total as real == 0.0;
    }
  }
}
