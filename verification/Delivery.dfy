/** One event on its way to UnsubscribeMe: bounded retries with growing pauses, or the dead-letter queue. */
module Delivery {
  import opened Reports

  /******* The HTTP call *******/

  /** What came back: no response, or a status code and whether a success body could be read. */
  datatype Http = NoResponse | Status(code: int, readable: bool)

  datatype Verdict = Accepted | PermanentRejection | TransientError | Unexpected

  function Judge(h: Http): Verdict {
    match h
    case NoResponse => TransientError
    case Status(code, readable) =>
      if 200 <= code < 300 then (if readable then Accepted else Unexpected)
      else if code == 408 || code == 429 || code >= 500 then TransientError
      else PermanentRejection
  }

  /** A refused request is one whose own fault it is: any 4xx but a timeout or a throttle, and a redirect.
      Nothing the network or the server does wrong is taken for a refusal, and nothing at all for success
      but a readable 2xx. */
  lemma OnlyTheRequestIsRefused(code: int, readable: bool)
    ensures Judge(NoResponse) == TransientError
    ensures 400 <= code < 500 ==> (Judge(Status(code, readable)) == PermanentRejection <==> code !in {408, 429})
    ensures code in {408, 429} || 500 <= code ==> Judge(Status(code, readable)) == TransientError
    ensures 300 <= code < 400 ==> Judge(Status(code, readable)) == PermanentRejection
    ensures Judge(Status(code, readable)) == Accepted <==> code / 100 == 2 && readable
    ensures Judge(Status(code, readable)) == Unexpected <==> code / 100 == 2 && !readable
    ensures code < 200 ==> Judge(Status(code, readable)) == PermanentRejection
  {
  }

  /** A success whose body cannot be read. */
  predicate IsUnreadable(h: Http) {
    h.Status? && 200 <= h.code < 300 && !h.readable
  }

  /** One call. The service may have applied the event whatever the client got to see. */
  datatype Call = Call(http: Http, applied: bool)

  /******* The dead-letter producer *******/

  datatype Reason = DeserializationFailed | RejectedPermanently | TransientExhausted

  datatype Letter = Letter(partition: nat, offset: nat, reason: Reason, attempts: nat)

  lemma CleanFlushStoresEverything(stored: multiset<Letter>, waiting: multiset<Letter>, letter: Letter,
                                   reports: seq<Report<Letter>>)
    requires IsReportable(reports, waiting + multiset{letter})
    ensures |waiting + multiset{letter} - Reported(reports)| == 0 && Failures(reports) == 0 <==>
              stored + Acknowledged(reports) == stored + waiting + multiset{letter}
  {
    var queue := waiting + multiset{letter};
    CleanFlushMeansAcknowledged(reports, queue);
    assert stored + Acknowledged(reports) - stored == Acknowledged(reports);
    assert stored + waiting + multiset{letter} - stored == queue;
    assert stored + waiting + multiset{letter} == stored + queue;
  }

  class DeadLetters {
    var handed: seq<Letter>       // everything given to the Kafka client
    var waiting: multiset<Letter> // letters without a delivery report
    var stored: multiset<Letter>  // acknowledged by the dead-letter topic
    var lost: multiset<Letter>    // reported as failed
    var sentCount: nat
    var failedCount: nat

    ghost predicate Valid()
      reads this
    {
      && multiset(handed) == waiting + stored + lost
      && sentCount == |stored| && failedCount == |lost|
    }

    constructor ()
      ensures Valid() && handed == [] && waiting == stored == lost == multiset{}
    {
      handed, waiting, stored, lost, sentCount, failedCount := [], multiset{}, multiset{}, multiset{}, 0, 0;
    }

    /** `park`: produce, then flush. `reports` are the callbacks that ran before the timeout of the flush,
        `left` is what the flush returned; the caller looks at neither, nor at the failure counter. */
    method Park(letter: Letter, queueFull: bool) returns (ok: bool, left: nat, reports: seq<Report<Letter>>)
      requires Valid()
      modifies this
      ensures Valid()
      ensures ok <==> !queueFull
      ensures !ok ==> handed == old(handed) && waiting == old(waiting) && stored == old(stored)
      ensures ok ==>
                && handed == old(handed) + [letter] && left == |waiting|
                && IsReportable(reports, old(waiting) + multiset{letter})
                && waiting == old(waiting) + multiset{letter} - Reported(reports)
                && stored == old(stored) + Acknowledged(reports)
                && failedCount == old(failedCount) + Failures(reports)
      // What a caller that looked could conclude: nothing left and no new failure means all is stored.
      ensures ok ==> (left == 0 && failedCount == old(failedCount) <==>
                        stored == old(stored) + old(waiting) + multiset{letter})
    {
      if queueFull {
        return false, |waiting|, [];
      }
      handed, waiting := handed + [letter], waiting + multiset{letter};
      reports := AnyReports(waiting);
      Flush(reports);
      CleanFlushStoresEverything(old(stored), old(waiting), letter, reports);
      return true, |waiting|, reports;
    }

    /** `flush`: the callbacks, one after the other. */
    method Flush(reports: seq<Report<Letter>>)
      requires Valid() && IsReportable(reports, waiting)
      modifies this
      ensures Valid() && handed == old(handed)
      ensures waiting == old(waiting) - Reported(reports)
      ensures stored == old(stored) + Acknowledged(reports)
      ensures failedCount == old(failedCount) + Failures(reports)
      decreases |reports|
    {
      if reports != [] {
        FirstReport(reports, waiting);
        FirstAcknowledged(stored, reports);
        OnDelivery(reports[0].message, reports[0].delivered);
        Flush(reports[1..]);
      }
    }

    /** `_on_delivery`. */
    method OnDelivery(letter: Letter, delivered: bool)
      requires Valid() && letter in waiting
      modifies this
      ensures Valid() && handed == old(handed) && waiting == old(waiting) - multiset{letter}
      ensures stored == old(stored) + (if delivered then multiset{letter} else multiset{})
      ensures lost == old(lost) + (if delivered then multiset{} else multiset{letter})
      ensures sentCount == old(sentCount) + (if delivered then 1 else 0)
      ensures failedCount == old(failedCount) + (if delivered then 0 else 1)
    {
      waiting := waiting - multiset{letter};
      if delivered {
        stored, sentCount := stored + multiset{letter}, sentCount + 1;
      } else {
        lost, failedCount := lost + multiset{letter}, failedCount + 1;
      }
    }
  }

  /******* Retries *******/

  datatype Settings = Settings(maxAttempts: int, initial: real, multiplier: real, max: real)

  /** The bounds the configuration enforces. */
  predicate Acceptable(s: Settings) {
    s.maxAttempts >= 1 && s.initial > 0.0 && s.multiplier >= 1.0 && s.max > 0.0
  }

  datatype Decision = Done | Park(reason: Reason) | Again | Raise

  /** What follows from the verdict on attempt number `attempt`, counted from one. */
  function Decide(attempt: nat, maxAttempts: int, v: Verdict): Decision {
    match v
    case Accepted => Done
    case PermanentRejection => Park(RejectedPermanently)
    case TransientError => if attempt == maxAttempts then Park(TransientExhausted) else Again
    case Unexpected => Raise
  }

  function Power(base: real, n: nat): real {
    if n == 0 then 1.0 else Power(base, n - 1) * base
  }

  function Min(a: real, b: real): real {
    if a <= b then a else b
  }

  /** The pause after attempt k + 1, in closed form: the first one is not capped. */
  function PauseAt(s: Settings, k: nat): real {
    if k == 0 then s.initial else Min(s.initial * Power(s.multiplier, k), s.max)
  }

  /** The recurrence delay = min(delay * multiplier, max) has that closed form. */
  lemma NextPause(s: Settings, k: nat)
    requires Acceptable(s)
    ensures PauseAt(s, 0) == s.initial
    ensures Min(PauseAt(s, k) * s.multiplier, s.max) == PauseAt(s, k + 1)
  {
    var x, m := s.initial * Power(s.multiplier, k), s.multiplier;
    if k == 0 {
      assert Power(m, 1) == Power(m, 0) * m;
    } else {
      assert x * m == s.initial * Power(m, k + 1);
      if x > s.max {
        assert s.max * m >= s.max;
        assert x * m >= s.max * m;
      }
    }
  }

  /** What the pauses of a delivery are: the initial one first, each later one the one before it times the
      factor, or the cap if that is less. */
  lemma PausesGrow(s: Settings, pauses: seq<real>)
    requires Acceptable(s) && forall k :: 0 <= k < |pauses| ==> pauses[k] == PauseAt(s, k)
    ensures pauses != [] ==> pauses[0] == s.initial
    ensures forall j, k :: 0 <= j && k == j + 1 && k < |pauses| ==>
              pauses[k] == if pauses[j] * s.multiplier <= s.max then pauses[j] * s.multiplier else s.max
  {
    forall j, k | 0 <= j && k == j + 1 && k < |pauses|
      ensures pauses[k] == if pauses[j] * s.multiplier <= s.max then pauses[j] * s.multiplier else s.max
    {
      NextPause(s, j);
    }
  }

  function Sum(pauses: seq<real>): real {
    if pauses == [] then 0.0 else Sum(pauses[..|pauses| - 1]) + pauses[|pauses| - 1]
  }

  function ReasonFor(last: Call): Reason {
    if Judge(last.http) == TransientError then TransientExhausted else RejectedPermanently
  }

  datatype Result = Delivered | Parked | Raised

  /** The first answer that is not a transient error, counted from one, or the end of the budget. */
  function CallsMade(calls: seq<Call>, budget: nat): (n: nat)
    requires 1 <= budget <= |calls|
    ensures 1 <= n <= budget
    ensures forall k :: 0 <= k < n - 1 ==> Judge(calls[k].http) == TransientError
    ensures n < budget ==> Judge(calls[n - 1].http) != TransientError
  {
    if budget == 1 then 1 else
      var n := CallsMade(calls, budget - 1);
      if n == budget - 1 && Judge(calls[n - 1].http) == TransientError then budget else n
  }

  /** A bigger budget makes no call less, and changes nothing for a message that a smaller one settles. */
  lemma BiggerBudgetsSettleMore(calls: seq<Call>, budget: nat, bigger: nat)
    requires 1 <= budget <= bigger <= |calls|
    ensures CallsMade(calls, budget) <= CallsMade(calls, bigger)
    ensures Judge(calls[CallsMade(calls, budget) - 1].http) != TransientError ==>
              CallsMade(calls, bigger) == CallsMade(calls, budget)
    ensures Judge(calls[CallsMade(calls, bigger) - 1].http) == TransientError ==>
              forall k :: 0 <= k < bigger ==> Judge(calls[k].http) == TransientError
  {
    var n, m := CallsMade(calls, budget), CallsMade(calls, bigger);
    if n < m {
      assert Judge(calls[n - 1].http) == TransientError;
    }
  }

  /** A refusal ends the delivery there and then, in the dead-letter queue, whatever budget is left; a timeout,
      a throttle, a server error or no answer at all leaves it there only at the end of the budget. */
  lemma OnlyRefusalsEndEarly(calls: seq<Call>, budget: nat, k: nat)
    requires k < budget <= |calls|
    requires forall i :: 0 <= i < k ==> Judge(calls[i].http) == TransientError
    ensures
      calls[k].http.Status? && 400 <= calls[k].http.code < 500 && calls[k].http.code !in {408, 429} ==>
        CallsMade(calls, budget) == k + 1 && ReasonFor(calls[k]) == RejectedPermanently
    ensures
      calls[k].http.NoResponse? || calls[k].http.code in {408, 429} || calls[k].http.code >= 500 ==>
        ReasonFor(calls[k]) == TransientExhausted && (CallsMade(calls, budget) == k + 1 <==> k + 1 == budget)
  {
    var n := CallsMade(calls, budget);
    if calls[k].http.Status? {
      OnlyTheRequestIsRefused(calls[k].http.code, calls[k].http.readable);
    }
    if k + 1 < n {
      assert Judge(calls[k].http) == TransientError;
    }
  }

  /** `deliver`. `calls` are the answers of the service, were it called that often; `queueFull` says
      whether the dead-letter producer has room. */
  method Deliver(s: Settings, calls: seq<Call>, partition: nat, offset: nat, dlq: DeadLetters, queueFull: bool)
    returns (r: Result, made: nat, pauses: seq<real>)
    requires Acceptable(s) && s.maxAttempts <= |calls|
    requires dlq.Valid()
    modifies dlq
    ensures dlq.Valid()
    // Only transient errors are retried, at most up to the budget.
    ensures 1 <= made <= s.maxAttempts && made == CallsMade(calls, s.maxAttempts)
    ensures forall k :: 0 <= k < made - 1 ==> Judge(calls[k].http) == TransientError
    ensures Judge(calls[made - 1].http) == TransientError ==> made == s.maxAttempts
    // The last answer decides.
    ensures r.Delivered? <==> Judge(calls[made - 1].http) == Accepted
    ensures r.Parked? <==> Judge(calls[made - 1].http) in {PermanentRejection, TransientError} && !queueFull
    // Returning without delivery means exactly one letter, with the reason and the number of attempts.
    ensures dlq.handed == old(dlq.handed) +
              if r.Parked? then [Letter(partition, offset, ReasonFor(calls[made - 1]), made)] else []
    ensures |pauses| == made - 1
    // The first pause is the initial one; PausesGrow says what follows it.
    ensures pauses != [] ==> pauses[0] == s.initial
    ensures forall k :: 0 <= k < |pauses| ==> pauses[k] == PauseAt(s, k)
  {
    var delay := s.initial;
    made, pauses := 0, [];
    while made < s.maxAttempts
      invariant 0 <= made <= s.maxAttempts && |pauses| == made && delay == PauseAt(s, made)
      invariant made == s.maxAttempts ==> s.maxAttempts < 1
      invariant forall k :: 0 <= k < made ==> Judge(calls[k].http) == TransientError
      invariant forall k :: 0 <= k < |pauses| ==> pauses[k] == PauseAt(s, k)
      invariant dlq.Valid() && dlq.handed == old(dlq.handed)
    {
      var verdict := Judge(calls[made].http);
      made := made + 1;
      match Decide(made, s.maxAttempts, verdict)
      case Done =>
        return Delivered, made, pauses;
      case Raise =>
        return Raised, made, pauses;
      case Park(reason) =>
        var ok, left, reports := dlq.Park(Letter(partition, offset, reason, made), queueFull);
        return if ok then Parked else Raised, made, pauses;
      case Again =>
        pauses := pauses + [delay];
        NextPause(s, made - 1);
        delay := Min(delay * s.multiplier, s.max);
    }
    assert false;
  }

  lemma {:induction false} PausesAreBounded(s: Settings, pauses: seq<real>)
    requires Acceptable(s) && forall k :: 0 <= k < |pauses| ==> pauses[k] == PauseAt(s, k)
    ensures pauses != [] ==> Sum(pauses) <= s.initial + (|pauses| - 1) as real * s.max
    decreases |pauses|
  {
    if |pauses| == 1 {
      assert Sum(pauses[..0]) == 0.0;
    } else if |pauses| > 1 {
      PausesAreBounded(s, pauses[..|pauses| - 1]);
      assert (|pauses| - 1) as real * s.max == (|pauses| - 2) as real * s.max + s.max;
    }
  }

  /** The time a delivery can spend pausing. */
  lemma TotalPauseIsBounded(s: Settings, made: nat, pauses: seq<real>)
    requires Acceptable(s) && 1 <= made <= s.maxAttempts && |pauses| == made - 1
    requires forall k :: 0 <= k < |pauses| ==> pauses[k] == PauseAt(s, k)
    ensures s.maxAttempts >= 2 ==> Sum(pauses) <= s.initial + (s.maxAttempts - 2) as real * s.max
    ensures s.maxAttempts == 1 ==> Sum(pauses) == 0.0
  {
    PausesAreBounded(s, pauses);
    if s.maxAttempts >= 2 {
      if pauses == [] {
        Monotone(0, s.maxAttempts - 2, s.max);
      } else {
        Monotone(|pauses| - 1, s.maxAttempts - 2, s.max);
      }
    }
  }

  lemma Monotone(a: int, b: int, x: real)
    requires a <= b && x > 0.0
    ensures a as real * x <= b as real * x
  {
  }
}
