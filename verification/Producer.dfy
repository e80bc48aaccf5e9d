/** The Kafka producer: a local queue, delivery callbacks, and the counters both of them move. */
module Producer {
  import opened Reports

  class UnsubscribeProducer<M(==)> {
    var sentCount: nat
    var deliveredCount: nat
    var failedCount: nat
    var inFlight: multiset<M>        // the client's local queue
    var delivered: multiset<M>       // acknowledged by Kafka
    var undelivered: multiset<M>     // reported as failed
    var queueFull: nat               // messages given up because the queue stayed full

    ghost predicate Valid()
      reads this
    {
      // Every message that was queued is delivered, failed or still in flight.
      && sentCount == |delivered| + |undelivered| + |inFlight|
      && deliveredCount == |delivered|
      && failedCount == |undelivered| + queueFull
    }

    /** Everything queued so far. */
    ghost function Sent(): multiset<M>
      reads this
    {
      delivered + undelivered + inFlight
    }

    constructor ()
      ensures Valid() && inFlight == delivered == undelivered == multiset{} && queueFull == 0
      ensures sentCount == deliveredCount == failedCount == 0
    {
      sentCount, deliveredCount, failedCount, queueFull := 0, 0, 0, 0;
      inFlight, delivered, undelivered := multiset{}, multiset{}, multiset{};
    }

    /** `_report_delivery`. */
    method ReportDelivery(message: M, ok: bool)
      requires Valid() && message in inFlight
      modifies this
      ensures Valid() && Sent() == old(Sent()) && sentCount == old(sentCount) && queueFull == old(queueFull)
      ensures inFlight == old(inFlight) - multiset{message}
      ensures delivered == if ok then old(delivered) + multiset{message} else old(delivered)
      ensures undelivered == if ok then old(undelivered) else old(undelivered) + multiset{message}
    {
      Moved(delivered, undelivered, inFlight, message);
      inFlight := inFlight - multiset{message};
      if ok {
        delivered := delivered + multiset{message};
        deliveredCount := deliveredCount + 1;
      } else {
        undelivered := undelivered + multiset{message};
        failedCount := failedCount + 1;
      }
    }

    /** Callbacks run inside poll and flush, for whatever messages Kafka has answered. */
    method Poll(reports: seq<Report<M>>)
      requires Valid() && IsReportable(reports, inFlight)
      modifies this
      ensures Valid() && Sent() == old(Sent()) && sentCount == old(sentCount) && queueFull == old(queueFull)
      ensures inFlight == old(inFlight) - Reported(reports)
      ensures old(delivered) <= delivered && old(undelivered) <= undelivered
      decreases |reports|
    {
      if reports != [] {
        FirstReport(reports, inFlight);
        ReportDelivery(reports[0].message, reports[0].delivered);
        Poll(reports[1..]);
      }
    }

    /** `flush`: callbacks run until the timeout; the number of messages still unfinished is returned. */
    method Flush(reports: seq<Report<M>>) returns (stillQueued: nat)
      requires Valid() && IsReportable(reports, inFlight)
      modifies this
      ensures Valid() && Sent() == old(Sent()) && sentCount == old(sentCount) && queueFull == old(queueFull)
      ensures inFlight == old(inFlight) - Reported(reports)
      ensures old(delivered) <= delivered && old(undelivered) <= undelivered
      ensures stillQueued == |inFlight|
    {
      Poll(reports);
      stillQueued := |inFlight|;
    }

    /** `_enqueue`. `remaining` is the time left until the deadline; each wait for room in the full queue
        uses up some of it. Which produce calls find the queue full, and what is reported meanwhile, is
        up to the environment. */
    method Enqueue(message: M, timeout: nat) returns (ok: bool)
      requires Valid()
      modifies this
      ensures Valid()
      ensures old(delivered) <= delivered && old(undelivered) <= undelivered
      ensures Sent() == if ok then old(Sent()) + multiset{message} else old(Sent())
      ensures queueFull == old(queueFull) + (if ok then 0 else 1)
      ensures sentCount == old(sentCount) + (if ok then 1 else 0)
    {
      var remaining := timeout;
      while true
        invariant Valid() && Sent() == old(Sent()) && sentCount == old(sentCount) && queueFull == old(queueFull)
        invariant old(delivered) <= delivered && old(undelivered) <= undelivered
        decreases remaining
      {
        var full: bool := *;
        if !full {
          break;
        }
        if remaining == 0 {
          failedCount, queueFull := failedCount + 1, queueFull + 1;
          return false;
        }
        PollSome();
        var left: nat :| left < remaining;
        remaining := left;
      }
      inFlight := inFlight + multiset{message};
      sentCount := sentCount + 1;
      PollSome();
      return true;
    }

    /** A poll during which any messages may be reported on, with any result. */
    method PollSome()
      requires Valid()
      modifies this
      ensures Valid() && Sent() == old(Sent()) && sentCount == old(sentCount) && queueFull == old(queueFull)
      ensures old(delivered) <= delivered && old(undelivered) <= undelivered
    {
      var reports := AnyReports(inFlight);
      Poll(reports);
    }
  }

  /** A message that changes from one of three bags to another leaves their sum as it is. */
  lemma Moved<M>(x: multiset<M>, y: multiset<M>, z: multiset<M>, m: M)
    requires m in z
    ensures (x + multiset{m}) + y + (z - multiset{m}) == x + y + z
    ensures x + (y + multiset{m}) + (z - multiset{m}) == x + y + z
    ensures |z - multiset{m}| == |z| - 1 && |x + multiset{m}| == |x| + 1 && |y + multiset{m}| == |y| + 1
  {
  }
}
