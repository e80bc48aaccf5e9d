/** Delivery reports of a Kafka client: what its callbacks say about the messages in its local queue. */
module Reports {

  /** A delivery report for one queued message. */
  datatype Report<M> = Report(message: M, delivered: bool)

  function Reported<M>(reports: seq<Report<M>>): multiset<M> {
    if reports == [] then multiset{} else multiset{reports[0].message} + Reported(reports[1..])
  }

  /** The messages reported as acknowledged by all in-sync replicas. */
  function Acknowledged<M>(reports: seq<Report<M>>): multiset<M> {
    if reports == [] then multiset{}
    else (if reports[0].delivered then multiset{reports[0].message} else multiset{}) + Acknowledged(reports[1..])
  }

  /** How many reports tell of a failure. */
  function Failures<M>(reports: seq<Report<M>>): nat {
    if reports == [] then 0 else (if reports[0].delivered then 0 else 1) + Failures(reports[1..])
  }

  /** The client reports on messages it has queued, on each at most once. */
  ghost predicate IsReportable<M>(reports: seq<Report<M>>, queue: multiset<M>) {
    Reported(reports) <= queue
  }

  /** The next message to be reported on is still queued, and so are those of the later reports. */
  lemma FirstReport<M>(reports: seq<Report<M>>, queue: multiset<M>)
    requires reports != [] && Reported(reports) <= queue
    ensures reports[0].message in queue && Reported(reports[1..]) <= queue - multiset{reports[0].message}
    ensures (queue - multiset{reports[0].message}) - Reported(reports[1..]) == queue - Reported(reports)
  {
    assert Reported(reports)[reports[0].message] >= 1;
  }

  lemma FirstAcknowledged<M>(stored: multiset<M>, reports: seq<Report<M>>)
    requires reports != []
    ensures stored + Acknowledged(reports)
         == stored + (if reports[0].delivered then multiset{reports[0].message} else multiset{})
             + Acknowledged(reports[1..])
  {
  }

  /** Every report is an acknowledgement or a failure. */
  lemma {:induction false} ReportsAreSplit<M>(reports: seq<Report<M>>)
    ensures Acknowledged(reports) <= Reported(reports)
    ensures |Acknowledged(reports)| + Failures(reports) == |Reported(reports)| == |reports|
    decreases |reports|
  {
    if reports != [] {
      ReportsAreSplit(reports[1..]);
    }
  }

  /** No failure and nothing left over: the whole queue has been acknowledged; and only then. */
  lemma CleanFlushMeansAcknowledged<M>(reports: seq<Report<M>>, queue: multiset<M>)
    requires IsReportable(reports, queue)
    ensures |queue - Reported(reports)| == 0 && Failures(reports) == 0 <==> Acknowledged(reports) == queue
  {
    ReportsAreSplit(reports);
    var left := queue - Reported(reports);
    assert queue == left + Reported(reports);
    assert |queue| == |left| + |Reported(reports)|;
    if |left| == 0 && Failures(reports) == 0 {
      var rest := queue - Acknowledged(reports);
      assert queue == rest + Acknowledged(reports);
      assert |queue| == |rest| + |Acknowledged(reports)|;
      assert rest == multiset{};
    }
  }

  /** The same for a queue of one message. */
  lemma OneMessageIsAcknowledged<M>(reports: seq<Report<M>>, message: M)
    requires IsReportable(reports, multiset{message})
    ensures message in Acknowledged(reports) <==>
              |multiset{message} - Reported(reports)| == 0 && Failures(reports) == 0
    ensures forall m :: m in Acknowledged(reports) ==> m == message
  {
    CleanFlushMeansAcknowledged(reports, multiset{message});
    ReportsAreSplit(reports);
    if message in Acknowledged(reports) {
      assert Acknowledged(reports) == multiset{message};
    }
    forall m | m in Acknowledged(reports) ensures m == message {
      assert m in Reported(reports);
    }
  }

  /** Any reports the client could make about this queue. */
  method AnyReports<M(==)>(queue: multiset<M>) returns (reports: seq<Report<M>>)
    ensures IsReportable(reports, queue)
  {
    reports := [];
    var left := queue;
    while |left| > 0
      invariant left <= queue && Reported(reports) == queue - left
      decreases |left|
    {
      var stop: bool := *;
      if stop {
        break;
      }
      var message :| message in left;
      var ok: bool := *;
      assert ([Report(message, ok)] + reports)[1..] == reports;
      reports := [Report(message, ok)] + reports;
      left := left - multiset{message};
    }
  }
}
