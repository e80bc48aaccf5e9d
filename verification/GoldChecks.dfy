/** The four checks that a refresh runs on the partitions it has just replaced. */
module GoldChecks {
  import opened Collections
  import opened Rows
  import opened Checks
  import opened SilverBatch
  import opened Gold

  const GOLD_CHECKS: seq<Check> := [NonnegativeCount, ReaderBound, WriterBound, SilverReconciliation]

  /** One row of the full join of Gold (g) with the counts taken from Silver (s); a missing side is null. */
  function GoldRule(check: Check, g: Option<Aggregate>, s: Option<Aggregate>): Ternary {
    if g.None? then Null else
      match check
      case NonnegativeCount => Lift(g.value.count >= 0)
      case ReaderBound => Lift(g.value.readers <= g.value.count)
      case WriterBound => Lift(g.value.writers <= g.value.count)
      case SilverReconciliation => if s.None? then Null else Lift(g.value.count == s.value.count)
      case _ => True
  }

  function JoinedGroups(silver: seq<SilverRow>, gold: GoldTable, dates: set<int>): set<Group> {
    (set g | g in gold && g.date in dates) + (set g | g in Groups(silver) && g.date in dates)
  }

  function JoinedSources(silver: seq<SilverRow>, gold: GoldTable, dates: set<int>): set<string> {
    set g | g in JoinedGroups(silver, gold, dates) :: g.source
  }

  function GroupsFrom(silver: seq<SilverRow>, gold: GoldTable, dates: set<int>, source: string): set<Group> {
    set g | g in JoinedGroups(silver, gold, dates) && g.source == source
  }

  function Failing(silver: seq<SilverRow>, gold: GoldTable, dates: set<int>, source: string, check: Check): set<Group> {
    set g | g in GroupsFrom(silver, gold, dates, source)
         && !CoalesceFalse(GoldRule(check, Lookup(Aggregates(gold), g), Lookup(FullRebuild(silver), g)))
  }

  function GoldResult(m: Monitoring, runId: string, silver: seq<SilverRow>, gold: GoldTable, dates: set<int>,
                      source: string, check: Check, checkedAt: int): DqResult
  {
    MakeResult(m, runId, GOLD, source, check, |GroupsFrom(silver, gold, dates, source)|,
               |Failing(silver, gold, dates, source, check)|, false, checkedAt)
  }

  /** Reconciliation reports no failure exactly when, on these dates, Gold and Silver have the same
      groups of the source with the same counts. */
  lemma ReconciliationFindsEveryDifference(silver: seq<SilverRow>, gold: GoldTable, dates: set<int>, source: string)
    ensures |Failing(silver, gold, dates, source, SilverReconciliation)| == 0 <==>
            forall g: Group :: g.date in dates && g.source == source ==>
              && (g in gold <==> g in Groups(silver))
              && (g in gold ==> gold[g].aggregate.count == Summarize(RowsOf(silver, g)).count)
  {
    var failing := Failing(silver, gold, dates, source, SilverReconciliation);
    if |failing| == 0 {
      forall g: Group | g.date in dates && g.source == source
        ensures g in gold <==> g in Groups(silver)
        ensures g in gold ==> gold[g].aggregate.count == Summarize(RowsOf(silver, g)).count
      {
        assert g !in failing;
      }
    } else {
      var g :| g in failing;
      assert g in GroupsFrom(silver, gold, dates, source);
    }
  }

  /** The other three checks report a group exactly if Gold lacks it, or holds more readers or writers than
      events in it. */
  lemma BoundsFindEveryExcess(silver: seq<SilverRow>, gold: GoldTable, dates: set<int>, source: string, g: Group)
    requires g in GroupsFrom(silver, gold, dates, source)
    ensures g in Failing(silver, gold, dates, source, NonnegativeCount) <==> g !in gold
    ensures g in Failing(silver, gold, dates, source, ReaderBound) <==>
              g in gold ==> gold[g].aggregate.readers > gold[g].aggregate.count
    ensures g in Failing(silver, gold, dates, source, WriterBound) <==>
              g in gold ==> gold[g].aggregate.writers > gold[g].aggregate.count
  {
  }

  /** What a result of one source is about: the groups of that source on these dates which Gold or Silver holds,
      and how many of them the check reports. */
  ghost predicate IsGoldReport(runId: string, silver: seq<SilverRow>, gold: GoldTable, dates: set<int>,
                               source: string, checkedAt: int, r: DqResult)
  {
    && r.runId == runId && r.layer == GOLD && r.checkedAt == checkedAt
    && r.source == (if source == "" then "UNKNOWN" else source)
    && r.failed == |Failing(silver, gold, dates, source, r.check)|
    && r.total == |set g: Group | g in gold.Keys + Groups(silver) && g.date in dates && g.source == source|
  }

  lemma GoldResultIsReport(m: Monitoring, runId: string, silver: seq<SilverRow>, gold: GoldTable, dates: set<int>,
                           source: string, check: Check, checkedAt: int)
    ensures GoldResult(m, runId, silver, gold, dates, source, check, checkedAt).check == check
    ensures IsGoldReport(runId, silver, gold, dates, source, checkedAt,
                         GoldResult(m, runId, silver, gold, dates, source, check, checkedAt))
  {
    var groups := set g: Group | g in gold.Keys + Groups(silver) && g.date in dates && g.source == source;
    assert groups == GroupsFrom(silver, gold, dates, source);
  }

  /** The results of one source: the four checks, in this order. */
  lemma GoldResultsOfASource(m: Monitoring, runId: string, silver: seq<SilverRow>, gold: GoldTable, dates: set<int>,
                             source: string, checkedAt: int)
    ensures
      var results := GoldSourceResults(m, runId, silver, gold, dates, source, checkedAt);
      && Map(CheckOf(), results) == [NonnegativeCount, ReaderBound, WriterBound, SilverReconciliation]
      && forall r :: r in results ==> IsGoldReport(runId, silver, gold, dates, source, checkedAt, r)
  {
    var results := GoldSourceResults(m, runId, silver, gold, dates, source, checkedAt);
    forall k | 0 <= k < |results|
      ensures results[k].check == GOLD_CHECKS[k]
      ensures IsGoldReport(runId, silver, gold, dates, source, checkedAt, results[k])
    {
      GoldResultIsReport(m, runId, silver, gold, dates, source, GOLD_CHECKS[k], checkedAt);
    }
    assert Map(CheckOf(), results) == GOLD_CHECKS;
  }

  lemma SourcesOfTheJoin(silver: seq<SilverRow>, gold: GoldTable, dates: set<int>)
    ensures JoinedSources(silver, gold, dates)
            == set g: Group | g in gold.Keys + Groups(silver) && g.date in dates :: g.source
  {
    assert JoinedGroups(silver, gold, dates) == set g: Group | g in gold.Keys + Groups(silver) && g.date in dates;
  }

  function CheckOf(): DqResult -> Check {
    (r: DqResult) => r.check
  }

  /** After the partition replacement none of the four checks can fail, whatever the dates. */
  lemma RefreshPassesItsChecks(silver: seq<SilverRow>, gold: GoldTable, dates: set<int>, now: int,
                               source: string, check: Check)
    requires check in GOLD_CHECKS && dates != {}
    ensures Failing(silver, Refreshed(silver, gold, dates, now), dates, source, check) == {}
  {
    var gold' := Refreshed(silver, gold, dates, now);
    forall g | g in GroupsFrom(silver, gold', dates, source)
      ensures CoalesceFalse(GoldRule(check, Lookup(Aggregates(gold'), g), Lookup(FullRebuild(silver), g)))
    {
      RefreshedKeys(silver, gold, dates, now, g);
      DistinctValuesAreBounded(RowsOf(silver, g));
    }
  }

  /** The recorded results of a refresh are all without failures, and green when the thresholds are
      positive, as the deployed ones are. */
  lemma GoldResultsAreGreen(m: Monitoring, runId: string, silver: seq<SilverRow>, gold: GoldTable, dates: set<int>,
                            now: int, source: string, check: Check, checkedAt: int)
    requires check in GOLD_CHECKS && dates != {}
    ensures
      var r := GoldResult(m, runId, silver, Refreshed(silver, gold, dates, now), dates, source, check, checkedAt);
      r.failed == 0 && (r.level == GREEN <==> Positive(m.dqRate))
  {
    RefreshPassesItsChecks(silver, gold, dates, now, source, check);
    var total := |GroupsFrom(silver, Refreshed(silver, gold, dates, now), dates, source)|;
    NoFailuresAreGreen(m, runId, GOLD, source, check, total, checkedAt);
  }

  /** The result rows that one source contributes. */
  function GoldSourceResults(m: Monitoring, runId: string, silver: seq<SilverRow>, gold: GoldTable, dates: set<int>,
                         source: string, checkedAt: int): seq<DqResult>
  {
    seq(|GOLD_CHECKS|, k requires 0 <= k < |GOLD_CHECKS| =>
      GoldResult(m, runId, silver, gold, dates, source, GOLD_CHECKS[k], checkedAt))
  }

  predicate IsClean(m: Monitoring, r: DqResult) {
    r.layer == GOLD && r.failed == 0 && (r.level == GREEN <==> Positive(m.dqRate))
  }

  lemma SourceResultsAreClean(m: Monitoring, runId: string, silver: seq<SilverRow>, gold: GoldTable, dates: set<int>,
                              now: int, source: string, checkedAt: int)
    requires dates != {}
    ensures
      var gold' := Refreshed(silver, gold, dates, now);
      forall r :: r in GoldSourceResults(m, runId, silver, gold', dates, source, checkedAt) ==> IsClean(m, r)
  {
    var gold' := Refreshed(silver, gold, dates, now);
    forall k | 0 <= k < |GOLD_CHECKS|
      ensures IsClean(m, GoldResult(m, runId, silver, gold', dates, source, GOLD_CHECKS[k], checkedAt))
    {
      GoldResultsAreGreen(m, runId, silver, gold, dates, now, source, GOLD_CHECKS[k], checkedAt);
    }
  }
}
