/** Gold aggregates, the detection of stale groups, and the partition-replacing refresh. */
module Gold {
  import opened Collections
  import opened Rows
  import opened SilverBatch

  datatype Group = Group(date: int, source: string)
  datatype Aggregate = Aggregate(count: nat, readers: nat, writers: nat)
  datatype GoldRow = GoldRow(aggregate: Aggregate, updatedAt: int)

  type GoldTable = map<Group, GoldRow>

  function DateOf(r: SilverRow): int {
    r.requestedAt / MICROS_PER_DAY
  }

  function GroupOf(r: SilverRow): Group {
    Group(DateOf(r), r.source)
  }

  function InGroup(g: Group): SilverRow -> bool {
    (r: SilverRow) => GroupOf(r) == g
  }

  function InGroupBy(g: Group, at: int): SilverRow -> bool {
    (r: SilverRow) => GroupOf(r) == g && r.processedAt <= at
  }

  function RowsOf(silver: seq<SilverRow>, g: Group): seq<SilverRow> {
    Filter(InGroup(g), silver)
  }

  /** The rows of a group that were processed no later than `at`. */
  function RowsOfBy(silver: seq<SilverRow>, g: Group, at: int): seq<SilverRow> {
    Filter(InGroupBy(g, at), silver)
  }

  function Summarize(rows: seq<SilverRow>): Aggregate {
    Aggregate(|rows|, |set r | r in rows :: r.userId|, |set r | r in rows :: r.writerId|)
  }

  function Groups(silver: seq<SilverRow>): set<Group> {
    set r | r in silver :: GroupOf(r)
  }

  /** Gold as a full rebuild of Silver would make it, update times aside. */
  function FullRebuild(silver: seq<SilverRow>): map<Group, Aggregate> {
    map g | g in Groups(silver) :: Summarize(RowsOf(silver, g))
  }

  function Aggregates(gold: GoldTable): map<Group, Aggregate> {
    map g | g in gold :: gold[g].aggregate
  }

  /** The date of a row is the UTC day of its request, whenever it was processed. */
  lemma DateIsTheDayOfTheRequest(r: SilverRow, d: int)
    ensures DateOf(r) == d <==> d * 86_400_000_000 <= r.requestedAt < (d + 1) * 86_400_000_000
  {
  }

  /** Requested within this UTC day, through this source. */
  function RequestedOn(d: int, source: string): SilverRow -> bool {
    (r: SilverRow) => r.source == source && d * 86_400_000_000 <= r.requestedAt < (d + 1) * 86_400_000_000
  }

  lemma GroupsAreDaysAndSources(silver: seq<SilverRow>, d: int, source: string)
    ensures RowsOf(silver, Group(d, source)) == Filter(RequestedOn(d, source), silver)
    ensures Group(d, source) in Groups(silver) <==> exists r :: r in silver && RequestedOn(d, source)(r)
  {
    var g := Group(d, source);
    forall r: SilverRow ensures InGroup(g)(r) <==> RequestedOn(d, source)(r) {
      DateIsTheDayOfTheRequest(r, d);
    }
    FilterAgree(InGroup(g), RequestedOn(d, source), silver);
    assert forall r :: r in silver && RequestedOn(d, source)(r) ==> GroupOf(r) == g;
  }

  /** Gold has a row for this day and source exactly if some request of Silver falls there, and it counts those
      requests, their readers and their writers. */
  ghost predicate CountsTheDay(silver: seq<SilverRow>, gold: GoldTable, d: int, source: string) {
    var rows := Filter(RequestedOn(d, source), silver);
    && (Group(d, source) in gold <==> rows != [])
    && (Group(d, source) in gold ==>
          && gold[Group(d, source)].aggregate.count == |rows|
          && gold[Group(d, source)].aggregate.readers == |set r | r in rows :: r.userId|
          && gold[Group(d, source)].aggregate.writers == |set r | r in rows :: r.writerId|)
  }

  /** Which is what a row of Gold is worth when it is the aggregate of its group. */
  lemma AggregatesCountTheDay(silver: seq<SilverRow>, gold: GoldTable, d: int, source: string)
    requires Group(d, source) in gold <==> Group(d, source) in Groups(silver)
    requires Group(d, source) in gold ==>
               gold[Group(d, source)].aggregate == Summarize(RowsOf(silver, Group(d, source)))
    ensures CountsTheDay(silver, gold, d, source)
  {
    GroupsAreDaysAndSources(silver, d, source);
    FilterMembers(RequestedOn(d, source), silver);
    var rows := Filter(RequestedOn(d, source), silver);
    if rows != [] {
      assert rows[0] in rows;
    }
  }

  /******* Finding stale groups *******/

  /** max(silver_processed_at) of one group. */
  function Latest(silver: seq<SilverRow>, g: Group): (r: Option<int>)
    ensures r.None? <==> g !in Groups(silver)
    ensures r.Some? ==> exists x :: x in silver && GroupOf(x) == g && x.processedAt == r.value
    ensures r.Some? ==> forall x :: x in silver && GroupOf(x) == g ==> x.processedAt <= r.value
  {
    if silver == [] then None else
      var before, x := silver[..|silver| - 1], silver[|silver| - 1];
      assert silver == before + [x];
      var r := Latest(before, g);
      if GroupOf(x) != g then r
      else if r.None? || r.value < x.processedAt then Some(x.processedAt)
      else r
  }

  predicate Pending(silver: seq<SilverRow>, gold: GoldTable, g: Group) {
    var latest := Latest(silver, g);
    latest.Some? && (g !in gold || latest.value > gold[g].updatedAt)
  }

  function PendingDates(silver: seq<SilverRow>, gold: GoldTable): set<int> {
    set g | g in Groups(silver) && Pending(silver, gold, g) :: g.date
  }

  function IntervalDates(silver: seq<SilverRow>, start: int, end: int): set<int> {
    set r | r in silver && start <= r.processedAt < end :: DateOf(r)
  }

  /** What `touched` returns, for the two snapshots it happened to read. */
  function Touched(silver: seq<SilverRow>, gold: GoldTable, start: int, end: int, lookbackMinutes: int): set<int> {
    IntervalDates(silver, start - lookbackMinutes * MICROS_PER_MINUTE, end) + PendingDates(silver, gold)
  }

  /** The join of `freshness`: single rows newer than their Gold row, or without one. */
  predicate RowIsUnresolved(gold: GoldTable, r: SilverRow) {
    GroupOf(r) !in gold || r.processedAt > gold[GroupOf(r)].updatedAt
  }

  /** The row test of freshness and the group test of touched find the same groups. */
  lemma FreshnessAgreesWithTouched(silver: seq<SilverRow>, gold: GoldTable, g: Group)
    ensures Pending(silver, gold, g) <==> exists r :: r in silver && GroupOf(r) == g && RowIsUnresolved(gold, r)
  {
    var latest := Latest(silver, g);
    if latest.Some? {
      var x :| x in silver && GroupOf(x) == g && x.processedAt == latest.value;
      assert Pending(silver, gold, g) ==> RowIsUnresolved(gold, x);
    }
  }

  /******* Refreshing *******/

  /** The overwrite with replaceWhere: every group of the given dates is recomputed, groups without
      Silver rows disappear, and other dates are left alone. */
  function Refreshed(silver: seq<SilverRow>, gold: GoldTable, dates: set<int>, now: int): GoldTable {
    if dates == {} then gold else
      (map g | g in gold && g.date !in dates :: gold[g])
      + (map g | g in Groups(silver) && g.date in dates :: GoldRow(Summarize(RowsOf(silver, g)), now))
  }

  lemma RefreshedKeys(silver: seq<SilverRow>, gold: GoldTable, dates: set<int>, now: int, g: Group)
    ensures g.date in dates ==> (g in Refreshed(silver, gold, dates, now) <==> g in Groups(silver))
    ensures g.date !in dates ==> (g in Refreshed(silver, gold, dates, now) <==> g in gold)
    ensures g.date in dates && g in Groups(silver) ==>
              Refreshed(silver, gold, dates, now)[g] == GoldRow(Summarize(RowsOf(silver, g)), now)
    ensures g.date !in dates && g in gold ==> Refreshed(silver, gold, dates, now)[g] == gold[g]
  {
  }

  /** After the refresh of some dates Gold counts each of them, for every source. */
  lemma RefreshCountsItsDays(silver: seq<SilverRow>, gold: GoldTable, dates: set<int>, now: int)
    ensures forall d, source :: d in dates ==> CountsTheDay(silver, Refreshed(silver, gold, dates, now), d, source)
  {
    forall d, source | d in dates ensures CountsTheDay(silver, Refreshed(silver, gold, dates, now), d, source) {
      RefreshedKeys(silver, gold, dates, now, Group(d, source));
      AggregatesCountTheDay(silver, Refreshed(silver, gold, dates, now), d, source);
    }
  }

  /** Refreshing all dates that occur in Silver or in Gold is a full rebuild: it counts every day. */
  lemma RefreshingEveryDateRebuilds(silver: seq<SilverRow>, gold: GoldTable, dates: set<int>, now: int)
    requires forall g :: g in Groups(silver) || g in gold ==> g.date in dates
    ensures Aggregates(Refreshed(silver, gold, dates, now)) == FullRebuild(silver)
    ensures forall d, source :: CountsTheDay(silver, Refreshed(silver, gold, dates, now), d, source)
  {
    var gold' := Refreshed(silver, gold, dates, now);
    var full := FullRebuild(silver);
    forall g
      ensures g in gold' <==> g in full
      ensures g in gold' ==> gold'[g].aggregate == full[g]
    {
      RefreshedKeys(silver, gold, dates, now, g);
    }
    assert Aggregates(gold').Keys == full.Keys;
    forall d, source ensures CountsTheDay(silver, gold', d, source) {
      AggregatesCountTheDay(silver, gold', d, source);
    }
  }

  /******* Aggregates and time *******/

  lemma RowsAreInTheirGroup(silver: seq<SilverRow>, r: SilverRow)
    requires r in silver
    ensures GroupOf(r) in Groups(silver)
  {
  }

  /** When no row of the group is younger than `at`, the cut at `at` removes nothing. */
  lemma CutIsWhole(silver: seq<SilverRow>, g: Group, at: int)
    requires forall r :: r in silver && GroupOf(r) == g ==> r.processedAt <= at
    ensures RowsOfBy(silver, g, at) == RowsOf(silver, g)
  {
    FilterAgree(InGroupBy(g, at), InGroup(g), silver);
  }

  /** A row younger than `at` is missing from the cut, and the count shows it. */
  lemma CutIsSmaller(silver: seq<SilverRow>, g: Group, at: int, r: SilverRow)
    requires r in silver && GroupOf(r) == g && r.processedAt > at
    ensures |RowsOfBy(silver, g, at)| < |RowsOf(silver, g)|
  {
    var rows := RowsOf(silver, g);
    FilterImplied(InGroupBy(g, at), InGroup(g), silver);
    FilterSplit(InGroupBy(g, at), rows);
    FilterMembers(InGroup(g), silver);
    FilterMembers(Negation(InGroupBy(g, at)), rows);
    assert r in rows;
    assert r in Filter(Negation(InGroupBy(g, at)), rows);
  }

  lemma {:induction false} DistinctValuesAreBounded(rows: seq<SilverRow>)
    ensures |set r | r in rows :: r.userId| <= |rows|
    ensures |set r | r in rows :: r.writerId| <= |rows|
    decreases |rows|
  {
    if rows != [] {
      var u, x := rows[..|rows| - 1], rows[|rows| - 1];
      DistinctValuesAreBounded(u);
      assert rows == u + [x];
      assert (set r | r in rows :: r.userId) == (set r | r in u :: r.userId) + {x.userId};
      assert (set r | r in rows :: r.writerId) == (set r | r in u :: r.writerId) + {x.writerId};
    }
  }

  /** The aggregate, row by row: one more event, and a new reader or writer only if not seen before. */
  lemma OneMoreRow(rows: seq<SilverRow>, x: SilverRow)
    ensures
      var before, after := Summarize(rows), Summarize(rows + [x]);
      && after.count == before.count + 1
      && after.readers == before.readers + (if exists r :: r in rows && r.userId == x.userId then 0 else 1)
      && after.writers == before.writers + (if exists r :: r in rows && r.writerId == x.writerId then 0 else 1)
  {
    assert (set r | r in rows + [x] :: r.userId) == (set r | r in rows :: r.userId) + {x.userId};
    assert (set r | r in rows + [x] :: r.writerId) == (set r | r in rows :: r.writerId) + {x.writerId};
  }
}
