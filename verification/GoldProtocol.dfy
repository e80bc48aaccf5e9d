/**
 Silver merges, Gold refreshes and the two unlocked reads of `touched`, in any interleaving.

 Merges and refreshes are critical sections of one lock, so each is a single step. The timestamp a
 section takes is assumed to be later than the timestamp of every section before it. The reads of
 `touched` take no lock: other steps may run before, between and after them.
 */
module GoldProtocol {
  import opened Collections
  import opened DeltaTables
  import opened Checks
  import opened Rows
  import opened SilverBatch
  import opened Gold

  datatype Job =
    | SilverRead(silver: seq<SilverRow>, start: int, end: int)
    | DatesFound(silver: seq<SilverRow>, dates: set<int>)

  datatype State = State(
    clock: int,            // the timestamp of the last critical section
    silver: seq<SilverRow>,
    gold: GoldTable,
    jobs: map<nat, Job>)   // calls of touched, and refreshes still to come

  datatype Step =
    | Merge(rows: seq<SilverRow>, now: int)
    | ReadSilver(id: nat, start: int, end: int)
    | ReadGold(id: nat)
    | RefreshJob(id: nat, now: int)
    | RefreshDates(dates: set<int>, now: int) // a backfill, or a repeated task
    | Abandon(id: nat)

  predicate Enabled(s: State, step: Step) {
    match step
    case Merge(rows, now) => s.clock < now && forall r :: r in rows ==> r.processedAt == now
    case ReadSilver(id, _, _) => id !in s.jobs
    case ReadGold(id) => id in s.jobs && s.jobs[id].SilverRead?
    case RefreshJob(id, now) => id in s.jobs && s.jobs[id].DatesFound? && s.clock < now
    case RefreshDates(_, now) => s.clock < now
    case Abandon(id) => id in s.jobs
  }

  function Next(s: State, step: Step, lookbackMinutes: int): State
    requires Enabled(s, step)
  {
    match step
    case Merge(rows, now) => s.(silver := s.silver + rows, clock := now)
    case ReadSilver(id, start, end) => s.(jobs := s.jobs[id := SilverRead(s.silver, start, end)])
    case ReadGold(id) =>
      var SilverRead(silver, start, end) := s.jobs[id];
      s.(jobs := s.jobs[id := DatesFound(silver, Touched(silver, s.gold, start, end, lookbackMinutes))])
    case RefreshJob(id, now) =>
      s.(gold := Refreshed(s.silver, s.gold, s.jobs[id].dates, now), clock := now, jobs := s.jobs - {id})
    case RefreshDates(dates, now) => s.(gold := Refreshed(s.silver, s.gold, dates, now), clock := now)
    case Abandon(id) => s.(jobs := s.jobs - {id})
  }

  function Initial(clock: int): State {
    State(clock, [], map[], map[])
  }

  function Execute(s: State, steps: seq<Step>, lookbackMinutes: int): State {
    if steps == [] then s else
      var s' := Execute(s, steps[..|steps| - 1], lookbackMinutes);
      if Enabled(s', steps[|steps| - 1]) then Next(s', steps[|steps| - 1], lookbackMinutes) else s'
  }

  /******* What every step keeps *******/

  ghost predicate SilverIsPast(s: State) {
    forall r :: r in s.silver ==> r.processedAt <= s.clock
  }

  /** The row of one group is the aggregate of exactly the Silver rows processed up to its update. */
  ghost predicate GoldRowIsExact(s: State, g: Group)
    requires g in s.gold
  {
    && s.gold[g].updatedAt <= s.clock
    && s.gold[g].aggregate == Summarize(RowsOfBy(s.silver, g, s.gold[g].updatedAt))
    && s.gold[g].aggregate.count > 0
  }

  ghost predicate GoldIsExact(s: State) {
    forall g :: g in s.gold ==> GoldRowIsExact(s, g)
  }

  /** The Gold row of the row's group was computed when the row was already in Silver. */
  predicate Covered(gold: GoldTable, r: SilverRow) {
    !RowIsUnresolved(gold, r)
  }

  ghost predicate JobIsSound(s: State, job: Job) {
    && job.silver <= s.silver
    && (job.DatesFound? ==> forall r :: r in job.silver ==> DateOf(r) in job.dates || Covered(s.gold, r))
  }

  ghost predicate JobsAreSound(s: State) {
    forall id :: id in s.jobs ==> JobIsSound(s, s.jobs[id])
  }

  ghost predicate Inv(s: State) {
    SilverIsPast(s) && GoldIsExact(s) && JobsAreSound(s)
  }

  lemma MergeKeepsGold(s: State, rows: seq<SilverRow>, now: int)
    requires Inv(s) && Enabled(s, Merge(rows, now))
    ensures GoldIsExact(s.(silver := s.silver + rows, clock := now))
  {
    forall g | g in s.gold
      ensures RowsOfBy(s.silver + rows, g, s.gold[g].updatedAt) == RowsOfBy(s.silver, g, s.gold[g].updatedAt)
      ensures GoldRowIsExact(s, g)
    {
      var at := s.gold[g].updatedAt;
      assert GoldRowIsExact(s, g);
      FilterConcat(InGroupBy(g, at), s.silver, rows);
      FilterNone(InGroupBy(g, at), rows);
    }
  }

  lemma RefreshKeepsGold(s: State, dates: set<int>, now: int)
    requires Inv(s) && s.clock < now
    ensures GoldIsExact(s.(gold := Refreshed(s.silver, s.gold, dates, now), clock := now))
  {
    var s' := s.(gold := Refreshed(s.silver, s.gold, dates, now), clock := now);
    forall g | g in s'.gold ensures GoldRowIsExact(s', g) {
      RefreshedKeys(s.silver, s.gold, dates, now, g);
      if g.date in dates {
        CutIsWhole(s.silver, g, now);
        var r :| r in s.silver && GroupOf(r) == g;
        FilterMembers(InGroup(g), s.silver);
        assert r in RowsOf(s.silver, g);
      } else {
        assert GoldRowIsExact(s, g);
      }
    }
  }

  /** Coverage is never lost: Silver keeps its rows and update times only grow. */
  lemma RefreshKeepsCoverage(s: State, dates: set<int>, now: int, r: SilverRow)
    requires Inv(s) && s.clock < now && r in s.silver
    ensures Covered(s.gold, r) || DateOf(r) in dates ==> Covered(Refreshed(s.silver, s.gold, dates, now), r)
  {
    RefreshedKeys(s.silver, s.gold, dates, now, GroupOf(r));
    RowsAreInTheirGroup(s.silver, r);
  }

  lemma RefreshKeepsJobs(s: State, dates: set<int>, now: int, jobs: map<nat, Job>)
    requires Inv(s) && s.clock < now
    requires forall id :: id in jobs ==> id in s.jobs && jobs[id] == s.jobs[id]
    ensures JobsAreSound(s.(gold := Refreshed(s.silver, s.gold, dates, now), clock := now, jobs := jobs))
  {
    var s' := s.(gold := Refreshed(s.silver, s.gold, dates, now), clock := now, jobs := jobs);
    forall id | id in jobs ensures JobIsSound(s', jobs[id]) {
      assert JobIsSound(s, s.jobs[id]);
      forall r | r in jobs[id].silver && Covered(s.gold, r) ensures Covered(s'.gold, r) {
        RefreshKeepsCoverage(s, dates, now, r);
      }
    }
  }

  /** A date that `touched` leaves out is one all of whose snapshot rows Gold already covers. */
  lemma TouchedIsComplete(silver: seq<SilverRow>, gold: GoldTable, start: int, end: int, lookbackMinutes: int,
                          r: SilverRow)
    requires r in silver
    ensures DateOf(r) in Touched(silver, gold, start, end, lookbackMinutes) || Covered(gold, r)
  {
    var g := GroupOf(r);
    RowsAreInTheirGroup(silver, r);
    FreshnessAgreesWithTouched(silver, gold, g);
    if !Covered(gold, r) {
      assert Pending(silver, gold, g);
      assert g.date in PendingDates(silver, gold);
    }
  }

  lemma ReadGoldKeepsJobs(s: State, id: nat, lookbackMinutes: int)
    requires Inv(s) && Enabled(s, ReadGold(id))
    ensures JobsAreSound(Next(s, ReadGold(id), lookbackMinutes))
  {
    var s' := Next(s, ReadGold(id), lookbackMinutes);
    var job := s.jobs[id];
    assert JobIsSound(s, job);
    forall r | r in job.silver ensures DateOf(r) in s'.jobs[id].dates || Covered(s.gold, r) {
      TouchedIsComplete(job.silver, s.gold, job.start, job.end, lookbackMinutes, r);
    }
    forall other | other in s'.jobs ensures JobIsSound(s', s'.jobs[other]) {
      if other != id {
        assert JobIsSound(s, s.jobs[other]);
      }
    }
  }

  lemma NextKeepsInv(s: State, step: Step, lookbackMinutes: int)
    requires Inv(s) && Enabled(s, step)
    ensures Inv(Next(s, step, lookbackMinutes))
  {
    var s' := Next(s, step, lookbackMinutes);
    match step
    case Merge(rows, now) =>
      MergeKeepsGold(s, rows, now);
      forall id | id in s'.jobs ensures JobIsSound(s', s'.jobs[id]) {
        assert JobIsSound(s, s.jobs[id]);
      }
    case ReadSilver(id, _, _) =>
      forall other | other in s'.jobs ensures JobIsSound(s', s'.jobs[other]) {
        if other != id {
          assert JobIsSound(s, s.jobs[other]);
        }
      }
      assert forall g :: g in s.gold ==> GoldRowIsExact(s, g);
    case ReadGold(id) =>
      ReadGoldKeepsJobs(s, id, lookbackMinutes);
      assert forall g :: g in s.gold ==> GoldRowIsExact(s, g);
    case RefreshJob(id, now) =>
      RefreshKeepsGold(s, s.jobs[id].dates, now);
      RefreshKeepsJobs(s, s.jobs[id].dates, now, s.jobs - {id});
      assert GoldIsExact(s.(gold := s'.gold, clock := now));
      assert forall g :: g in s'.gold ==> GoldRowIsExact(s.(gold := s'.gold, clock := now), g);
    case RefreshDates(dates, now) =>
      RefreshKeepsGold(s, dates, now);
      RefreshKeepsJobs(s, dates, now, s.jobs);
    case Abandon(id) =>
      assert forall other :: other in s'.jobs ==> JobIsSound(s, s.jobs[other]);
      assert forall g :: g in s.gold ==> GoldRowIsExact(s, g);
  }

  lemma {:induction false} RunKeepsInv(s: State, steps: seq<Step>, lookbackMinutes: int)
    requires Inv(s)
    ensures Inv(Execute(s, steps, lookbackMinutes))
    decreases |steps|
  {
    if steps != [] {
      RunKeepsInv(s, steps[..|steps| - 1], lookbackMinutes);
      var s' := Execute(s, steps[..|steps| - 1], lookbackMinutes);
      if Enabled(s', steps[|steps| - 1]) {
        NextKeepsInv(s', steps[|steps| - 1], lookbackMinutes);
      }
    }
  }

  /******* The theorems *******/

  /** Gold lacks the group, or holds something else than its aggregate. */
  predicate IsWrong(silver: seq<SilverRow>, gold: GoldTable, g: Group) {
    g !in gold || gold[g].aggregate != Summarize(RowsOf(silver, g))
  }

  predicate Stale(s: State, g: Group) {
    IsWrong(s.silver, s.gold, g)
  }

  lemma InitiallySound(clock: int)
    ensures Inv(Initial(clock))
  {
  }

  /** In every reachable state the pending test of `touched` selects exactly the groups whose Gold row is
      missing or wrong, and Gold holds no group that Silver does not. */
  lemma PendingIffStale(clock: int, steps: seq<Step>, lookbackMinutes: int, g: Group)
    ensures
      var s := Execute(Initial(clock), steps, lookbackMinutes);
      && (g in Groups(s.silver) ==> (Pending(s.silver, s.gold, g) <==> Stale(s, g)))
      && (g in s.gold ==> g in Groups(s.silver) && GoldRowIsExact(s, g))
  {
    InitiallySound(clock);
    RunKeepsInv(Initial(clock), steps, lookbackMinutes);
    var s := Execute(Initial(clock), steps, lookbackMinutes);
    if g in s.gold {
      var at := s.gold[g].updatedAt;
      assert GoldRowIsExact(s, g);
      FilterMembers(InGroupBy(g, at), s.silver);
      assert RowsOfBy(s.silver, g, at)[0] in RowsOfBy(s.silver, g, at);
      if Pending(s.silver, s.gold, g) {
        var r :| r in s.silver && GroupOf(r) == g && r.processedAt == Latest(s.silver, g).value;
        CutIsSmaller(s.silver, g, at, r);
      } else {
        CutIsWhole(s.silver, g, at);
      }
    }
  }

  lemma CoveredGroupIsRebuilt(s: State, g: Group)
    requires GoldIsExact(s) && forall r :: r in s.silver ==> Covered(s.gold, r)
    ensures g in s.gold <==> g in Groups(s.silver)
    ensures g in s.gold ==> s.gold[g].aggregate == Summarize(RowsOf(s.silver, g))
  {
    assert forall r :: r in s.silver && Covered(s.gold, r) ==> GroupOf(r) in s.gold;
    if g in s.gold {
      var at := s.gold[g].updatedAt;
      assert GoldRowIsExact(s, g);
      FilterMembers(InGroupBy(g, at), s.silver);
      assert RowsOfBy(s.silver, g, at)[0] in RowsOfBy(s.silver, g, at);
      CutIsWhole(s.silver, g, at);
    }
  }

  /** If Gold covers every Silver row, it is a full rebuild of Silver, with no group too many. */
  lemma CoveredSilverMeansRebuilt(s: State)
    requires Inv(s) && forall r :: r in s.silver ==> Covered(s.gold, r)
    ensures Aggregates(s.gold) == FullRebuild(s.silver)
  {
    forall g
      ensures g in s.gold <==> g in Groups(s.silver)
      ensures g in s.gold ==> s.gold[g].aggregate == Summarize(RowsOf(s.silver, g))
    {
      CoveredGroupIsRebuilt(s, g);
    }
    assert Aggregates(s.gold).Keys == FullRebuild(s.silver).Keys;
  }

  predicate Concerns(step: Step, id: nat) {
    match step
    case ReadSilver(i, _, _) => i == id
    case ReadGold(i) => i == id
    case RefreshJob(i, _) => i == id
    case Abandon(i) => i == id
    case _ => false
  }

  predicate LeavesAlone(steps: seq<Step>, id: nat) {
    forall k :: 0 <= k < |steps| ==> !Concerns(steps[k], id)
  }

  predicate NoMerge(steps: seq<Step>) {
    forall k :: 0 <= k < |steps| ==> !steps[k].Merge?
  }

  lemma {:induction false} JobIsKept(s: State, steps: seq<Step>, lookbackMinutes: int, id: nat)
    requires id in s.jobs && LeavesAlone(steps, id)
    ensures id in Execute(s, steps, lookbackMinutes).jobs
    ensures Execute(s, steps, lookbackMinutes).jobs[id] == s.jobs[id]
    decreases |steps|
  {
    if steps != [] {
      JobIsKept(s, steps[..|steps| - 1], lookbackMinutes, id);
      assert !Concerns(steps[|steps| - 1], id);
    }
  }

  lemma {:induction false} SilverIsKept(s: State, steps: seq<Step>, lookbackMinutes: int)
    requires NoMerge(steps)
    ensures Execute(s, steps, lookbackMinutes).silver == s.silver
    decreases |steps|
  {
    if steps != [] {
      SilverIsKept(s, steps[..|steps| - 1], lookbackMinutes);
    }
  }

  /** A call of `touched` that reads Silver, lets anything happen, reads Gold, lets anything happen, and
      the refresh of what it returned. */
  function Incremental(clock: int, before: seq<Step>, id: nat, start: int, end: int, between: seq<Step>,
                       after: seq<Step>, lookbackMinutes: int): State
    requires id !in Execute(Initial(clock), before, lookbackMinutes).jobs
    requires LeavesAlone(between, id) && LeavesAlone(after, id)
    ensures
      var s := Incremental(clock, before, id, start, end, between, after, lookbackMinutes);
      && Inv(s) && id in s.jobs && s.jobs[id].DatesFound?
      && s.jobs[id].silver == Execute(Initial(clock), before, lookbackMinutes).silver
      && (NoMerge(between) && NoMerge(after) ==> s.silver == s.jobs[id].silver)
  {
    InitiallySound(clock);
    RunKeepsInv(Initial(clock), before, lookbackMinutes);
    var s0 := Execute(Initial(clock), before, lookbackMinutes);
    var s1 := Next(s0, ReadSilver(id, start, end), lookbackMinutes);
    NextKeepsInv(s0, ReadSilver(id, start, end), lookbackMinutes);
    RunKeepsInv(s1, between, lookbackMinutes);
    JobIsKept(s1, between, lookbackMinutes, id);
    var s2 := Execute(s1, between, lookbackMinutes);
    var s3 := Next(s2, ReadGold(id), lookbackMinutes);
    NextKeepsInv(s2, ReadGold(id), lookbackMinutes);
    RunKeepsInv(s3, after, lookbackMinutes);
    JobIsKept(s3, after, lookbackMinutes, id);
    assert NoMerge(between) ==> s2.silver == s1.silver by {
      if NoMerge(between) { SilverIsKept(s1, between, lookbackMinutes); }
    }
    assert NoMerge(after) ==> Execute(s3, after, lookbackMinutes).silver == s3.silver by {
      if NoMerge(after) { SilverIsKept(s3, after, lookbackMinutes); }
    }
    Execute(s3, after, lookbackMinutes)
  }

  /** Incremental refresh refines a full rebuild. Whatever merges, refreshes and other jobs run between
      the two reads and before the refresh, every row that was in Silver when `touched` read it is
      reflected in Gold afterwards; and without a merge in the meantime Gold is the aggregate of all of
      Silver. */
  lemma IncrementalRefreshRefinesRebuild(
      clock: int, before: seq<Step>, id: nat, start: int, end: int, between: seq<Step>, after: seq<Step>,
      now: int, lookbackMinutes: int)
    requires id !in Execute(Initial(clock), before, lookbackMinutes).jobs
    requires LeavesAlone(between, id) && LeavesAlone(after, id)
    requires now > Incremental(clock, before, id, start, end, between, after, lookbackMinutes).clock
    ensures
      var s := Incremental(clock, before, id, start, end, between, after, lookbackMinutes);
      var s' := Next(s, RefreshJob(id, now), lookbackMinutes);
      && (forall r :: r in Execute(Initial(clock), before, lookbackMinutes).silver ==> Covered(s'.gold, r))
      && (forall g :: g in s'.gold ==> GoldRowIsExact(s', g))
      && (NoMerge(between) && NoMerge(after) ==> Aggregates(s'.gold) == FullRebuild(s'.silver))
  {
    var s := Incremental(clock, before, id, start, end, between, after, lookbackMinutes);
    var s' := Next(s, RefreshJob(id, now), lookbackMinutes);
    NextKeepsInv(s, RefreshJob(id, now), lookbackMinutes);
    var job := s.jobs[id];
    assert JobIsSound(s, job);
    forall r | r in job.silver ensures Covered(s'.gold, r) {
      assert r in s.silver;
      RefreshKeepsCoverage(s, job.dates, now, r);
    }
    if NoMerge(between) && NoMerge(after) {
      CoveredSilverMeansRebuilt(s');
    }
  }

  /** Strictly increasing section timestamps are needed: a row merged with the very timestamp of the
      Gold row is not counted by it, and yet the group is not pending. */
  lemma EqualTimestampsHideARow(x: SilverRow, y: SilverRow)
    requires GroupOf(x) == GroupOf(y) && x.processedAt <= y.processedAt
    ensures
      var gold := Refreshed([x], map[], {DateOf(x)}, y.processedAt);
      && !Pending([x, y], gold, GroupOf(x))
      && gold[GroupOf(x)].aggregate != Summarize(RowsOf([x, y], GroupOf(x)))
  {
    var g := GroupOf(x);
    RefreshedKeys([x], map[], {DateOf(x)}, y.processedAt, g);
    RowsAreInTheirGroup([x], x);
    FilterAll(InGroup(g), [x]);
    FilterAll(InGroup(g), [x, y]);
  }

  /** A batch that merges under the lock is one Merge step: all rows it adds carry its own timestamp. */
  lemma BatchMergeIsAStep(m: Monitoring, s: State, st: Store, b: Batch, a: Attempt, landed: nat, lookbackMinutes: int)
    requires s.silver == st.silver && s.clock < a.processedAt
    ensures
      var silver' := RunAttempt(m, st, b, a, landed).silver;
      var step := Merge(silver'[|s.silver|..], a.processedAt);
      s.silver <= silver' && Enabled(s, step) && Next(s, step, lookbackMinutes).silver == silver'
  {
    var added := Filter(Unmatched(SilverIds(st.silver), EventIdOf), SilverFrame(a));
    FilterMembers(Unmatched(SilverIds(st.silver), EventIdOf), SilverFrame(a));
    var silver' := RunAttempt(m, st, b, a, landed).silver;
    assert silver' == st.silver || silver' == st.silver + added;
    assert silver'[|s.silver|..] == [] || silver'[|s.silver|..] == added;
  }

  predicate IsRecent(r: SilverRow, start: int, end: int, lookbackMinutes: int) {
    start - lookbackMinutes * 60_000_000 <= r.processedAt < end
  }

  /** In every reachable state `touched`, with both tables read at once, returns the dates of the rows
      processed in the interval and its look-back, and of the stale groups, and no other date. */
  lemma TouchedIsRecentOrStale(clock: int, steps: seq<Step>, lookbackMinutes: int, start: int, end: int, date: int)
    ensures
      var s := Execute(Initial(clock), steps, lookbackMinutes);
      date in Touched(s.silver, s.gold, start, end, lookbackMinutes) <==>
        || (exists r :: r in s.silver && DateOf(r) == date && IsRecent(r, start, end, lookbackMinutes))
        || (exists g :: g in Groups(s.silver) && g.date == date && Stale(s, g))
  {
    var s := Execute(Initial(clock), steps, lookbackMinutes);
    forall g | g in Groups(s.silver) ensures Pending(s.silver, s.gold, g) <==> Stale(s, g) {
      PendingIffStale(clock, steps, lookbackMinutes, g);
    }
  }

  lemma {:induction false} SilverGrows(s: State, steps: seq<Step>, lookbackMinutes: int)
    ensures s.silver <= Execute(s, steps, lookbackMinutes).silver
    decreases |steps|
  {
    if steps != [] {
      SilverGrows(s, steps[..|steps| - 1], lookbackMinutes);
    }
  }

  /** The row is among those that the Gold row of its group aggregates. */
  predicate IsCounted(s: State, r: SilverRow) {
    GroupOf(r) in s.gold && r in RowsOfBy(s.silver, GroupOf(r), s.gold[GroupOf(r)].updatedAt)
  }

  /** And with anything happening between its two reads, it returns the dates of the recently processed rows
      of its Silver snapshot, and of those that Gold does not count when it is read, and no other date. */
  lemma TouchedIsRecentOrUncounted(clock: int, before: seq<Step>, between: seq<Step>, lookbackMinutes: int,
                                   start: int, end: int, date: int)
    ensures
      var s1 := Execute(Initial(clock), before, lookbackMinutes);
      var s2 := Execute(s1, between, lookbackMinutes);
      date in Touched(s1.silver, s2.gold, start, end, lookbackMinutes) <==>
        exists r :: r in s1.silver && DateOf(r) == date
          && (IsRecent(r, start, end, lookbackMinutes) || !IsCounted(s2, r))
  {
    var s1 := Execute(Initial(clock), before, lookbackMinutes);
    var s2 := Execute(s1, between, lookbackMinutes);
    SilverGrows(s1, between, lookbackMinutes);
    forall r | r in s1.silver ensures IsCounted(s2, r) <==> Covered(s2.gold, r) {
      assert r in s2.silver;
      if GroupOf(r) in s2.gold {
        FilterMembers(InGroupBy(GroupOf(r), s2.gold[GroupOf(r)].updatedAt), s2.silver);
      }
    }
    TouchedDates(s1.silver, s2.gold, start, end, lookbackMinutes, date);
  }

  /******* The look-back *******/

  /** What `touched` goes by: the row was processed recently, or its Gold row is missing or older. */
  predicate CallsForRefresh(gold: GoldTable, r: SilverRow, start: int, end: int, lookbackMinutes: int) {
    IsRecent(r, start, end, lookbackMinutes) || !Covered(gold, r)
  }

  lemma TouchedDates(silver: seq<SilverRow>, gold: GoldTable, start: int, end: int, lookbackMinutes: int, date: int)
    ensures date in Touched(silver, gold, start, end, lookbackMinutes) <==>
              exists r :: r in silver && DateOf(r) == date && CallsForRefresh(gold, r, start, end, lookbackMinutes)
  {
    if r :| r in silver && DateOf(r) == date && CallsForRefresh(gold, r, start, end, lookbackMinutes) {
      TouchedIsComplete(silver, gold, start, end, lookbackMinutes, r);
    }
    if date in PendingDates(silver, gold) {
      var g :| g in Groups(silver) && Pending(silver, gold, g) && g.date == date;
      FreshnessAgreesWithTouched(silver, gold, g);
    }
  }

  /** Without any assumption about clocks, on any tables: the refresh of what `touched` found leaves a group
      wrong exactly if it was wrong and no row of its date was recent or unresolved. So rows hidden by equal or
      receding timestamps stay hidden just as long as nothing else on their date calls for a refresh. */
  lemma WhatARefreshHeals(silver: seq<SilverRow>, gold: GoldTable, start: int, end: int, lookbackMinutes: int,
                          now: int, g: Group)
    requires g in Groups(silver)
    ensures
      IsWrong(silver, Refreshed(silver, gold, Touched(silver, gold, start, end, lookbackMinutes), now), g)
      <==> IsWrong(silver, gold, g)
           && forall r :: r in silver && DateOf(r) == g.date ==>
                !CallsForRefresh(gold, r, start, end, lookbackMinutes)
  {
    var dates := Touched(silver, gold, start, end, lookbackMinutes);
    TouchedDates(silver, gold, start, end, lookbackMinutes, g.date);
    RefreshedKeys(silver, gold, dates, now, g);
  }

  /** This is what the look-back is for. A row that becomes visible at a time `visible` of some scheduled
      interval, under a timestamp at most the look-back older, is reflected in Gold after the run of that
      interval, whatever the Gold row's own timestamp made of it; and a row older than that need not be. */
  lemma LookBackHealsLateRows(silver: seq<SilverRow>, gold: GoldTable, start: int, end: int, lookbackMinutes: int,
                              now: int, r: SilverRow, visible: int)
    requires r in silver && start <= visible < end && r.processedAt <= visible
    requires visible - r.processedAt <= lookbackMinutes * 60_000_000
    ensures
      var gold' := Refreshed(silver, gold, Touched(silver, gold, start, end, lookbackMinutes), now);
      !IsWrong(silver, gold', GroupOf(r))
  {
    RowsAreInTheirGroup(silver, r);
    WhatARefreshHeals(silver, gold, start, end, lookbackMinutes, now, GroupOf(r));
    assert CallsForRefresh(gold, r, start, end, lookbackMinutes);
  }

  /** For every look-back there are such tables: a row that precedes the window under the very timestamp of its
      Gold row stays hidden after the refresh. */
  lemma OlderRowsStayHidden(x: SilverRow, y: SilverRow, start: int, end: int, lookbackMinutes: int, now: int)
    requires GroupOf(x) == GroupOf(y) && x.processedAt <= y.processedAt
    requires y.processedAt < start - lookbackMinutes * 60_000_000
    ensures
      var gold := Refreshed([x], map[], {DateOf(x)}, y.processedAt);
      IsWrong([x, y], Refreshed([x, y], gold, Touched([x, y], gold, start, end, lookbackMinutes), now), GroupOf(x))
  {
    var gold := Refreshed([x], map[], {DateOf(x)}, y.processedAt);
    EqualTimestampsHideARow(x, y);
    RowsAreInTheirGroup([x, y], x);
    RowsAreInTheirGroup([x], x);
    RefreshedKeys([x], map[], {DateOf(x)}, y.processedAt, GroupOf(x));
    WhatARefreshHeals([x, y], gold, start, end, lookbackMinutes, now, GroupOf(x));
  }
}
