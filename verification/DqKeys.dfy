/** When the key of the DQ results, (run, source, check), identifies a result. */
module DqKeys {
  import opened Collections
  import opened DeltaTables
  import opened Rows
  import opened Checks
  import opened SilverBatch
  import opened BatchConservation
  import opened Replay

  lemma UniqueConcat<R, K>(s: seq<R>, t: seq<R>, key: R -> K)
    ensures UniqueBy(s + t, key) <==> UniqueBy(s, key) && UniqueBy(t, key) && Keys(s, key) !! Keys(t, key)
  {
    MapConcat(key, s, t);
    var u, v := Map(key, s), Map(key, t);
    if Distinct(u + v) {
      forall i, j | 0 <= i < j < |u| ensures u[i] != u[j] {
        assert (u + v)[i] != (u + v)[j];
      }
      forall i, j | 0 <= i < j < |v| ensures v[i] != v[j] {
        assert (u + v)[|u| + i] != (u + v)[|u| + j];
      }
      forall k | k in Keys(s, key) ensures k !in Keys(t, key) {
        var x :| x in s && key(x) == k;
        var i :| 0 <= i < |s| && s[i] == x;
        forall j | 0 <= j < |t| ensures key(t[j]) != k {
          assert (u + v)[i] != (u + v)[|u| + j];
        }
      }
    }
    if Distinct(u) && Distinct(v) && Keys(s, key) !! Keys(t, key) {
      forall i, j | 0 <= i < j < |u + v| ensures (u + v)[i] != (u + v)[j] {
        if i < |u| <= j {
          assert s[i] in s && t[j - |u|] in t;
          assert key(s[i]) in Keys(s, key) && key(t[j - |u|]) in Keys(t, key);
        } else if j < |u| {
          assert u[i] != u[j];
        } else {
          assert v[i - |u|] != v[j - |u|];
        }
      }
    }
  }

  lemma {:induction false} OneSourceIsUnique(m: Monitoring, b: Batch, a: Attempt, source: string, checks: seq<Check>)
    requires Distinct(checks)
    ensures UniqueBy(SourceResults(m, b, a, source, checks), DqKeyOf)
    decreases |checks|
  {
    if checks != [] {
      var before, c := checks[..|checks| - 1], checks[|checks| - 1];
      assert checks == before + [c];
      OneSourceIsUnique(m, b, a, source, before);
      SourceResultKeys(m, b, a, source, before);
      KeysOfOne(CheckResult(m, b, a, source, c), DqKeyOf);
      UniqueConcat(SourceResults(m, b, a, source, before), [CheckResult(m, b, a, source, c)], DqKeyOf);
    }
  }

  /** No two of these groups are reported under one name. */
  ghost predicate ReportedApart(sources: seq<string>) {
    Distinct(Map(ReportedSource, sources))
  }

  lemma ReportedApartSnoc(before: seq<string>, s: string)
    ensures ReportedApart(before + [s]) <==>
              ReportedApart(before) && forall x :: x in before ==> ReportedSource(x) != ReportedSource(s)
  {
    UniqueConcat(before, [s], ReportedSource);
    KeysOfOne(s, ReportedSource);
  }

  lemma OneMoreGroup(m: Monitoring, b: Batch, a: Attempt, before: seq<string>, s: string)
    ensures UniqueBy(RowCheckResults(m, b, a, before) + SourceResults(m, b, a, s, ROW_CHECKS), DqKeyOf)
       <==> UniqueBy(RowCheckResults(m, b, a, before), DqKeyOf)
            && forall x :: x in before ==> ReportedSource(x) != ReportedSource(s)
  {
    OneSourceIsUnique(m, b, a, s, ROW_CHECKS);
    UniqueConcat(RowCheckResults(m, b, a, before), SourceResults(m, b, a, s, ROW_CHECKS), DqKeyOf);
    RowCheckKeys(m, b, a, before);
    SourceResultKeys(m, b, a, s, ROW_CHECKS);
    GroupsMeet(b.runId, before, s);
  }

  lemma {:induction false} RowChecksAreUnique(m: Monitoring, b: Batch, a: Attempt, sources: seq<string>)
    ensures UniqueBy(RowCheckResults(m, b, a, sources), DqKeyOf) <==> ReportedApart(sources)
    decreases |sources|
  {
    if sources != [] {
      var before, s := sources[..|sources| - 1], sources[|sources| - 1];
      assert sources == before + [s];
      RowChecksAreUnique(m, b, a, before);
      OneMoreGroup(m, b, a, before, s);
      ReportedApartSnoc(before, s);
    }
  }

  lemma GroupsMeet(runId: string, before: seq<string>, s: string)
    ensures GroupKeys(runId, Elements(before), ROW_CHECKS)
            !! (set c | c in ROW_CHECKS :: DqKey(runId, ReportedSource(s), c))
       <==> forall x :: x in before ==> ReportedSource(x) != ReportedSource(s)
  {
    var mine := set c | c in ROW_CHECKS :: DqKey(runId, ReportedSource(s), c);
    var theirs := GroupKeys(runId, Elements(before), ROW_CHECKS);
    assert EventIdRequired in ROW_CHECKS;
    forall x | x in before && ReportedSource(x) == ReportedSource(s) ensures !(theirs !! mine) {
      var k := DqKey(runId, ReportedSource(s), EventIdRequired);
      assert k in mine && k in theirs;
    }
  }

  lemma ApartUnlessEmptyAndUnknown(sources: seq<string>)
    requires Distinct(sources)
    ensures ReportedApart(sources) <==> !("" in sources && UNKNOWN in sources)
  {
    var r := Map(ReportedSource, sources);
    if "" in sources && UNKNOWN in sources {
      var i :| 0 <= i < |sources| && sources[i] == "";
      var j :| 0 <= j < |sources| && sources[j] == UNKNOWN;
      assert r[i] == r[j] && i != j;
      if i < j {
        assert r[i] == r[j];
      } else {
        assert r[j] == r[i];
      }
    } else {
      forall i, j | 0 <= i < j < |sources| ensures r[i] != r[j] {
        assert sources[i] in sources && sources[j] in sources && sources[i] != sources[j];
      }
    }
  }

  lemma NewGroupKey(runId: string, before: seq<string>, s: string, c: Check)
    requires forall x :: x in before ==> ReportedSource(x) != ReportedSource(s)
    ensures GroupKeys(runId, Elements(before), [c]) !! {DqKey(runId, ReportedSource(s), c)}
  {
  }

  lemma {:induction false} InBatchIsUnique(m: Monitoring, b: Batch, a: Attempt, sources: seq<string>)
    requires ReportedApart(sources)
    ensures UniqueBy(InBatchResults(m, b, a, sources), DqKeyOf)
    decreases |sources|
  {
    if sources != [] {
      var before, s := sources[..|sources| - 1], sources[|sources| - 1];
      assert sources == before + [s];
      ReportedApartSnoc(before, s);
      InBatchIsUnique(m, b, a, before);
      InBatchKeys(m, b, a, before);
      KeysOfOne(InBatchResult(m, b, a, s), DqKeyOf);
      NewGroupKey(b.runId, before, s, DuplicateEventIdInBatch);
      UniqueConcat(InBatchResults(m, b, a, before), [InBatchResult(m, b, a, s)], DqKeyOf);
    }
  }

  lemma {:induction false} InSilverIsUnique(m: Monitoring, b: Batch, a: Attempt, ids: set<string>, sources: seq<string>)
    requires ReportedApart(sources)
    ensures UniqueBy(InSilverResults(m, b, a, ids, sources), DqKeyOf)
    decreases |sources|
  {
    if sources != [] {
      var before, s := sources[..|sources| - 1], sources[|sources| - 1];
      assert sources == before + [s];
      ReportedApartSnoc(before, s);
      InSilverIsUnique(m, b, a, ids, before);
      InSilverKeys(m, b, a, ids, before);
      KeysOfOne(InSilverResult(m, b, a, ids, s), DqKeyOf);
      NewGroupKey(b.runId, before, s, DuplicateEventIdAlreadyInSilver);
      UniqueConcat(InSilverResults(m, b, a, ids, before), [InSilverResult(m, b, a, ids, s)], DqKeyOf);
    }
  }

  lemma ValidSourcesAreNamed(b: Batch, a: Attempt, s: string)
    requires Feasible(b, a) && s in a.validSources
    ensures s in {UI, CUSTOMER_SUCCESS, LEGAL}
  {
    assert s in Sources(ValidRows(b, a.now));
    var r :| r in ValidRows(b, a.now) && SourceOf(r) == s;
    FilterMembers(IsValid(a.now), Diagnosed(b));
    ValidIffWellFormed(r, a.now);
  }

  lemma GroupKeysAreApart(runId: string, s: set<string>, checks: seq<Check>, t: set<string>, c: Check)
    requires c !in checks
    ensures GroupKeys(runId, s, checks) !! GroupKeys(runId, t, [c])
  {
  }

  lemma InBatchIsApart(m: Monitoring, b: Batch, a: Attempt)
    requires ReportedApart(a.validSources)
    ensures
      var x, y := RowCheckResults(m, b, a, a.sources), InBatchResults(m, b, a, a.validSources);
      UniqueBy(x + y, DqKeyOf) <==> UniqueBy(x, DqKeyOf)
  {
    InBatchIsUnique(m, b, a, a.validSources);
    RowCheckKeys(m, b, a, a.sources);
    InBatchKeys(m, b, a, a.validSources);
    GroupKeysAreApart(b.runId, Elements(a.sources), ROW_CHECKS, Elements(a.validSources), DuplicateEventIdInBatch);
    UniqueConcat(RowCheckResults(m, b, a, a.sources), InBatchResults(m, b, a, a.validSources), DqKeyOf);
  }

  predicate NoneIs(results: seq<DqResult>, c: Check) {
    forall r :: r in results ==> r.check != c
  }

  lemma InSilverIsApart(m: Monitoring, b: Batch, a: Attempt, ids: set<string>, x: seq<DqResult>)
    requires ReportedApart(a.validSources)
    requires NoneIs(x, DuplicateEventIdAlreadyInSilver)
    ensures UniqueBy(x + InSilverResults(m, b, a, ids, a.validSources), DqKeyOf) <==> UniqueBy(x, DqKeyOf)
  {
    InSilverIsUnique(m, b, a, ids, a.validSources);
    InSilverKeys(m, b, a, ids, a.validSources);
    UniqueConcat(x, InSilverResults(m, b, a, ids, a.validSources), DqKeyOf);
  }

  lemma {:induction false} SourceResultsAreNot(m: Monitoring, b: Batch, a: Attempt, source: string,
                                               checks: seq<Check>, c: Check)
    requires c !in checks
    ensures NoneIs(SourceResults(m, b, a, source, checks), c)
    decreases |checks|
  {
    if checks != [] {
      SourceResultsAreNot(m, b, a, source, checks[..|checks| - 1], c);
    }
  }

  lemma {:induction false} RowChecksAreNot(m: Monitoring, b: Batch, a: Attempt, sources: seq<string>, c: Check)
    requires c !in ROW_CHECKS
    ensures NoneIs(RowCheckResults(m, b, a, sources), c)
    decreases |sources|
  {
    if sources != [] {
      RowChecksAreNot(m, b, a, sources[..|sources| - 1], c);
      SourceResultsAreNot(m, b, a, sources[|sources| - 1], ROW_CHECKS, c);
    }
  }

  lemma {:induction false} InBatchChecksAreNot(m: Monitoring, b: Batch, a: Attempt, sources: seq<string>)
    ensures NoneIs(InBatchResults(m, b, a, sources), DuplicateEventIdAlreadyInSilver)
    decreases |sources|
  {
    if sources != [] {
      InBatchChecksAreNot(m, b, a, sources[..|sources| - 1]);
    }
  }

  lemma NoneOfBoth(x: seq<DqResult>, y: seq<DqResult>, c: Check)
    requires NoneIs(x, c) && NoneIs(y, c)
    ensures NoneIs(x + y, c)
  {
  }

  /** The three parts of the results have different checks, so only the first can hold a key twice. */
  lemma FrameIsAsUniqueAsItsRowChecks(m: Monitoring, b: Batch, a: Attempt, ids: set<string>)
    requires ReportedApart(a.validSources)
    ensures UniqueBy(DqFrame(m, b, a, ids), DqKeyOf) <==> UniqueBy(RowCheckResults(m, b, a, a.sources), DqKeyOf)
  {
    var x, y := RowCheckResults(m, b, a, a.sources), InBatchResults(m, b, a, a.validSources);
    RowChecksAreNot(m, b, a, a.sources, DuplicateEventIdAlreadyInSilver);
    InBatchChecksAreNot(m, b, a, a.validSources);
    NoneOfBoth(x, y, DuplicateEventIdAlreadyInSilver);
    InSilverIsApart(m, b, a, ids, x + y);
    InBatchIsApart(m, b, a);
  }

  /** One attempt records at most one result per (run, source, check) exactly when its batch does not
      hold both rows with an empty source and rows with a null or unknown one: those are two groups,
      reported under the same name, and the MERGE does not deduplicate its source. */
  lemma DqKeysIdentifyResults(m: Monitoring, b: Batch, a: Attempt, ids: set<string>)
    requires Feasible(b, a)
    ensures UniqueBy(DqFrame(m, b, a, ids), DqKeyOf) <==>
            !("" in Sources(Diagnosed(b)) && UNKNOWN in Sources(Diagnosed(b)))
  {
    assert forall s :: s in a.sources <==> s in Elements(a.sources);
    forall s | s in a.validSources ensures s != "" && s != UNKNOWN {
      ValidSourcesAreNamed(b, a, s);
    }
    ApartUnlessEmptyAndUnknown(a.sources);
    ApartUnlessEmptyAndUnknown(a.validSources);
    RowChecksAreUnique(m, b, a, a.sources);
    FrameIsAsUniqueAsItsRowChecks(m, b, a, ids);
  }

  function RowFrom(source: Option<string>): Row {
    Row(NULL_EVENT.(source := source), None, "", 0, 0, 0, None, Payload(None))
  }

  /** Such batches exist, and with them results that share a key. */
  lemma DqKeysCanCollide(m: Monitoring, ids: set<string>) returns (b: Batch, a: Attempt)
    ensures Feasible(b, a) && !UniqueBy(DqFrame(m, b, a, ids), DqKeyOf)
  {
    var x, y := RowFrom(Some("")), RowFrom(None);
    b := Batch("", [x, y], {});
    a := Attempt(0, 0, ["", UNKNOWN], [], [], [], 0, 0);
    assert Diagnosed(b) == [x, y];
    ValidIffWellFormed(x, 0);
    ValidIffWellFormed(y, 0);
    FilterNone(IsValid(0), [x, y]);
    assert x in [x, y] && y in [x, y] && SourceOf(x) == "" && SourceOf(y) == UNKNOWN;
    assert "" in Sources([x, y]) && UNKNOWN in Sources([x, y]);
    assert Sources([x, y]) == {"", UNKNOWN} == Elements(["", UNKNOWN]);
    DqKeysIdentifyResults(m, b, a, ids);
  }
}
