/** The MERGE that every idempotent write of the analytics plane goes through. */
module DeltaTables {
  import opened Collections

  function Keys<R(==), K>(t: seq<R>, key: R -> K): set<K> {
    set r | r in t :: key(r)
  }

  function Unmatched<R, K(==)>(keys: set<K>, key: R -> K): R -> bool {
    r => key(r) !in keys
  }

  /** A MERGE with only whenNotMatchedInsertAll: rows of the source whose key the target
      already holds are ignored, and the source itself is not deduplicated. */
  function InsertOnce<R(==), K(==)>(t: seq<R>, source: seq<R>, key: R -> K): (r: seq<R>)
    ensures t <= r
  {
    t + Filter(Unmatched(Keys(t, key), key), source)
  }

  ghost predicate UniqueBy<R, K>(t: seq<R>, key: R -> K) {
    Distinct(Map(key, t))
  }

  /** The merged table holds exactly the keys of target and source. */
  lemma InsertOnceKeys<R, K>(t: seq<R>, source: seq<R>, key: R -> K)
    ensures Keys(InsertOnce(t, source, key), key) == Keys(t, key) + Keys(source, key)
  {
    var keys := Keys(t, key);
    var added := Filter(Unmatched(keys, key), source);
    FilterMembers(Unmatched(keys, key), source);
    var r := InsertOnce(t, source, key);
    forall k | k in Keys(t, key) + Keys(source, key) ensures k in Keys(r, key) {
      if k in keys {
        var x :| x in t && key(x) == k;
        assert x in r;
      } else {
        var x :| x in source && key(x) == k;
        assert x in added;
        assert x in r;
      }
    }
    forall k | k in Keys(r, key) ensures k in Keys(t, key) + Keys(source, key) {
      var x :| x in r && key(x) == k;
      assert x in t || x in added;
    }
  }

  /** Uniqueness needs both halves: the MERGE guards against the target, only the caller's
      deduplication guards against the source. */
  lemma InsertOnceUnique<R, K>(t: seq<R>, source: seq<R>, key: R -> K)
    requires UniqueBy(t, key) && UniqueBy(source, key)
    ensures UniqueBy(InsertOnce(t, source, key), key)
  {
    var p := Unmatched(Keys(t, key), key);
    var added := Filter(p, source);
    FilterKeepsDistinct(p, source, key);
    FilterMembers(p, source);
    var r := InsertOnce(t, source, key);
    forall i, j | 0 <= i < j < |r| ensures Map(key, r)[i] != Map(key, r)[j] {
      if j < |t| {
        assert Map(key, t)[i] != Map(key, t)[j];
      } else if i >= |t| {
        assert Map(key, added)[i - |t|] != Map(key, added)[j - |t|];
      } else {
        assert added[j - |t|] in added;
        assert p(added[j - |t|]);
        assert r[i] in t;
      }
    }
  }

  /** Merging rows whose keys are all present changes nothing. */
  lemma InsertOnceNoOp<R, K>(t: seq<R>, source: seq<R>, key: R -> K)
    requires Keys(source, key) <= Keys(t, key)
    ensures InsertOnce(t, source, key) == t
  {
    forall x | x in source ensures !Unmatched(Keys(t, key), key)(x) {
      assert key(x) in Keys(source, key);
    }
    FilterNone(Unmatched(Keys(t, key), key), source);
  }

  /** A source that repeats a key which the target lacks is inserted as often as it repeats:
      the MERGE alone does not make a table unique. */
  lemma InsertOnceDoesNotDeduplicateItsSource<R, K>(r: R, key: R -> K)
    ensures InsertOnce([], [r, r], key) == [r, r]
    ensures !UniqueBy(InsertOnce([], [r, r], key), key)
  {
    var p := Unmatched(Keys<R, K>([], key), key);
    assert p(r);
    FilterAll(p, [r, r]);
    assert Map(key, [r, r])[0] == Map(key, [r, r])[1];
  }
}
