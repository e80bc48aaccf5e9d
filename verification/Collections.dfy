/** Sequence vocabulary shared by the models: mapping, filtering and counting over table rows. */
module Collections {

  datatype Option<+T> = None | Some(value: T)

  function Map<A, B>(f: A -> B, s: seq<A>): (r: seq<B>)
    ensures |r| == |s|
    ensures forall i :: 0 <= i < |s| ==> r[i] == f(s[i])
  {
    seq(|s|, i requires 0 <= i < |s| => f(s[i]))
  }

  function Filter<T>(p: T -> bool, s: seq<T>): (r: seq<T>)
    ensures |r| <= |s|
  {
    if s == [] then [] else
      var rest := Filter(p, s[..|s| - 1]);
      if p(s[|s| - 1]) then rest + [s[|s| - 1]] else rest
  }

  predicate Distinct<T(==)>(s: seq<T>) {
    forall i, j :: 0 <= i < j < |s| ==> s[i] != s[j]
  }

  function Elements<T>(s: seq<T>): set<T> {
    set x | x in s
  }

  function Negation<T>(p: T -> bool): T -> bool {
    x => !p(x)
  }

  function Lookup<K, V>(m: map<K, V>, k: K): Option<V> {
    if k in m then Some(m[k]) else None
  }

  /** Without the elements that satisfy p at both ends. */
  function Strip<T>(p: T -> bool, s: seq<T>): seq<T> {
    if s == [] then s
    else if p(s[0]) then Strip(p, s[1..])
    else if p(s[|s| - 1]) then Strip(p, s[..|s| - 1])
    else s
  }

  predicate All<T>(p: T -> bool, s: seq<T>) {
    forall i :: 0 <= i < |s| ==> p(s[i])
  }

  lemma {:induction false} StrippedAwayIffAll<T>(p: T -> bool, s: seq<T>)
    ensures Strip(p, s) == [] <==> All(p, s)
    decreases |s|
  {
    if s == [] {
    } else if p(s[0]) {
      StrippedAwayIffAll(p, s[1..]);
      if All(p, s[1..]) {
        assert forall i :: 0 < i < |s| ==> s[i] == s[1..][i - 1];
      }
    } else if p(s[|s| - 1]) {
      StrippedAwayIffAll(p, s[..|s| - 1]);
      assert s[..|s| - 1][0] == s[0];
    }
  }

  /** Exactly one way to cut: what is between two such ends, and neither starts nor ends with such an element,
      is what is left. */
  lemma {:induction false} StripsToTheMiddle<T>(p: T -> bool, a: seq<T>, t: seq<T>, b: seq<T>)
    requires All(p, a) && All(p, b)
    requires t != [] ==> !p(t[0]) && !p(t[|t| - 1])
    ensures Strip(p, a + t + b) == t
    decreases |a| + |b|
  {
    var s := a + t + b;
    if t == [] {
      assert All(p, s);
      StrippedAwayIffAll(p, s);
    } else if a != [] {
      assert s[0] == a[0] && s[1..] == a[1..] + t + b;
      StripsToTheMiddle(p, a[1..], t, b);
    } else if b != [] {
      assert s[0] == t[0] && s[|s| - 1] == b[|b| - 1] && s[..|s| - 1] == a + t + b[..|b| - 1];
      StripsToTheMiddle(p, a, t, b[..|b| - 1]);
    } else {
      assert s == t;
    }
  }

  /** And nothing else is cut off. */
  lemma {:induction false} StrippedParts<T>(p: T -> bool, s: seq<T>) returns (a: seq<T>, b: seq<T>)
    ensures s == a + Strip(p, s) + b && All(p, a) && All(p, b)
    decreases |s|
  {
    a, b := [], [];
    if s != [] {
      if p(s[0]) {
        a, b := StrippedParts(p, s[1..]);
        assert s == [s[0]] + s[1..];
        a := [s[0]] + a;
      } else if p(s[|s| - 1]) {
        a, b := StrippedParts(p, s[..|s| - 1]);
        assert s == s[..|s| - 1] + [s[|s| - 1]];
        b := b + [s[|s| - 1]];
      }
    }
  }

  /** What is left neither starts nor ends with such an element. */
  lemma {:induction false} StrippedEnds<T>(p: T -> bool, s: seq<T>)
    ensures Strip(p, s) != [] ==> !p(Strip(p, s)[0]) && !p(Strip(p, s)[|Strip(p, s)| - 1])
    decreases |s|
  {
    if s != [] {
      if p(s[0]) {
        StrippedEnds(p, s[1..]);
      } else if p(s[|s| - 1]) {
        StrippedEnds(p, s[..|s| - 1]);
      }
    }
  }

  lemma {:induction false} FilterSnoc<T>(p: T -> bool, s: seq<T>, x: T)
    ensures Filter(p, s + [x]) == Filter(p, s) + (if p(x) then [x] else [])
  {
    assert (s + [x])[..|s|] == s;
  }

  lemma {:induction false} FilterConcat<T>(p: T -> bool, s: seq<T>, t: seq<T>)
    ensures Filter(p, s + t) == Filter(p, s) + Filter(p, t)
    decreases |t|
  {
    if t == [] {
      assert s + t == s;
    } else {
      var u, x := t[..|t| - 1], t[|t| - 1];
      assert s + t == (s + u) + [x] && t == u + [x];
      FilterSnoc(p, s + u, x);
      FilterSnoc(p, u, x);
      FilterConcat(p, s, u);
    }
  }

  lemma {:induction false} FilterMembers<T>(p: T -> bool, s: seq<T>)
    ensures forall x {:trigger x in Filter(p, s)} :: x in Filter(p, s) ==> x in s && p(x)
    ensures forall x :: x in s && p(x) ==> x in Filter(p, s)
    decreases |s|
  {
    if s != [] {
      var u, x := s[..|s| - 1], s[|s| - 1];
      FilterMembers(p, u);
      assert s == u + [x];
    }
  }

  lemma {:induction false} FilterAgree<T>(p: T -> bool, q: T -> bool, s: seq<T>)
    requires forall x :: x in s ==> p(x) == q(x)
    ensures Filter(p, s) == Filter(q, s)
    decreases |s|
  {
    if s != [] {
      FilterAgree(p, q, s[..|s| - 1]);
    }
  }

  lemma {:induction false} FilterAll<T>(p: T -> bool, s: seq<T>)
    requires forall x :: x in s ==> p(x)
    ensures Filter(p, s) == s
    decreases |s|
  {
    if s != [] {
      FilterAll(p, s[..|s| - 1]);
    }
  }

  lemma {:induction false} FilterNone<T>(p: T -> bool, s: seq<T>)
    requires forall x :: x in s ==> !p(x)
    ensures Filter(p, s) == []
    decreases |s|
  {
    if s != [] {
      FilterNone(p, s[..|s| - 1]);
    }
  }

  /** A filter and its complement split the rows: nothing is lost, nothing is counted twice. */
  lemma {:induction false} FilterSplit<T>(p: T -> bool, s: seq<T>)
    ensures |Filter(p, s)| + |Filter(Negation(p), s)| == |s|
    decreases |s|
  {
    if s != [] {
      var u, x := s[..|s| - 1], s[|s| - 1];
      FilterSplit(p, u);
    }
  }

  /** Filtering twice keeps what passes both tests. */
  lemma {:induction false} FilterImplied<T>(p: T -> bool, q: T -> bool, s: seq<T>)
    requires forall x :: x in s && p(x) ==> q(x)
    ensures Filter(p, Filter(q, s)) == Filter(p, s)
    decreases |s|
  {
    if s != [] {
      var u, x := s[..|s| - 1], s[|s| - 1];
      FilterImplied(p, q, u);
      if q(x) {
        FilterSnoc(p, Filter(q, u), x);
      }
    }
  }

  /** Distinct images force distinct rows, and filtering keeps them distinct. */
  lemma {:induction false} FilterKeepsDistinct<T, K>(p: T -> bool, s: seq<T>, key: T -> K)
    requires Distinct(Map(key, s))
    ensures Distinct(Map(key, Filter(p, s)))
    decreases |s|
  {
    if s != [] {
      var u, x := s[..|s| - 1], s[|s| - 1];
      assert Map(key, u) == Map(key, s)[..|u|];
      FilterKeepsDistinct(p, u, key);
      FilterMembers(p, u);
      var f := Filter(p, u);
      if p(x) {
        forall i | 0 <= i < |f| ensures key(f[i]) != key(x) {
          assert f[i] in f;
          var j :| 0 <= j < |u| && u[j] == f[i];
          assert Map(key, s)[j] != Map(key, s)[|u|];
        }
        assert Map(key, f + [x]) == Map(key, f) + [key(x)];
      }
    }
  }

  lemma {:induction false} DistinctCardinality<T>(s: seq<T>)
    requires Distinct(s)
    ensures |Elements(s)| == |s|
    decreases |s|
  {
    if s != [] {
      var u, x := s[..|s| - 1], s[|s| - 1];
      DistinctCardinality(u);
      assert Elements(s) == Elements(u) + {x};
      assert x !in Elements(u);
    }
  }

  lemma MapConcat<A, B>(f: A -> B, s: seq<A>, t: seq<A>)
    ensures Map(f, s + t) == Map(f, s) + Map(f, t)
  {
  }

  /** Filtering images by p is mapping the rows filtered by q, if p says of an image what q says of the row. */
  lemma {:induction false} FilterThroughMap<A, B>(p: B -> bool, q: A -> bool, f: A -> B, s: seq<A>)
    requires forall x :: x in s ==> p(f(x)) == q(x)
    ensures Filter(p, Map(f, s)) == Map(f, Filter(q, s))
    decreases |s|
  {
    if s != [] {
      var u, x := s[..|s| - 1], s[|s| - 1];
      assert s == u + [x] && x in s;
      FilterThroughMap(p, q, f, u);
      MapConcat(f, u, [x]);
      assert Map(f, [x]) == [f(x)];
      FilterSnoc(p, Map(f, u), f(x));
      FilterSnoc(q, u, x);
      MapConcat(f, Filter(q, u), [x]);
    }
  }

  lemma RemoveOccurrence<T>(t: seq<T>, i: nat)
    requires i < |t|
    ensures multiset(t) == multiset(t[..i] + t[i + 1..]) + multiset{t[i]}
  {
    assert t == t[..i] + [t[i]] + t[i + 1..];
  }

  lemma MapWithout<A, B>(f: A -> B, t: seq<A>, i: nat)
    requires i < |t|
    ensures multiset(Map(f, t)) == multiset(Map(f, t[..i] + t[i + 1..])) + multiset{f(t[i])}
  {
    var ft := Map(f, t);
    RemoveOccurrence(ft, i);
    assert ft[..i] + ft[i + 1..] == Map(f, t[..i] + t[i + 1..]);
  }

  lemma CancelOne<T>(a: multiset<T>, b: multiset<T>, x: T)
    requires a + multiset{x} == b + multiset{x}
    ensures a == b
  {
    assert a == (a + multiset{x}) - multiset{x};
    assert b == (b + multiset{x}) - multiset{x};
  }

  /** Removing the same element from two rearrangements leaves rearrangements. */
  lemma RemoveFromBoth<T>(s: seq<T>, t: seq<T>, i: nat)
    requires multiset(s) == multiset(t) && s != [] && i < |t| && t[i] == s[0]
    ensures multiset(s[..0] + s[1..]) == multiset(t[..i] + t[i + 1..])
  {
    RemoveOccurrence(t, i);
    RemoveOccurrence(s, 0);
    CancelOne(multiset(s[..0] + s[1..]), multiset(t[..i] + t[i + 1..]), s[0]);
  }

  lemma FindOccurrence<T>(s: seq<T>, t: seq<T>) returns (i: nat)
    requires multiset(s) == multiset(t) && s != []
    ensures i < |t| && t[i] == s[0]
  {
    assert s[0] in multiset(t);
    i :| 0 <= i < |t| && t[i] == s[0];
  }

  /** Applying a function to two rearrangements of the same rows gives rearrangements. */
  lemma {:induction false} MapKeepsMultiset<A, B>(f: A -> B, s: seq<A>, t: seq<A>)
    requires multiset(s) == multiset(t)
    ensures multiset(Map(f, s)) == multiset(Map(f, t))
    decreases |s|
  {
    if s == [] {
      assert |multiset(t)| == 0;
    } else {
      var i := FindOccurrence(s, t);
      RemoveFromBoth(s, t, i);
      MapKeepsMultiset(f, s[..0] + s[1..], t[..i] + t[i + 1..]);
      MapWithout(f, t, i);
      MapWithout(f, s, 0);
    }
  }
}
