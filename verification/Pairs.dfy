/** Key-value pairs in key order. */
module Pairs {
  import opened Texts

  function InsertPair<V>(p: (Text, V), ps: seq<(Text, V)>): seq<(Text, V)> {
    if ps == [] || !Before(ps[0].0, p.0) then [p] + ps else [ps[0]] + InsertPair(p, ps[1..])
  }

  /** Pairs sorted by key, as `[...fields.keys()].sort()` visits them. */
  function SortPairs<V>(ps: seq<(Text, V)>): seq<(Text, V)> {
    if ps == [] then [] else InsertPair(ps[0], SortPairs(ps[1..]))
  }

  function MapPairs<V, W>(f: V -> W, ps: seq<(Text, V)>): (r: seq<(Text, W)>)
    ensures |r| == |ps|
  {
    if ps == [] then [] else [(ps[0].0, f(ps[0].1))] + MapPairs(f, ps[1..])
  }

  predicate KeysAscend<V>(ps: seq<(Text, V)>) {
    forall i, j :: 0 <= i < j < |ps| ==> Before(ps[i].0, ps[j].0)
  }

  predicate DistinctKeys<V>(ps: seq<(Text, V)>) {
    forall i, j :: 0 <= i < j < |ps| ==> ps[i].0 != ps[j].0
  }

  lemma {:induction false} InsertLength<V>(p: (Text, V), ps: seq<(Text, V)>)
    ensures |InsertPair(p, ps)| == |ps| + 1
  {
    if ps != [] && Before(ps[0].0, p.0) {
      InsertLength(p, ps[1..]);
    }
  }

  lemma {:induction false} SortLength<V>(ps: seq<(Text, V)>)
    ensures |SortPairs(ps)| == |ps|
  {
    if ps != [] {
      SortLength(ps[1..]);
      InsertLength(ps[0], SortPairs(ps[1..]));
    }
  }

  lemma {:induction false} InsertMember<V>(p: (Text, V), ps: seq<(Text, V)>, q: (Text, V))
    ensures q in InsertPair(p, ps) <==> q == p || q in ps
  {
    if ps == [] || !Before(ps[0].0, p.0) {
    } else {
      InsertMember(p, ps[1..], q);
      assert ps == [ps[0]] + ps[1..];
    }
  }

  lemma {:induction false} SortMember<V>(ps: seq<(Text, V)>, q: (Text, V))
    ensures q in SortPairs(ps) <==> q in ps
  {
    if ps != [] {
      SortMember(ps[1..], q);
      InsertMember(ps[0], SortPairs(ps[1..]), q);
      assert ps == [ps[0]] + ps[1..];
    }
  }

  lemma {:induction false} InsertAscends<V>(p: (Text, V), ps: seq<(Text, V)>)
    requires KeysAscend(ps)
    requires forall q :: q in ps ==> q.0 != p.0
    ensures KeysAscend(InsertPair(p, ps))
  {
    if ps == [] {
    } else if !Before(ps[0].0, p.0) {
      assert ps[0] in ps;
      BeforeTotal(ps[0].0, p.0);
      forall j | 0 < j < |ps| ensures Before(p.0, ps[j].0) {
        BeforeTransitive(p.0, ps[0].0, ps[j].0);
      }
    } else {
      var rest := InsertPair(p, ps[1..]);
      InsertAscends(p, ps[1..]);
      forall j | 0 <= j < |rest| ensures Before(ps[0].0, rest[j].0) {
        var q := rest[j];
        InsertMember(p, ps[1..], q);
        if q != p {
          var i :| 0 <= i < |ps[1..]| && ps[1..][i] == q;
          assert ps[i + 1] == q;
        }
      }
    }
  }

  lemma {:induction false} SortAscends<V>(ps: seq<(Text, V)>)
    requires DistinctKeys(ps)
    ensures KeysAscend(SortPairs(ps))
  {
    if ps != [] {
      SortAscends(ps[1..]);
      var tail := ps[1..];
      forall q | q in SortPairs(tail) ensures q.0 != ps[0].0 {
        SortMember(tail, q);
        var i :| 0 <= i < |ps[1..]| && ps[1..][i] == q;
        assert ps[i + 1] == q;
      }
      InsertAscends(ps[0], SortPairs(ps[1..]));
    }
  }

  /** Sorting leaves an ascending list alone. */
  lemma {:induction false} SortOfAscending<V>(ps: seq<(Text, V)>)
    requires KeysAscend(ps)
    ensures SortPairs(ps) == ps
  {
    if ps != [] {
      SortOfAscending(ps[1..]);
      if |ps| > 1 {
        if Before(ps[1].0, ps[0].0) {
          BeforeTransitive(ps[0].0, ps[1].0, ps[0].0);
          BeforeIrreflexive(ps[0].0);
        }
      }
    }
  }

  /** Two ascending lists with the same members are the same list. */
  lemma {:induction false} AscendingUnique<V>(a: seq<(Text, V)>, b: seq<(Text, V)>)
    requires KeysAscend(a) && KeysAscend(b)
    requires forall q :: q in a <==> q in b
    ensures a == b
  {
    assert a != [] ==> a[0] in a;
    assert b != [] ==> b[0] in b;
    if a != [] && b != [] {
      HeadsAgree(a, b);
      forall q ensures q in a[1..] <==> q in b[1..] {
        TailMembers(a, q);
        TailMembers(b, q);
      }
      AscendingUnique(a[1..], b[1..]);
      assert a == [a[0]] + a[1..] && b == [b[0]] + b[1..];
    }
  }

  lemma HeadsAgree<V>(a: seq<(Text, V)>, b: seq<(Text, V)>)
    requires KeysAscend(a) && KeysAscend(b) && a != [] && b != []
    requires forall q :: q in a <==> q in b
    ensures a[0] == b[0]
  {
    assert a[0] in b && b[0] in a;
    var i :| 0 <= i < |b| && b[i] == a[0];
    var j :| 0 <= j < |a| && a[j] == b[0];
    if i != 0 && j != 0 {
      BeforeTransitive(a[0].0, b[0].0, a[0].0);
      BeforeIrreflexive(a[0].0);
    }
  }

  lemma TailMembers<V>(a: seq<(Text, V)>, q: (Text, V))
    requires KeysAscend(a) && a != []
    ensures q in a[1..] <==> q in a && q != a[0]
  {
    if a[0] in a[1..] {
      var i :| 0 <= i < |a[1..]| && a[1..][i] == a[0];
      assert Before(a[0].0, a[i + 1].0);
      BeforeIrreflexive(a[0].0);
    }
    if q in a && q != a[0] {
      var i :| 0 <= i < |a| && a[i] == q;
      assert a[1..][i - 1] == q;
    }
  }

  lemma {:induction false} MapMembers<V, W>(f: V -> W, ps: seq<(Text, V)>, q: (Text, W))
    ensures q in MapPairs(f, ps) <==> exists p :: p in ps && p.0 == q.0 && f(p.1) == q.1
    ensures forall i :: 0 <= i < |ps| ==> MapPairs(f, ps)[i] == (ps[i].0, f(ps[i].1))
  {
    if ps != [] {
      MapMembers(f, ps[1..], q);
      assert ps == [ps[0]] + ps[1..];
    }
  }

  /** Mapping the values and then sorting by key sees only which members there are. */
  lemma SortMapIgnoresOrder<V, W>(f: V -> W, ps: seq<(Text, V)>, qs: seq<(Text, V)>)
    requires DistinctKeys(ps) && multiset(ps) == multiset(qs)
    ensures SortPairs(MapPairs(f, ps)) == SortPairs(MapPairs(f, qs))
  {
    var a, b := MapPairs(f, ps), MapPairs(f, qs);
    DistinctKeysOfBag(ps, qs);
    forall p ensures p in ps <==> p in qs {
      assert p in multiset(ps) <==> p in multiset(qs);
    }
    forall q ensures q in SortPairs(a) <==> q in SortPairs(b) {
      SortMember(a, q);
      SortMember(b, q);
      MapMembers(f, ps, q);
      MapMembers(f, qs, q);
    }
    MapKeepsDistinct(f, ps);
    MapKeepsDistinct(f, qs);
    SortAscends(a);
    SortAscends(b);
    AscendingUnique(SortPairs(a), SortPairs(b));
  }

  lemma MapKeepsDistinct<V, W>(f: V -> W, ps: seq<(Text, V)>)
    requires DistinctKeys(ps)
    ensures DistinctKeys(MapPairs(f, ps))
  {
    var a := MapPairs(f, ps);
    forall i, j | 0 <= i < j < |a| ensures a[i].0 != a[j].0 {
      MapMembers(f, ps, a[i]);
    }
  }

  lemma DistinctKeysOfBag<V>(a: seq<(Text, V)>, b: seq<(Text, V)>)
    requires DistinctKeys(a) && multiset(a) == multiset(b)
    ensures DistinctKeys(b)
  {
    forall i, j | 0 <= i < j < |b| ensures b[i].0 != b[j].0 {
      assert b[i] in multiset(b) && b[j] in multiset(b);
      var k :| 0 <= k < |a| && a[k] == b[i];
      var m :| 0 <= m < |a| && a[m] == b[j];
      if k == m {
        TwiceInBag(b, i, j);
        OnceInBag(a, k);
        assert false;
      }
    }
  }

  lemma TwiceInBag<T>(s: seq<T>, i: nat, j: nat)
    requires i < j < |s| && s[i] == s[j]
    ensures multiset(s)[s[i]] >= 2
  {
    assert s == s[..i] + [s[i]] + s[i + 1..j] + [s[j]] + s[j + 1..];
  }

  lemma OnceInBag<V>(s: seq<(Text, V)>, k: nat)
    requires DistinctKeys(s) && k < |s|
    ensures multiset(s)[s[k]] == 1
  {
    assert s == s[..k] + [s[k]] + s[k + 1..];
    assert s[k] !in s[..k] && s[k] !in s[k + 1..];
  }
}
