/** JavaScript strings: sequences of UTF-16 code units, the code-unit order that
    Array.prototype.sort uses by default, and sorting by it. */
module Texts {

  type CodeUnit = u: int | 0 <= u < 0x10000

  type Text = seq<CodeUnit>

  /** Strictly smaller in UTF-16 code-unit order. */
  predicate Before(a: Text, b: Text)
    decreases |a|
  {
    |b| > 0 && (|a| == 0 || a[0] < b[0] || (a[0] == b[0] && Before(a[1..], b[1..])))
  }

  lemma {:induction false} BeforeIrreflexive(a: Text)
    ensures !Before(a, a)
    decreases |a|
  {
    if a != [] {
      BeforeIrreflexive(a[1..]);
    }
  }

  lemma {:induction false} BeforeTransitive(a: Text, b: Text, c: Text)
    requires Before(a, b) && Before(b, c)
    ensures Before(a, c)
    decreases |a|
  {
    if a != [] && a[0] == b[0] && b[0] == c[0] {
      BeforeTransitive(a[1..], b[1..], c[1..]);
    }
  }

  lemma {:induction false} BeforeTotal(a: Text, b: Text)
    ensures Before(a, b) || a == b || Before(b, a)
    decreases |a|
  {
    if a == [] || b == [] {
    } else if a[0] == b[0] {
      BeforeTotal(a[1..], b[1..]);
      assert a == [a[0]] + a[1..] && b == [b[0]] + b[1..];
    }
  }

  predicate NoDuplicates(ids: seq<Text>) {
    forall i, j :: 0 <= i < j < |ids| ==> ids[i] != ids[j]
  }

  predicate Ordered(ts: seq<Text>) {
    forall i, j :: 0 <= i < j < |ts| ==> !Before(ts[j], ts[i])
  }

  function Insert(t: Text, ts: seq<Text>): (r: seq<Text>)
    ensures multiset(r) == multiset{t} + multiset(ts)
  {
    if ts == [] || !Before(ts[0], t) then [t] + ts
    else
      assert ts == [ts[0]] + ts[1..];
      [ts[0]] + Insert(t, ts[1..])
  }

  /** `[...ts].sort()`. */
  function Sort(ts: seq<Text>): (r: seq<Text>)
    ensures multiset(r) == multiset(ts)
  {
    if ts == [] then []
    else
      assert ts == [ts[0]] + ts[1..];
      Insert(ts[0], Sort(ts[1..]))
  }

  lemma {:induction false} InsertOrdered(t: Text, ts: seq<Text>)
    requires Ordered(ts)
    ensures Ordered(Insert(t, ts))
  {
    if ts == [] {
    } else if !Before(ts[0], t) {
      forall j | 0 <= j < |ts| ensures !Before(ts[j], t) {
        if Before(ts[j], t) {
          BeforeTotal(ts[0], t);
          BeforeTotal(ts[j], ts[0]);
          if Before(t, ts[0]) {
            BeforeTransitive(ts[j], t, ts[0]);
          }
        }
      }
    } else {
      var rest := Insert(t, ts[1..]);
      InsertOrdered(t, ts[1..]);
      forall j | 0 <= j < |rest| ensures !Before(rest[j], ts[0]) {
        assert rest[j] in multiset(rest);
        if rest[j] == t {
          if Before(t, ts[0]) {
            BeforeTransitive(t, ts[0], t);
            BeforeIrreflexive(t);
          }
        } else {
          assert rest[j] in ts[1..];
        }
      }
    }
  }

  lemma {:induction false} SortOrdered(ts: seq<Text>)
    ensures Ordered(Sort(ts))
  {
    if ts != [] {
      SortOrdered(ts[1..]);
      InsertOrdered(ts[0], Sort(ts[1..]));
    }
  }

  lemma HeadIsLeast(a: seq<Text>, t: Text)
    requires Ordered(a) && t in a
    ensures !Before(t, a[0])
  {
    var j :| 0 <= j < |a| && a[j] == t;
    if j == 0 {
      BeforeIrreflexive(t);
    }
  }

  lemma TailOfOrdered(a: seq<Text>)
    requires Ordered(a) && a != []
    ensures Ordered(a[1..])
    ensures multiset(a[1..]) == multiset(a) - multiset{a[0]}
    ensures forall t :: t in multiset(a) ==> t in a
  {
    assert a == [a[0]] + a[1..];
  }

  lemma SameSize(a: seq<Text>, b: seq<Text>)
    requires multiset(a) == multiset(b)
    ensures |a| == |b|
  {
    assert |multiset(a)| == |a| && |multiset(b)| == |b|;
  }

  /** Two ordered lists with the same elements start alike. */
  lemma SameHead(a: seq<Text>, b: seq<Text>)
    requires Ordered(a) && Ordered(b) && a != [] && b != []
    requires multiset(a) == multiset(b)
    ensures a[0] == b[0]
  {
    hide Before, Ordered;
    assert a[0] in multiset(a) && b[0] in multiset(b);
    assert a[0] in b && b[0] in a;
    HeadIsLeast(a, b[0]);
    HeadIsLeast(b, a[0]);
    BeforeTotal(a[0], b[0]);
  }

  /** Two ordered lists with the same elements are the same list. */
  lemma {:induction false} OrderedUnique(a: seq<Text>, b: seq<Text>)
    requires Ordered(a) && Ordered(b)
    requires multiset(a) == multiset(b)
    ensures a == b
  {
    hide Before, Ordered;
    SameSize(a, b);
    if a != [] {
      TailOfOrdered(a);
      TailOfOrdered(b);
      SameHead(a, b);
      OrderedUnique(a[1..], b[1..]);
      SplitHead(a);
      SplitHead(b);
    }
  }

  lemma SplitHead(a: seq<Text>)
    requires a != []
    ensures a == [a[0]] + a[1..]
  {
  }

  /** Sorting forgets exactly the order: equal results mean equal bags. */
  lemma SortCanonical(a: seq<Text>, b: seq<Text>)
    ensures Sort(a) == Sort(b) <==> multiset(a) == multiset(b)
  {
    SortOrdered(a);
    SortOrdered(b);
    if multiset(a) == multiset(b) {
      OrderedUnique(Sort(a), Sort(b));
    }
  }

  lemma OncePerElement(ids: seq<Text>)
    ensures NoDuplicates(ids) <==> forall t :: multiset(ids)[t] <= 1
  {
    if NoDuplicates(ids) {
      forall t ensures multiset(ids)[t] <= 1 {
        CountOnce(ids, t);
      }
    }
    if forall t :: multiset(ids)[t] <= 1 {
      forall i, j | 0 <= i < j < |ids| ensures ids[i] != ids[j] {
        assert ids == ids[..j] + [ids[j]] + ids[j + 1..];
        assert multiset(ids) == multiset(ids[..j]) + multiset{ids[j]} + multiset(ids[j + 1..]);
        assert ids[..j][i] == ids[i] && ids[i] in multiset(ids[..j]);
        assert multiset(ids)[ids[i]] <= 1;
      }
    }
  }

  lemma {:induction false} CountOnce(ids: seq<Text>, t: Text)
    requires NoDuplicates(ids)
    ensures multiset(ids)[t] == if t in ids then 1 else 0
  {
    if ids != [] {
      assert ids == [ids[0]] + ids[1..];
      CountOnce(ids[1..], t);
    }
  }

  /** Two lists without repetition are permutations of each other exactly when they have the same elements. */
  lemma SameElements(a: seq<Text>, b: seq<Text>)
    requires NoDuplicates(b)
    ensures multiset(a) == multiset(b)
       <==> NoDuplicates(a) && (forall t :: t in a <==> t in b)
  {
    OncePerElement(a);
    OncePerElement(b);
    if multiset(a) == multiset(b) {
      forall t ensures t in a <==> t in b {
        assert t in a <==> t in multiset(a);
      }
    }
    if NoDuplicates(a) && (forall t :: t in a <==> t in b) {
      forall t ensures multiset(a)[t] == multiset(b)[t] {
        CountOnce(a, t);
        CountOnce(b, t);
      }
    }
  }

  lemma StrictlyOrdered(ids: seq<Text>)
    ensures (forall i, j :: 0 <= i < j < |ids| ==> Before(ids[i], ids[j]))
       <==> Ordered(ids) && NoDuplicates(ids)
  {
    hide Before;
    forall i, j | 0 <= i < j < |ids|
      ensures Before(ids[i], ids[j]) <==> ids[i] != ids[j] && !Before(ids[j], ids[i])
    {
      BeforeTotal(ids[i], ids[j]);
      BeforeIrreflexive(ids[i]);
      if Before(ids[i], ids[j]) && Before(ids[j], ids[i]) {
        BeforeTransitive(ids[i], ids[j], ids[i]);
      }
    }
  }
}
