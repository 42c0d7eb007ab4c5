/** Finding and splitting on a byte string. */
module Substrings {
  import opened ReleaseModel
  import opened Utf8

  predicate Occurs(d: Bytes, s: Bytes, i: int) {
    0 <= i && i + |d| <= |s| && s[i..i + |d|] == d
  }

  /** `s.includes(d)`. */
  ghost predicate Includes(s: Bytes, d: Bytes) {
    exists i :: Occurs(d, s, i)
  }

  /** The first place at or after `from`. */
  method IndexOf(s: Bytes, d: Bytes, from: nat) returns (r: Option<nat>)
    ensures r.Some? ==> from <= r.value && Occurs(d, s, r.value) && forall i :: from <= i < r.value ==> !Occurs(d, s, i)
    ensures r.None? ==> forall i :: from <= i ==> !Occurs(d, s, i)
  {
    var at := from;
    while at + |d| <= |s|
      invariant from <= at
      invariant forall i :: from <= i < at ==> !Occurs(d, s, i)
    {
      if s[at..at + |d|] == d {
        return Some(at);
      }
      at := at + 1;
    }
    r := None;
  }

  function Find(d: Bytes, s: Bytes): (r: Option<nat>)
    ensures r.Some? ==> Occurs(d, s, r.value) && forall i :: 0 <= i < r.value ==> !Occurs(d, s, i)
    ensures r.None? ==> forall i :: !Occurs(d, s, i)
  {
    if |s| < |d| then None
    else if s[..|d|] == d then Some(0)
    else
      match Find(d, s[1..])
      case None =>
        assert forall i :: 0 < i && Occurs(d, s, i) ==> Occurs(d, s[1..], i - 1);
        None
      case Some(k) =>
        assert forall i :: 0 < i && Occurs(d, s, i) ==> Occurs(d, s[1..], i - 1);
        Some(k + 1)
  }

  lemma OccursUnits(d: Bytes, s: Bytes, i: int)
    requires Occurs(d, s, i)
    ensures forall j :: 0 <= j < |d| ==> d[j] == s[i + j]
  {
    forall j | 0 <= j < |d| ensures d[j] == s[i + j] {
      assert s[i..i + |d|][j] == s[i + j];
    }
  }

  lemma FoundAt(d: Bytes, s: Bytes, k: nat)
    requires Occurs(d, s, k) && forall i :: 0 <= i < k ==> !Occurs(d, s, i)
    ensures Find(d, s) == Some(k)
  {
    hide Find, Occurs;
    var r := Find(d, s);
    assert r.Some? ==> Occurs(d, s, r.value);
  }

  lemma NotFound(d: Bytes, s: Bytes)
    requires !Includes(s, d)
    ensures Find(d, s) == None
  {
    hide Find;
  }

  function SplitOn(d: Bytes, s: Bytes): (r: seq<Bytes>)
    requires d != []
    ensures r != []
    decreases |s|
  {
    match Find(d, s)
    case None => [s]
    case Some(i) => [s[..i]] + SplitOn(d, s[i + |d|..])
  }

  /** The first unit of the delimiter occurs nowhere else in it, so it cannot overlap itself. */
  predicate SelfFree(d: Bytes) {
    d != [] && forall j :: 0 < j < |d| ==> d[j] != d[0]
  }

  /** An earlier occurrence would lie wholly before the delimiter. */
  lemma OccursBefore(d: Bytes, x: Bytes, rest: Bytes, i: nat)
    requires SelfFree(d) && i < |x| && Occurs(d, x + d + rest, i)
    ensures Occurs(d, x, i)
  {
    var s := x + d + rest;
    OccursUnits(d, s, i);
    assert s[|x|] == d[0];
    var j := if |x| - i < |d| then |x| - i else 0;
    assert d[j] == s[i + j];
    assert i + |d| <= |x|;
    assert x[i..i + |d|] == s[i..i + |d|];
  }

  lemma FirstDelimiter(d: Bytes, x: Bytes, rest: Bytes)
    requires SelfFree(d) && !Includes(x, d)
    ensures Find(d, x + d + rest) == Some(|x|)
  {
    hide Find, Occurs, SelfFree;
    var s := x + d + rest;
    DelimiterHere(d, x, rest);
    forall i | 0 <= i < |x| ensures !Occurs(d, s, i) {
      assert !Occurs(d, x, i);
      if Occurs(d, s, i) {
        OccursBefore(d, x, rest, i);
      }
    }
    FoundAt(d, s, |x|);
  }

  lemma DelimiterHere(d: Bytes, x: Bytes, rest: Bytes)
    ensures Occurs(d, x + d + rest, |x|)
  {
    assert (x + d + rest)[|x|..|x| + |d|] == d;
  }

  /** Each segment after its own delimiter. */
  function Glue(d: Bytes, segments: seq<Bytes>): Bytes {
    if segments == [] then [] else d + segments[0] + Glue(d, segments[1..])
  }

  /** Splitting undoes gluing when the delimiter lies in no segment. */
  lemma {:induction false} SplitOfGlue(d: Bytes, x: Bytes, segments: seq<Bytes>)
    requires SelfFree(d) && !Includes(x, d)
    requires forall i :: 0 <= i < |segments| ==> !Includes(segments[i], d)
    ensures SplitOn(d, x + Glue(d, segments)) == [x] + segments
    decreases |segments|
  {
    hide Occurs, Find, Includes;
    if segments == [] {
      assert x + [] == x;
      NotFound(d, x);
    } else {
      var rest := segments[0] + Glue(d, segments[1..]);
      assert x + Glue(d, segments) == x + d + rest;
      FirstDelimiter(d, x, rest);
      assert (x + d + rest)[..|x|] == x && (x + d + rest)[|x| + |d|..] == rest;
      SplitOfGlue(d, segments[0], segments[1..]);
      assert segments == [segments[0]] + segments[1..];
    }
  }

  /** What a text does not contain, no piece of it contains. */
  lemma PieceFree(before: Bytes, piece: Bytes, after: Bytes, d: Bytes)
    requires !Includes(before + piece + after, d)
    ensures !Includes(piece, d)
  {
    var s := before + piece + after;
    forall i ensures !Occurs(d, piece, i) {
      assert 0 <= i && i + |d| <= |piece| ==> s[|before| + i..|before| + i + |d|] == piece[i..i + |d|];
      assert !Occurs(d, s, |before| + i);
    }
  }
}
