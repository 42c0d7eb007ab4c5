/** Code points of UTF-16 text, their UTF-8 bytes (section 3 of RFC 3629), and the two orders. */
module Utf8 {
  import opened Texts

  type Byte = b: int | 0 <= b < 256

  type Bytes = seq<Byte>

  type CodePoint = c: int | 0 <= c <= 0x10FFFF

  predicate IsHigh(u: int) { 0xD800 <= u <= 0xDBFF }

  predicate IsLow(u: int) { 0xDC00 <= u <= 0xDFFF }

  predicate IsSurrogate(c: int) { 0xD800 <= c <= 0xDFFF }

  function PairPoint(high: int, low: int): CodePoint
    requires IsHigh(high) && IsLow(low)
  {
    0x10000 + (high - 0xD800) * 0x400 + (low - 0xDC00)
  }

  /** String iteration: a surrogate pair is one code point, any other unit is its own. */
  function CodePoints(t: Text): (r: seq<CodePoint>)
    ensures t != [] ==> r != []
    ensures |r| <= |t|
  {
    if t == [] then []
    else if |t| >= 2 && IsHigh(t[0]) && IsLow(t[1])
      then [PairPoint(t[0], t[1])] + CodePoints(t[2..])
    else [t[0]] + CodePoints(t[1..])
  }

  predicate WellFormed(t: Text) {
    t == [] ||
    if |t| >= 2 && IsHigh(t[0]) && IsLow(t[1]) then WellFormed(t[2..])
    else !IsSurrogate(t[0]) && WellFormed(t[1..])
  }

  function Units(c: CodePoint): Text {
    if c < 0x10000 then [c] else [0xD800 + (c - 0x10000) / 0x400, 0xDC00 + (c - 0x10000) % 0x400]
  }

  lemma {:induction false} CodePointsInjective(a: Text, b: Text)
    requires CodePoints(a) == CodePoints(b)
    ensures a == b
    decreases |a|
  {
    if a != [] && b != [] {
      var p, q := CodePoints(a)[0], CodePoints(b)[0];
      assert Units(p) <= a && Units(q) <= b;
      assert p == q;
      var n := |Units(p)|;
      assert CodePoints(a) == [p] + CodePoints(a[n..]);
      assert CodePoints(b) == [p] + CodePoints(b[n..]);
      assert CodePoints(a[n..]) == CodePoints(a)[1..] == CodePoints(b)[1..] == CodePoints(b[n..]);
      CodePointsInjective(a[n..], b[n..]);
      assert a == a[..n] + a[n..] && b == b[..n] + b[n..];
    }
  }

  /** The UTF-8 bytes of one code point; TextEncoder writes U+FFFD for a lone surrogate. */
  function EncodePoint(c: CodePoint): (r: Bytes)
    ensures 1 <= |r| <= 4
  {
    var s := if IsSurrogate(c) then 0xFFFD else c;
    if s < 0x80 then [s]
    else if s < 0x800 then [0xC0 + s / 64, 0x80 + s % 64]
    else if s < 0x10000 then [0xE0 + s / 4096, 0x80 + s / 64 % 64, 0x80 + s % 64]
    else [0xF0 + s / 262144, 0x80 + s / 4096 % 64, 0x80 + s / 64 % 64, 0x80 + s % 64]
  }

  function EncodePoints(cs: seq<CodePoint>): Bytes {
    if cs == [] then [] else EncodePoint(cs[0]) + EncodePoints(cs[1..])
  }

  /** TextEncoder.encode. */
  function Encode(t: Text): Bytes {
    EncodePoints(CodePoints(t))
  }

  function Sign(n: int): int {
    if n < 0 then -1 else if n > 0 then 1 else 0
  }

  /** Lexicographic comparison; its sign is the order, and a longer list follows its prefixes. */
  function Compare(a: seq<int>, b: seq<int>): int {
    if a == [] || b == [] then |a| - |b|
    else if a[0] != b[0] then a[0] - b[0]
    else Compare(a[1..], b[1..])
  }

  /** `compareText`: the early-exit loop over code points. */
  method CompareText(left: Text, right: Text) returns (r: int)
    ensures r == Compare(CodePoints(left), CodePoints(right))
  {
    var a, b := CodePoints(left), CodePoints(right);
    for k := 0 to |a|
      invariant k <= |b| && a[..k] == b[..k]
      invariant Compare(a, b) == Compare(a[k..], b[k..])
    {
      if k == |b| {
        break;
      }
      var point: int, other: int := a[k], b[k];
      var difference := point - other;
      if difference != 0 {
        return difference;
      }
    }
    r := |a| - |b|;
  }

  lemma {:induction false} CompareZero(a: seq<int>, b: seq<int>)
    ensures Compare(a, b) == 0 <==> a == b
  {
    if a != [] && b != [] && a[0] == b[0] {
      CompareZero(a[1..], b[1..]);
      assert a == [a[0]] + a[1..] && b == [b[0]] + b[1..];
    }
  }

  lemma {:induction false} CompareAfterPrefix(p: seq<int>, a: seq<int>, b: seq<int>)
    ensures Compare(p + a, p + b) == Compare(a, b)
  {
    if p == [] {
      assert p + a == a && p + b == b;
    } else {
      assert (p + a)[1..] == p[1..] + a && (p + b)[1..] == p[1..] + b;
      CompareAfterPrefix(p[1..], a, b);
    }
  }

  lemma SixBitParts(c: int, d: int)
    requires 0 <= c < d
    ensures c / 64 < d / 64 || (c / 64 == d / 64 && c % 64 < d % 64)
    ensures c / 64 / 64 == c / 4096 && c / 64 / 64 / 64 == c / 262144
  {
  }

  lemma ThreeParts(c: int, d: int)
    requires 0 <= c < d
    ensures c / 4096 < d / 4096
         || (c / 4096 == d / 4096 && c / 64 % 64 < d / 64 % 64)
         || (c / 4096 == d / 4096 && c / 64 % 64 == d / 64 % 64 && c % 64 < d % 64)
  {
    SixBitParts(c, d);
    if c / 64 < d / 64 {
      SixBitParts(c / 64, d / 64);
    }
    assert c / 64 / 64 == c / 4096 && d / 64 / 64 == d / 4096;
  }

  lemma FourParts(c: int, d: int)
    requires 0 <= c < d
    ensures c / 262144 < d / 262144
         || (c / 262144 == d / 262144 && c / 4096 % 64 < d / 4096 % 64)
         || (c / 262144 == d / 262144 && c / 4096 % 64 == d / 4096 % 64 && c / 64 % 64 < d / 64 % 64)
         || (c / 262144 == d / 262144 && c / 4096 % 64 == d / 4096 % 64 && c / 64 % 64 == d / 64 % 64 && c % 64 < d % 64)
  {
    SixBitParts(c, d);
    if c / 64 < d / 64 {
      ThreeParts(c / 64, d / 64);
    }
    assert c / 64 / 64 == c / 4096 && d / 64 / 64 == d / 4096;
    assert c / 64 / 4096 == c / 262144 && d / 64 / 4096 == d / 262144;
  }

  /** `e` and `f` first differ at `k`, and there `e` is smaller. */
  predicate DiffersAt(e: Bytes, f: Bytes, k: nat) {
    k < |e| && k < |f| && e[..k] == f[..k] && e[k] < f[k]
  }

  lemma TwoByteDifference(c: CodePoint, d: CodePoint) returns (k: nat)
    requires 0x80 <= c < d < 0x800
    ensures DiffersAt(EncodePoint(c), EncodePoint(d), k)
  {
    SixBitParts(c, d);
    k := if c / 64 != d / 64 then 0 else 1;
  }

  lemma ThreeByteDifference(c: CodePoint, d: CodePoint) returns (k: nat)
    requires 0x800 <= c < d < 0x10000 && !IsSurrogate(c) && !IsSurrogate(d)
    ensures DiffersAt(EncodePoint(c), EncodePoint(d), k)
  {
    ThreeParts(c, d);
    k := if c / 4096 != d / 4096 then 0 else if c / 64 % 64 != d / 64 % 64 then 1 else 2;
  }

  lemma FourByteDifference(c: CodePoint, d: CodePoint) returns (k: nat)
    requires 0x10000 <= c < d
    ensures DiffersAt(EncodePoint(c), EncodePoint(d), k)
  {
    FourParts(c, d);
    k := if c / 262144 != d / 262144 then 0 else if c / 4096 % 64 != d / 4096 % 64 then 1
         else if c / 64 % 64 != d / 64 % 64 then 2 else 3;
  }

  /** The bytes of a smaller scalar differ, downwards, before either encoding ends. */
  lemma FirstDifference(c: CodePoint, d: CodePoint) returns (k: nat)
    requires c < d && !IsSurrogate(c) && !IsSurrogate(d)
    ensures DiffersAt(EncodePoint(c), EncodePoint(d), k)
  {
    if c < 0x80 || (c < 0x800 && 0x800 <= d) || (c < 0x10000 && 0x10000 <= d) {
      k := 0;
    } else if d < 0x800 {
      k := TwoByteDifference(c, d);
    } else if d < 0x10000 {
      k := ThreeByteDifference(c, d);
    } else {
      k := FourByteDifference(c, d);
    }
  }

  lemma SmallerPointFirst(c: CodePoint, d: CodePoint, x: Bytes, y: Bytes)
    requires c < d && !IsSurrogate(c) && !IsSurrogate(d)
    ensures Compare(EncodePoint(c) + x, EncodePoint(d) + y) < 0
  {
    var k := FirstDifference(c, d);
    DifferenceDecides(EncodePoint(c), EncodePoint(d), x, y, k);
  }

  lemma DifferenceDecides(e: Bytes, f: Bytes, x: Bytes, y: Bytes, k: nat)
    requires DiffersAt(e, f, k)
    ensures Compare(e + x, f + y) < 0
  {
    assert e + x == e[..k] + (e[k..] + x) && f + y == e[..k] + (f[k..] + y);
    CompareAfterPrefix(e[..k], e[k..] + x, f[k..] + y);
  }

  predicate NoSurrogates(cs: seq<CodePoint>) {
    forall i :: 0 <= i < |cs| ==> !IsSurrogate(cs[i])
  }

  lemma {:induction false} WellFormedPoints(t: Text)
    ensures WellFormed(t) <==> NoSurrogates(CodePoints(t))
    decreases |t|
  {
    if t != [] {
      var n := if |t| >= 2 && IsHigh(t[0]) && IsLow(t[1]) then 2 else 1;
      WellFormedPoints(t[n..]);
      assert CodePoints(t)[1..] == CodePoints(t[n..]);
      if NoSurrogates(CodePoints(t)) {
        assert !IsSurrogate(CodePoints(t)[0]);
        forall i | 0 <= i < |CodePoints(t[n..])| ensures !IsSurrogate(CodePoints(t[n..])[i]) {
          assert CodePoints(t)[i + 1] == CodePoints(t[n..])[i];
        }
      }
    }
  }

  lemma {:induction false} PointOrderIsByteOrder(a: seq<CodePoint>, b: seq<CodePoint>)
    requires NoSurrogates(a) && NoSurrogates(b)
    ensures Sign(Compare(a, b)) == Sign(Compare(EncodePoints(a), EncodePoints(b)))
  {
    if a == [] || b == [] {
    } else if a[0] < b[0] {
      SmallerPointFirst(a[0], b[0], EncodePoints(a[1..]), EncodePoints(b[1..]));
    } else if b[0] < a[0] {
      SmallerPointFirst(b[0], a[0], EncodePoints(b[1..]), EncodePoints(a[1..]));
      CompareFlips(EncodePoints(a), EncodePoints(b));
    } else {
      PointOrderIsByteOrder(a[1..], b[1..]);
      CompareAfterPrefix(EncodePoint(a[0]), EncodePoints(a[1..]), EncodePoints(b[1..]));
    }
  }

  lemma {:induction false} CompareFlips(a: seq<int>, b: seq<int>)
    ensures Compare(a, b) == -Compare(b, a)
  {
    if a != [] && b != [] && a[0] == b[0] {
      CompareFlips(a[1..], b[1..]);
    }
  }

  /** Code-point order is UTF-8 byte order on strings without unpaired surrogates. */
  lemma CompareTextIsByteOrder(left: Text, right: Text)
    requires WellFormed(left) && WellFormed(right)
    ensures Sign(Compare(CodePoints(left), CodePoints(right))) == Sign(Compare(Encode(left), Encode(right)))
  {
    WellFormedPoints(left);
    WellFormedPoints(right);
    PointOrderIsByteOrder(CodePoints(left), CodePoints(right));
  }

  /** What the encoder writes for each code point: a lone surrogate becomes U+FFFD. */
  function Scalars(cs: seq<CodePoint>): (r: seq<CodePoint>)
    ensures |r| == |cs| && NoSurrogates(r)
  {
    seq(|cs|, i requires 0 <= i < |cs| => if IsSurrogate(cs[i]) then 0xFFFD else cs[i])
  }

  lemma {:induction false} ScalarsEncodeAlike(cs: seq<CodePoint>)
    ensures EncodePoints(Scalars(cs)) == EncodePoints(cs)
  {
    if cs != [] {
      assert Scalars(cs)[1..] == Scalars(cs[1..]);
      ScalarsEncodeAlike(cs[1..]);
    }
  }

  /** On every pair of strings, byte order is the order of the code points as encoded. */
  lemma ByteOrderIsScalarOrder(left: Text, right: Text)
    ensures Sign(Compare(Encode(left), Encode(right)))
         == Sign(Compare(Scalars(CodePoints(left)), Scalars(CodePoints(right))))
  {
    ScalarsEncodeAlike(CodePoints(left));
    ScalarsEncodeAlike(CodePoints(right));
    PointOrderIsByteOrder(Scalars(CodePoints(left)), Scalars(CodePoints(right)));
  }

  /** Both orders put this pair the same way round. */
  predicate OrdersAgree(left: Text, right: Text) {
    Sign(Compare(CodePoints(left), CodePoints(right))) == Sign(Compare(Encode(left), Encode(right)))
  }

  /** Every string with a lone surrogate is on the wrong side of some well-formed string:
      the one that has U+E000 in the place of its first lone surrogate. */
  lemma {:induction false} MisplacedString(left: Text) returns (right: Text)
    requires !WellFormed(left)
    ensures WellFormed(right)
    ensures Compare(CodePoints(left), CodePoints(right)) < 0 < Compare(Encode(left), Encode(right))
    decreases |left|
  {
    var n := Step(left);
    CodePointsStep(left);
    var first := left[..n];
    if IsSurrogate(FirstPoint(left)) {
      right := [0xE000];
      assert CodePoints(right) == [0xE000] + CodePoints(right[1..]);
      assert EncodePoint(FirstPoint(left)) == [0xEF, 0xBF, 0xBD];
      assert Encode(right) == EncodePoint(0xE000) + EncodePoints([]) == [0xEE, 0x80, 0x80];
    } else {
      var rest := MisplacedString(left[n..]);
      right := first + rest;
      FirstAlone(left);
      CodePointsConcat(first, rest);
      EncodeConcat(first, rest);
      CodePointsConcat(first, left[n..]);
      EncodeConcat(first, left[n..]);
      assert left == first + left[n..];
      CompareAfterPrefix(CodePoints(first), CodePoints(left[n..]), CodePoints(rest));
      CompareAfterPrefix(Encode(first), Encode(left[n..]), Encode(rest));
    }
  }

  lemma FirstAlone(t: Text)
    requires t != [] && !IsSurrogate(FirstPoint(t))
    ensures Step(t) <= |t| && WellFormed(t[..Step(t)])
  {
    assert t[..Step(t)][0] == t[0];
    assert WellFormed([]);
    if Step(t) == 2 {
      assert t[..2][1] == t[1] && t[..2][2..] == [];
    } else {
      assert t[..1][1..] == [];
    }
  }

  /** A string compares as its bytes do with every well-formed string exactly when it is well formed. */
  lemma WellFormedIffByteOrder(left: Text)
    ensures WellFormed(left) <==> forall right | WellFormed(right) :: OrdersAgree(left, right)
  {
    if WellFormed(left) {
      forall right | WellFormed(right) ensures OrdersAgree(left, right) {
        CompareTextIsByteOrder(left, right);
      }
    } else {
      var right := MisplacedString(left);
      assert !OrdersAgree(left, right);
    }
  }

  /** The smallest case: a lone surrogate compares below U+E000 but its bytes above. */
  lemma LoneSurrogateBreaksByteOrder()
    ensures Sign(Compare(CodePoints([0xD800]), CodePoints([0xE000]))) == -1
    ensures Sign(Compare(Encode([0xD800]), Encode([0xE000]))) == 1
  {
    assert CodePoints([0xD800]) == [0xD800] && CodePoints([0xE000]) == [0xE000];
    assert Encode([0xD800]) == EncodePoint(0xD800) + EncodePoints([]) == [0xEF, 0xBF, 0xBD];
    assert Encode([0xE000]) == EncodePoint(0xE000) + EncodePoints([]) == [0xEE, 0x80, 0x80];
  }

  lemma EncodeInjective(a: Text, b: Text)
    requires WellFormed(a) && WellFormed(b)
    requires Encode(a) == Encode(b)
    ensures a == b
  {
    CompareTextIsByteOrder(a, b);
    CompareZero(Encode(a), Encode(b));
    CompareZero(CodePoints(a), CodePoints(b));
    CodePointsInjective(a, b);
  }

  /** How many units the first code point takes. */
  function Step(t: Text): (n: nat)
    ensures n > 0
  {
    if |t| >= 2 && IsHigh(t[0]) && IsLow(t[1]) then 2 else 1
  }

  function FirstPoint(t: Text): CodePoint
    requires t != []
  {
    if Step(t) == 2 then PairPoint(t[0], t[1]) else t[0]
  }

  lemma CodePointsStep(t: Text)
    requires t != []
    ensures Step(t) <= |t|
    ensures CodePoints(t) == [FirstPoint(t)] + CodePoints(t[Step(t)..])
    ensures WellFormed(t) <==> !IsSurrogate(FirstPoint(t)) && WellFormed(t[Step(t)..])
  {
  }

  lemma FirstPointOfConcat(a: Text, b: Text)
    requires a != [] && !IsSurrogate(FirstPoint(a))
    ensures Step(a + b) == Step(a) <= |a| && FirstPoint(a + b) == FirstPoint(a)
    ensures (a + b)[Step(a)..] == a[Step(a)..] + b
  {
    assert (a + b)[0] == a[0];
  }

  lemma {:induction false} CodePointsConcat(a: Text, b: Text)
    requires WellFormed(a)
    ensures CodePoints(a + b) == CodePoints(a) + CodePoints(b)
    ensures WellFormed(a + b) <==> WellFormed(b)
    decreases |a|
  {
    if a == [] {
      assert a + b == b;
    } else {
      hide CodePoints, WellFormed, Step, FirstPoint;
      CodePointsStep(a);
      FirstPointOfConcat(a, b);
      CodePointsStep(a + b);
      CodePointsConcat(a[Step(a)..], b);
    }
  }

  lemma {:induction false} EncodePointsConcat(a: seq<CodePoint>, b: seq<CodePoint>)
    ensures EncodePoints(a + b) == EncodePoints(a) + EncodePoints(b)
  {
    if a == [] {
      assert a + b == b;
    } else {
      assert (a + b)[1..] == a[1..] + b;
      EncodePointsConcat(a[1..], b);
    }
  }

  lemma EncodeConcat(a: Text, b: Text)
    requires WellFormed(a)
    ensures Encode(a + b) == Encode(a) + Encode(b)
  {
    CodePointsConcat(a, b);
    EncodePointsConcat(CodePoints(a), CodePoints(b));
  }

  lemma {:induction false} AsciiEncode(t: Text)
    requires forall i :: 0 <= i < |t| ==> t[i] < 0x80
    ensures |Encode(t)| == |t| && forall i :: 0 <= i < |t| ==> Encode(t)[i] == t[i]
  {
    if t != [] {
      AsciiEncode(t[1..]);
      assert CodePoints(t) == [t[0]] + CodePoints(t[1..]);
      assert EncodePoints(CodePoints(t)) == EncodePoint(t[0]) + EncodePoints(CodePoints(t[1..]));
    }
  }
}
