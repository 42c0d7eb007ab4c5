/** Canonical JSON and the hash frame: the bytes behind every durable identity. */
module Identity {
  import opened Texts
  import opened JsonData
  import opened ReleaseModel
  import opened Utf8
  import opened Pairs

  // ---- Scalars ----

  function Digits(n: nat): (r: Text)
    ensures |r| > 0
    ensures forall i :: 0 <= i < |r| ==> 48 <= r[i] <= 57
  {
    if n < 10 then [48 + n] else Digits(n / 10) + [48 + n % 10]
  }

  function Integer(n: int): Text {
    if n < 0 then [45] + Digits(-n) else Digits(n)
  }

  function HexDigit(n: int): CodeUnit
    requires 0 <= n < 16
  {
    if n < 10 then 48 + n else 87 + n
  }

  /** JSON.stringify of one code unit inside a string. */
  function EscapeUnit(u: CodeUnit): Text {
    if u == 34 || u == 92 then [92, u]
    else if u == 8 then [92, 98]
    else if u == 9 then [92, 116]
    else if u == 10 then [92, 110]
    else if u == 12 then [92, 102]
    else if u == 13 then [92, 114]
    else if u < 32 then [92, 117, 48, 48, HexDigit(u / 16), HexDigit(u % 16)]
    else [u]
  }

  function Escape(t: Text): Text {
    if t == [] then [] else EscapeUnit(t[0]) + Escape(t[1..])
  }

  /** JSON.stringify of a string without unpaired surrogates. */
  function Quote(t: Text): Text {
    [34] + Escape(t) + [34]
  }

  // ---- Canonical JSON ----

  function CanonicalString(nfc: Text -> bool, t: Text): Result<Text> {
    if !nfc(t) then Fail(NoncanonicalString)
    else if !WellFormed(t) then Fail(InvalidString)
    else Ok(Quote(t))
  }

  /** Encoded items separated by commas. */
  function JoinItems(items: seq<Text>): Text {
    if items == [] then []
    else if |items| == 1 then items[0]
    else items[0] + [44] + JoinItems(items[1..])
  }

  function CanonicalItems(nfc: Text -> bool, items: seq<Json>): Result<seq<Text>>
    decreases items, 0
  {
    if items == [] then Ok([])
    else
      match Canonical(nfc, items[0])
      case Fail(refusal) => Fail(refusal)
      case Ok(first) =>
        match CanonicalItems(nfc, items[1..])
        case Fail(refusal) => Fail(refusal)
        case Ok(rest) => Ok([first] + rest)
  }

  function EncodedValues(nfc: Text -> bool, members: seq<(Text, Json)>): (r: seq<(Text, Result<Text>)>)
    ensures |r| == |members|
    decreases members, 0
  {
    if members == [] then []
    else
      var first := members[0];
      assert first.1 < first;
      [(first.0, Canonical(nfc, first.1))] + EncodedValues(nfc, members[1..])
  }

  /** Each `key:value`, in the order given. */
  function CanonicalMembers(nfc: Text -> bool, fields: seq<(Text, Result<Text>)>): Result<seq<Text>> {
    if fields == [] then Ok([])
    else
      match CanonicalString(nfc, fields[0].0)
      case Fail(refusal) => Fail(refusal)
      case Ok(key) =>
        match fields[0].1
        case Fail(refusal) => Fail(refusal)
        case Ok(value) =>
          match CanonicalMembers(nfc, fields[1..])
          case Fail(refusal) => Fail(refusal)
          case Ok(rest) => Ok([key + [58] + value] + rest)
  }

  /** `canonical`: one text for each value, or the refusal for data that has none. */
  function Canonical(nfc: Text -> bool, v: Json): Result<Text>
    decreases v, 1
  {
    match v
    case Null => Ok([110, 117, 108, 108])
    case Bool(b) => Ok(if b then [116, 114, 117, 101] else [102, 97, 108, 115, 101])
    case String(t) => CanonicalString(nfc, t)
    case Number(n) => if IsSafe(n) then Ok(Integer(n)) else Fail(InvalidJson)
    case Array(items) =>
      (match CanonicalItems(nfc, items)
       case Fail(refusal) => Fail(refusal)
       case Ok(texts) => Ok([91] + JoinItems(texts) + [93]))
    case Object(members) =>
      (match CanonicalMembers(nfc, SortPairs(EncodedValues(nfc, members)))
       case Fail(refusal) => Fail(refusal)
       case Ok(texts) => Ok([123] + JoinItems(texts) + [125]))
  }

  /** `sameData`. */
  predicate SameData(nfc: Text -> bool, left: Json, right: Json) {
    Canonical(nfc, left).Ok? && Canonical(nfc, left) == Canonical(nfc, right)
  }

  lemma {:induction false} EncodedValuesIsMap(nfc: Text -> bool, members: seq<(Text, Json)>)
    ensures EncodedValues(nfc, members) == MapPairs(v => Canonical(nfc, v), members)
  {
    if members != [] {
      EncodedValuesIsMap(nfc, members[1..]);
    }
  }

  /** The order in which an object's members were written never shows in its canonical text. */
  lemma CanonicalIgnoresMemberOrder(nfc: Text -> bool, members: seq<(Text, Json)>, others: seq<(Text, Json)>)
    requires DistinctKeys(members) && multiset(members) == multiset(others)
    ensures Canonical(nfc, Object(members)) == Canonical(nfc, Object(others))
  {
    EncodedValuesIsMap(nfc, members);
    EncodedValuesIsMap(nfc, others);
    SortMapIgnoresOrder(v => Canonical(nfc, v), members, others);
  }

  // ---- The hash frame ----

  /** One length-prefixed field: its UTF-8 byte length, a colon, the text. */
  function Field(t: Text): Text {
    Digits(|Encode(t)|) + [58] + t
  }

  /** The bytes that are hashed: the domain and the canonical text, each length-prefixed. */
  function Frame(domain: Text, encoded: Text): Bytes {
    Encode(Field(domain) + Field(encoded))
  }

  /** SHA-256 over the frame; the digest itself is a parameter. */
  function HashCanonical(nfc: Text -> bool, sha256: Bytes -> Text, domain: Text, value: Json): Result<Text> {
    match Canonical(nfc, value)
    case Fail(refusal) => Fail(refusal)
    case Ok(encoded) => Ok(sha256(Frame(domain, encoded)))
  }

  lemma {:induction false} DigitsInjective(m: nat, n: nat)
    requires Digits(m) == Digits(n)
    ensures m == n
    decreases m
  {
    if m >= 10 && n >= 10 {
      var a, b := Digits(m), Digits(n);
      assert Digits(m / 10) == a[..|a| - 1] && Digits(n / 10) == b[..|b| - 1];
      assert a[|a| - 1] == b[|b| - 1];
      DigitsInjective(m / 10, n / 10);
    }
  }

  /** A decimal number followed by a colon can be read off the front of a text in one way. */
  lemma {:induction false} NumberThenColon(m: nat, n: nat, x: Text, y: Text)
    requires Digits(m) + [58] + x == Digits(n) + [58] + y
    ensures m == n && x == y
  {
    var a, b := Digits(m), Digits(n);
    var s := a + [58] + x;
    assert forall i :: 0 <= i < |a| ==> s[i] == a[i];
    assert forall i :: 0 <= i < |b| ==> s[i] == b[i];
    assert s[|a|] == 58 && s[|b|] == 58;
    assert |a| == |b|;
    assert a == s[..|a|] && b == s[..|b|] && x == s[|a| + 1..] && y == s[|b| + 1..];
    DigitsInjective(m, n);
  }

  lemma {:induction false} AsciiWellFormed(t: Text)
    requires forall i :: 0 <= i < |t| ==> t[i] < 0x80
    ensures WellFormed(t)
  {
    if t != [] {
      AsciiWellFormed(t[1..]);
    }
  }

  lemma FieldWellFormed(t: Text, rest: Text)
    requires WellFormed(t) && WellFormed(rest)
    ensures WellFormed(t + rest) && WellFormed(Field(t) + rest)
  {
    hide Encode, CodePoints, WellFormed;
    var p := Digits(|Encode(t)|) + [58];
    AsciiWellFormed(p);
    CodePointsConcat(t, rest);
    CodePointsConcat(p, t + rest);
    assert Field(t) + rest == p + (t + rest);
  }

  /** Two well-formed prefixes of one text with equally long encodings are the same. */
  lemma SameLengthPrefix(a: Text, b: Text, x: Text, y: Text)
    requires WellFormed(a) && WellFormed(b)
    requires a + x == b + y && |Encode(a)| == |Encode(b)|
    ensures a == b
  {
    EncodeConcat(a, x);
    EncodeConcat(b, y);
    assert Encode(a) == Encode(a + x)[..|Encode(a)|] == Encode(b);
    EncodeInjective(a, b);
  }

  /** A length-prefixed field can be read off the front of a text in one way. */
  lemma FieldInjective(a: Text, b: Text, x: Text, y: Text)
    requires WellFormed(a) && WellFormed(b)
    requires Field(a) + x == Field(b) + y
    ensures a == b && x == y
  {
    hide Encode, WellFormed;
    assert Field(a) + x == Digits(|Encode(a)|) + [58] + (a + x);
    assert Field(b) + y == Digits(|Encode(b)|) + [58] + (b + y);
    NumberThenColon(|Encode(a)|, |Encode(b)|, a + x, b + y);
    SameLengthPrefix(a, b, x, y);
    assert x == (a + x)[|a|..] && y == (b + y)[|b|..];
  }

  /** The frame is injective: no two (domain, text) pairs are hashed as the same bytes. */
  lemma FrameInjective(domain: Text, encoded: Text, domain': Text, encoded': Text)
    requires WellFormed(domain) && WellFormed(encoded) && WellFormed(domain') && WellFormed(encoded')
    requires Frame(domain, encoded) == Frame(domain', encoded')
    ensures domain == domain' && encoded == encoded'
  {
    FieldWellFormed(encoded, []);
    FieldWellFormed(encoded', []);
    assert Field(encoded) + [] == Field(encoded) && Field(encoded') + [] == Field(encoded');
    FieldWellFormed(domain, Field(encoded));
    FieldWellFormed(domain', Field(encoded'));
    EncodeInjective(Field(domain) + Field(encoded), Field(domain') + Field(encoded'));
    FieldInjective(domain, domain', Field(encoded), Field(encoded'));
    FieldInjective(encoded, encoded', [], []);
  }
}
