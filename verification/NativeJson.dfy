/** The strict JSON reader: a recursive-descent check over the tokens, against the grammar of RFC 8259
    restricted to safe integers, distinct keys, canonical strings and a bounded depth. */
module NativeJson {
  import opened Texts
  import opened JsonData
  import opened ReleaseModel
  import opened Utf8
  import opened JsonTokens

  const MAX_DEPTH := 128

  /** The value grammar of section 3: a scalar token, an array, or an object with its keys as spelled. */
  datatype Syntax =
    | Leaf(token: Token)
    | List(items: seq<Syntax>)
    | Record(members: seq<(Text, Syntax)>)

  // ---- What a spelling means ----

  function HexValue(u: CodeUnit): (n: nat)
    ensures IsHex(u) ==> n < 16
  {
    if IsDigit(u) then u - 48 else if 65 <= u <= 70 then u - 55 else if 97 <= u <= 102 then u - 87 else 0
  }

  function HexUnit(t: Text): CodeUnit
    requires StartsWithHex4(t)
  {
    HexValue(t[0]) * 4096 + HexValue(t[1]) * 256 + HexValue(t[2]) * 16 + HexValue(t[3])
  }

  function ShortEscape(u: CodeUnit): CodeUnit {
    if u == 98 then 8 else if u == 102 then 12 else if u == 110 then 10
    else if u == 114 then 13 else if u == 116 then 9 else u
  }

  function UnescapeChar(c: Text): CodeUnit
    requires CharLength(c) > 0
  {
    if c[0] != 92 then c[0] else if c[1] == 117 then HexUnit(c[2..]) else ShortEscape(c[1])
  }

  /** Section 7: the string that the characters between the quotes denote. */
  function Unescape(c: Text): Text {
    if CharLength(c) == 0 then [] else [UnescapeChar(c)] + Unescape(c[CharLength(c)..])
  }

  function DigitsValue(d: Text): int {
    if d == [] then 0 else DigitsValue(d[..|d| - 1]) * 10 - 48 + d[|d| - 1]
  }

  /** Section 6: the integer that an optional minus and digits denote. */
  function IntegerValue(spelling: Text): int {
    if spelling != [] && spelling[0] == 45 then -DigitsValue(spelling[1..]) else DigitsValue(spelling)
  }

  function LeafValue(token: Token): Json {
    match token
    case Literal(word) => if word == NULL then Null else Bool(word == TRUE)
    case Integral(spelling) => Number(IntegerValue(spelling))
    case Quoted(chars) => String(Unescape(chars))
    case Mark(_) => Null
  }

  /** `JSON.parse` on a text of this syntax. */
  function ValueOf(s: Syntax): Json
    decreases s, 1
  {
    match s
    case Leaf(token) => LeafValue(token)
    case List(items) => Array(ItemValues(items))
    case Record(members) => Object(MemberValues(members))
  }

  function ItemValues(items: seq<Syntax>): seq<Json>
    decreases items, 0
  {
    if items == [] then [] else [ValueOf(items[0])] + ItemValues(items[1..])
  }

  function MemberValues(members: seq<(Text, Syntax)>): (r: seq<(Text, Json)>)
    ensures |r| == |members|
    ensures forall i :: 0 <= i < |r| ==> r[i].0 == Unescape(members[i].0)
    decreases members, 0
  {
    if members == [] then []
    else
      var first := members[0];
      assert first.1 < first;
      [(Unescape(first.0), ValueOf(first.1))] + MemberValues(members[1..])
  }

  // ---- The tokens of a syntax, sections 2, 4 and 5 ----

  function Flatten(s: Syntax): seq<Token>
    decreases s, 1
  {
    match s
    case Leaf(token) => [token]
    case List(items) => [Mark(91)] + FlattenItems(items) + [Mark(93)]
    case Record(members) => [Mark(123)] + FlattenMembers(members) + [Mark(125)]
  }

  function FlattenItems(items: seq<Syntax>): seq<Token>
    decreases items, 0
  {
    if items == [] then []
    else if |items| == 1 then Flatten(items[0])
    else Flatten(items[0]) + [Mark(44)] + FlattenItems(items[1..])
  }

  function FlattenMember(m: (Text, Syntax)): seq<Token>
    decreases m, 2
  {
    assert m.1 < m;
    [Quoted(m.0), Mark(58)] + Flatten(m.1)
  }

  function FlattenMembers(members: seq<(Text, Syntax)>): seq<Token>
    decreases members, 0
  {
    if members == [] then []
    else if |members| == 1 then FlattenMember(members[0])
    else FlattenMember(members[0]) + [Mark(44)] + FlattenMembers(members[1..])
  }

  // ---- The restrictions of the strict reader ----

  predicate AdmittedString(nfc: Text -> bool, chars: Text) {
    nfc(Unescape(chars)) && WellFormed(Unescape(chars))
  }

  const NEGATIVE_ZERO: Text := [45, 48]  // "-0"

  predicate AdmittedLeaf(nfc: Text -> bool, token: Token) {
    match token
    case Mark(_) => false
    case Literal(_) => true
    case Integral(spelling) => IsSafe(IntegerValue(spelling)) && spelling != NEGATIVE_ZERO
    case Quoted(chars) => AdmittedString(nfc, chars)
  }

  /** Strings in NFC without lone surrogates, safe integers, no duplicate decoded key, and values
      nested at most `room` deep. */
  predicate Strict(nfc: Text -> bool, s: Syntax, room: int)
    decreases s, 1
  {
    && room >= 0
    && match s
       case Leaf(token) => Good(token) && AdmittedLeaf(nfc, token)
       case List(items) => StrictItems(nfc, items, room - 1)
       case Record(members) => StrictMembers(nfc, members, room - 1, {})
  }

  predicate StrictItems(nfc: Text -> bool, items: seq<Syntax>, room: int)
    decreases items, 0
  {
    items == [] || (Strict(nfc, items[0], room) && StrictItems(nfc, items[1..], room))
  }

  predicate StrictMembers(nfc: Text -> bool, members: seq<(Text, Syntax)>, room: int, keys: set<Text>)
    decreases members, 0
  {
    members == [] ||
    (var first := members[0];
     assert first.1 < first;
     && Chars(first.0) && AdmittedString(nfc, first.0) && Unescape(first.0) !in keys
     && Strict(nfc, first.1, room)
     && StrictMembers(nfc, members[1..], room, keys + {Unescape(first.0)}))
  }

  /** Threading the set of keys rules out exactly the duplicates. */
  lemma {:induction false} StrictKeysDistinct(nfc: Text -> bool, members: seq<(Text, Syntax)>, room: int, keys: set<Text>)
    requires StrictMembers(nfc, members, room, keys)
    ensures forall i, j :: 0 <= i < j < |members| ==> Unescape(members[i].0) != Unescape(members[j].0)
    ensures forall i :: 0 <= i < |members| ==> Unescape(members[i].0) !in keys
  {
    hide Unescape, Strict, AdmittedString;
    if members != [] {
      StrictKeysDistinct(nfc, members[1..], room, keys + {Unescape(members[0].0)});
      forall i | 0 < i < |members| ensures members[i] == members[1..][i - 1] {
      }
    }
  }

  // ---- Recursive descent ----

  type Parsed<S> = Result<(S, seq<Token>)>

  function ParseValue(nfc: Text -> bool, ts: seq<Token>, room: int): (r: Parsed<Syntax>)
    ensures r.Ok? ==> |r.value.1| < |ts|
    decreases |ts|, 1
  {
    if room < 0 then Fail(JsonDepth)
    else if ts == [] then Fail(JsonInteger)
    else if ts[0] == Mark(91) then
      if |ts| > 1 && ts[1] == Mark(93) then Ok((List([]), ts[2..]))
      else
        match ParseItems(nfc, ts[1..], room - 1)
        case Fail(refusal) => Fail(refusal)
        case Ok((items, rest)) => Ok((List(items), rest))
    else if ts[0] == Mark(123) then
      if |ts| > 1 && ts[1] == Mark(125) then Ok((Record([]), ts[2..]))
      else
        match ParseMembers(nfc, ts[1..], room - 1, {})
        case Fail(refusal) => Fail(refusal)
        case Ok((members, rest)) => Ok((Record(members), rest))
    else if AdmittedLeaf(nfc, ts[0]) then Ok((Leaf(ts[0]), ts[1..]))
    else Fail(if ts[0].Quoted? then JsonString else JsonInteger)
  }

  /** The items after an opening bracket, up to and including the closing one. */
  function ParseItems(nfc: Text -> bool, ts: seq<Token>, room: int): (r: Parsed<seq<Syntax>>)
    ensures r.Ok? ==> |r.value.1| < |ts|
    decreases |ts|, 2
  {
    match ParseValue(nfc, ts, room)
    case Fail(refusal) => Fail(refusal)
    case Ok((s, rest)) =>
      if rest != [] && rest[0] == Mark(93) then Ok(([s], rest[1..]))
      else if rest == [] || rest[0] != Mark(44) then Fail(JsonSeparator)
      else
        match ParseItems(nfc, rest[1..], room)
        case Fail(refusal) => Fail(refusal)
        case Ok((more, after)) => Ok(([s] + more, after))
  }

  /** The check of one key that must not be among the earlier ones. */
  function ParseKey(nfc: Text -> bool, ts: seq<Token>, keys: set<Text>): Result<Text> {
    if ts == [] || !ts[0].Quoted? || !AdmittedString(nfc, ts[0].chars) then Fail(JsonString)
    else if Unescape(ts[0].chars) in keys then Fail(DuplicateJsonKey)
    else if |ts| < 2 || ts[1] != Mark(58) then Fail(JsonColon)
    else Ok(ts[0].chars)
  }

  function ParseMembers(nfc: Text -> bool, ts: seq<Token>, room: int, keys: set<Text>): (r: Parsed<seq<(Text, Syntax)>>)
    ensures r.Ok? ==> |r.value.1| < |ts|
    decreases |ts|, 2
  {
    match ParseKey(nfc, ts, keys)
    case Fail(refusal) => Fail(refusal)
    case Ok(key) =>
      match ParseValue(nfc, ts[2..], room)
      case Fail(refusal) => Fail(refusal)
      case Ok((s, rest)) =>
        if rest != [] && rest[0] == Mark(125) then Ok(([(key, s)], rest[1..]))
        else if rest == [] || rest[0] != Mark(44) then Fail(JsonSeparator)
        else
          match ParseMembers(nfc, rest[1..], room, keys + {Unescape(key)})
          case Fail(refusal) => Fail(refusal)
          case Ok((more, after)) => Ok(([(key, s)] + more, after))
  }

  /** `decodeJson` on a text. */
  function Decode(nfc: Text -> bool, text: Text): Result<Json> {
    match Lex(text)
    case Fail(refusal) => Fail(refusal)
    case Ok(tokens) =>
      match ParseValue(nfc, tokens, MAX_DEPTH)
      case Fail(refusal) => Fail(refusal)
      case Ok((s, rest)) => if rest == [] then Ok(ValueOf(s)) else Fail(JsonTrailingInput)
  }

  // ---- The reader: one cursor that its recursive calls share ----

  /** What is left after a successful parse. */
  function RestOf<S>(p: Parsed<S>): Result<seq<Token>> {
    match p case Fail(refusal) => Fail(refusal) case Ok((_, rest)) => Ok(rest)
  }

  function ElementsRest(nfc: Text -> bool, record: bool, ts: seq<Token>, room: int, keys: set<Text>): Result<seq<Token>> {
    if record then RestOf(ParseMembers(nfc, ts, room, keys)) else RestOf(ParseItems(nfc, ts, room))
  }

  /** One round of the loop over elements. */
  lemma ElementsStep(nfc: Text -> bool, record: bool, ts: seq<Token>, room: int, keys: set<Text>)
    ensures
      var key := ParseKey(nfc, ts, keys);
      ElementsRest(nfc, record, ts, room, keys) ==
        if record && key.Fail? then Fail(key.refusal)
        else
          match RestOf(ParseValue(nfc, if record then ts[2..] else ts, room))
          case Fail(refusal) => Fail(refusal)
          case Ok(rest) =>
            if rest != [] && rest[0] == Mark(if record then 125 else 93) then Ok(rest[1..])
            else if rest == [] || rest[0] != Mark(44) then Fail(JsonSeparator)
            else ElementsRest(nfc, record, rest[1..], room, if record then keys + {Unescape(key.value)} else keys)
  {
    hide ParseValue, ParseKey, Unescape;
    KeyLength(nfc, ts, keys);
  }

  lemma KeyLength(nfc: Text -> bool, ts: seq<Token>, keys: set<Text>)
    ensures ParseKey(nfc, ts, keys).Ok? ==> |ts| >= 2
  {
  }

  class JsonReader {
    const nfc: Text -> bool
    const tokens: seq<Token>
    var at: nat
    var token: Option<Token>

    ghost predicate Valid()
      reads this
    {
      at <= |tokens| && token == if at < |tokens| then Some(tokens[at]) else None
    }

    constructor (nfc: Text -> bool, tokens: seq<Token>)
      ensures Valid() && at == 0 && this.nfc == nfc && this.tokens == tokens
    {
      this.nfc, this.tokens, at := nfc, tokens, 0;
      token := if |tokens| > 0 then Some(tokens[0]) else None;
    }

    method Next()
      requires Valid() && at < |tokens|
      modifies this
      ensures Valid() && at == old(at) + 1
    {
      at := at + 1;
      token := if at < |tokens| then Some(tokens[at]) else None;
    }

    /** The outcome of a parse, with the cursor standing where that parse ended. */
    ghost predicate Follows(p: Result<seq<Token>>, r: Result<()>)
      reads this
    {
      && Valid()
      && (match p case Fail(refusal) => r == Fail(refusal) case Ok(rest) => r == Ok(()) && tokens[at..] == rest)
    }

    method Value(depth: nat) returns (r: Result<()>)
      requires Valid()
      modifies this
      ensures Follows(RestOf(ParseValue(nfc, tokens[old(at)..], MAX_DEPTH - depth)), r) && old(at) <= at
      decreases |tokens| - at, 1
    {
      ghost var ts := tokens[at..];
      if depth > MAX_DEPTH {
        return Fail(JsonDepth);
      }
      if token == Some(Mark(123)) || token == Some(Mark(91)) {
        var record := token == Some(Mark(123));
        var end := if record then Mark(125) else Mark(93);
        Next();
        assert tokens[at..] == ts[1..];
        if token == Some(end) {
          Next();
          assert tokens[at..] == ts[2..];
          return Ok(());
        }
        r := Elements(record, depth);
        return r;
      }
      if token.None? {
        return Fail(JsonInteger);
      }
      if !AdmittedLeaf(nfc, token.value) {
        return Fail(if token.value.Quoted? then JsonString else JsonInteger);
      }
      Next();
      assert tokens[at..] == ts[1..];
      r := Ok(());
    }

    /** The loop of `value` over the elements of a record or an array. */
    method Elements(record: bool, depth: nat) returns (r: Result<()>)
      requires Valid()
      modifies this
      ensures Follows(ElementsRest(nfc, record, tokens[old(at)..], MAX_DEPTH - depth - 1, {}), r) && old(at) <= at
      decreases |tokens| - at, 2
    {
      hide AdmittedLeaf, AdmittedString, ElementsRest, ParseValue, Unescape, ParseKey;
      var end := if record then Mark(125) else Mark(93);
      var keys: set<Text> := {};
      ghost var room := MAX_DEPTH - depth - 1;
      while true
        invariant Valid() && old(at) <= at
        invariant ElementsRest(nfc, record, tokens[old(at)..], room, {}) == ElementsRest(nfc, record, tokens[at..], room, keys)
        decreases |tokens| - at
      {
        ElementsStep(nfc, record, tokens[at..], room, keys);
        if record {
          var key := Key(keys);
          if key.Fail? {
            return Fail(key.refusal);
          }
          keys := keys + {Unescape(key.value)};
        }
        r := Value(depth + 1);
        if r.Fail? {
          return r;
        }
        if token == Some(end) {
          Next();
          return Ok(());
        }
        if token != Some(Mark(44)) {
          return Fail(JsonSeparator);
        }
        Next();
      }
    }

    /** A key, its colon, and no earlier key that reads the same. */
    method Key(keys: set<Text>) returns (r: Result<Text>)
      requires Valid()
      modifies this
      ensures Valid() && r == ParseKey(nfc, tokens[old(at)..], keys)
      ensures r.Ok? ==> at == old(at) + 2
      ensures r.Fail? ==> old(at) <= at
    {
      hide Unescape, AdmittedString;
      if token.None? || !token.value.Quoted? || !AdmittedString(nfc, token.value.chars) {
        return Fail(JsonString);
      }
      var chars := token.value.chars;
      if Unescape(chars) in keys {
        return Fail(DuplicateJsonKey);
      }
      Next();
      if token != Some(Mark(58)) {
        return Fail(JsonColon);
      }
      Next();
      r := Ok(chars);
    }
  }

  /** Lexical admission, the strict descent, no trailing token; only then is the value built. */
  method DecodeJson(nfc: Text -> bool, text: Text) returns (r: Result<Json>)
    ensures r == Decode(nfc, text)
  {
    hide AdmittedLeaf, ValueOf;
    var tokens := Tokenize(text);
    if tokens.Fail? {
      return Fail(tokens.refusal);
    }
    var reader := new JsonReader(nfc, tokens.value);
    assert tokens.value[0..] == tokens.value;
    var checked := reader.Value(0);
    if checked.Fail? {
      return Fail(checked.refusal);
    }
    if reader.token.Some? {
      return Fail(JsonTrailingInput);
    }
    r := Ok(ValueOf(ParseValue(nfc, tokens.value, MAX_DEPTH).value.0));
  }

  // ---- Exactness of the descent ----

  lemma {:induction false} ParseIsSound(nfc: Text -> bool, ts: seq<Token>, room: int)
    requires ParseValue(nfc, ts, room).Ok? && forall t :: t in ts ==> Good(t)
    ensures var (s, rest) := ParseValue(nfc, ts, room).value;
      ts == Flatten(s) + rest && Strict(nfc, s, room)
    decreases |ts|, 1
  {
    hide AdmittedLeaf, Good, ParseItems, ParseMembers, FlattenItems, FlattenMembers, StrictItems, StrictMembers;
    NoElements(nfc, room - 1);
    assert ts == [ts[0]] + ts[1..];
    if ts[0] == Mark(91) {
      if |ts| > 1 && ts[1] == Mark(93) {
        assert ts == [Mark(91), Mark(93)] + ts[2..];
      } else {
        ItemsAreSound(nfc, ts[1..], room - 1);
      }
    } else if ts[0] == Mark(123) {
      if |ts| > 1 && ts[1] == Mark(125) {
        assert ts == [Mark(123), Mark(125)] + ts[2..];
      } else {
        MembersAreSound(nfc, ts[1..], room - 1, {});
      }
    }
  }

  lemma {:induction false} ItemsAreSound(nfc: Text -> bool, ts: seq<Token>, room: int)
    requires ParseItems(nfc, ts, room).Ok? && forall t :: t in ts ==> Good(t)
    ensures var (items, rest) := ParseItems(nfc, ts, room).value;
      items != [] && ts == FlattenItems(items) + [Mark(93)] + rest && StrictItems(nfc, items, room)
    decreases |ts|, 2
  {
    hide AdmittedLeaf, Good, ParseValue, Flatten, Strict;
    var (s, rest) := ParseValue(nfc, ts, room).value;
    ParseIsSound(nfc, ts, room);
    assert rest == [rest[0]] + rest[1..];
    if rest[0] != Mark(93) {
      assert forall t :: t in rest[1..] ==> t in ts;
      ItemsAreSound(nfc, rest[1..], room);
      var (more, after) := ParseItems(nfc, rest[1..], room).value;
      assert ([s] + more)[1..] == more;
    }
  }

  lemma {:induction false} MembersAreSound(nfc: Text -> bool, ts: seq<Token>, room: int, keys: set<Text>)
    requires ParseMembers(nfc, ts, room, keys).Ok? && forall t :: t in ts ==> Good(t)
    ensures var (members, rest) := ParseMembers(nfc, ts, room, keys).value;
      members != [] && ts == FlattenMembers(members) + [Mark(125)] + rest && StrictMembers(nfc, members, room, keys)
    decreases |ts|, 2
  {
    hide AdmittedString, Unescape, Good, ParseValue, ParseKey, Flatten, FlattenMember, FlattenMembers, Strict,
         StrictMembers, Chars;
    var key := ParseKey(nfc, ts, keys).value;
    KeyIsSound(nfc, ts, keys);
    var (s, rest) := ParseValue(nfc, ts[2..], room).value;
    ParseIsSound(nfc, ts[2..], room);
    assert rest == [rest[0]] + rest[1..];
    MemberTokens(key, s);
    if rest[0] == Mark(125) {
      MemberJoins(nfc, key, s, [], room, keys);
      assert [(key, s)] + [] == [(key, s)];
    } else {
      assert forall t :: t in rest[1..] ==> t in ts[2..];
      MembersAreSound(nfc, rest[1..], room, keys + {Unescape(key)});
      var (more, after) := ParseMembers(nfc, rest[1..], room, keys + {Unescape(key)}).value;
      MemberJoins(nfc, key, s, more, room, keys);
    }
  }

  lemma MemberJoins(nfc: Text -> bool, key: Text, s: Syntax, more: seq<(Text, Syntax)>, room: int, keys: set<Text>)
    requires Chars(key) && AdmittedString(nfc, key) && Unescape(key) !in keys && Strict(nfc, s, room)
    requires more == [] || StrictMembers(nfc, more, room, keys + {Unescape(key)})
    ensures StrictMembers(nfc, [(key, s)] + more, room, keys)
    ensures FlattenMembers([(key, s)] + more)
         == if more == [] then FlattenMember((key, s)) else FlattenMember((key, s)) + [Mark(44)] + FlattenMembers(more)
  {
    hide AdmittedString, Unescape, Chars, Strict, FlattenMember;
    assert ([(key, s)] + more)[1..] == more;
  }

  lemma MemberTokens(key: Text, s: Syntax)
    ensures FlattenMember((key, s)) == [Quoted(key), Mark(58)] + Flatten(s)
  {
  }

  lemma KeyIsSound(nfc: Text -> bool, ts: seq<Token>, keys: set<Text>)
    requires ParseKey(nfc, ts, keys).Ok? && forall t :: t in ts ==> Good(t)
    ensures var key := ParseKey(nfc, ts, keys).value;
      && |ts| >= 2 && ts == [Quoted(key), Mark(58)] + ts[2..]
      && Chars(key) && AdmittedString(nfc, key) && Unescape(key) !in keys
  {
    assert ts[0] in ts;
  }

  // ---- Completeness ----

  lemma LeafIsNoMark(nfc: Text -> bool, token: Token)
    requires AdmittedLeaf(nfc, token)
    ensures !token.Mark?
  {
  }

  lemma ItemsEnd(nfc: Text -> bool, ts: seq<Token>, room: int, s: Syntax, rest: seq<Token>)
    requires ParseValue(nfc, ts, room) == Ok((s, [Mark(93)] + rest))
    ensures ParseItems(nfc, ts, room) == Ok(([s], rest))
  {
    hide ParseValue;
  }

  lemma ItemsGoOn(
      nfc: Text -> bool, ts: seq<Token>, room: int, s: Syntax, next: seq<Token>, more: seq<Syntax>, rest: seq<Token>)
    requires ParseValue(nfc, ts, room) == Ok((s, [Mark(44)] + next))
    requires ParseItems(nfc, next, room) == Ok((more, rest))
    ensures ParseItems(nfc, ts, room) == Ok(([s] + more, rest))
  {
    hide ParseValue;
    assert ([Mark(44)] + next)[1..] == next;
  }

  lemma MembersEnd(
      nfc: Text -> bool, ts: seq<Token>, room: int, keys: set<Text>, key: Text, s: Syntax, rest: seq<Token>)
    requires ParseKey(nfc, ts, keys) == Ok(key) && |ts| >= 2
    requires ParseValue(nfc, ts[2..], room) == Ok((s, [Mark(125)] + rest))
    ensures ParseMembers(nfc, ts, room, keys) == Ok(([(key, s)], rest))
  {
    hide ParseValue, ParseKey;
  }

  lemma MembersGoOn(
      nfc: Text -> bool, ts: seq<Token>, room: int, keys: set<Text>, key: Text, s: Syntax, next: seq<Token>,
      more: seq<(Text, Syntax)>, rest: seq<Token>)
    requires ParseKey(nfc, ts, keys) == Ok(key) && |ts| >= 2
    requires ParseValue(nfc, ts[2..], room) == Ok((s, [Mark(44)] + next))
    requires ParseMembers(nfc, next, room, keys + {Unescape(key)}) == Ok((more, rest))
    ensures ParseMembers(nfc, ts, room, keys) == Ok(([(key, s)] + more, rest))
  {
    hide ParseValue, ParseKey, Unescape;
    assert ([Mark(44)] + next)[1..] == next;
  }

  lemma KeyIsComplete(nfc: Text -> bool, key: Text, after: seq<Token>, keys: set<Text>)
    requires AdmittedString(nfc, key) && Unescape(key) !in keys
    ensures ParseKey(nfc, [Quoted(key), Mark(58)] + after, keys) == Ok(key)
  {
    hide AdmittedString, Unescape;
  }

  lemma {:induction false} ParseIsComplete(nfc: Text -> bool, s: Syntax, room: int, rest: seq<Token>)
    requires Strict(nfc, s, room)
    ensures ParseValue(nfc, Flatten(s) + rest, room) == Ok((s, rest))
    decreases s, 1
  {
    hide AdmittedLeaf, Good, ParseItems, ParseMembers, FlattenItems, FlattenMembers;
    var ts := Flatten(s) + rest;
    match s {
      case Leaf(token) =>
        assert ts[1..] == rest;
        LeafIsNoMark(nfc, token);
      case List(items) =>
        if items == [] {
          NoElements(nfc, room - 1);
          assert ts[2..] == rest;
        } else {
          ItemsAreComplete(nfc, items, room - 1, rest);
          assert ts[1..] == FlattenItems(items) + [Mark(93)] + rest;
          ItemsStart(nfc, items, room - 1, rest);
        }
      case Record(members) =>
        if members == [] {
          NoElements(nfc, room - 1);
          assert ts[2..] == rest;
        } else {
          MembersAreComplete(nfc, members, room - 1, {}, rest);
          assert ts[1..] == FlattenMembers(members) + [Mark(125)] + rest;
          MembersStart(members, rest);
        }
    }
  }

  lemma NoElements(nfc: Text -> bool, room: int)
    ensures FlattenItems([]) == [] && FlattenMembers([]) == []
    ensures StrictItems(nfc, [], room) && StrictMembers(nfc, [], room, {})
  {
  }

  /** A value never starts with a closing bracket. */
  lemma ItemsStart(nfc: Text -> bool, items: seq<Syntax>, room: int, rest: seq<Token>)
    requires items != [] && StrictItems(nfc, items, room)
    ensures (FlattenItems(items) + [Mark(93)] + rest)[0] != Mark(93)
  {
    var first := Flatten(items[0]);
    assert first != [] && first[0] != Mark(93);
    assert (FlattenItems(items) + [Mark(93)] + rest)[0] == first[0];
  }

  lemma MembersStart(members: seq<(Text, Syntax)>, rest: seq<Token>)
    requires members != []
    ensures (FlattenMembers(members) + [Mark(125)] + rest)[0] == Quoted(members[0].0)
  {
    hide Flatten;
    MemberTokens(members[0].0, members[0].1);
    assert members[0] == (members[0].0, members[0].1);
  }

  lemma {:induction false} ItemsAreComplete(nfc: Text -> bool, items: seq<Syntax>, room: int, rest: seq<Token>)
    requires items != [] && StrictItems(nfc, items, room)
    ensures ParseItems(nfc, FlattenItems(items) + [Mark(93)] + rest, room) == Ok((items, rest))
    decreases items, 0
  {
    hide Strict, ParseValue, ParseItems, Flatten;
    var ts := FlattenItems(items) + [Mark(93)] + rest;
    if |items| == 1 {
      ParseIsComplete(nfc, items[0], room, [Mark(93)] + rest);
      assert ts == Flatten(items[0]) + ([Mark(93)] + rest);
      ItemsEnd(nfc, ts, room, items[0], rest);
      assert items == [items[0]];
    } else {
      var more := FlattenItems(items[1..]) + [Mark(93)] + rest;
      ParseIsComplete(nfc, items[0], room, [Mark(44)] + more);
      ItemsAreComplete(nfc, items[1..], room, rest);
      assert ts == Flatten(items[0]) + ([Mark(44)] + more);
      ItemsGoOn(nfc, ts, room, items[0], more, items[1..], rest);
      assert items == [items[0]] + items[1..];
    }
  }

  /** The tokens of a member list, one key at a time. */
  lemma MembersLayout(members: seq<(Text, Syntax)>, rest: seq<Token>)
    requires members != []
    ensures var ts := FlattenMembers(members) + [Mark(125)] + rest;
      && |ts| >= 2 && ts == [Quoted(members[0].0), Mark(58)] + ts[2..]
      && ts[2..] == Flatten(members[0].1)
                    + if |members| == 1 then [Mark(125)] + rest
                      else [Mark(44)] + (FlattenMembers(members[1..]) + [Mark(125)] + rest)
  {
    hide Flatten, FlattenMember;
    var key, value := [Quoted(members[0].0), Mark(58)], Flatten(members[0].1);
    MemberTokens(members[0].0, members[0].1);
    assert members[0] == (members[0].0, members[0].1);
    if |members| == 1 {
      Regroup(key, value, [], [], [Mark(125)], rest);
    } else {
      Regroup(key, value, [Mark(44)], FlattenMembers(members[1..]), [Mark(125)], rest);
    }
  }

  lemma Regroup<T>(a: seq<T>, b: seq<T>, c: seq<T>, d: seq<T>, e: seq<T>, f: seq<T>)
    ensures a + b + c + d + e + f == a + (b + (c + (d + e + f)))
    ensures c == [] && d == [] ==> a + b + e + f == a + (b + (e + f))
    ensures (a + (b + (c + (d + e + f))))[|a|..] == b + (c + (d + e + f))
    ensures (a + (b + (e + f)))[|a|..] == b + (e + f)
  {
    assert a + b + c + d + e + f == a + b + c + (d + e + f);
    assert a + b + c + (d + e + f) == a + b + (c + (d + e + f));
  }

  lemma {:induction false} MembersAreComplete(
      nfc: Text -> bool, members: seq<(Text, Syntax)>, room: int, keys: set<Text>, rest: seq<Token>)
    requires members != [] && StrictMembers(nfc, members, room, keys)
    ensures ParseMembers(nfc, FlattenMembers(members) + [Mark(125)] + rest, room, keys) == Ok((members, rest))
    decreases members, 0
  {
    hide Strict, AdmittedString, Unescape, ParseValue, ParseMembers, ParseKey, Flatten, FlattenMembers, Chars;
    var first := members[0];
    assert first.1 < first && first == (first.0, first.1);
    var ts := FlattenMembers(members) + [Mark(125)] + rest;
    MembersLayout(members, rest);
    KeyIsComplete(nfc, first.0, ts[2..], keys);
    if |members| == 1 {
      ParseIsComplete(nfc, first.1, room, [Mark(125)] + rest);
      MembersEnd(nfc, ts, room, keys, first.0, first.1, rest);
      assert members == [first];
    } else {
      var more := FlattenMembers(members[1..]) + [Mark(125)] + rest;
      ParseIsComplete(nfc, first.1, room, [Mark(44)] + more);
      MembersAreComplete(nfc, members[1..], room, keys + {Unescape(first.0)}, rest);
      MembersGoOn(nfc, ts, room, keys, first.0, first.1, more, members[1..], rest);
      assert members == [first] + members[1..];
    }
  }

  // ---- No two integers touch ----

  lemma SeparatedJoin(a: seq<Token>, m: Token, b: seq<Token>)
    requires Separated(a) && Separated(b) && !m.Integral?
    ensures Separated(a + [m] + b)
  {
    var all := a + [m] + b;
    forall i | 0 < i < |all| ensures !(all[i - 1].Integral? && all[i].Integral?) {
      if i < |a| {
        assert all[i] == a[i] && all[i - 1] == a[i - 1];
      } else if i > |a| + 1 {
        assert all[i] == b[i - |a| - 1] && all[i - 1] == b[i - |a| - 2];
      }
    }
  }

  lemma {:induction false} FlattenSeparated(s: Syntax)
    ensures Separated(Flatten(s))
    decreases s, 1
  {
    match s {
      case Leaf(_) =>
      case List(items) =>
        ItemsSeparated(items);
        SeparatedJoin([], Mark(91), FlattenItems(items));
        assert [] + [Mark(91)] + FlattenItems(items) == [Mark(91)] + FlattenItems(items);
        SeparatedJoin([Mark(91)] + FlattenItems(items), Mark(93), []);
        assert Flatten(s) == ([Mark(91)] + FlattenItems(items)) + [Mark(93)] + [];
      case Record(members) =>
        MembersSeparated(members);
        SeparatedJoin([], Mark(123), FlattenMembers(members));
        assert [] + [Mark(123)] + FlattenMembers(members) == [Mark(123)] + FlattenMembers(members);
        SeparatedJoin([Mark(123)] + FlattenMembers(members), Mark(125), []);
        assert Flatten(s) == ([Mark(123)] + FlattenMembers(members)) + [Mark(125)] + [];
    }
  }

  lemma {:induction false} ItemsSeparated(items: seq<Syntax>)
    ensures Separated(FlattenItems(items))
    decreases items, 0
  {
    hide Flatten, Separated;
    if items == [] {
      NothingSeparated();
    } else {
      FlattenSeparated(items[0]);
      if |items| > 1 {
        ItemsSeparated(items[1..]);
        SeparatedJoin(Flatten(items[0]), Mark(44), FlattenItems(items[1..]));
      }
    }
  }

  lemma NothingSeparated()
    ensures Separated([])
  {
  }

  lemma {:induction false} MembersSeparated(members: seq<(Text, Syntax)>)
    ensures Separated(FlattenMembers(members))
    decreases members, 0
  {
    hide Flatten, Separated, FlattenMember;
    if members == [] {
      NothingSeparated();
    } else {
      var first := members[0];
      assert first.1 < first && first == (first.0, first.1);
      FlattenSeparated(first.1);
      KeySeparated(first.0);
      MemberTokens(first.0, first.1);
      SeparatedJoin([Quoted(first.0)], Mark(58), Flatten(first.1));
      assert [Quoted(first.0)] + [Mark(58)] + Flatten(first.1) == FlattenMember(first);
      if |members| > 1 {
        MembersSeparated(members[1..]);
        SeparatedJoin(FlattenMember(first), Mark(44), FlattenMembers(members[1..]));
      }
    }
  }

  lemma KeySeparated(key: Text)
    ensures Separated([Quoted(key)])
  {
  }

  // ---- The main theorem ----

  /** The text is RFC 8259 JSON of this syntax: its tokens in order, whitespace anywhere around them. */
  ghost predicate Written(s: Syntax, text: Text) {
    exists gaps :: LaidOut(gaps, Flatten(s), text)
  }

  lemma {:induction false} LaidOutIsGood(gaps: seq<Text>, tokens: seq<Token>, t: Text)
    requires LaidOut(gaps, tokens, t)
    ensures forall token :: token in tokens ==> Good(token)
    decreases |tokens|
  {
    hide Good, Spell;
    if tokens != [] {
      LaidOutIsGood(gaps[1..], tokens[1..], t[|gaps[0] + Spell(tokens[0])|..]);
      assert tokens == [tokens[0]] + tokens[1..];
    }
  }

  /** The strict reader accepts exactly the RFC 8259 texts within its restrictions, and returns what they
      denote. In particular no accepted text has a duplicate decoded key or an unsafe integer. */
  lemma DecodesExactlyTheGrammar(nfc: Text -> bool, text: Text, v: Json)
    ensures Decode(nfc, text) == Ok(v)
       <==> exists s :: Written(s, text) && Strict(nfc, s, MAX_DEPTH) && ValueOf(s) == v
  {
    hide Strict, Lex, ParseValue, LaidOut, ValueOf, Good, Flatten;
    if Decode(nfc, text) == Ok(v) {
      var tokens := Lex(text).value;
      var gaps := LexIsSound(text);
      LaidOutIsGood(gaps, tokens, text);
      var (s, rest) := ParseValue(nfc, tokens, MAX_DEPTH).value;
      ParseIsSound(nfc, tokens, MAX_DEPTH);
      assert Flatten(s) + [] == Flatten(s);
      assert Written(s, text);
    }
    if s :| Written(s, text) && Strict(nfc, s, MAX_DEPTH) && ValueOf(s) == v {
      WrittenDecodes(nfc, s, text);
    }
  }

  lemma WrittenDecodes(nfc: Text -> bool, s: Syntax, text: Text)
    requires Written(s, text) && Strict(nfc, s, MAX_DEPTH)
    ensures Decode(nfc, text) == Ok(ValueOf(s))
  {
    hide Strict, Lex, ParseValue, LaidOut, ValueOf, Good, Flatten;
    var gaps :| LaidOut(gaps, Flatten(s), text);
    FlattenSeparated(s);
    LexIsComplete(gaps, Flatten(s), text);
    ParseIsComplete(nfc, s, MAX_DEPTH, []);
    assert Flatten(s) + [] == Flatten(s);
  }
}
