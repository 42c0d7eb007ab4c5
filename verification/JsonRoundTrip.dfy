/** Canonical JSON and the strict reader undo each other. */
module JsonRoundTrip {
  import opened Texts
  import opened JsonData
  import opened ReleaseModel
  import opened Pairs
  import opened Utf8
  import opened Identity
  import opened JsonTokens
  import opened NativeJson

  // ---- Data ----

  /** Plain data: an object has each key once, and values nest at most `room` deep. */
  ghost predicate Data(v: Json, room: int)
    decreases room
  {
    && room >= 0
    && match v
       case Array(items) => forall i :: 0 <= i < |items| ==> Data(items[i], room - 1)
       case Object(members) => DistinctKeys(members) && forall i :: 0 <= i < |members| ==> Data(members[i].1, room - 1)
       case _ => true
  }

  /** The value with the members of every object in key order: what data is, apart from how its
      members happened to be written. */
  function Normal(v: Json): Json
    decreases v, 1
  {
    match v
    case Array(items) => Array(NormalItems(items))
    case Object(members) => Object(SortPairs(NormalPairs(members)))
    case _ => v
  }

  function NormalItems(items: seq<Json>): (r: seq<Json>)
    ensures |r| == |items|
    decreases items, 0
  {
    if items == [] then [] else [Normal(items[0])] + NormalItems(items[1..])
  }

  function NormalPairs(members: seq<(Text, Json)>): (r: seq<(Text, Json)>)
    decreases members, 0
  {
    if members == [] then []
    else
      var first := members[0];
      assert first.1 < first;
      [(first.0, Normal(first.1))] + NormalPairs(members[1..])
  }

  // ---- The syntax that canonical JSON writes ----

  function Syn(v: Json): Syntax
    decreases v, 1
  {
    match v
    case Null => Leaf(Literal(NULL))
    case Bool(b) => Leaf(Literal(if b then TRUE else FALSE))
    case Number(n) => Leaf(Integral(Integer(n)))
    case String(t) => Leaf(Quoted(Escape(t)))
    case Array(items) => List(SynItems(items))
    case Object(members) => Record(EscapeKeys(SortPairs(SynPairs(members))))
  }

  function SynItems(items: seq<Json>): (r: seq<Syntax>)
    ensures |r| == |items|
    decreases items, 0
  {
    if items == [] then [] else [Syn(items[0])] + SynItems(items[1..])
  }

  function SynPairs(members: seq<(Text, Json)>): seq<(Text, Syntax)>
    decreases members, 0
  {
    if members == [] then []
    else
      var first := members[0];
      assert first.1 < first;
      [(first.0, Syn(first.1))] + SynPairs(members[1..])
  }

  function EscapeKeys(ps: seq<(Text, Syntax)>): seq<(Text, Syntax)> {
    if ps == [] then [] else [(Escape(ps[0].0), ps[0].1)] + EscapeKeys(ps[1..])
  }

  function Concat(tokens: seq<Token>): Text {
    if tokens == [] then [] else Spell(tokens[0]) + Concat(tokens[1..])
  }

  // ---- Scalars read back ----

  lemma EscapedUnit(u: CodeUnit, more: Text)
    ensures var c := EscapeUnit(u) + more;
      CharLength(c) == |EscapeUnit(u)| && UnescapeChar(c) == u && c[|EscapeUnit(u)|..] == more
  {
    var e := EscapeUnit(u);
    var c := e + more;
    assert forall i :: 0 <= i < |e| ==> c[i] == e[i];
    if |e| == 6 {
      assert c[2..][0] == 48 && c[2..][1] == 48;
      assert c[2..][2] == HexDigit(u / 16) && c[2..][3] == HexDigit(u % 16);
    }
  }

  lemma {:induction false} EscapeReadsBack(t: Text)
    ensures Chars(Escape(t)) && Unescape(Escape(t)) == t
  {
    hide EscapeUnit, CharLength, UnescapeChar;
    if t == [] {
      NothingIsNoChar();
    } else {
      EscapeReadsBack(t[1..]);
      EscapedUnit(t[0], Escape(t[1..]));
      EscapeNotEmpty(t[0]);
      assert t == [t[0]] + t[1..];
    }
  }

  lemma NothingIsNoChar()
    ensures CharLength([]) == 0
  {
  }

  lemma EscapeNotEmpty(u: CodeUnit)
    ensures EscapeUnit(u) != []
  {
  }

  lemma {:induction false} DigitsReadBack(n: nat)
    ensures AllDigits(Digits(n)) && DigitsValue(Digits(n)) == n
    ensures Digits(n)[0] == 48 ==> n == 0 && Digits(n) == [48]
  {
    if n >= 10 {
      DigitsReadBack(n / 10);
      var d := Digits(n);
      assert d[..|d| - 1] == Digits(n / 10) && d[0] == Digits(n / 10)[0];
    } else {
      assert DigitsValue([]) == 0;
      assert Digits(n)[..0] == [];
    }
  }

  lemma IntegerReadsBack(n: int)
    ensures IsIntegral(Integer(n)) && IntegerValue(Integer(n)) == n && Integer(n) != NEGATIVE_ZERO
  {
    var d := Digits(if n < 0 then -n else n);
    DigitsReadBack(if n < 0 then -n else n);
    if n < 0 {
      assert Integer(n)[1..] == d;
      assert NEGATIVE_ZERO[1..] == [48];
    }
  }

  // ---- Concatenation ----

  lemma {:induction false} ConcatJoin(a: seq<Token>, b: seq<Token>)
    ensures Concat(a + b) == Concat(a) + Concat(b)
  {
    if a == [] {
      assert a + b == b;
    } else {
      assert (a + b)[1..] == a[1..] + b;
      ConcatJoin(a[1..], b);
    }
  }

  lemma ConcatOne(token: Token)
    ensures Concat([token]) == Spell(token)
  {
    assert Spell(token) + [] == Spell(token);
  }

  lemma {:induction false} ConcatLaidOut(tokens: seq<Token>) returns (gaps: seq<Text>)
    requires forall token :: token in tokens ==> Good(token)
    ensures LaidOut(gaps, tokens, Concat(tokens))
  {
    hide Good, Spell;
    if tokens == [] {
      gaps := [[]];
    } else {
      var rest := ConcatLaidOut(tokens[1..]);
      gaps := [[]] + rest;
      assert gaps[1..] == rest && tokens[0] in tokens;
      assert [] + Spell(tokens[0]) == Spell(tokens[0]);
      assert Concat(tokens)[|Spell(tokens[0])|..] == Concat(tokens[1..]);
    }
  }

  lemma {:induction false} StrictIsGood(nfc: Text -> bool, s: Syntax, room: int)
    requires Strict(nfc, s, room)
    ensures forall token :: token in Flatten(s) ==> Good(token)
    decreases s, 1
  {
    hide AdmittedLeaf, AdmittedString, Chars, Unescape;
    match s {
      case Leaf(_) =>
      case List(items) => ItemsAreGood(nfc, items, room - 1);
      case Record(members) => MembersAreGood(nfc, members, room - 1, {});
    }
  }

  lemma {:induction false} ItemsAreGood(nfc: Text -> bool, items: seq<Syntax>, room: int)
    requires StrictItems(nfc, items, room)
    ensures forall token :: token in FlattenItems(items) ==> Good(token)
    decreases items, 0
  {
    hide Flatten, Strict;
    if items != [] {
      StrictIsGood(nfc, items[0], room);
      ItemsAreGood(nfc, items[1..], room);
    }
  }

  lemma {:induction false} MembersAreGood(nfc: Text -> bool, members: seq<(Text, Syntax)>, room: int, keys: set<Text>)
    requires StrictMembers(nfc, members, room, keys)
    ensures forall token :: token in FlattenMembers(members) ==> Good(token)
    decreases members, 0
  {
    hide Flatten, Strict, AdmittedString, Unescape, FlattenMember;
    if members != [] {
      var first := members[0];
      assert first.1 < first && first == (first.0, first.1);
      StrictIsGood(nfc, first.1, room);
      MemberTokens(first.0, first.1);
      MembersAreGood(nfc, members[1..], room, keys + {Unescape(first.0)});
    }
  }

  // ---- Sorting and mapping commute ----

  lemma {:induction false} InsertMaps<V, W>(f: V -> W, p: (Text, V), ps: seq<(Text, V)>)
    ensures MapPairs(f, InsertPair(p, ps)) == InsertPair((p.0, f(p.1)), MapPairs(f, ps))
  {
    if ps == [] || !Before(ps[0].0, p.0) {
      assert ([p] + ps)[1..] == ps;
    } else {
      InsertMaps(f, p, ps[1..]);
      assert ([ps[0]] + InsertPair(p, ps[1..]))[1..] == InsertPair(p, ps[1..]);
      var mapped := MapPairs(f, ps);
      assert mapped[1..] == MapPairs(f, ps[1..]);
    }
  }

  lemma {:induction false} SortMaps<V, W>(f: V -> W, ps: seq<(Text, V)>)
    ensures SortPairs(MapPairs(f, ps)) == MapPairs(f, SortPairs(ps))
  {
    if ps != [] {
      SortMaps(f, ps[1..]);
      InsertMaps(f, ps[0], SortPairs(ps[1..]));
      assert MapPairs(f, ps)[1..] == MapPairs(f, ps[1..]);
    }
  }

  lemma {:induction false} PairsAreMaps(members: seq<(Text, Json)>)
    ensures SynPairs(members) == MapPairs(v => Syn(v), members)
    ensures NormalPairs(members) == MapPairs(v => Normal(v), members)
  {
    if members != [] {
      PairsAreMaps(members[1..]);
    }
  }

  /** The three encodings of an object all follow its members in key order. */
  lemma ObjectInOrder(nfc: Text -> bool, members: seq<(Text, Json)>)
    ensures SortPairs(EncodedValues(nfc, members)) == EncodedValues(nfc, SortPairs(members))
    ensures SortPairs(SynPairs(members)) == SynPairs(SortPairs(members))
    ensures SortPairs(NormalPairs(members)) == NormalPairs(SortPairs(members))
  {
    hide Canonical, Syn, Normal;
    var sorted := SortPairs(members);
    PairsAreMaps(members);
    PairsAreMaps(sorted);
    EncodedValuesIsMap(nfc, members);
    EncodedValuesIsMap(nfc, sorted);
    SortMaps(v => Canonical(nfc, v), members);
    SortMaps(v => Syn(v), members);
    SortMaps(v => Normal(v), members);
  }

  lemma SortedData(members: seq<(Text, Json)>, room: int)
    requires DistinctKeys(members) && forall i :: 0 <= i < |members| ==> Data(members[i].1, room)
    ensures KeysAscend(SortPairs(members)) && DistinctKeys(SortPairs(members))
    ensures forall i :: 0 <= i < |SortPairs(members)| ==> Data(SortPairs(members)[i].1, room)
  {
    hide Data;
    var sorted := SortPairs(members);
    SortAscends(members);
    forall i, j | 0 <= i < j < |sorted| ensures sorted[i].0 != sorted[j].0 {
      BeforeIrreflexive(sorted[i].0);
    }
    forall i | 0 <= i < |sorted| ensures Data(sorted[i].1, room) {
      SortMember(members, sorted[i]);
      var k :| 0 <= k < |members| && members[k] == sorted[i];
    }
  }

  // ---- Canonical text is the spelling of its syntax ----

  ghost predicate Faithful(nfc: Text -> bool, v: Json, room: int) {
    && Canonical(nfc, v) == Ok(Concat(Flatten(Syn(v))))
    && Strict(nfc, Syn(v), room)
    && ValueOf(Syn(v)) == Normal(v)
  }

  lemma {:induction false} CanonicalIsFaithful(nfc: Text -> bool, v: Json, room: int)
    requires Data(v, room) && Canonical(nfc, v).Ok?
    ensures Faithful(nfc, v, room)
    decreases room, 1, 0
  {
    match v {
      case Array(items) =>
        ItemsAreFaithful(nfc, items, room - 1);
        ArrayIsFaithful(nfc, items, room);
      case Object(members) =>
        ObjectInOrder(nfc, members);
        SortedData(members, room - 1);
        MembersAreFaithful(nfc, SortPairs(members), room - 1, {});
        ObjectIsFaithful(nfc, members, room);
      case _ => ScalarIsFaithful(nfc, v, room);
    }
  }

  lemma ScalarIsFaithful(nfc: Text -> bool, v: Json, room: int)
    requires !v.Array? && !v.Object? && room >= 0 && Canonical(nfc, v).Ok?
    ensures Faithful(nfc, v, room)
  {
    hide Escape, Unescape, Chars, Digits, IntegerValue, IsIntegral, Integer;
    assert Syn(v).Leaf? && Flatten(Syn(v)) == [Syn(v).token];
    ConcatOne(Syn(v).token);
    match v {
      case String(t) => EscapeReadsBack(t);
      case Number(n) => IntegerReadsBack(n);
      case Bool(b) => assert TRUE[0] == 116 && FALSE[0] == 102 && NULL[0] == 110;
      case _ =>
    }
  }

  lemma ArrayIsFaithful(nfc: Text -> bool, items: seq<Json>, room: int)
    requires room >= 0 && CanonicalItems(nfc, items).Ok?
    requires JoinItems(CanonicalItems(nfc, items).value) == Concat(FlattenItems(SynItems(items)))
    requires StrictItems(nfc, SynItems(items), room - 1) && ItemValues(SynItems(items)) == NormalItems(items)
    ensures Faithful(nfc, Array(items), room)
  {
    hide CanonicalItems, FlattenItems, SynItems, StrictItems, ItemValues, NormalItems, JoinItems;
    Bracketed(Mark(91), FlattenItems(SynItems(items)), Mark(93));
  }

  lemma Bracketed(open: Token, inner: seq<Token>, close: Token)
    ensures Concat([open] + inner + [close]) == Spell(open) + Concat(inner) + Spell(close)
  {
    ConcatJoin([open] + inner, [close]);
    ConcatJoin([open], inner);
    ConcatOne(open);
    ConcatOne(close);
  }

  lemma {:induction false} ItemsAreFaithful(nfc: Text -> bool, items: seq<Json>, room: int)
    requires CanonicalItems(nfc, items).Ok? && forall i :: 0 <= i < |items| ==> Data(items[i], room)
    ensures JoinItems(CanonicalItems(nfc, items).value) == Concat(FlattenItems(SynItems(items)))
    ensures StrictItems(nfc, SynItems(items), room) && ItemValues(SynItems(items)) == NormalItems(items)
    ensures |CanonicalItems(nfc, items).value| == |items|
    decreases room, 2, |items|
  {
    hide Data, Canonical, Strict, ValueOf, Normal, Syn, Flatten;
    if items != [] {
      RoomFor(items[0], room);
      CanonicalIsFaithful(nfc, items[0], room);
      ItemsAreFaithful(nfc, items[1..], room);
      var tail := SynItems(items[1..]);
      assert SynItems(items)[1..] == tail;
      if |items| > 1 {
        Separator(Flatten(Syn(items[0])), FlattenItems(tail));
      }
    }
  }

  lemma RoomFor(v: Json, room: int)
    requires Data(v, room)
    ensures room >= 0
  {
  }

  lemma Separator(a: seq<Token>, b: seq<Token>)
    ensures Concat(a + [Mark(44)] + b) == Concat(a) + [44] + Concat(b)
  {
    ConcatJoin(a + [Mark(44)], b);
    ConcatJoin(a, [Mark(44)]);
    ConcatOne(Mark(44));
  }

  lemma {:induction false} MembersAreFaithful(nfc: Text -> bool, ps: seq<(Text, Json)>, room: int, keys: set<Text>)
    requires CanonicalMembers(nfc, EncodedValues(nfc, ps)).Ok?
    requires DistinctKeys(ps) && forall i :: 0 <= i < |ps| ==> Data(ps[i].1, room) && ps[i].0 !in keys
    ensures JoinItems(CanonicalMembers(nfc, EncodedValues(nfc, ps)).value)
         == Concat(FlattenMembers(EscapeKeys(SynPairs(ps))))
    ensures StrictMembers(nfc, EscapeKeys(SynPairs(ps)), room, keys)
    ensures MemberValues(EscapeKeys(SynPairs(ps))) == NormalPairs(ps)
    ensures |CanonicalMembers(nfc, EncodedValues(nfc, ps)).value| == |ps| == |EscapeKeys(SynPairs(ps))|
    decreases room, 2, |ps|
  {
    hide Data, Canonical, Strict, ValueOf, Normal, Syn, Flatten, Escape, Unescape, FlattenMember, CanonicalString, Chars;
    if ps != [] {
      var first := ps[0];
      RoomFor(first.1, room);
      assert EncodedValues(nfc, ps)[1..] == EncodedValues(nfc, ps[1..]);
      MembersAreFaithful(nfc, ps[1..], room, keys + {first.0});
      CanonicalIsFaithful(nfc, first.1, room);
      KeyIsFaithful(nfc, first.0);
      var tail := EscapeKeys(SynPairs(ps[1..]));
      assert EscapeKeys(SynPairs(ps)) == [(Escape(first.0), Syn(first.1))] + tail;
      assert EscapeKeys(SynPairs(ps))[1..] == tail;
      MemberSpelled(first.0, Syn(first.1));
      if |ps| > 1 {
        Separator(FlattenMember((Escape(first.0), Syn(first.1))), FlattenMembers(tail));
      }
    }
  }

  lemma KeyIsFaithful(nfc: Text -> bool, key: Text)
    requires CanonicalString(nfc, key).Ok?
    ensures CanonicalString(nfc, key) == Ok(Quote(key))
    ensures Chars(Escape(key)) && AdmittedString(nfc, Escape(key)) && Unescape(Escape(key)) == key
  {
    hide Escape, Unescape, Chars;
    EscapeReadsBack(key);
  }

  lemma MemberSpelled(key: Text, s: Syntax)
    ensures Concat(FlattenMember((Escape(key), s))) == Quote(key) + [58] + Concat(Flatten(s))
  {
    hide Escape, Flatten, FlattenMember;
    MemberTokens(Escape(key), s);
    ConcatJoin([Quoted(Escape(key)), Mark(58)], Flatten(s));
    ConcatJoin([Quoted(Escape(key))], [Mark(58)]);
    ConcatOne(Quoted(Escape(key)));
    ConcatOne(Mark(58));
    assert [Quoted(Escape(key))] + [Mark(58)] == [Quoted(Escape(key)), Mark(58)];
  }

  lemma ObjectIsFaithful(nfc: Text -> bool, members: seq<(Text, Json)>, room: int)
    requires room >= 0
    requires SortPairs(EncodedValues(nfc, members)) == EncodedValues(nfc, SortPairs(members))
    requires SortPairs(SynPairs(members)) == SynPairs(SortPairs(members))
    requires SortPairs(NormalPairs(members)) == NormalPairs(SortPairs(members))
    requires CanonicalMembers(nfc, EncodedValues(nfc, SortPairs(members))).Ok?
    requires JoinItems(CanonicalMembers(nfc, EncodedValues(nfc, SortPairs(members))).value)
          == Concat(FlattenMembers(EscapeKeys(SynPairs(SortPairs(members)))))
    requires StrictMembers(nfc, EscapeKeys(SynPairs(SortPairs(members))), room - 1, {})
    requires MemberValues(EscapeKeys(SynPairs(SortPairs(members)))) == NormalPairs(SortPairs(members))
    ensures Faithful(nfc, Object(members), room)
  {
    hide CanonicalMembers, FlattenMembers, EscapeKeys, SynPairs, StrictMembers, MemberValues, NormalPairs, JoinItems,
         SortPairs, EncodedValues;
    Bracketed(Mark(123), FlattenMembers(EscapeKeys(SynPairs(SortPairs(members)))), Mark(125));
  }

  // ---- The theorems ----

  lemma CanonicalIsWritten(nfc: Text -> bool, v: Json, room: int)
    requires Data(v, room) && Canonical(nfc, v).Ok?
    ensures Written(Syn(v), Canonical(nfc, v).value) && Strict(nfc, Syn(v), room) && ValueOf(Syn(v)) == Normal(v)
  {
    hide Canonical, Strict, Flatten, Syn, ValueOf, Normal, Concat, LaidOut;
    CanonicalIsFaithful(nfc, v, room);
    StrictIsGood(nfc, Syn(v), room);
    var gaps := ConcatLaidOut(Flatten(Syn(v)));
  }

  /** The strict reader returns what canonical JSON wrote, for every value nested at most 128 deep. */
  lemma DecodeOfCanonical(nfc: Text -> bool, v: Json)
    requires Data(v, MAX_DEPTH) && Canonical(nfc, v).Ok?
    ensures Decode(nfc, Canonical(nfc, v).value) == Ok(Normal(v))
  {
    hide Canonical, Strict, Decode, Syn, ValueOf, Normal, Written;
    CanonicalIsWritten(nfc, v, MAX_DEPTH);
    WrittenDecodes(nfc, Syn(v), Canonical(nfc, v).value);
  }

  /** Writing the members in another order is the only difference canonical JSON forgets. */
  lemma {:induction false} NormalIsSameText(nfc: Text -> bool, v: Json, room: int)
    requires Data(v, room)
    ensures Canonical(nfc, Normal(v)) == Canonical(nfc, v)
    decreases room, 1, 0
  {
    match v {
      case Array(items) => NormalItemsSameTexts(nfc, items, room - 1);
      case Object(members) =>
        ObjectInOrder(nfc, members);
        SortedData(members, room - 1);
        var sorted := SortPairs(members);
        NormalPairsSameTexts(nfc, sorted, room - 1);
        AscendingNormal(sorted);
        ObjectInOrder(nfc, NormalPairs(sorted));
        SortOfAscending(NormalPairs(sorted));
      case _ =>
    }
  }

  lemma AscendingNormal(ps: seq<(Text, Json)>)
    requires KeysAscend(ps)
    ensures KeysAscend(NormalPairs(ps))
  {
    hide Normal, Before;
    PairsAreMaps(ps);
    var mapped := MapPairs(v => Normal(v), ps);
    forall i, j | 0 <= i < j < |mapped| ensures Before(mapped[i].0, mapped[j].0) {
      MapMembers(v => Normal(v), ps, mapped[i]);
    }
  }

  lemma {:induction false} NormalItemsSameTexts(nfc: Text -> bool, items: seq<Json>, room: int)
    requires forall i :: 0 <= i < |items| ==> Data(items[i], room)
    ensures CanonicalItems(nfc, NormalItems(items)) == CanonicalItems(nfc, items)
    decreases room, 2, |items|
  {
    hide Data, Canonical, Normal;
    if items != [] {
      RoomFor(items[0], room);
      NormalIsSameText(nfc, items[0], room);
      NormalItemsSameTexts(nfc, items[1..], room);
      assert NormalItems(items)[1..] == NormalItems(items[1..]);
    }
  }

  lemma {:induction false} NormalPairsSameTexts(nfc: Text -> bool, ps: seq<(Text, Json)>, room: int)
    requires forall i :: 0 <= i < |ps| ==> Data(ps[i].1, room)
    ensures EncodedValues(nfc, NormalPairs(ps)) == EncodedValues(nfc, ps)
    decreases room, 2, |ps|
  {
    hide Data, Canonical, Normal;
    if ps != [] {
      RoomFor(ps[0].1, room);
      NormalIsSameText(nfc, ps[0].1, room);
      NormalPairsSameTexts(nfc, ps[1..], room);
      assert NormalPairs(ps)[1..] == NormalPairs(ps[1..]);
    }
  }

  /** Canonical JSON is injective on data: two values have one text exactly when they are the same data. */
  lemma CanonicalInjective(nfc: Text -> bool, v: Json, w: Json, room: int)
    requires Data(v, room) && Data(w, room) && Canonical(nfc, v).Ok?
    ensures SameData(nfc, v, w) <==> Normal(v) == Normal(w)
    ensures Canonical(nfc, v) == Canonical(nfc, w) <==> Normal(v) == Normal(w)
  {
    hide Canonical, Data, Normal, Syn, Strict, ValueOf, Flatten, Lex, ParseValue, LaidOut;
    if Canonical(nfc, v) == Canonical(nfc, w) {
      CanonicalIsWritten(nfc, v, room);
      CanonicalIsWritten(nfc, w, room);
      WrittenOnce(nfc, Syn(v), Syn(w), room, Canonical(nfc, v).value);
    }
    if Normal(v) == Normal(w) {
      NormalIsSameText(nfc, v, room);
      NormalIsSameText(nfc, w, room);
    }
  }

  /** No text is written by two syntaxes. */
  lemma WrittenOnce(nfc: Text -> bool, s: Syntax, u: Syntax, room: int, text: Text)
    requires Written(s, text) && Written(u, text) && Strict(nfc, s, room) && Strict(nfc, u, room)
    ensures s == u
  {
    hide Strict, Lex, ParseValue, LaidOut, Flatten;
    var gaps :| LaidOut(gaps, Flatten(s), text);
    var other :| LaidOut(other, Flatten(u), text);
    FlattenSeparated(s);
    FlattenSeparated(u);
    LexIsComplete(gaps, Flatten(s), text);
    LexIsComplete(other, Flatten(u), text);
    ParseIsComplete(nfc, s, room, []);
    ParseIsComplete(nfc, u, room, []);
  }

  // ---- Everything the reader accepts has a canonical text ----

  lemma {:induction false} StrictIsData(nfc: Text -> bool, s: Syntax, room: int)
    requires Strict(nfc, s, room)
    ensures Data(ValueOf(s), room) && Canonical(nfc, ValueOf(s)).Ok?
    decreases s, 1
  {
    hide Unescape, Chars, IntegerValue, IsIntegral, Integer, Quote;
    match s {
      case Leaf(_) =>
      case List(items) => ItemsAreData(nfc, items, room - 1);
      case Record(members) =>
        MembersAreData(nfc, members, room - 1, {});
        StrictKeysDistinct(nfc, members, room - 1, {});
        FieldsEncode(nfc, SortedFields(nfc, MemberValues(members)));
    }
  }

  lemma {:induction false} ItemsAreData(nfc: Text -> bool, items: seq<Syntax>, room: int)
    requires StrictItems(nfc, items, room)
    ensures CanonicalItems(nfc, ItemValues(items)).Ok? && |ItemValues(items)| == |items|
    ensures forall i :: 0 <= i < |items| ==> Data(ItemValues(items)[i], room)
    decreases items, 0
  {
    hide Data, Canonical, Strict, ValueOf;
    if items != [] {
      StrictIsData(nfc, items[0], room);
      ItemsAreData(nfc, items[1..], room);
      assert ItemValues(items)[1..] == ItemValues(items[1..]);
    }
  }

  /** Every key and every value of these fields encodes. */
  predicate Encodable(nfc: Text -> bool, fields: seq<(Text, Result<Text>)>) {
    forall i :: 0 <= i < |fields| ==> CanonicalString(nfc, fields[i].0).Ok? && fields[i].1.Ok?
  }

  lemma {:induction false} MembersAreData(nfc: Text -> bool, members: seq<(Text, Syntax)>, room: int, keys: set<Text>)
    requires StrictMembers(nfc, members, room, keys)
    ensures forall i :: 0 <= i < |members| ==> Data(MemberValues(members)[i].1, room)
    ensures Encodable(nfc, EncodedValues(nfc, MemberValues(members)))
    decreases members, 0
  {
    hide Data, Canonical, Strict, ValueOf, Unescape, Quote;
    if members != [] {
      var first := members[0];
      assert first.1 < first;
      StrictIsData(nfc, first.1, room);
      MembersAreData(nfc, members[1..], room, keys + {Unescape(first.0)});
      assert MemberValues(members)[1..] == MemberValues(members[1..]);
      assert EncodedValues(nfc, MemberValues(members))[1..] == EncodedValues(nfc, MemberValues(members[1..]));
    }
  }

  function SortedFields(nfc: Text -> bool, members: seq<(Text, Json)>): (r: seq<(Text, Result<Text>)>)
    ensures Encodable(nfc, EncodedValues(nfc, members)) ==> Encodable(nfc, r)
  {
    var fields := EncodedValues(nfc, members);
    assert Encodable(nfc, fields) ==> Encodable(nfc, SortPairs(fields)) by {
      SortedEncodable(nfc, fields);
    }
    SortPairs(fields)
  }

  lemma SortedEncodable(nfc: Text -> bool, fields: seq<(Text, Result<Text>)>)
    ensures Encodable(nfc, fields) ==> Encodable(nfc, SortPairs(fields))
  {
    if Encodable(nfc, fields) {
      var sorted := SortPairs(fields);
      forall i | 0 <= i < |sorted| ensures CanonicalString(nfc, sorted[i].0).Ok? && sorted[i].1.Ok? {
        SortMember(fields, sorted[i]);
        var k :| 0 <= k < |fields| && fields[k] == sorted[i];
      }
    }
  }

  lemma {:induction false} FieldsEncode(nfc: Text -> bool, fields: seq<(Text, Result<Text>)>)
    requires Encodable(nfc, fields)
    ensures CanonicalMembers(nfc, fields).Ok?
  {
    hide CanonicalString;
    if fields != [] {
      FieldsEncode(nfc, fields[1..]);
    }
  }

  /** What the strict reader returns is data with a canonical text, and reading that text again
      returns the same data. */
  lemma DecodedIsCanonicalData(nfc: Text -> bool, text: Text, v: Json)
    requires Decode(nfc, text) == Ok(v)
    ensures Data(v, MAX_DEPTH) && Canonical(nfc, v).Ok?
    ensures Decode(nfc, Canonical(nfc, v).value) == Ok(Normal(v))
  {
    hide Decode, Canonical, Data, Normal, Strict, ValueOf, Written;
    DecodesExactlyTheGrammar(nfc, text, v);
    var s :| Written(s, text) && Strict(nfc, s, MAX_DEPTH) && ValueOf(s) == v;
    StrictIsData(nfc, s, MAX_DEPTH);
    DecodeOfCanonical(nfc, v);
  }

  // ---- What has a canonical text, and that its strings are the shortest spelling ----

  ghost predicate CleanText(nfc: Text -> bool, t: Text) {
    nfc(t) && WellFormed(t)
  }

  /** All strings and keys are normalised and without unpaired surrogates, and all numbers are safe integers. */
  ghost predicate CleanData(nfc: Text -> bool, v: Json) {
    match v
    case String(t) => CleanText(nfc, t)
    case Number(n) => -0x1F_FFFF_FFFF_FFFF <= n <= 0x1F_FFFF_FFFF_FFFF
    case Array(items) => forall i :: 0 <= i < |items| ==> CleanData(nfc, items[i])
    case Object(members) => forall i :: 0 <= i < |members| ==> CleanText(nfc, members[i].0) && CleanData(nfc, members[i].1)
    case _ => true
  }

  /** Exactly the clean values have a canonical text. */
  lemma {:induction false} CanonicalExists(nfc: Text -> bool, v: Json)
    ensures Canonical(nfc, v).Ok? <==> CleanData(nfc, v)
    decreases v, 1
  {
    match v {
      case Array(items) => ItemsExist(nfc, items);
      case Object(members) =>
        var fields := EncodedValues(nfc, members);
        ValuesExist(nfc, members);
        MembersExist(nfc, SortPairs(fields));
        forall q ensures q in SortPairs(fields) <==> q in fields {
          SortMember(fields, q);
        }
        assert forall i :: 0 <= i < |fields| ==> fields[i] in fields;
      case _ =>
    }
  }

  lemma {:induction false} ItemsExist(nfc: Text -> bool, items: seq<Json>)
    ensures CanonicalItems(nfc, items).Ok? <==> forall i :: 0 <= i < |items| ==> CleanData(nfc, items[i])
    decreases items, 0
  {
    hide CleanData, Canonical;
    if items != [] {
      CanonicalExists(nfc, items[0]);
      ItemsExist(nfc, items[1..]);
      assert forall i :: 0 < i < |items| ==> items[i] == items[1..][i - 1];
    }
  }

  lemma {:induction false} ValuesExist(nfc: Text -> bool, members: seq<(Text, Json)>)
    ensures forall i :: 0 <= i < |members| ==>
      EncodedValues(nfc, members)[i].0 == members[i].0 && (EncodedValues(nfc, members)[i].1.Ok? <==> CleanData(nfc, members[i].1))
    decreases members, 0
  {
    hide CleanData, Canonical;
    if members != [] {
      var first := members[0];
      assert first.1 < first;
      CanonicalExists(nfc, first.1);
      ValuesExist(nfc, members[1..]);
      assert forall i :: 0 < i < |members| ==> members[i] == members[1..][i - 1];
    }
  }

  lemma {:induction false} MembersExist(nfc: Text -> bool, fields: seq<(Text, Result<Text>)>)
    ensures CanonicalMembers(nfc, fields).Ok? <==> forall q :: q in fields ==> CleanText(nfc, q.0) && q.1.Ok?
  {
    if fields != [] {
      MembersExist(nfc, fields[1..]);
      assert fields == [fields[0]] + fields[1..];
    }
  }

  /** Of all the spellings of a string that section 7 of RFC 8259 allows, the canonical one is the shortest. */
  lemma {:induction false} EscapeIsShortest(chars: Text)
    requires Chars(chars)
    ensures |Escape(Unescape(chars))| <= |chars|
    decreases |chars|
  {
    if chars != [] {
      EscapeIsShortest(chars[CharLength(chars)..]);
    }
  }
}
