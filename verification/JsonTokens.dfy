/** The tokenizer of the strict JSON reader, against the tokens of RFC 8259 (sections 2, 3, 6 and 7). */
module JsonTokens {
  import opened Texts
  import opened ReleaseModel

  /** A structural character, a literal name, an integer, or the characters between two quotes. */
  datatype Token =
    | Mark(u: CodeUnit)
    | Literal(word: Text)
    | Integral(spelling: Text)
    | Quoted(chars: Text)

  const TRUE: Text := [116, 114, 117, 101]          // "true"
  const FALSE: Text := [102, 97, 108, 115, 101]     // "false"
  const NULL: Text := [110, 117, 108, 108]          // "null"

  function Spell(token: Token): (r: Text)
    ensures token.Mark? || token.Quoted? ==> r != []
  {
    match token
    case Mark(u) => [u]
    case Literal(word) => word
    case Integral(spelling) => spelling
    case Quoted(chars) => [34] + chars + [34]
  }

  // ---- The grammar of tokens ----

  /** Section 2: ws. */
  predicate IsSpace(u: CodeUnit) {
    u == 32 || u == 9 || u == 10 || u == 13
  }

  /** Section 2: the six structural characters. */
  predicate IsMark(u: CodeUnit) {
    u == 123 || u == 125 || u == 91 || u == 93 || u == 58 || u == 44
  }

  predicate IsDigit(u: CodeUnit) {
    48 <= u <= 57
  }

  predicate IsHex(u: CodeUnit) {
    IsDigit(u) || 65 <= u <= 70 || 97 <= u <= 102
  }

  /** Section 7: the letters that may follow a reverse solidus, apart from u. */
  predicate IsShortEscape(u: CodeUnit) {
    u == 34 || u == 92 || u == 47 || u == 98 || u == 102 || u == 110 || u == 114 || u == 116
  }

  predicate StartsWithHex4(t: Text) {
    |t| >= 4 && IsHex(t[0]) && IsHex(t[1]) && IsHex(t[2]) && IsHex(t[3])
  }

  /** How many units the character at the front takes; 0 when there is none. */
  function CharLength(t: Text): (n: nat)
    ensures n <= |t|
  {
    if t == [] || t[0] == 34 || t[0] < 32 then 0
    else if t[0] != 92 then 1
    else if |t| >= 2 && t[1] == 117 then (if StartsWithHex4(t[2..]) then 6 else 0)
    else if |t| >= 2 && IsShortEscape(t[1]) then 2
    else 0
  }

  /** Section 7: *char, over UTF-16 code units. */
  predicate Chars(t: Text) {
    t == [] || (CharLength(t) > 0 && Chars(t[CharLength(t)..]))
  }

  predicate AllDigits(t: Text) {
    forall i :: 0 <= i < |t| ==> IsDigit(t[i])
  }

  /** Section 6: an optional minus and int, without fraction or exponent. */
  predicate IsIntegral(t: Text) {
    var d := if t != [] && t[0] == 45 then t[1..] else t;
    d != [] && AllDigits(d) && (d[0] == 48 ==> |d| == 1)
  }

  predicate Good(token: Token) {
    match token
    case Mark(u) => IsMark(u)
    case Literal(word) => word == TRUE || word == FALSE || word == NULL
    case Integral(spelling) => IsIntegral(spelling)
    case Quoted(chars) => Chars(chars)
  }

  predicate AllSpace(t: Text) {
    forall i :: 0 <= i < |t| ==> IsSpace(t[i])
  }

  /** A text laid out as tokens with optional whitespace before, between and after them. */
  ghost predicate LaidOut(gaps: seq<Text>, tokens: seq<Token>, t: Text)
    decreases |tokens|
  {
    && |gaps| == |tokens| + 1
    && AllSpace(gaps[0])
    && if tokens == [] then t == gaps[0]
       else
         && Good(tokens[0])
         && gaps[0] + Spell(tokens[0]) <= t
         && LaidOut(gaps[1..], tokens[1..], t[|gaps[0] + Spell(tokens[0])|..])
  }

  /** No integer directly follows another: their digits could run together. */
  predicate Separated(tokens: seq<Token>) {
    forall i :: 0 < i < |tokens| ==> !(tokens[i - 1].Integral? && tokens[i].Integral?)
  }

  // ---- The scanner ----

  /** The length of the run of digits at the front. */
  function DigitRun(t: Text): (n: nat)
    ensures n <= |t| && AllDigits(t[..n]) && (n < |t| ==> !IsDigit(t[n]))
  {
    if t == [] || !IsDigit(t[0]) then 0
    else
      assert t[..1 + DigitRun(t[1..])] == [t[0]] + t[1..][..DigitRun(t[1..])];
      1 + DigitRun(t[1..])
  }

  /** The longest match of an optional minus and 0 or a digit run without leading zero; 0 for none. */
  function IntegralLength(t: Text): (n: nat)
    ensures n <= |t|
    ensures n > 0 ==> IsIntegral(t[..n])
  {
    var sign := if t != [] && t[0] == 45 then 1 else 0;
    var d := t[sign..];
    if d == [] || !IsDigit(d[0]) then 0
    else if d[0] == 48 then
      assert t[..sign + 1][sign..] == [d[0]];
      sign + 1
    else
      assert t[..sign + DigitRun(d)][sign..] == d[..DigitRun(d)];
      sign + DigitRun(d)
  }

  /** The token at the front of a text that starts with neither a quote nor whitespace. */
  function ScanSimple(t: Text): (r: Option<Token>)
    ensures r.Some? ==> Good(r.value) && Spell(r.value) <= t && Spell(r.value) != [] && !r.value.Quoted?
  {
    if TRUE <= t then Some(Literal(TRUE))
    else if FALSE <= t then Some(Literal(FALSE))
    else if NULL <= t then Some(Literal(NULL))
    else if IntegralLength(t) > 0 then Some(Integral(t[..IntegralLength(t)]))
    else if t != [] && IsMark(t[0]) then Some(Mark(t[0]))
    else None
  }

  /** How many units lie before the closing quote. */
  function ScanString(t: Text): (r: Option<nat>)
    ensures r.Some? ==> r.value < |t| && t[r.value] == 34
    decreases |t|
  {
    if t == [] then None
    else if t[0] == 34 then Some(0)
    else if CharLength(t) == 0 then None
    else
      match ScanString(t[CharLength(t)..])
      case None => None
      case Some(n) => Some(CharLength(t) + n)
  }

  /** The whole tokenizer. */
  function Lex(t: Text): Result<seq<Token>>
    decreases |t|
  {
    if t == [] then Ok([])
    else if t[0] == 34 then
      match ScanString(t[1..])
      case None => Fail(JsonToken)
      case Some(n) => Prepend(Quoted(t[1..n + 1]), Lex(t[n + 2..]))
    else if IsSpace(t[0]) then Lex(t[1..])
    else
      match ScanSimple(t)
      case None => Fail(JsonToken)
      case Some(token) => Prepend(token, Lex(t[|Spell(token)|..]))
  }

  function Prepend(token: Token, rest: Result<seq<Token>>): Result<seq<Token>> {
    match rest case Fail(refusal) => Fail(refusal) case Ok(tokens) => Ok([token] + tokens)
  }

  // ---- The tokenizer: one index over the text ----

  /** The scan of one string, from just after its opening quote to just after its closing one. */
  method SkipString(text: Text, from: nat) returns (r: Result<nat>)
    requires from <= |text|
    ensures r.Ok? <==> ScanString(text[from..]).Some?
    ensures r.Ok? ==> r.value == from + ScanString(text[from..]).value + 1
    ensures r.Fail? ==> r.refusal == JsonToken
  {
    var at := from;
    while true
      invariant from <= at <= |text|
      invariant ScanString(text[from..]).Some? <==> ScanString(text[at..]).Some?
      invariant ScanString(text[at..]).Some? ==>
        from + ScanString(text[from..]).value == at + ScanString(text[at..]).value
      decreases |text| - at
    {
      if at == |text| {
        return Fail(JsonToken);
      }
      ghost var rest := text[at..];
      var code := text[at];
      at := at + 1;
      if code == 34 {
        return Ok(at);
      }
      if code < 32 {
        return Fail(JsonToken);
      }
      if code == 92 {
        if at == |text| {
          return Fail(JsonToken);
        }
        var escape := text[at];
        at := at + 1;
        if escape == 117 {
          assert text[at..] == rest[2..];
          if !StartsWithHex4(text[at..]) {
            return Fail(JsonToken);
          }
          at := at + 4;
          assert text[at..] == rest[6..];
        } else if !IsShortEscape(escape) {
          return Fail(JsonToken);
        } else {
          assert text[at..] == rest[2..];
        }
      } else {
        assert text[at..] == rest[1..];
      }
    }
  }

  lemma SpaceStep(t: Text)
    requires t != [] && IsSpace(t[0])
    ensures Lex(t) == Lex(t[1..])
  {
    hide ScanSimple, ScanString, Prepend;
  }

  method SkipSpace(text: Text, from: nat) returns (at: nat)
    requires from < |text| && IsSpace(text[from])
    ensures from < at <= |text| && Lex(text[at..]) == Lex(text[from..])
  {
    hide Lex;
    at := from + 1;
    SpaceStep(text[from..]);
    assert text[from..][1..] == text[at..];
    while at < |text| && IsSpace(text[at])
      invariant from < at <= |text| && Lex(text[at..]) == Lex(text[from..])
    {
      SpaceStep(text[at..]);
      assert text[at..][1..] == text[at + 1..];
      at := at + 1;
    }
  }

  method Tokenize(text: Text) returns (r: Result<seq<Token>>)
    ensures r == Lex(text)
  {
    hide ScanSimple, ScanString, Good, Spell;
    var tokens: seq<Token> := [];
    var at := 0;
    assert text[0..] == text;
    assert Lex(text).Ok? ==> [] + Lex(text).value == Lex(text).value;
    while at < |text|
      invariant 0 <= at <= |text|
      invariant Lex(text) == Append(tokens, Lex(text[at..]))
    {
      ghost var rest := text[at..];
      if text[at] == 34 {
        var end := SkipString(text, at + 1);
        assert rest[1..] == text[at + 1..];
        if end.Fail? {
          return Fail(JsonToken);
        }
        var token := Quoted(text[at + 1..end.value - 1]);
        assert rest[1..end.value - 1 - at] == text[at + 1..end.value - 1];
        assert text[end.value..] == rest[end.value - at..];
        AppendOne(tokens, token, Lex(text[end.value..]));
        tokens := tokens + [token];
        at := end.value;
      } else if IsSpace(text[at]) {
        at := SkipSpace(text, at);
      } else {
        var token := ScanSimple(text[at..]);
        if token.None? {
          return Fail(JsonToken);
        }
        assert text[at + |Spell(token.value)|..] == rest[|Spell(token.value)|..];
        AppendOne(tokens, token.value, Lex(text[at + |Spell(token.value)|..]));
        tokens := tokens + [token.value];
        at := at + |Spell(token.value)|;
      }
    }
    assert Lex(text[at..]) == Ok([]) && tokens + [] == tokens;
    r := Ok(tokens);
  }

  function Append(tokens: seq<Token>, rest: Result<seq<Token>>): Result<seq<Token>> {
    match rest case Fail(refusal) => Fail(refusal) case Ok(more) => Ok(tokens + more)
  }

  lemma AppendOne(tokens: seq<Token>, token: Token, rest: Result<seq<Token>>)
    ensures Append(tokens, Prepend(token, rest)) == Append(tokens + [token], rest)
  {
    if rest.Ok? {
      assert tokens + ([token] + rest.value) == tokens + [token] + rest.value;
    }
  }

  // ---- Exactness ----

  lemma {:induction false} ScannedChars(t: Text)
    requires ScanString(t).Some?
    ensures Chars(t[..ScanString(t).value])
    decreases |t|
  {
    var n := ScanString(t).value;
    if t[0] != 34 {
      var k := CharLength(t);
      ScannedChars(t[k..]);
      CharLocal(t, n);
      assert t[..n][k..] == t[k..][..n - k];
    }
  }

  /** A character is recognised by its own units alone. */
  lemma CharLocal(t: Text, n: nat)
    requires CharLength(t) <= n <= |t| && CharLength(t) > 0
    ensures CharLength(t[..n]) == CharLength(t)
  {
    var s := t[..n];
    assert s[0] == t[0];
    if t[0] == 92 {
      assert s[1] == t[1];
      if t[1] == 117 {
        assert s[2..][..4] == t[2..][..4];
        assert forall i :: 0 <= i < 4 ==> s[2..][i] == t[2..][i];
      }
    }
  }

  lemma CharExtends(c: Text, more: Text)
    requires CharLength(c) > 0
    ensures CharLength(c + more) == CharLength(c)
  {
    var t := c + more;
    assert t[0] == c[0];
    if c[0] == 92 {
      assert t[1] == c[1];
      if c[1] == 117 {
        assert forall i :: 0 <= i < 4 ==> t[2..][i] == c[2..][i];
      }
    }
  }

  lemma {:induction false} CharsAreScanned(c: Text, rest: Text)
    requires Chars(c)
    ensures ScanString(c + [34] + rest) == Some(|c|)
    decreases |c|
  {
    hide CharLength;
    var t := c + [34] + rest;
    if c == [] {
      QuoteEnds(rest);
    } else {
      var k := CharLength(c);
      CharExtends(c, [34] + rest);
      assert t == c + ([34] + rest);
      CharsAreScanned(c[k..], rest);
      assert t[k..] == c[k..] + [34] + rest;
      NoQuoteFirst(c);
      assert t[0] == c[0];
    }
  }

  lemma QuoteEnds(rest: Text)
    ensures ScanString([] + [34] + rest) == Some(0)
  {
  }

  lemma NoQuoteFirst(c: Text)
    requires CharLength(c) > 0
    ensures c != [] && c[0] != 34
  {
  }

  /** Whatever is tokenized is laid out as those tokens, each a token of the grammar. */
  lemma {:induction false} LexIsSound(t: Text) returns (gaps: seq<Text>)
    requires Lex(t).Ok?
    ensures LaidOut(gaps, Lex(t).value, t)
    decreases |t|
  {
    hide ScanSimple, ScanString, Good, Spell, LaidOut;
    if t == [] {
      gaps := NoToken();
    } else if t[0] == 34 {
      var n := ScanString(t[1..]).value;
      QuotedIsGood(t, n);
      var rest := LexIsSound(t[n + 2..]);
      gaps := OneToken(Quoted(t[1..n + 1]), rest, t);
    } else if IsSpace(t[0]) {
      var rest := LexIsSound(t[1..]);
      gaps := OneSpace(Lex(t).value, rest, t);
    } else {
      var token := ScanSimple(t).value;
      var rest := LexIsSound(t[|Spell(token)|..]);
      gaps := OneToken(token, rest, t);
    }
  }

  lemma NoToken() returns (gaps: seq<Text>)
    ensures LaidOut(gaps, [], [])
  {
    gaps := [[]];
  }

  lemma QuotedIsGood(t: Text, n: nat)
    requires t != [] && t[0] == 34 && ScanString(t[1..]) == Some(n)
    ensures Good(Quoted(t[1..n + 1])) && Spell(Quoted(t[1..n + 1])) <= t && |Spell(Quoted(t[1..n + 1]))| == n + 2
  {
    hide ScanString, Chars;
    ScannedChars(t[1..]);
    assert t[1..n + 1] == t[1..][..n];
    assert t[..n + 2] == Spell(Quoted(t[1..n + 1]));
  }

  lemma OneSpace(tokens: seq<Token>, rest: seq<Text>, t: Text) returns (gaps: seq<Text>)
    requires t != [] && IsSpace(t[0]) && LaidOut(rest, tokens, t[1..])
    ensures LaidOut(gaps, tokens, t)
  {
    hide Spell, Good;
    gaps := [[t[0]] + rest[0]] + rest[1..];
    assert gaps[1..] == rest[1..] && t == [t[0]] + t[1..];
    if tokens != [] {
      assert gaps[0] + Spell(tokens[0]) == [t[0]] + (rest[0] + Spell(tokens[0]));
      assert t[|gaps[0] + Spell(tokens[0])|..] == t[1..][|rest[0] + Spell(tokens[0])|..];
    }
  }

  lemma OneToken(token: Token, rest: seq<Text>, t: Text) returns (gaps: seq<Text>)
    requires Good(token) && Spell(token) <= t && Lex(t[|Spell(token)|..]).Ok?
    requires LaidOut(rest, Lex(t[|Spell(token)|..]).value, t[|Spell(token)|..])
    ensures LaidOut(gaps, [token] + Lex(t[|Spell(token)|..]).value, t)
  {
    var tokens := [token] + Lex(t[|Spell(token)|..]).value;
    gaps := [[]] + rest;
    assert gaps[1..] == rest && tokens[1..] == Lex(t[|Spell(token)|..]).value;
    assert gaps[0] + Spell(token) == Spell(token);
  }

  lemma {:induction false} SpaceIsSkipped(gap: Text, t: Text)
    requires AllSpace(gap)
    ensures Lex(gap + t) == Lex(t)
  {
    if gap == [] {
      assert gap + t == t;
    } else {
      assert (gap + t)[1..] == gap[1..] + t;
      SpaceIsSkipped(gap[1..], t);
    }
  }

  lemma {:induction false} RunStops(d: Text, rest: Text)
    requires AllDigits(d) && (rest == [] || !IsDigit(rest[0]))
    ensures DigitRun(d + rest) == |d|
  {
    if d == [] {
      assert d + rest == rest;
    } else {
      assert (d + rest)[1..] == d[1..] + rest;
      RunStops(d[1..], rest);
    }
  }

  lemma IntegralIsScanned(spelling: Text, rest: Text)
    requires IsIntegral(spelling) && (rest == [] || !IsDigit(rest[0]))
    ensures ScanSimple(spelling + rest) == Some(Integral(spelling))
  {
    var t := spelling + rest;
    var sign := if spelling[0] == 45 then 1 else 0;
    var d := spelling[sign..];
    assert t[0] == spelling[0] && t[sign..] == d + rest && t[sign..][0] == d[0];
    RunStops(d, rest);
    assert t[..|spelling|] == spelling;
  }

  lemma QuotedIsScanned(chars: Text, rest: Text)
    requires Chars(chars)
    ensures Lex(Spell(Quoted(chars)) + rest) == Prepend(Quoted(chars), Lex(rest))
  {
    hide ScanSimple, ScanString, Chars, Prepend;
    var t := Spell(Quoted(chars)) + rest;
    CharsAreScanned(chars, rest);
    assert t == [34] + (chars + [34] + rest);
    assert t[1..] == chars + [34] + rest;
    assert t[1..|chars| + 1] == chars;
    assert t[|chars| + 2..] == rest;
  }

  /** Any other token that is scanned first. */
  lemma SimpleIsScanned(token: Token, rest: Text)
    requires Spell(token) != [] && Spell(token)[0] != 34 && !IsSpace(Spell(token)[0])
    requires ScanSimple(Spell(token) + rest) == Some(token)
    ensures Lex(Spell(token) + rest) == Prepend(token, Lex(rest))
  {
    hide ScanSimple, ScanString, Prepend, Spell;
    var t := Spell(token) + rest;
    assert t[0] == Spell(token)[0] && t[|Spell(token)|..] == rest;
  }

  /** One token and what follows it are scanned apart. */
  lemma TokenIsScanned(token: Token, rest: Text)
    requires Good(token) && (token.Integral? ==> rest == [] || !IsDigit(rest[0]))
    ensures Lex(Spell(token) + rest) == Prepend(token, Lex(rest))
  {
    hide ScanSimple, ScanString, IsIntegral, Chars, Lex, Prepend;
    match token {
      case Quoted(chars) =>
        QuotedIsScanned(chars, rest);
      case Integral(spelling) =>
        IntegralIsScanned(spelling, rest);
        IntegralStart(spelling);
        SimpleIsScanned(token, rest);
      case Literal(word) =>
        LiteralIsScanned(word, rest);
        SimpleIsScanned(token, rest);
      case Mark(u) =>
        MarkIsScanned(u, rest);
        SimpleIsScanned(token, rest);
    }
  }

  lemma IntegralStart(spelling: Text)
    requires IsIntegral(spelling)
    ensures spelling != [] && (spelling[0] == 45 || IsDigit(spelling[0]))
  {
  }

  lemma MarkIsScanned(u: CodeUnit, rest: Text)
    requires IsMark(u)
    ensures ScanSimple([u] + rest) == Some(Mark(u))
  {
    var t := [u] + rest;
    assert t[0] == u;
    assert TRUE[0] == 116 && FALSE[0] == 102 && NULL[0] == 110;
  }

  lemma LiteralIsScanned(word: Text, rest: Text)
    requires Good(Literal(word))
    ensures ScanSimple(word + rest) == Some(Literal(word))
  {
    var t := word + rest;
    assert t[0] == word[0] && t[..|word|] == word;
  }

  lemma LaidOutStart(gaps: seq<Text>, tokens: seq<Token>, t: Text)
    requires LaidOut(gaps, tokens, t) && (tokens != [] ==> !tokens[0].Integral?)
    ensures t == [] || !IsDigit(t[0])
  {
    if gaps[0] != [] {
      assert t[0] == gaps[0][0];
    } else if tokens != [] {
      assert Spell(tokens[0]) <= t by { assert gaps[0] + Spell(tokens[0]) == Spell(tokens[0]); }
      assert t[0] == Spell(tokens[0])[0];
    }
  }

  lemma NothingToLex()
    ensures Lex([]) == Ok([])
  {
  }

  /** Every layout of separated tokens is tokenized as those tokens. */
  lemma {:induction false} LexIsComplete(gaps: seq<Text>, tokens: seq<Token>, t: Text)
    requires LaidOut(gaps, tokens, t) && Separated(tokens)
    ensures Lex(t) == Ok(tokens)
    decreases |tokens|
  {
    hide Lex, Good, Spell;
    if tokens == [] {
      SpaceIsSkipped(gaps[0], []);
      NothingToLex();
      assert gaps[0] + [] == gaps[0];
    } else {
      var front := gaps[0] + Spell(tokens[0]);
      var rest := t[|front|..];
      LexIsComplete(gaps[1..], tokens[1..], rest);
      assert t == front + rest;
      assert t == gaps[0] + (Spell(tokens[0]) + rest);
      SpaceIsSkipped(gaps[0], Spell(tokens[0]) + rest);
      if tokens[0].Integral? {
        LaidOutStart(gaps[1..], tokens[1..], rest);
      }
      TokenIsScanned(tokens[0], rest);
      assert tokens == [tokens[0]] + tokens[1..];
    }
  }
}
