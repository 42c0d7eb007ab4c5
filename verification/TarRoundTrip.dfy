/** The archives that the tar reader accepts are exactly the serialisations of valid lists of entries in the ustar and
    pax formats ("ustar Interchange Format" and "pax Interchange Format" of the pax utility, IEEE Std 1003.1), and each
    is read as the list it serialises. */
module TarRoundTrip {
  import opened Texts
  import opened JsonData
  import opened ReleaseModel
  import opened Utf8
  import opened Identity
  import opened JsonTokens
  import opened NativeJson
  import opened JsonRoundTrip
  import opened TreeLayout
  import opened ArchivePaths
  import opened Tar

  datatype Item = Item(path: Text, directory: bool, body: Bytes)

  const MARK: Bytes := [0xEF, 0xBB, 0xBF]

  predicate StartsWithMark(t: Text) {
    t != [] && t[0] == 0xFEFF
  }

  /** UTF-8 bytes of a text, behind one byte-order mark or none. */
  predicate IsText(b: Bytes, t: Text) {
    WellFormed(t) && (b == MARK + Encode(t) || (b == Encode(t) && !StartsWithMark(t)))
  }

  /** Fatal UTF-8 decoding as TextDecoder does it: it inverts encoding and drops one leading byte-order mark. */
  ghost predicate Decodes(services: TextServices) {
    forall b, t :: services.decode(b) == Some(t) <==> IsText(b, t)
  }

  // ---- Fields as they are written ----

  /** The text up to the first NUL or the end of the field; after the NUL comes anything. */
  ghost predicate Holds(field: Bytes, t: Text) {
    exists b :: HoldsAs(field, t, b)
  }

  predicate HoldsAs(field: Bytes, t: Text, b: Bytes) {
    b <= field && 0 !in b && (|b| == |field| || field[|b|] == 0) && IsText(b, t)
  }

  predicate AllTrimmed(t: Text) {
    forall i :: 0 <= i < |t| ==> IsTrimmed(t[i])
  }

  function OctalDigits(n: nat, width: nat): (r: Text)
    ensures |r| == width && AllOctal(r)
  {
    if width == 0 then [] else OctalDigits(n / 8, width - 1) + [48 + n % 8]
  }

  function Power8(k: nat): nat {
    if k == 0 then 1 else 8 * Power8(k - 1)
  }

  /** A number field: octal digits, zero-filled to any width, with blanks around them or not. */
  ghost predicate IsOctalField(field: Bytes, n: nat) {
    exists left, width, right :: IsOctalFieldWith(field, n, left, width, right)
  }

  ghost predicate IsOctalFieldWith(field: Bytes, n: nat, left: Text, width: nat, right: Text) {
    && width > 0 && n < Power8(width) && IsSafe(n) && AllTrimmed(left) && AllTrimmed(right)
    && Holds(field, left + OctalDigits(n, width) + right)
  }

  // ---- Members ----

  /** A header with this size and its own checksum; what the reader does not look at is the writer's own. */
  ghost predicate IsHeader(h: Bytes, size: nat) {
    |h| == BLOCK && IsOctalField(h[124..136], size) && IsOctalField(h[148..156], Checksum(h))
  }

  /** A header, its body, and whatever fills the last block. */
  ghost predicate IsMember(b: Bytes, body: Bytes) {
    && |b| == Stored(|body|) && BLOCK + |body| <= |b|
    && IsHeader(b[..BLOCK], |body|) && b[BLOCK..BLOCK + |body|] == body
  }

  function NameField(b: Bytes): Bytes
    requires |b| >= BLOCK
  {
    b[..100]
  }

  function PrefixField(b: Bytes): Bytes
    requires |b| >= BLOCK
  {
    b[345..500]
  }

  /** The path of ustar's two fields: the name, or the prefix, a slash and the name. */
  function Joined(prefix: Text, name: Text): Text {
    if prefix == [] then name else prefix + [SLASH] + name
  }

  ghost predicate Names(b: Bytes, prefix: Text, name: Text)
    requires |b| >= BLOCK
  {
    Holds(PrefixField(b), prefix) && Holds(NameField(b), name)
  }

  /** The path that the header says, or that an extension before it has given. */
  ghost predicate SaysPath(b: Bytes, given: Option<Text>, raw: Text)
    requires |b| >= BLOCK
  {
    match given
    case Some(path) => raw == path && exists prefix :: Holds(PrefixField(b), prefix)
    case None => exists prefix, name :: Names(b, prefix, name) && raw == Joined(prefix, name)
  }

  /** The path as it may be written: a directory with a slash at its end or without. */
  predicate Spells(item: Item, raw: Text) {
    raw == item.path || (item.directory && raw == item.path + [SLASH])
  }

  /** Both type flags of an ordinary file, and the one of a directory. */
  predicate IsKind(item: Item, kind: Byte) {
    if item.directory then kind == 53 else kind == 0 || kind == 48
  }

  /** The member of an entry. */
  ghost predicate IsEntry(item: Item, b: Bytes, given: Option<Text>) {
    IsMember(b, item.body) && IsKind(item, b[156]) && exists raw :: SaysPath(b, given, raw) && Spells(item, raw)
  }

  // ---- Extensions ----

  function Line(key: Text, value: Text): Text {
    key + [61] + value + [10]
  }

  /** A pax record counts its own length: digits, a space, a key, an equals sign, a value, a line end. */
  ghost predicate IsRecord(record: Bytes, key: Text, value: Text) {
    key != [] && 61 !in key && exists count, line :: IsRecordOf(record, count, line, key, value)
  }

  predicate IsRecordOf(record: Bytes, count: Bytes, line: Bytes, key: Text, value: Text) {
    record == count + [32] + line && IsText(count, Digits(|record|)) && IsText(line, Line(key, value))
  }

  /** Records in any order: at most one path, and permitted times. */
  ghost predicate Records(reader: Reader, b: Bytes, given: Option<Text>)
    decreases |b|
  {
    if b == [] then given.None?
    else exists k, key, value :: 0 < k <= |b| && IsRecord(b[..k], key, value) && Further(reader, b, k, key, value, given)
  }

  ghost predicate Further(reader: Reader, b: Bytes, k: nat, key: Text, value: Text, given: Option<Text>)
    requires 0 < k <= |b|
    decreases |b|, 0
  {
    if key == PATH then given == Some(value) && Records(reader, b[k..], None)
    else key in reader.allowed && IsPaxTime(value) && Records(reader, b[k..], given)
  }

  /** An extension header: pax records, or a long name that a NUL may end. */
  ghost predicate IsExtensionMember(reader: Reader, b: Bytes, body: Bytes, given: Option<Text>) {
    && IsMember(b, body) && |body| <= MAX_EXTENSION
    && (|| (b[156] == 120 && Records(reader, body, given))
        || (b[156] == 76 && given.Some? && Holds(body, given.value)))
  }

  ghost predicate Extends(reader: Reader, b: Bytes, given: Option<Text>) {
    exists body :: IsExtensionMember(reader, b, body, given)
  }

  // ---- Archives ----

  /** An entry under its own name fields, or behind an extension with its path. */
  ghost predicate Writes(reader: Reader, item: Item, b: Bytes) {
    || IsEntry(item, b, None)
    || exists k, raw :: 0 <= k <= |b| && Extends(reader, b[..k], Some(raw)) && IsEntry(item, b[k..], Some(raw))
  }

  /** An archive: the entries in order, then two blocks of zeros or more. Extensions without a path may come in between. */
  ghost predicate Serialises(reader: Reader, items: seq<Item>, b: Bytes)
    decreases |b|
  {
    || (items == [] && |b| >= 2 * BLOCK && AllZero(b))
    || (exists k :: 0 < k <= |b| && Extends(reader, b[..k], None) && Serialises(reader, items, b[k..]))
    || (items != [] && exists k :: 0 < k <= |b| && Writes(reader, items[0], b[..k]) && Serialises(reader, items[1..], b[k..]))
  }

  /** Within the reader's limits: safe paths, no two alike up to case, directories without content. */
  ghost predicate Valid(services: TextServices, seen: set<Text>, items: seq<Item>) {
    && |seen| + |items| <= MAX_ENTRIES
    && (forall i :: 0 <= i < |items| ==>
          && ItemOk(services, items[i]) && services.lower(items[i].path) !in seen)
    && (forall i, j :: 0 <= i < j < |items| ==> services.lower(items[i].path) != services.lower(items[j].path))
  }

  ghost predicate ItemOk(services: TextServices, item: Item) {
    SafePath(services, item.path) && (item.directory ==> item.body == [])
  }

  /** What is read: the entries, wherever their bodies start. */
  function ItemsOf(entries: seq<TarEntry>): (items: seq<Item>)
    ensures |items| == |entries|
  {
    seq(|entries|, i requires 0 <= i < |entries| => Item(entries[i].path, entries[i].directory, entries[i].body))
  }

  // ---- Fields, exactly ----

  /** A field is read as the one text it holds. */
  lemma FieldExactly(services: TextServices, field: Bytes, t: Text)
    requires Decodes(services)
    ensures CString(services, field) == Some(t) <==> Holds(field, t)
  {
    hide IsText;
    var end := IndexOfByte(field, 0);
    var b := if end.Some? then field[..end.value] else field;
    assert CString(services, field) == services.decode(b);
    assert HoldsAs(field, t, b) <==> IsText(b, t);
    forall c | HoldsAs(field, t, c) ensures c == b {
      if |c| < |field| {
        ByteIndexIs(field, 0, |c|);
      } else {
        assert c == field;
      }
    }
  }

  lemma AsciiLength(t: Text)
    requires AllOctal(t)
    ensures |Encode(t)| == |t|
  {
    AsciiEncode(t);
  }

  lemma {:induction false} OctalReadsBack(n: nat, width: nat)
    requires n < Power8(width)
    ensures OctalValue(OctalDigits(n, width)) == n
  {
    if width > 0 {
      OctalReadsBack(n / 8, width - 1);
      var d := OctalDigits(n, width);
      assert d[..|d| - 1] == OctalDigits(n / 8, width - 1);
    }
  }

  lemma {:induction false} OctalSpelled(d: Text)
    requires AllOctal(d)
    ensures 0 <= OctalValue(d) < Power8(|d|) && OctalDigits(OctalValue(d), |d|) == d
  {
    if d != [] {
      OctalSpelled(d[..|d| - 1]);
      assert d == d[..|d| - 1] + [d[|d| - 1]];
    }
  }

  lemma {:induction false} FrontTrimmed(left: Text, t: Text)
    requires AllTrimmed(left) && t != [] && !IsTrimmed(t[0])
    ensures TrimStart(left + t) == t
  {
    if left == [] {
      assert left + t == t;
    } else {
      assert (left + t)[1..] == left[1..] + t;
      FrontTrimmed(left[1..], t);
    }
  }

  lemma {:induction false} BackTrimmed(t: Text, right: Text)
    requires AllTrimmed(right) && t != [] && !IsTrimmed(t[|t| - 1])
    ensures TrimEnd(t + right) == t
  {
    var all := t + right;
    if right == [] {
      assert all == t;
    } else {
      assert all[..|all| - 1] == t + right[..|right| - 1];
      BackTrimmed(t, right[..|right| - 1]);
    }
  }

  lemma {:induction false} TrimmedFront(t: Text) returns (left: Text)
    ensures t == left + TrimStart(t) && AllTrimmed(left)
  {
    if t != [] && IsTrimmed(t[0]) {
      left := TrimmedFront(t[1..]);
      left := [t[0]] + left;
      assert t == [t[0]] + t[1..];
    } else {
      left := [];
    }
  }

  lemma {:induction false} TrimmedBack(t: Text) returns (right: Text)
    ensures t == TrimEnd(t) + right && AllTrimmed(right)
  {
    if t != [] && IsTrimmed(t[|t| - 1]) {
      right := TrimmedBack(t[..|t| - 1]);
      right := right + [t[|t| - 1]];
      assert t == t[..|t| - 1] + [t[|t| - 1]];
    } else {
      right := [];
    }
  }

  /** A number field is read as exactly the number that is written in it. */
  lemma OctalExactly(services: TextServices, field: Bytes, n: nat)
    requires Decodes(services)
    ensures Octal(services, field) == Some(n) <==> IsOctalField(field, n)
  {
    hide TrimStart, TrimEnd, Holds, OctalValue, Power8;
    if Octal(services, field) == Some(n) {
      var raw := CString(services, field).value;
      FieldExactly(services, field, raw);
      var left := TrimmedFront(raw);
      var right := TrimmedBack(TrimStart(raw));
      var value := TrimEnd(TrimStart(raw));
      OctalSpelled(value);
      assert raw == left + value + right;
      assert IsOctalFieldWith(field, n, left, |value|, right);
    }
    if IsOctalField(field, n) {
      var left, width, right :| IsOctalFieldWith(field, n, left, width, right);
      var t := OctalDigits(n, width);
      FieldExactly(services, field, left + t + right);
      assert left + t + right == left + (t + right);
      FrontTrimmed(left, t + right);
      BackTrimmed(t, right);
      OctalReadsBack(n, width);
    }
  }

  lemma OctalStarts(field: Bytes, n: nat)
    requires IsOctalField(field, n)
    ensures field != [] && field[0] != 0
  {
    hide IsText;
    var left, width, right :| IsOctalFieldWith(field, n, left, width, right);
    var t := left + OctalDigits(n, width) + right;
    var b :| HoldsAs(field, t, b);
    TextNotEmpty(b, t);
  }

  lemma TextNotEmpty(b: Bytes, t: Text)
    requires IsText(b, t) && t != []
    ensures b != []
  {
  }

  // ---- Members, exactly ----

  lemma HeaderExactly(services: TextServices, h: Bytes, size: nat)
    requires Decodes(services) && |h| == BLOCK
    ensures HeaderSize(services, h) == Ok(size) <==> IsHeader(h, size)
    ensures IsHeader(h, size) ==> !AllZero(h)
  {
    hide Octal, IsOctalField, Checksum;
    OctalExactly(services, h[124..136], size);
    OctalExactly(services, h[148..156], Checksum(h));
    if IsHeader(h, size) {
      OctalStarts(h[148..156], Checksum(h));
      assert h[148] == h[148..156][0];
    }
  }

  lemma MemberLayout(b: Bytes, body: Bytes, more: Bytes)
    requires IsMember(b, body)
    ensures var all := b + more;
      && all[..BLOCK] == b[..BLOCK] && all[BLOCK..BLOCK + |body|] == body && all[Stored(|body|)..] == more
      && all[156] == b[156] && |all| >= |b| == Stored(|body|) && |b| >= BLOCK
  {
    hide IsHeader;
  }

  lemma MemberHasHeader(b: Bytes, body: Bytes)
    requires IsMember(b, body)
    ensures |b| >= BLOCK && |b| == Stored(|body|) && IsHeader(b[..BLOCK], |body|)
  {
  }

  /** The front of an archive that the reader takes for a member is one. */
  lemma FrontIsMember(services: TextServices, b: Bytes, size: nat)
    requires Decodes(services) && |b| >= BLOCK && HeaderSize(services, b[..BLOCK]) == Ok(size) && Stored(size) <= |b|
    ensures BLOCK + size <= Stored(size)
    ensures var member := b[..Stored(size)];
      IsMember(member, b[BLOCK..BLOCK + size]) && member[156] == b[156]
      && NameField(member) == NameField(b) && PrefixField(member) == PrefixField(b)
  {
    hide IsHeader, HeaderSize;
    StoredCovers(size);
    HeaderExactly(services, b[..BLOCK], size);
    assert b[..Stored(size)][..BLOCK] == b[..BLOCK];
  }

  /** The path the reader takes is the one that was said. */
  lemma PathExactly(services: TextServices, b: Bytes, given: Option<Text>, raw: Text)
    requires Decodes(services) && |b| >= BLOCK
    ensures RawPath(services, b[..BLOCK], given) == Ok(raw) <==> SaysPath(b, given, raw)
  {
    hide Holds, CString;
    assert b[..BLOCK][345..500] == PrefixField(b) && b[..BLOCK][..100] == NameField(b);
    forall t ensures CString(services, PrefixField(b)) == Some(t) <==> Holds(PrefixField(b), t) {
      FieldExactly(services, PrefixField(b), t);
    }
    forall t ensures CString(services, NameField(b)) == Some(t) <==> Holds(NameField(b), t) {
      FieldExactly(services, NameField(b), t);
    }
    var prefix, name := CString(services, PrefixField(b)), CString(services, NameField(b));
    if prefix.Some? && name.Some? {
      assert Names(b, prefix.value, name.value);
    }
  }

  lemma SpellingMeans(services: TextServices, item: Item, raw: Text)
    ensures PathOf(raw, item.directory) == item.path ==> Spells(item, raw)
    ensures SafePath(services, item.path) && Spells(item, raw) ==> PathOf(raw, item.directory) == item.path
  {
    hide SafePath;
    if raw != [] {
      assert raw == raw[..|raw| - 1] + [raw[|raw| - 1]];
    }
    if SafePath(services, item.path) {
      SafePathEnds(services, item.path);
      assert (item.path + [SLASH])[..|item.path|] == item.path;
    }
  }

  lemma SafePathEnds(services: TextServices, path: Text)
    requires SafePath(services, path)
    ensures path != [] && path[|path| - 1] != SLASH
  {
    hide Split;
    LastPartEmpty(path);
    var last := Split(path)[|Split(path)| - 1];
    assert last != [];
  }

  lemma {:induction false} LastPartEmpty(t: Text)
    ensures t != [] && t[|t| - 1] == SLASH ==> Split(t)[|Split(t)| - 1] == []
  {
    if |t| > 1 {
      LastPartEmpty(t[1..]);
      if |Split(t[1..])| == 1 {
        OnePartNoSlash(t[1..]);
      }
    }
  }

  lemma {:induction false} OnePartNoSlash(t: Text)
    requires |Split(t)| == 1
    ensures SLASH !in t
  {
    if t != [] {
      OnePartNoSlash(t[1..]);
    }
  }

  lemma KindMeans(item: Item, kind: Byte)
    requires item.directory ==> item.body == []
    ensures EntryKind(kind, |item.body|) == Ok(item.directory) <==> IsKind(item, kind)
    ensures IsKind(item, kind) ==> !IsExtension(kind)
  {
  }

  /** A written entry is read as that entry. */
  lemma EntryReadsBack(
      reader: Reader, item: Item, b: Bytes, given: Option<Text>, more: Bytes, base: nat, seen: set<Text>)
    requires Decodes(reader.text) && IsEntry(item, b, given) && ItemOk(reader.text, item)
    requires reader.text.lower(item.path) !in seen && |seen| < MAX_ENTRIES
    ensures Scan(reader, b + more, base, given, seen)
         == Tar.Prepend([TarEntry(item.path, item.directory, base + BLOCK, item.body)],
                        Scan(reader, more, base + |b|, None, seen + {reader.text.lower(item.path)}))
  {
    hide HeaderSize, SafePath, AllZero, Stored, Scan, RawPath, IsMember, IsHeader, Spells, Decodes, SaysPath, IsExtension, IsKind,
         EntryKind;
    MemberHasHeader(b, item.body);
    var raw :| SaysPath(b, given, raw) && Spells(item, raw);
    PathExactly(reader.text, b, given, raw);
    MemberLayout(b, item.body, more);
    HeaderExactly(reader.text, b[..BLOCK], |item.body|);
    SpellingMeans(reader.text, item, raw);
    KindMeans(item, b[156]);
    ScanEntry(reader, b + more, base, given, seen, |item.body|, raw, item.directory);
  }

  // ---- Extensions, exactly ----

  lemma {:induction false} DigitsAscii(n: nat)
    ensures AllDigits(Digits(n)) && DigitsValue(Digits(n)) == n && (n > 0 ==> IsCount(Digits(n)))
    ensures |Encode(Digits(n))| == |Digits(n)| && 32 !in Encode(Digits(n))
    ensures WellFormed(Digits(n)) && Digits(n)[0] != 0xFEFF
  {
    DigitsReadBack(n);
    AsciiEncode(Digits(n));
    AsciiWellFormed(Digits(n));
  }

  lemma CountIsDigits(raw: Text)
    requires IsCount(raw)
    ensures DigitsValue(raw) > 0 && raw == Digits(DigitsValue(raw))
  {
    CountSpelled(raw);
  }

  lemma {:induction false} CountSpelled(raw: Text)
    requires raw != [] && AllDigits(raw) && raw[0] != 48
    ensures DigitsValue(raw) > 0 && raw == Digits(DigitsValue(raw))
  {
    hide Digits;
    var prior, last := raw[..|raw| - 1], raw[|raw| - 1];
    assert raw == prior + [last];
    if prior != [] {
      CountSpelled(prior);
      NextDigit(DigitsValue(prior), last - 48);
    } else {
      assert DigitsValue(prior) == 0;
      OneDigit(last - 48);
    }
  }

  lemma NextDigit(n: nat, d: nat)
    requires n > 0 && d < 10
    ensures Digits(n * 10 + d) == Digits(n) + [48 + d]
  {
    assert (n * 10 + d) / 10 == n && (n * 10 + d) % 10 == d;
  }

  lemma OneDigit(d: nat)
    requires d < 10
    ensures Digits(d) == [48 + d]
  {
  }

  lemma FirstSpace(front: Bytes, rest: Bytes)
    requires 32 !in front
    ensures IndexOfByte(front + [32] + rest, 32) == Some(|front|)
  {
    var b := front + [32] + rest;
    assert b[..|front|] == front;
    ByteIndexIs(b, 32, |front|);
  }

  lemma LineFields(key: Text, value: Text)
    requires 61 !in key
    ensures var line := Line(key, value);
      && IndexOfUnit(line, 61) == Some(|key|) && line[..|key|] == key && line[|key| + 1..|line| - 1] == value
      && line[|line| - 1] == 10
  {
    var line := Line(key, value);
    assert line[..|key|] == key;
    UnitIndexIs(line, 61, |key|);
  }

  lemma LineDecomposed(line: Text) returns (key: Text, value: Text)
    requires line != [] && line[|line| - 1] == 10 && IndexOfUnit(line, 61).Some?
    ensures line == Line(key, value) && 61 !in key && |key| == IndexOfUnit(line, 61).value
  {
    var k := IndexOfUnit(line, 61).value;
    key, value := line[..k], line[k + 1..|line| - 1];
    assert line[k] == 61;
    assert line == line[..k] + [line[k]] + line[k + 1..|line| - 1] + [line[|line| - 1]];
  }

  lemma CountBytes(count: Bytes, n: nat)
    requires IsText(count, Digits(n))
    ensures 32 !in count
  {
    DigitsAscii(n);
  }

  /** A record at the front of an extension is read as its length and its line. */
  lemma RecordReadsBack(reader: Reader, record: Bytes, count: Bytes, line: Bytes, key: Text, value: Text, more: Bytes)
    requires Decodes(reader.text) && IsRecordOf(record, count, line, key, value) && |record| <= MAX_EXTENSION
    ensures PaxRecord(reader, record + more) == Ok((|record|, Line(key, value))) && record != []
  {
    hide IsText, Digits, DigitsValue, IsCount, IndexOfByte, Line, AllDigits;
    var all := record + more;
    CountBytes(count, |record|);
    DigitsAscii(|record|);
    assert Line(key, value) != [] by { LineNotEmpty(key, value); }
    TextNotEmpty(line, Line(key, value));
    assert all == count + [32] + (line + more);
    FirstSpace(count, line + more);
    assert all[..|count|] == count && all[|count| + 1..|record|] == line;
  }

  lemma LineNotEmpty(key: Text, value: Text)
    ensures Line(key, value) != []
  {
  }

  /** And what is read as a record was one. */
  lemma RecordWasWritten(reader: Reader, b: Bytes, length: nat, line: Text) returns (count: Bytes, bytes: Bytes)
    requires Decodes(reader.text) && PaxRecord(reader, b) == Ok((length, line))
    ensures 0 < length <= |b| && b[..length] == count + [32] + bytes
    ensures IsText(count, Digits(length)) && IsText(bytes, line)
  {
    hide IsText, Digits, DigitsValue, IsCount;
    var space := IndexOfByte(b, 32).value;
    count, bytes := b[..space], b[space + 1..length];
    CountIsDigits(reader.text.decode(count).value);
    assert b[..length] == b[..space] + [b[space]] + b[space + 1..length];
  }

  /** The records of an extension give the path that was written, if one was. */
  lemma {:induction false} RecordsReadBack(reader: Reader, b: Bytes, given: Option<Text>, selected: Option<Text>)
    requires Decodes(reader.text) && Records(reader, b, given) && |b| <= MAX_EXTENSION
    requires selected.None? || given.None?
    ensures PaxPath(reader, b, selected) == Ok(if given.Some? then given else selected)
    decreases |b|
  {
    hide IsRecordOf, PaxRecord, Decodes, Line, IsPaxTime;
    if b != [] {
      var k, key, value :| 0 < k <= |b| && IsRecord(b[..k], key, value) && Further(reader, b, k, key, value, given);
      var count, line :| IsRecordOf(b[..k], count, line, key, value);
      assert b == b[..k] + b[k..];
      RecordReadsBack(reader, b[..k], count, line, key, value, b[k..]);
      LineFields(key, value);
      if key == PATH {
        RecordsReadBack(reader, b[k..], None, given);
      } else {
        RecordsReadBack(reader, b[k..], given, selected);
      }
    }
  }

  lemma {:induction false} RecordsWereWritten(reader: Reader, b: Bytes, selected: Option<Text>) returns (given: Option<Text>)
    requires Decodes(reader.text) && PaxPath(reader, b, selected).Ok?
    ensures Records(reader, b, given) && (selected.None? || given.None?)
    ensures PaxPath(reader, b, selected) == Ok(if given.Some? then given else selected)
    decreases |b|
  {
    hide PaxRecord, Decodes, IsPaxTime, IsText, Line;
    if b == [] {
      given := None;
    } else {
      var (length, line) := PaxRecord(reader, b).value;
      var count, bytes := RecordWasWritten(reader, b, length, line);
      var key, value := LineDecomposed(line);
      LineFields(key, value);
      assert IsRecordOf(b[..length], count, bytes, key, value);
      assert IsRecord(b[..length], key, value);
      if key == PATH {
        var none := RecordsWereWritten(reader, b[length..], Some(value));
        given := Some(value);
      } else {
        given := RecordsWereWritten(reader, b[length..], selected);
      }
      assert Further(reader, b, length, key, value, given);
    }
  }

  lemma OverrideReadsBack(reader: Reader, b: Bytes, body: Bytes, given: Option<Text>)
    requires Decodes(reader.text) && IsExtensionMember(reader, b, body, given)
    ensures |b| >= BLOCK && IsExtension(b[156]) && Override(reader, b[156], body) == Ok(given)
  {
    hide Records, PaxPath, CString, Holds, IsHeader, Decodes;
    if b[156] == 120 {
      RecordsReadBack(reader, body, given, None);
    } else {
      FieldExactly(reader.text, body, given.value);
    }
  }

  /** An extension header leads to the block after it, with the path it gives. */
  lemma ExtensionScans(reader: Reader, b: Bytes, given: Option<Text>, more: Bytes, base: nat, seen: set<Text>)
    requires Decodes(reader.text) && Extends(reader, b, given)
    ensures Scan(reader, b + more, base, None, seen) == Scan(reader, more, base + |b|, given, seen)
  {
    hide HeaderSize, AllZero, Stored, Override, IsMember, IsHeader, Decodes, Records, Holds;
    var body :| IsExtensionMember(reader, b, body, given);
    OverrideReadsBack(reader, b, body, given);
    MemberHasHeader(b, body);
    MemberLayout(b, body, more);
    HeaderExactly(reader.text, b[..BLOCK], |body|);
  }

  /** What the reader takes for an extension header is one. */
  lemma ExtensionWasWritten(reader: Reader, b: Bytes, size: nat, given: Option<Text>)
    requires Decodes(reader.text) && |b| >= BLOCK && HeaderSize(reader.text, b[..BLOCK]) == Ok(size) && Stored(size) <= |b|
    requires IsExtension(b[156]) && size <= MAX_EXTENSION && BLOCK + size <= Stored(size)
    requires Override(reader, b[156], b[BLOCK..BLOCK + size]) == Ok(given)
    ensures Extends(reader, b[..Stored(size)], given)
  {
    hide HeaderSize, Stored, IsMember, Decodes, Records, Holds, PaxPath, CString;
    var body := b[BLOCK..BLOCK + size];
    FrontIsMember(reader.text, b, size);
    if b[156] == 76 {
      FieldExactly(reader.text, body, given.value);
    } else {
      var written := RecordsWereWritten(reader, body, None);
    }
    assert IsExtensionMember(reader, b[..Stored(size)], body, given);
  }

  /** What the reader takes for an entry is one. */
  lemma EntryWasWritten(reader: Reader, b: Bytes, size: nat, given: Option<Text>, raw: Text, directory: bool)
    requires Decodes(reader.text) && |b| >= BLOCK && HeaderSize(reader.text, b[..BLOCK]) == Ok(size) && Stored(size) <= |b|
    requires BLOCK + size <= Stored(size)
    requires RawPath(reader.text, b[..BLOCK], given) == Ok(raw) && EntryKind(b[156], size) == Ok(directory)
    ensures var item := Item(PathOf(raw, directory), directory, b[BLOCK..BLOCK + size]);
      IsEntry(item, b[..Stored(size)], given) && (directory ==> item.body == [])
  {
    hide HeaderSize, Stored, IsMember, Decodes, RawPath, SaysPath, Spells;
    var item := Item(PathOf(raw, directory), directory, b[BLOCK..BLOCK + size]);
    FrontIsMember(reader.text, b, size);
    PathExactly(reader.text, b, given, raw);
    SaysSame(b, b[..Stored(size)], given, raw);
    SpellingMeans(reader.text, item, raw);
    KindMeans(item, b[156]);
  }

  lemma SaysSame(b: Bytes, c: Bytes, given: Option<Text>, raw: Text)
    requires |b| >= BLOCK && |c| >= BLOCK && NameField(b) == NameField(c) && PrefixField(b) == PrefixField(c)
    ensures SaysPath(b, given, raw) <==> SaysPath(c, given, raw)
  {
    hide Holds;
    forall prefix, name ensures Names(b, prefix, name) <==> Names(c, prefix, name) {
    }
  }

  // ---- The whole archive ----

  lemma {:induction false} SerialisedScans(reader: Reader, items: seq<Item>, b: Bytes, base: nat, seen: set<Text>)
    requires Decodes(reader.text) && Serialises(reader, items, b) && Valid(reader.text, seen, items)
    ensures Scan(reader, b, base, None, seen).Ok? && ItemsOf(Scan(reader, b, base, None, seen).value) == items
    decreases |b|
  {
    hide Writes, ItemOk, AllZero, Scan, Stored, Extends, Decodes;
    if items == [] && |b| >= 2 * BLOCK && AllZero(b) {
      EndScans(reader, b, base, seen);
    } else if k :| 0 < k <= |b| && Extends(reader, b[..k], None) && Serialises(reader, items, b[k..]) {
      assert b == b[..k] + b[k..];
      ExtensionScans(reader, b[..k], None, b[k..], base, seen);
      SerialisedScans(reader, items, b[k..], base + k, seen);
    } else {
      var k :| 0 < k <= |b| && Writes(reader, items[0], b[..k]) && Serialises(reader, items[1..], b[k..]);
      var start := ItemReadsBack(reader, items[0], b[..k], b[k..], base, seen);
      assert b == b[..k] + b[k..];
      ValidRest(reader.text, seen, items);
      SerialisedScans(reader, items[1..], b[k..], base + k, seen + {reader.text.lower(items[0].path)});
      ItemsCons(TarEntry(items[0].path, items[0].directory, start, items[0].body),
                Scan(reader, b[k..], base + k, None, seen + {reader.text.lower(items[0].path)}).value);
    }
  }

  /** However an entry is written, it is read as that entry, and the reader stands behind it. */
  lemma ItemReadsBack(reader: Reader, item: Item, b: Bytes, more: Bytes, base: nat, seen: set<Text>) returns (start: nat)
    requires Decodes(reader.text) && Writes(reader, item, b) && ItemOk(reader.text, item)
    requires reader.text.lower(item.path) !in seen && |seen| < MAX_ENTRIES
    ensures Scan(reader, b + more, base, None, seen)
         == Tar.Prepend([TarEntry(item.path, item.directory, start, item.body)],
                        Scan(reader, more, base + |b|, None, seen + {reader.text.lower(item.path)}))
  {
    hide Scan, ItemOk, Decodes, IsEntry, Extends;
    if IsEntry(item, b, None) {
      EntryReadsBack(reader, item, b, None, more, base, seen);
      start := base + BLOCK;
    } else {
      var k, raw :| 0 <= k <= |b| && Extends(reader, b[..k], Some(raw)) && IsEntry(item, b[k..], Some(raw));
      assert b + more == b[..k] + (b[k..] + more);
      ExtensionScans(reader, b[..k], Some(raw), b[k..] + more, base, seen);
      EntryReadsBack(reader, item, b[k..], Some(raw), more, base + k, seen);
      start := base + k + BLOCK;
    }
  }

  lemma ItemsCons(entry: TarEntry, entries: seq<TarEntry>)
    ensures ItemsOf([entry] + entries) == [Item(entry.path, entry.directory, entry.body)] + ItemsOf(entries)
  {
  }

  lemma EndScans(reader: Reader, b: Bytes, base: nat, seen: set<Text>)
    requires |b| >= 2 * BLOCK && AllZero(b)
    ensures Scan(reader, b, base, None, seen) == Ok([])
  {
    assert AllZero(b[..BLOCK]);
  }

  lemma ValidRest(services: TextServices, seen: set<Text>, items: seq<Item>)
    requires Valid(services, seen, items) && items != []
    ensures Valid(services, seen + {services.lower(items[0].path)}, items[1..])
  {
    hide ItemOk;
  }

  /** What is behind an extension that gave a path: the entry it is for, and the rest. */
  ghost predicate Continues(reader: Reader, items: seq<Item>, b: Bytes, given: Option<Text>) {
    match given
    case None => Serialises(reader, items, b)
    case Some(raw) =>
      items != [] && exists k :: 0 < k <= |b| && IsEntry(items[0], b[..k], given) && Serialises(reader, items[1..], b[k..])
  }

  ghost predicate EmptyDirectories(entries: seq<TarEntry>) {
    forall i :: 0 <= i < |entries| && entries[i].directory ==> entries[i].body == []
  }

  /** Every accepted archive is a serialisation of what is read from it. */
  lemma {:induction false} ScannedWasSerialised(reader: Reader, b: Bytes, base: nat, override: Option<Text>, seen: set<Text>)
    requires Decodes(reader.text) && Scan(reader, b, base, override, seen).Ok?
    ensures Continues(reader, ItemsOf(Scan(reader, b, base, override, seen).value), b, override)
    ensures EmptyDirectories(Scan(reader, b, base, override, seen).value)
    decreases |b|
  {
    hide HeaderSize, AllZero, Override, RawPath, EntryKind, Registrable, Stored, IsExtension, Decodes, Extends, IsEntry, Key,
         PathOf, Continues, Serialises;
    var entries := Scan(reader, b, base, override, seen).value;
    if AllZero(b[..BLOCK]) {
      EndWasSerialised(reader, b);
    } else {
      var size := HeaderSize(reader.text, b[..BLOCK]).value;
      StoredCovers(size);
      var member, after := b[..Stored(size)], b[Stored(size)..];
      if IsExtension(b[156]) {
        var given := Override(reader, b[156], b[BLOCK..BLOCK + size]).value;
        ScannedWasSerialised(reader, after, base + Stored(size), given, seen);
        ExtensionWasWritten(reader, b, size, given);
        ExtensionContinues(reader, ItemsOf(entries), b, Stored(size), given);
      } else {
        var raw := RawPath(reader.text, b[..BLOCK], override).value;
        var directory := EntryKind(b[156], size).value;
        var more := seen + {Key(reader.text, raw, directory)};
        ScannedWasSerialised(reader, after, base + Stored(size), None, more);
        EntryWasWritten(reader, b, size, override, raw, directory);
        var entry := TarEntry(PathOf(raw, directory), directory, base + BLOCK, b[BLOCK..BLOCK + size]);
        ItemsCons(entry, Scan(reader, after, base + Stored(size), None, more).value);
        EntryContinues(reader, Item(entry.path, entry.directory, entry.body),
                       ItemsOf(Scan(reader, after, base + Stored(size), None, more).value), b, Stored(size), override);
      }
    }
  }

  lemma EndWasSerialised(reader: Reader, b: Bytes)
    ensures |b| >= 2 * BLOCK && AllZero(b) ==> Continues(reader, ItemsOf([]), b, None)
  {
  }

  lemma ExtensionContinues(reader: Reader, items: seq<Item>, b: Bytes, k: nat, given: Option<Text>)
    requires 0 < k <= |b| && Extends(reader, b[..k], given) && Continues(reader, items, b[k..], given)
    ensures Continues(reader, items, b, None)
  {
    hide Extends, IsEntry;
    if given.Some? {
      var m :| 0 < m <= |b[k..]| && IsEntry(items[0], b[k..][..m], given) && Serialises(reader, items[1..], b[k..][m..]);
      var whole := b[..k + m];
      assert whole[..k] == b[..k] && whole[k..] == b[k..][..m] && b[k + m..] == b[k..][m..];
      assert Writes(reader, items[0], whole);
    }
  }

  lemma EntryContinues(reader: Reader, item: Item, items: seq<Item>, b: Bytes, k: nat, given: Option<Text>)
    requires 0 < k <= |b| && IsEntry(item, b[..k], given) && Continues(reader, items, b[k..], None)
    ensures Continues(reader, [item] + items, b, given)
  {
    hide IsEntry;
    assert ([item] + items)[1..] == items;
    if given.None? {
      assert Writes(reader, item, b[..k]);
    }
  }

  lemma ScannedIsValid(reader: Reader, b: Bytes)
    requires Decodes(reader.text) && Scan(reader, b, 0, None, {}).Ok?
    ensures Valid(reader.text, {}, ItemsOf(Scan(reader, b, 0, None, {}).value))
  {
    hide Scan, SafePath, Decodes;
    var entries := Scan(reader, b, 0, None, {}).value;
    ScanLayout(reader, b, 0, None, {});
    ScannedWasSerialised(reader, b, 0, None, {});
  }

  /** The reader accepts exactly the serialisations of valid lists of entries, and reads each as its list. */
  lemma ReadExactly(reader: Reader, items: seq<Item>, b: Bytes)
    requires Decodes(reader.text)
    ensures Read(reader, b).Ok? && ItemsOf(Read(reader, b).value) == items
       <==> |b| <= reader.maximum && Serialises(reader, items, b) && Valid(reader.text, {}, items)
  {
    hide Scan, Serialises, Valid, Decodes;
    if Read(reader, b).Ok? {
      ScannedWasSerialised(reader, b, 0, None, {});
      ScannedIsValid(reader, b);
    }
    if |b| <= reader.maximum && Serialises(reader, items, b) && Valid(reader.text, {}, items) {
      SerialisedScans(reader, items, b, 0, {});
    }
  }

  /** One archive serialises one list of valid entries. */
  lemma SerialisationIsUnambiguous(reader: Reader, items: seq<Item>, others: seq<Item>, b: Bytes)
    requires Decodes(reader.text) && Serialises(reader, items, b) && Serialises(reader, others, b)
    requires Valid(reader.text, {}, items) && Valid(reader.text, {}, others)
    ensures items == others
  {
    hide Serialises, Valid, Scan;
    SerialisedScans(reader, items, b, 0, {});
    SerialisedScans(reader, others, b, 0, {});
  }

  // ---- Every list of valid entries has a serialisation ----

  lemma {:induction false} NextDigits(n: nat)
    ensures |Digits(n)| <= |Digits(n + 1)| <= |Digits(n)| + 1
  {
    if n >= 10 {
      NextDigits(n / 10);
      assert (n + 1) / 10 == n / 10 || (n + 1) / 10 == n / 10 + 1;
    }
  }

  lemma {:induction false} FewDigits(n: nat)
    ensures |Digits(n)| <= n / 2 + 1
  {
    if n >= 10 {
      FewDigits(n / 10);
    }
  }

  /** A record can count its own length: some number is m more than its own digits. */
  lemma {:induction false} OwnLength(m: nat, from: nat) returns (n: nat)
    requires from <= |Digits(from)| + m
    ensures n == |Digits(n)| + m && n <= 2 * m + 2
    decreases 2 * m + 3 - from
  {
    hide Digits;
    FewDigits(from);
    NextDigits(from);
    if from == |Digits(from)| + m {
      n := from;
    } else {
      n := OwnLength(m, from + 1);
    }
  }

  lemma {:induction false} EncodedLength(cs: seq<CodePoint>)
    ensures |EncodePoints(cs)| <= 4 * |cs|
  {
    if cs != [] {
      EncodedLength(cs[1..]);
    }
  }

  lemma {:induction false} NoNulBytes(t: Text)
    requires 0 !in t
    ensures 0 !in Encode(t)
    decreases |t|
  {
    if t != [] {
      var n := Utf8.Step(t);
      CodePointsStep(t);
      NoNulBytes(t[n..]);
      PointNotZero(FirstPoint(t));
      assert Encode(t) == EncodePoint(FirstPoint(t)) + Encode(t[n..]);
    }
  }

  lemma PointNotZero(c: CodePoint)
    requires c != 0
    ensures 0 !in EncodePoint(c)
  {
  }

  /** A text that a NUL-ended field can carry as it is. */
  predicate FieldText(t: Text) {
    WellFormed(t) && !StartsWithMark(t) && 0 !in t
  }

  lemma TextIsHeld(field: Bytes, t: Text)
    requires FieldText(t) && Encode(t) <= field && (|Encode(t)| == |field| || field[|Encode(t)|] == 0)
    ensures Holds(field, t)
  {
    hide Encode;
    NoNulBytes(t);
    assert HoldsAs(field, t, Encode(t));
  }

  function Zeros(n: nat): Bytes {
    seq(n, _ => 0)
  }

  /** The octal digits of a number, ended by NULs. */
  function OctalField(n: nat, width: nat, size: nat): (r: Bytes)
    requires width < size
    ensures |r| == size
  {
    AsciiLength(OctalDigits(n, width));
    Encode(OctalDigits(n, width)) + Zeros(size - width)
  }

  lemma OctalFieldIsOne(n: nat, width: nat, size: nat)
    requires 0 < width < size && n < Power8(width) && IsSafe(n)
    ensures IsOctalField(OctalField(n, width, size), n)
  {
    hide Encode;
    var t := OctalDigits(n, width);
    AsciiEncode(t);
    AsciiWellFormed(t);
    assert [] + t + [] == t;
    TextIsHeld(OctalField(n, width, size), t);
    assert IsOctalFieldWith(OctalField(n, width, size), n, [], width, []);
  }

  lemma {:induction false} SumBound(b: Bytes)
    ensures Sum(b) <= 255 * |b|
  {
    if b != [] {
      SumBound(b[..|b| - 1]);
    }
  }

  lemma EightTo(k: nat)
    ensures k == 6 ==> Power8(k) == 262144
    ensures k == 11 ==> Power8(k) == 8589934592
  {
    if k == 6 {
      assert Power8(1) == 8 && Power8(2) == 64 && Power8(3) == 512;
      assert Power8(4) == 4096 && Power8(5) == 32768 && Power8(6) == 262144;
    } else if k == 11 {
      EightTo(6);
      assert Power8(7) == 2097152 && Power8(8) == 16777216 && Power8(9) == 134217728;
      assert Power8(10) == 1073741824 && Power8(11) == 8589934592;
    }
  }

  function Front(name: Bytes, size: nat): (r: Bytes)
    requires |name| <= 100
    ensures |r| == 148
  {
    name + Zeros(124 - |name|) + OctalField(size, 11, 12) + Zeros(12)
  }

  function Back(kind: Byte, prefix: Bytes): (r: Bytes)
    requires |prefix| <= 155
    ensures |r| == 356
  {
    [kind] + Zeros(188) + prefix + Zeros(167 - |prefix|)
  }

  /** A plain header: these fields, and zeros everywhere else. */
  function Header(prefix: Bytes, name: Bytes, size: nat, kind: Byte): (r: Bytes)
    requires |prefix| <= 155 && |name| <= 100
    ensures |r| == BLOCK
  {
    var front, back := Front(name, size), Back(kind, prefix);
    front + OctalField(Sum(front) + 8 * 32 + Sum(back), 6, 8) + back
  }

  /** A field holds these bytes, and then NULs. */
  predicate Filled(field: Bytes, b: Bytes) {
    b <= field && (|b| == |field| || field[|b|] == 0)
  }

  lemma HeaderIsOne(prefix: Bytes, name: Bytes, size: nat, kind: Byte)
    requires |prefix| <= 155 && |name| <= 100 && size < Power8(11)
    ensures var h := Header(prefix, name, size, kind);
      IsHeader(h, size) && h[156] == kind && Filled(PrefixField(h), prefix) && Filled(NameField(h), name)
  {
    hide OctalField, Sum, Power8, IsOctalField;
    var front, back := Front(name, size), Back(kind, prefix);
    var sum := Sum(front) + 8 * 32 + Sum(back);
    var h := Header(prefix, name, size, kind);
    SumBound(front);
    SumBound(back);
    EightTo(6);
    EightTo(11);
    OctalFieldIsOne(size, 11, 12);
    OctalFieldIsOne(sum, 6, 8);
    assert h[..148] == front && h[156..] == back;
    assert h[148..156] == OctalField(sum, 6, 8);
    assert h[124..136] == front[124..136] == OctalField(size, 11, 12);
    NameHeld(name, h, front);
    PrefixHeld(kind, prefix, h, back);
  }

  lemma NameHeld(name: Bytes, h: Bytes, front: Bytes)
    requires |name| <= 100 && |h| == BLOCK && h[..148] == front && |front| == 148
    requires front[..124] == name + Zeros(124 - |name|)
    ensures Filled(NameField(h), name)
  {
    assert NameField(h) == front[..124][..100];
  }

  lemma PrefixHeld(kind: Byte, prefix: Bytes, h: Bytes, back: Bytes)
    requires |prefix| <= 155 && |h| == BLOCK && h[156..] == back && back == Back(kind, prefix)
    ensures Filled(PrefixField(h), prefix)
  {
    assert PrefixField(h) == back[189..344];
  }

  /** A member with these header fields and zeros at its end. */
  function Member(prefix: Bytes, name: Bytes, kind: Byte, body: Bytes): Bytes
    requires |prefix| <= 155 && |name| <= 100
  {
    StoredCovers(|body|);
    Header(prefix, name, |body|, kind) + body + Zeros(Stored(|body|) - BLOCK - |body|)
  }

  lemma MemberIsOne(prefix: Bytes, name: Bytes, kind: Byte, body: Bytes)
    requires |prefix| <= 155 && |name| <= 100 && |body| < Power8(11)
    ensures var b := Member(prefix, name, kind, body);
      IsMember(b, body) && b[156] == kind && Filled(PrefixField(b), prefix) && Filled(NameField(b), name)
  {
    hide Header, IsHeader, Stored, Power8;
    var b, h := Member(prefix, name, kind, body), Header(prefix, name, |body|, kind);
    HeaderIsOne(prefix, name, |body|, kind);
    StoredCovers(|body|);
    assert b[..BLOCK] == h && b[BLOCK..BLOCK + |body|] == body;
    assert PrefixField(b) == PrefixField(h) && NameField(b) == NameField(h);
  }

  function KindOf(item: Item): Byte {
    if item.directory then 53 else 48
  }

  /** A path that the two fields can hold, cut at a slash or not at all, needs no extension. */
  lemma UstarForm(reader: Reader, item: Item, prefix: Text, name: Text) returns (b: Bytes)
    requires FieldText(prefix) && FieldText(name) && Spells(item, Joined(prefix, name))
    requires |Encode(prefix)| <= 155 && |Encode(name)| <= 100 && |item.body| < Power8(11)
    ensures Writes(reader, item, b)
  {
    hide Member, IsMember, Encode, FieldText, Holds, Spells, Power8;
    b := Member(Encode(prefix), Encode(name), KindOf(item), item.body);
    MemberIsOne(Encode(prefix), Encode(name), KindOf(item), item.body);
    MemberHasHeader(b, item.body);
    TextIsHeld(PrefixField(b), prefix);
    TextIsHeld(NameField(b), name);
    assert Names(b, prefix, name);
    assert SaysPath(b, None, Joined(prefix, name));
  }

  lemma LineReadable(key: Text, value: Text)
    requires WellFormed(key) && key != [] && !StartsWithMark(key) && WellFormed(value)
    ensures WellFormed(Line(key, value)) && !StartsWithMark(Line(key, value))
  {
    hide WellFormed;
    AsciiWellFormed([61]);
    AsciiWellFormed([10]);
    CodePointsConcat(key, [61]);
    CodePointsConcat(key + [61], value);
    CodePointsConcat(key + [61] + value, [10]);
    assert Line(key, value)[0] == key[0];
  }

  lemma RecordExists(path: Text) returns (record: Bytes)
    requires |path| <= MAX_PATH && WellFormed(path)
    ensures IsRecord(record, PATH, path) && |record| <= MAX_EXTENSION
  {
    hide EncodePoints, Digits, WellFormed;
    var line := Encode(Line(PATH, path));
    EncodedLength(CodePoints(Line(PATH, path)));
    AsciiWellFormed(PATH);
    LineReadable(PATH, path);
    var n := OwnLength(1 + |line|, 0);
    DigitsAscii(n);
    record := Encode(Digits(n)) + [32] + line;
    assert |record| == n;
    assert IsRecordOf(record, Encode(Digits(n)), line, PATH, path);
  }

  lemma PathRecords(reader: Reader, record: Bytes, path: Text)
    requires IsRecord(record, PATH, path)
    ensures Records(reader, record, Some(path))
  {
    hide IsRecord;
    assert record != [] by { RecordNotEmpty(record, PATH, path); }
    assert record[..|record|] == record && record[|record|..] == [];
    assert Records(reader, [], None);
    assert Further(reader, record, |record|, PATH, path, Some(path));
  }

  lemma RecordNotEmpty(record: Bytes, key: Text, value: Text)
    requires IsRecord(record, key, value)
    ensures record != []
  {
    hide IsText;
  }

  /** Every path has a pax form. */
  lemma PaxForm(reader: Reader, item: Item) returns (b: Bytes)
    requires ItemOk(reader.text, item) && WellFormed(item.path) && |item.body| < Power8(11)
    ensures Writes(reader, item, b) && b != []
  {
    hide Member, IsMember, IsRecord, Records, Holds, WellFormed, Power8;
    var record := RecordExists(item.path);
    EightTo(11);
    var extension, entry := Member([], [], 120, record), Member([], [], KindOf(item), item.body);
    MemberIsOne([], [], 120, record);
    MemberIsOne([], [], KindOf(item), item.body);
    PathRecords(reader, record, item.path);
    assert IsExtensionMember(reader, extension, record, Some(item.path));
    MemberHasHeader(entry, item.body);
    NothingIsFieldText();
    TextIsHeld(PrefixField(entry), []);
    assert SaysPath(entry, Some(item.path), item.path);
    assert IsEntry(item, entry, Some(item.path));
    b := extension + entry;
    assert b[..|extension|] == extension && b[|extension|..] == entry;
  }

  lemma NothingIsFieldText()
    ensures FieldText([]) && Encode([]) == []
  {
  }

  /** No list of valid entries is beyond the format: a path the name fields cannot hold goes into a record. */
  lemma {:induction false} SerialisationExists(reader: Reader, items: seq<Item>) returns (b: Bytes)
    requires forall i :: 0 <= i < |items| ==>
      ItemOk(reader.text, items[i]) && WellFormed(items[i].path) && |items[i].body| < Power8(11)
    ensures Serialises(reader, items, b)
  {
    hide ItemOk, Writes, Power8, WellFormed, Extends;
    if items == [] {
      b := Zeros(2 * BLOCK);
    } else {
      var first := PaxForm(reader, items[0]);
      var rest := SerialisationExists(reader, items[1..]);
      b := first + rest;
      assert b[..|first|] == first && b[|first|..] == rest;
    }
  }
}
