/** The strict ustar and PAX reader ("ustar Interchange Format" and "pax Interchange Format" of the pax
    utility, IEEE Std 1003.1): two cursors, and what accepted archives look like. */
module Tar {
  import opened Texts
  import opened JsonData
  import opened ReleaseModel
  import opened Utf8
  import opened JsonTokens
  import opened NativeJson
  import opened TreeLayout
  import opened ArchivePaths

  const BLOCK := 512
  const MAX_EXTENSION := 65536

  const PATH: Text := [112, 97, 116, 104]  // "path"

  /** What a caller fixes: the platform's text services, the byte bound and the PAX times it lets through. */
  datatype Reader = Reader(text: TextServices, maximum: nat, allowed: set<Text>)

  /** An entry, and where its body starts in the archive. */
  datatype TarEntry = TarEntry(path: Text, directory: bool, start: nat, body: Bytes)

  // ---- Fields ----

  predicate AllZero(b: Bytes) {
    forall i :: 0 <= i < |b| ==> b[i] == 0
  }

  function Sum(b: Bytes): nat {
    if b == [] then 0 else Sum(b[..|b| - 1]) + b[|b| - 1]
  }

  /** The sum of a header with its checksum field read as spaces. */
  function Checksum(header: Bytes): nat
    requires |header| == BLOCK
  {
    Sum(header[..148]) + 8 * 32 + Sum(header[156..])
  }

  function IndexOfByte(b: Bytes, u: Byte): (r: Option<nat>)
    ensures r.Some? ==> r.value < |b| && b[r.value] == u && u !in b[..r.value]
    ensures r.None? ==> u !in b
  {
    if b == [] then None
    else if b[0] == u then Some(0)
    else
      match IndexOfByte(b[1..], u)
      case None => None
      case Some(k) =>
        assert b[..k + 1] == [b[0]] + b[1..][..k];
        Some(k + 1)
  }

  function IndexOfUnit(t: Text, u: CodeUnit): (r: Option<nat>)
    ensures r.Some? ==> r.value < |t| && t[r.value] == u && u !in t[..r.value]
    ensures r.None? ==> u !in t
  {
    if t == [] then None
    else if t[0] == u then Some(0)
    else
      match IndexOfUnit(t[1..], u)
      case None => None
      case Some(k) =>
        assert t[..k + 1] == [t[0]] + t[1..][..k];
        Some(k + 1)
  }

  lemma {:induction false} ByteIndexIs(b: Bytes, u: Byte, k: nat)
    requires k < |b| && b[k] == u && u !in b[..k]
    ensures IndexOfByte(b, u) == Some(k)
  {
    if k > 0 {
      assert b[..k] == [b[0]] + b[1..][..k - 1];
      ByteIndexIs(b[1..], u, k - 1);
    }
  }

  lemma {:induction false} UnitIndexIs(t: Text, u: CodeUnit, k: nat)
    requires k < |t| && t[k] == u && u !in t[..k]
    ensures IndexOfUnit(t, u) == Some(k)
  {
    if k > 0 {
      assert t[..k] == [t[0]] + t[1..][..k - 1];
      UnitIndexIs(t[1..], u, k - 1);
    }
  }

  /** The text before the first NUL. */
  function CString(services: TextServices, field: Bytes): Option<Text> {
    match IndexOfByte(field, 0)
    case None => services.decode(field)
    case Some(end) => services.decode(field[..end])
  }

  /** What String.prototype.trim removes. */
  predicate IsTrimmed(u: CodeUnit) {
    9 <= u <= 13 || u == 32 || u == 0xA0 || u == 0x1680 || 0x2000 <= u <= 0x200A || u == 0x2028 || u == 0x2029
    || u == 0x202F || u == 0x205F || u == 0x3000 || u == 0xFEFF
  }

  function TrimStart(t: Text): Text {
    if t != [] && IsTrimmed(t[0]) then TrimStart(t[1..]) else t
  }

  function TrimEnd(t: Text): Text {
    if t != [] && IsTrimmed(t[|t| - 1]) then TrimEnd(t[..|t| - 1]) else t
  }

  predicate AllOctal(t: Text) {
    forall i :: 0 <= i < |t| ==> 48 <= t[i] <= 55
  }

  function OctalValue(t: Text): int {
    if t == [] then 0 else OctalValue(t[..|t| - 1]) * 8 - 48 + t[|t| - 1]
  }

  function Octal(services: TextServices, field: Bytes): Option<nat> {
    match CString(services, field)
    case None => None
    case Some(raw) =>
      var value := TrimEnd(TrimStart(raw));
      if value == [] || !AllOctal(value) || !IsSafe(OctalValue(value)) || OctalValue(value) < 0 then None
      else Some(OctalValue(value))
  }

  // ---- PAX records ----

  /** A positive decimal without leading zero. */
  predicate IsCount(t: Text) {
    t != [] && AllDigits(t) && t[0] != 48
  }

  /** An optional minus, digits, and an optional fraction. */
  predicate IsPaxTime(t: Text) {
    var d := if t != [] && t[0] == 45 then t[1..] else t;
    match IndexOfUnit(d, 46)
    case None => d != [] && AllDigits(d)
    case Some(dot) => dot > 0 && AllDigits(d[..dot]) && dot + 1 < |d| && AllDigits(d[dot + 1..])
  }

  /** One `key=value` line: the path may be given once, and only permitted times beside it. */
  function PaxField(reader: Reader, line: Text, selected: Option<Text>): Result<Option<Text>> {
    if line == [] || line[|line| - 1] != 10 then Fail(TarPax)
    else
      match IndexOfUnit(line, 61)
      case None => Fail(TarPax)
      case Some(equals) =>
        if equals == 0 then Fail(TarPax)
        else
          var key, value := line[..equals], line[equals + 1..|line| - 1];
          if key == PATH then (if selected.Some? then Fail(TarPax) else Ok(Some(value)))
          else if key !in reader.allowed || !IsPaxTime(value) then Fail(TarPax)
          else Ok(selected)
  }

  /** The length of the record at the front, and its line. */
  function PaxRecord(reader: Reader, body: Bytes): (r: Result<(nat, Text)>)
    ensures r.Ok? ==> 0 < r.value.0 <= |body|
  {
    match IndexOfByte(body, 32)
    case None => Fail(TarPax)
    case Some(space) =>
      match reader.text.decode(body[..space])
      case None => Fail(ArchiveEncoding)
      case Some(raw) =>
        if !IsCount(raw) then Fail(TarPax)
        else
          var length := DigitsValue(raw);
          if !IsSafe(length) || length <= space + 1 || length > |body| then Fail(TarPax)
          else
            match reader.text.decode(body[space + 1..length])
            case None => Fail(ArchiveEncoding)
            case Some(line) => Ok((length, line))
  }

  function PaxPath(reader: Reader, body: Bytes, selected: Option<Text>): Result<Option<Text>>
    decreases |body|
  {
    if body == [] then Ok(selected)
    else
      match PaxRecord(reader, body)
      case Fail(refusal) => Fail(refusal)
      case Ok((length, line)) =>
        match PaxField(reader, line, selected)
        case Fail(refusal) => Fail(refusal)
        case Ok(next) => PaxPath(reader, body[length..], next)
  }

  /** The reader's loop over the records of one extension header. */
  method ReadPaxPath(reader: Reader, body: Bytes) returns (r: Result<Option<Text>>)
    ensures r == PaxPath(reader, body, None)
  {
    hide PaxRecord, PaxField;
    var cursor := 0;
    var selected: Option<Text> := None;
    assert body[0..] == body;
    while cursor < |body|
      invariant 0 <= cursor <= |body|
      invariant PaxPath(reader, body[cursor..], selected) == PaxPath(reader, body, None)
    {
      var record := PaxRecord(reader, body[cursor..]);
      if record.Fail? {
        return Fail(record.refusal);
      }
      var next := PaxField(reader, record.value.1, selected);
      if next.Fail? {
        return Fail(next.refusal);
      }
      assert body[cursor..][record.value.0..] == body[cursor + record.value.0..];
      selected := next.value;
      cursor := cursor + record.value.0;
    }
    r := Ok(selected);
  }

  // ---- Headers ----

  /** `Math.ceil(size / 512) * 512`, after the header itself. */
  function Stored(size: nat): nat {
    BLOCK + (size + BLOCK - 1) / BLOCK * BLOCK
  }

  /** A header with a right checksum, and the size it declares. */
  function HeaderSize(services: TextServices, header: Bytes): Result<nat>
    requires |header| == BLOCK
  {
    match Octal(services, header[148..156])
    case None => Fail(TarNumber)
    case Some(sum) =>
      if sum != Checksum(header) then Fail(TarChecksum)
      else match Octal(services, header[124..136]) case None => Fail(TarNumber) case Some(size) => Ok(size)
  }

  predicate IsExtension(kind: Byte) { kind == 120 || kind == 76 }

  function Override(reader: Reader, kind: Byte, body: Bytes): Result<Option<Text>> {
    if kind == 76 then (match CString(reader.text, body) case None => Fail(ArchiveEncoding) case Some(name) => Ok(Some(name)))
    else PaxPath(reader, body, None)
  }

  /** The path a header names when no extension header did. */
  function RawPath(services: TextServices, header: Bytes, override: Option<Text>): Result<Text>
    requires |header| == BLOCK
  {
    match CString(services, header[345..500])
    case None => Fail(ArchiveEncoding)
    case Some(prefix) =>
      if override.Some? then Ok(override.value)
      else
        match CString(services, header[..100])
        case None => Fail(ArchiveEncoding)
        case Some(name) => Ok(if prefix == [] then name else prefix + [SLASH] + name)
  }

  /** What a header says the entry is. */
  function EntryKind(kind: Byte, size: nat): Result<bool> {
    if kind == 0 || kind == 48 then Ok(false)
    else if kind == 53 && size == 0 then Ok(true)
    else Fail(TarEntryKind)
  }

  predicate Registrable(services: TextServices, seen: set<Text>, raw: Text, directory: bool) {
    SafePath(services, PathOf(raw, directory)) && Key(services, raw, directory) !in seen && |seen| < MAX_ENTRIES
  }

  /** The archive from one block on: `base` blocks before it, an extension's path, the keys already used. */
  function Scan(reader: Reader, rest: Bytes, base: nat, override: Option<Text>, seen: set<Text>): Result<seq<TarEntry>>
    decreases |rest|
  {
    if |rest| < BLOCK then Fail(TarEnd)
    else if AllZero(rest[..BLOCK]) then
      if override.Some? || |rest| < 2 * BLOCK || !AllZero(rest) then Fail(TarEnd) else Ok([])
    else
      match HeaderSize(reader.text, rest[..BLOCK])
      case Fail(refusal) => Fail(refusal)
      case Ok(size) =>
        if Stored(size) > |rest| then Fail(TarTruncated)
        else
          var body, after, kind := rest[BLOCK..BLOCK + size], rest[Stored(size)..], rest[156];
          if IsExtension(kind) then
            if override.Some? || size > MAX_EXTENSION then Fail(TarExtension)
            else
              match Override(reader, kind, body)
              case Fail(refusal) => Fail(refusal)
              case Ok(next) => Scan(reader, after, base + Stored(size), next, seen)
          else
            match RawPath(reader.text, rest[..BLOCK], override)
            case Fail(refusal) => Fail(refusal)
            case Ok(raw) =>
              match EntryKind(kind, size)
              case Fail(refusal) => Fail(refusal)
              case Ok(directory) =>
                if !Registrable(reader.text, seen, raw, directory) then Fail(ArchivePath)
                else
                  match Scan(reader, after, base + Stored(size), None, seen + {Key(reader.text, raw, directory)})
                  case Fail(refusal) => Fail(refusal)
                  case Ok(entries) =>
                    Ok([TarEntry(PathOf(raw, directory), directory, base + BLOCK, body)] + entries)
  }

  function Read(reader: Reader, b: Bytes): Result<seq<TarEntry>> {
    if |b| > reader.maximum then Fail(TarBound) else Scan(reader, b, 0, None, {})
  }

  function Prepend(entries: seq<TarEntry>, rest: Result<seq<TarEntry>>): Result<seq<TarEntry>> {
    match rest case Fail(refusal) => Fail(refusal) case Ok(more) => Ok(entries + more)
  }

  /** What one block of the archive leads to: the end, an extension's path, or an entry. */
  datatype Turn =
    | Ended
    | Extended(size: nat, override: Option<Text>)
    | Entered(size: nat, raw: Text, directory: bool)

  /** The checks of one round of the loop. */
  method ReadTurn(reader: Reader, rest: Bytes, ghost base: nat, override: Option<Text>, seen: set<Text>) returns (r: Result<Turn>)
    requires |rest| >= BLOCK
    ensures r.Fail? ==> Scan(reader, rest, base, override, seen) == Fail(r.refusal)
    ensures r == Ok(Ended) ==> Scan(reader, rest, base, override, seen) == Ok([])
    ensures r.Ok? && !r.value.Ended? ==> Stored(r.value.size) <= |rest|
    ensures r.Ok? && r.value.Extended? ==>
      Scan(reader, rest, base, override, seen)
      == Scan(reader, rest[Stored(r.value.size)..], base + Stored(r.value.size), r.value.override, seen)
    ensures r.Ok? && r.value.Entered? ==>
      && Registrable(reader.text, seen, r.value.raw, r.value.directory)
      && Scan(reader, rest, base, override, seen)
         == Prepend([TarEntry(PathOf(r.value.raw, r.value.directory), r.value.directory, base + BLOCK,
                              rest[BLOCK..BLOCK + r.value.size])],
                    Scan(reader, rest[Stored(r.value.size)..], base + Stored(r.value.size), None,
                         seen + {Key(reader.text, r.value.raw, r.value.directory)}))
  {
    hide Octal, CString, PaxPath, Registrable, RawPath, HeaderSize, AllZero;
    var header := rest[..BLOCK];
    if AllZero(header) {
      r := if override.Some? || |rest| < 2 * BLOCK || !AllZero(rest) then Fail(TarEnd) else Ok(Ended);
      return r;
    }
    var size := HeaderSize(reader.text, header);
    if size.Fail? {
      return Fail(size.refusal);
    }
    if Stored(size.value) > |rest| {
      return Fail(TarTruncated);
    }
    var kind := header[156];
    if IsExtension(kind) {
      r := ReadExtension(reader, kind, size.value, rest[BLOCK..BLOCK + size.value], override);
      return r;
    }
    var raw := RawPath(reader.text, header, override);
    if raw.Fail? {
      return Fail(raw.refusal);
    }
    var directory := EntryKind(kind, size.value);
    if directory.Fail? {
      return Fail(directory.refusal);
    }
    var registrable := MayRegister(reader.text, seen, raw.value, directory.value);
    r := if registrable then Ok(Entered(size.value, raw.value, directory.value)) else Fail(ArchivePath);
  }

  method MayRegister(services: TextServices, seen: set<Text>, raw: Text, directory: bool) returns (may: bool)
    ensures may <==> Registrable(services, seen, raw, directory)
  {
    hide SafePath;
    var registered := ArchivePaths.Register(services, seen, raw, directory);
    may := registered.Ok?;
  }

  method ReadExtension(reader: Reader, kind: Byte, size: nat, body: Bytes, override: Option<Text>) returns (r: Result<Turn>)
    requires IsExtension(kind)
    ensures r == if override.Some? || size > MAX_EXTENSION then Fail(TarExtension)
                 else match Override(reader, kind, body)
                      case Fail(refusal) => Fail(refusal)
                      case Ok(next) => Ok(Extended(size, next))
  {
    hide PaxPath;
    if override.Some? || size > MAX_EXTENSION {
      return Fail(TarExtension);
    }
    if kind == 76 {
      var name := CString(reader.text, body);
      return if name.None? then Fail(ArchiveEncoding) else Ok(Extended(size, Some(name.value)));
    }
    var path := ReadPaxPath(reader, body);
    r := if path.Fail? then Fail(path.refusal) else Ok(Extended(size, path.value));
  }

  /** The reader's outer loop, one header at a time. */
  method ReadTar(reader: Reader, b: Bytes) returns (r: Result<seq<TarEntry>>)
    ensures r == Read(reader, b)
  {
    hide Scan, Key, Registrable;
    if |b| > reader.maximum {
      return Fail(TarBound);
    }
    var offset: nat := 0;
    var override: Option<Text> := None;
    var seen: set<Text>, entries: seq<TarEntry> := {}, [];
    assert b[0..] == b;
    PrependNothing(Scan(reader, b, 0, None, {}));
    while offset + BLOCK <= |b|
      invariant offset <= |b|
      invariant Scan(reader, b, 0, None, {}) == Prepend(entries, Scan(reader, b[offset..], offset, override, seen))
    {
      var rest := b[offset..];
      var turn := ReadTurn(reader, rest, offset, override, seen);
      if turn.Fail? {
        return Fail(turn.refusal);
      }
      match turn.value {
        case Ended =>
          assert entries + [] == entries;
          return Ok(entries);
        case Extended(size, next) =>
          assert rest[Stored(size)..] == b[offset + Stored(size)..];
          override := next;
          offset := offset + Stored(size);
        case Entered(size, raw, directory) =>
          assert rest[Stored(size)..] == b[offset + Stored(size)..];
          var entry := TarEntry(PathOf(raw, directory), directory, offset + BLOCK, rest[BLOCK..BLOCK + size]);
          seen := seen + {Key(reader.text, raw, directory)};
          PrependTwice(entries, entry, Scan(reader, b[offset + Stored(size)..], offset + Stored(size), None, seen));
          entries := entries + [entry];
          override := None;
          offset := offset + Stored(size);
      }
    }
    TooShort(reader, b[offset..], offset, override, seen);
    r := Fail(TarEnd);
  }

  /** One entry at the front of an archive. */
  lemma ScanEntry(
      reader: Reader, b: Bytes, base: nat, override: Option<Text>, seen: set<Text>, size: nat, raw: Text, directory: bool)
    requires |b| >= BLOCK && !AllZero(b[..BLOCK]) && HeaderSize(reader.text, b[..BLOCK]) == Ok(size) && Stored(size) <= |b|
    requires !IsExtension(b[156]) && RawPath(reader.text, b[..BLOCK], override) == Ok(raw)
    requires EntryKind(b[156], size) == Ok(directory) && Registrable(reader.text, seen, raw, directory)
    ensures BLOCK + size <= Stored(size)
    ensures Scan(reader, b, base, override, seen)
         == Prepend([TarEntry(PathOf(raw, directory), directory, base + BLOCK, b[BLOCK..BLOCK + size])],
                    Scan(reader, b[Stored(size)..], base + Stored(size), None, seen + {Key(reader.text, raw, directory)}))
  {
    hide AllZero, HeaderSize, RawPath, EntryKind, Registrable, Stored, Key, PathOf;
    StoredCovers(size);
  }

  lemma TooShort(reader: Reader, rest: Bytes, base: nat, override: Option<Text>, seen: set<Text>)
    requires |rest| < BLOCK
    ensures Scan(reader, rest, base, override, seen) == Fail(TarEnd)
  {
  }

  lemma PrependNothing(rest: Result<seq<TarEntry>>)
    ensures Prepend([], rest) == rest
  {
    assert rest.Ok? ==> [] + rest.value == rest.value;
  }

  lemma PrependTwice(entries: seq<TarEntry>, entry: TarEntry, rest: Result<seq<TarEntry>>)
    ensures Prepend(entries, Prepend([entry], rest)) == Prepend(entries + [entry], rest)
  {
    assert rest.Ok? ==> entries + ([entry] + rest.value) == entries + [entry] + rest.value;
  }

  // ---- What accepted archives look like ----

  /** Entries from `base` on: in-range slices of the archive, in order and a header apart; safe paths. */
  ghost predicate InOrder(services: TextServices, rest: Bytes, base: nat, entries: seq<TarEntry>) {
    && (forall i :: 0 <= i < |entries| ==>
          && base + BLOCK <= entries[i].start && entries[i].start + |entries[i].body| <= base + |rest|
          && entries[i].body == rest[entries[i].start - base..][..|entries[i].body|]
          && SafePath(services, entries[i].path))
    && (forall i, j :: 0 <= i < j < |entries| ==> entries[i].start + |entries[i].body| + BLOCK <= entries[j].start)
  }

  ghost predicate FreshKeys(services: TextServices, seen: set<Text>, entries: seq<TarEntry>) {
    && (forall i :: 0 <= i < |entries| ==> services.lower(entries[i].path) !in seen)
    && (forall i, j :: 0 <= i < j < |entries| ==> services.lower(entries[i].path) != services.lower(entries[j].path))
  }

  lemma InOrderAfter(services: TextServices, rest: Bytes, base: nat, size: nat, entries: seq<TarEntry>)
    requires Stored(size) <= |rest| && InOrder(services, rest[Stored(size)..], base + Stored(size), entries)
    ensures InOrder(services, rest, base, entries)
    ensures forall i :: 0 <= i < |entries| ==> base + Stored(size) + BLOCK <= entries[i].start
  {
    hide SafePath;
    var after := rest[Stored(size)..];
    forall i | 0 <= i < |entries|
      ensures entries[i].body == rest[entries[i].start - base..][..|entries[i].body|]
    {
      assert after[entries[i].start - base - Stored(size)..] == rest[entries[i].start - base..];
    }
  }

  lemma InOrderCons(services: TextServices, rest: Bytes, base: nat, size: nat, entry: TarEntry, entries: seq<TarEntry>)
    requires Stored(size) <= |rest| && InOrder(services, rest[Stored(size)..], base + Stored(size), entries)
    requires entry.start == base + BLOCK && BLOCK + size <= Stored(size) && entry.body == rest[BLOCK..BLOCK + size]
    requires SafePath(services, entry.path)
    ensures InOrder(services, rest, base, [entry] + entries)
  {
    hide SafePath;
    InOrderAfter(services, rest, base, size, entries);
    assert entry.body == rest[BLOCK..][..size];
  }

  lemma StoredCovers(size: nat)
    ensures BLOCK + size <= Stored(size)
  {
  }

  /** Of every accepted archive: bodies are disjoint in-range slices in order, paths are safe, and no two
      are the same up to letter case. */
  lemma {:induction false} ScanLayout(reader: Reader, rest: Bytes, base: nat, override: Option<Text>, seen: set<Text>)
    requires Scan(reader, rest, base, override, seen).Ok?
    ensures InOrder(reader.text, rest, base, Scan(reader, rest, base, override, seen).value)
    ensures FreshKeys(reader.text, seen, Scan(reader, rest, base, override, seen).value)
    ensures |seen| <= MAX_ENTRIES ==> |seen| + |Scan(reader, rest, base, override, seen).value| <= MAX_ENTRIES
    decreases |rest|
  {
    hide SafePath, Octal, PaxPath, RawPath, InOrder, HeaderSize, AllZero, Override, EntryKind, Stored, Registrable, Key,
         FreshKeys;
    if AllZero(rest[..BLOCK]) {
      NothingInOrder(reader.text, rest, base, seen);
    } else {
      var size := HeaderSize(reader.text, rest[..BLOCK]).value;
      StoredCovers(size);
      var after := rest[Stored(size)..];
      if IsExtension(rest[156]) {
        var next := Override(reader, rest[156], rest[BLOCK..BLOCK + size]).value;
        ScanLayout(reader, after, base + Stored(size), next, seen);
        InOrderAfter(reader.text, rest, base, size, Scan(reader, after, base + Stored(size), next, seen).value);
      } else {
        var raw := RawPath(reader.text, rest[..BLOCK], override).value;
        var directory := EntryKind(rest[156], size).value;
        EnteredLayout(reader, rest, base, size, raw, directory, seen);
      }
    }
  }

  lemma {:induction false} EnteredLayout(
      reader: Reader, rest: Bytes, base: nat, size: nat, raw: Text, directory: bool, seen: set<Text>)
    requires Stored(size) <= |rest| && BLOCK + size <= Stored(size) && Registrable(reader.text, seen, raw, directory)
    requires Scan(reader, rest[Stored(size)..], base + Stored(size), None, seen + {Key(reader.text, raw, directory)}).Ok?
    ensures var entries :=
        Scan(reader, rest[Stored(size)..], base + Stored(size), None, seen + {Key(reader.text, raw, directory)}).value;
      var all := [TarEntry(PathOf(raw, directory), directory, base + BLOCK, rest[BLOCK..BLOCK + size])] + entries;
      && InOrder(reader.text, rest, base, all) && FreshKeys(reader.text, seen, all)
      && (|seen| <= MAX_ENTRIES ==> |seen| + |all| <= MAX_ENTRIES)
    decreases |rest|, 0
  {
    hide SafePath, InOrder, Stored, Scan, FreshKeys;
    var key := Key(reader.text, raw, directory);
    var entries := Scan(reader, rest[Stored(size)..], base + Stored(size), None, seen + {key}).value;
    var entry := TarEntry(PathOf(raw, directory), directory, base + BLOCK, rest[BLOCK..BLOCK + size]);
    ScanLayout(reader, rest[Stored(size)..], base + Stored(size), None, seen + {key});
    InOrderCons(reader.text, rest, base, size, entry, entries);
    FreshCons(reader.text, seen, entry, entries);
  }

  lemma FreshCons(services: TextServices, seen: set<Text>, entry: TarEntry, entries: seq<TarEntry>)
    requires services.lower(entry.path) !in seen && FreshKeys(services, seen + {services.lower(entry.path)}, entries)
    ensures FreshKeys(services, seen, [entry] + entries)
  {
    assert forall i :: 0 <= i < |entries| ==> services.lower(entries[i].path) != services.lower(entry.path);
  }

  lemma NothingInOrder(services: TextServices, rest: Bytes, base: nat, seen: set<Text>)
    ensures InOrder(services, rest, base, []) && FreshKeys(services, seen, [])
  {
  }
}
