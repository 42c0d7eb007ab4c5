/** The ZIP32 reader: end-of-directory search, correspondence of central and local headers, and the
    layout of accepted archives (sections 4.3.7, 4.3.12 and 4.3.16 of PKWARE APPNOTE.TXT). */
module Zip {
  import opened Texts
  import opened ReleaseModel
  import opened Utf8
  import opened TreeLayout
  import opened ArchivePaths

  const MAX_BYTES := 128 * 1024 * 1024

  const END_SIGNATURE := 0x06054b50
  const CENTRAL_SIGNATURE := 0x02014b50
  const LOCAL_SIGNATURE := 0x04034b50

  /** Platform services of the reader. */
  datatype Services = Services(text: TextServices, inflate: (Bytes, nat) -> Option<Bytes>, crc: Bytes -> int)

  // ---- Little-endian fields ----

  function At(b: Bytes, i: int): int {
    if 0 <= i < |b| then b[i] else 0
  }

  function U16(b: Bytes, i: int): (n: nat)
    ensures n < 0x10000
  {
    At(b, i) + 0x100 * At(b, i + 1)
  }

  function U32(b: Bytes, i: int): nat {
    U16(b, i) + 0x10000 * U16(b, i + 2)
  }

  function Slice(b: Bytes, from: int, to: int): Bytes {
    if 0 <= from <= to <= |b| then b[from..to] else []
  }

  // ---- The end record, section 4.3.16 ----

  /** The last place where the end record can be: nothing after it looks like one. */
  predicate IsEnd(b: Bytes, end: int) {
    && 0 <= end <= |b| - 22 && end >= |b| - 65557
    && U32(b, end) == END_SIGNATURE
    && forall i :: end < i <= |b| - 22 ==> U32(b, i) != END_SIGNATURE
  }

  function Count(b: Bytes, end: int): nat { U16(b, end + 10) }

  function DirectoryOf(b: Bytes, end: int): nat { U32(b, end + 16) }

  /** One disk, a comment that reaches exactly the end of the file, and a directory that reaches exactly here. */
  predicate EndOk(b: Bytes, end: int) {
    && IsEnd(b, end)
    && end + 22 + U16(b, end + 20) == |b|
    && U32(b, end + 4) == 0 && U16(b, end + 8) == Count(b, end)
    && Count(b, end) != 65535
    && DirectoryOf(b, end) + U32(b, end + 12) == end
  }

  method FindEnd(b: Bytes) returns (r: Result<nat>)
    requires |b| >= 22
    ensures r.Ok? ==> EndOk(b, r.value)
    ensures r.Fail? ==> forall end :: !EndOk(b, end)
  {
    var end := |b| - 22;
    while end >= 0 && end >= |b| - 65557 && U32(b, end) != END_SIGNATURE
      invariant -1 <= end <= |b| - 22
      invariant forall i :: end < i <= |b| - 22 ==> U32(b, i) != END_SIGNATURE
    {
      end := end - 1;
    }
    if end < 0 || U32(b, end) != END_SIGNATURE || end + 22 + U16(b, end + 20) != |b| || U32(b, end + 4) != 0
       || U16(b, end + 8) != U16(b, end + 10)
    {
      return Fail(ZipDirectory);
    }
    if Count(b, end) == 65535 || DirectoryOf(b, end) + U32(b, end + 12) != end {
      return Fail(ZipDirectory);
    }
    r := Ok(end);
  }

  // ---- One member, sections 4.3.12 and 4.3.7 ----

  function NameSize(b: Bytes, c: int): nat { U16(b, c + 28) }

  function RecordSize(b: Bytes, c: int): nat { 46 + NameSize(b, c) + U16(b, c + 30) + U16(b, c + 32) }

  function Local(b: Bytes, c: int): nat { U32(b, c + 42) }

  function Size(b: Bytes, c: int): nat { U32(b, c + 24) }

  function Start(b: Bytes, c: int): nat { Local(b, c) + 30 + NameSize(b, c) + U16(b, Local(b, c) + 28) }

  function Finish(b: Bytes, c: int): nat { Start(b, c) + U32(b, c + 20) }

  function NameAt(s: Services, b: Bytes, at: int, size: nat): Option<Text> {
    s.text.decode(Slice(b, at, at + size))
  }

  function Name(s: Services, b: Bytes, c: int): Option<Text> {
    NameAt(s, b, c + 46, NameSize(b, c))
  }

  predicate IsFolder(name: Text) {
    name != [] && name[|name| - 1] == SLASH
  }

  /** Only the data-descriptor and UTF-8 bits may be set. */
  predicate FlagsOk(flags: nat) {
    flags == 0 || flags == 0x8 || flags == 0x800 || flags == 0x808
  }

  predicate Descriptor(flags: nat) {
    flags == 0x8 || flags == 0x808
  }

  /** An ordinary file, a directory, or no file type at all. */
  predicate ModeOk(attributes: nat) {
    var kind := attributes / 0x10000 / 0x1000;
    kind == 0 || kind == 4 || kind == 8
  }

  /** The central header is complete and its local header agrees with it. */
  predicate HeaderOk(s: Services, b: Bytes, c: int, directory: int, end: int) {
    var local, name := Local(b, c), Name(s, b, c);
    && c + RecordSize(b, c) <= end && U32(b, c) == CENTRAL_SIGNATURE
    && name.Some?
    && FlagsOk(U16(b, c + 8)) && (U16(b, c + 10) == 0 || U16(b, c + 10) == 8)
    && U16(b, c + 34) == 0 && ModeOk(U32(b, c + 38))
    && local + 30 <= directory && U32(b, local) == LOCAL_SIGNATURE
    && U16(b, local + 6) == U16(b, c + 8) && U16(b, local + 8) == U16(b, c + 10)
    && U16(b, local + 26) == NameSize(b, c)
    && NameAt(s, b, local + 30, NameSize(b, c)) == name
  }

  predicate FactsOk(b: Bytes, c: int) {
    Descriptor(U16(b, c + 8)) ||
    (&& U32(b, Local(b, c) + 14) == U32(b, c + 16)
     && U32(b, Local(b, c) + 18) == U32(b, c + 20)
     && U32(b, Local(b, c) + 22) == Size(b, c))
  }

  /** The member's bytes, decompressed within its declared size. */
  function Body(s: Services, b: Bytes, c: int): Option<Bytes> {
    var stored := Slice(b, Start(b, c), Finish(b, c));
    if U16(b, c + 10) == 0 then Some(stored) else s.inflate(stored, if Size(b, c) == 0 then 1 else Size(b, c))
  }

  predicate BodyOk(s: Services, b: Bytes, c: int) {
    var body := Body(s, b, c);
    && body.Some? && |body.value| == Size(b, c) && s.crc(body.value) == U32(b, c + 16)
    && (Name(s, b, c).Some? && IsFolder(Name(s, b, c).value) ==> Size(b, c) == 0)
  }

  predicate MemberOk(s: Services, b: Bytes, c: int, directory: int, end: int) {
    && HeaderOk(s, b, c, directory, end)
    && SafePath(s.text, PathOf(Name(s, b, c).value, IsFolder(Name(s, b, c).value)))
    && Finish(b, c) <= directory && FactsOk(b, c) && BodyOk(s, b, c)
  }

  function MemberKey(s: Services, b: Bytes, c: int): Text {
    match Name(s, b, c) case None => [] case Some(name) => Key(s.text, name, IsFolder(name))
  }

  // ---- The whole directory ----

  /** Where the k-th central record starts. */
  function Cursor(b: Bytes, directory: int, k: nat): int {
    if k == 0 then directory else Cursor(b, directory, k - 1) + RecordSize(b, Cursor(b, directory, k - 1))
  }

  function TotalSize(b: Bytes, directory: int, k: nat): nat {
    if k == 0 then 0 else TotalSize(b, directory, k - 1) + Size(b, Cursor(b, directory, k - 1))
  }

  predicate Apart(b: Bytes, c: int, d: int) {
    Finish(b, c) <= Local(b, d) || Finish(b, d) <= Local(b, c)
  }

  /** The first k members are in order and do not meet. */
  predicate MembersOk(s: Services, b: Bytes, end: int, k: nat) {
    var directory := DirectoryOf(b, end);
    && (forall i :: 0 <= i < k ==> MemberOk(s, b, Cursor(b, directory, i), directory, end))
    && (forall i, j :: 0 <= i < j < k ==> Apart(b, Cursor(b, directory, i), Cursor(b, directory, j)))
    && (forall i, j :: 0 <= i < j < k ==> KeyAt(s, b, directory, i) != KeyAt(s, b, directory, j))
    && TotalSize(b, directory, k) <= MAX_BYTES
  }

  predicate Accepted(s: Services, b: Bytes, end: int) {
    && |b| >= 22 && EndOk(b, end)
    && MembersOk(s, b, end, Count(b, end))
    && Cursor(b, DirectoryOf(b, end), Count(b, end)) == end
  }

  function FilesOf(s: Services, b: Bytes, directory: int, k: nat): map<Text, Bytes> {
    if k == 0 then map[]
    else
      var rest, c := FilesOf(s, b, directory, k - 1), Cursor(b, directory, k - 1);
      match (Name(s, b, c), Body(s, b, c))
      case (Some(name), Some(body)) => if IsFolder(name) then rest else rest[name := body]
      case _ => rest
  }

  lemma {:induction false} TotalGrows(b: Bytes, directory: int, k: nat, n: nat)
    requires k <= n
    ensures TotalSize(b, directory, k) <= TotalSize(b, directory, n)
    decreases n - k
  {
    if k < n {
      TotalGrows(b, directory, k, n - 1);
    }
  }

  lemma MembersOkPrefix(s: Services, b: Bytes, end: int, k: nat, n: nat)
    requires MembersOk(s, b, end, n) && k <= n
    ensures MembersOk(s, b, end, k)
  {
    hide MemberOk, Apart, MemberKey, Cursor;
    TotalGrows(b, DirectoryOf(b, end), k, n);
  }

  /** The checks of one central record against those before it. */
  method ReadMember(
      s: Services, b: Bytes, c: int, directory: int, end: int, seen: set<Text>, spans: seq<(nat, nat)>, total: nat)
    returns (r: Result<set<Text>>)
    requires directory <= end <= |b|
    ensures r.Ok? <==>
      && MemberOk(s, b, c, directory, end) && MemberKey(s, b, c) !in seen && |seen| < MAX_ENTRIES
      && total + Size(b, c) <= MAX_BYTES
      && forall i :: 0 <= i < |spans| ==> spans[i].1 <= Local(b, c) || Finish(b, c) <= spans[i].0
    ensures r.Ok? ==> r.value == seen + {MemberKey(s, b, c)}
  {
    hide SafePath, Name, U32, U16, Start;
    if c + 46 > end || U32(b, c) != CENTRAL_SIGNATURE {
      return Fail(ZipCentralHeader);
    }
    var name := Name(s, b, c);
    if name.None? {
      return Fail(ArchiveEncoding);
    }
    if !HeaderOk(s, b, c, directory, end) {
      return Fail(ZipFileHeader);
    }
    r := ArchivePaths.Register(s.text, seen, name.value, IsFolder(name.value));
    if r.Fail? {
      return r;
    }
    var met := exists i :: 0 <= i < |spans| && Local(b, c) < spans[i].1 && Finish(b, c) > spans[i].0;
    if Finish(b, c) > directory || total + Size(b, c) > MAX_BYTES || met {
      return Fail(ZipFileBound);
    }
    if !FactsOk(b, c) {
      return Fail(ZipFileFacts);
    }
    var body := Body(s, b, c);
    if body.None? {
      return Fail(InvalidData);
    }
    if |body.value| != Size(b, c) || s.crc(body.value) != U32(b, c + 16) {
      return Fail(ZipFileCrc);
    }
    if IsFolder(name.value) && Size(b, c) != 0 {
      return Fail(ZipDirectoryContent);
    }
  }

  predicate SpansOf(b: Bytes, directory: int, k: nat, spans: seq<(nat, nat)>) {
    |spans| == k && forall i :: 0 <= i < k ==>
      spans[i] == (Local(b, Cursor(b, directory, i)), Finish(b, Cursor(b, directory, i)))
  }

  function KeysUpTo(s: Services, b: Bytes, directory: int, k: nat): set<Text> {
    if k == 0 then {} else KeysUpTo(s, b, directory, k - 1) + {MemberKey(s, b, Cursor(b, directory, k - 1))}
  }

  function KeyAt(s: Services, b: Bytes, directory: int, i: nat): Text {
    MemberKey(s, b, Cursor(b, directory, i))
  }

  lemma {:induction false} KeyAmong(s: Services, b: Bytes, directory: int, k: nat, key: Text)
    ensures key in KeysUpTo(s, b, directory, k) <==> exists i :: 0 <= i < k && key == KeyAt(s, b, directory, i)
  {
    hide MemberKey;
    if k > 0 {
      KeyAmong(s, b, directory, k - 1, key);
      assert KeyAt(s, b, directory, k - 1) == MemberKey(s, b, Cursor(b, directory, k - 1));
      if key in KeysUpTo(s, b, directory, k - 1) {
        var i :| 0 <= i < k - 1 && key == KeyAt(s, b, directory, i);
      }
    }
  }

  predicate KeysOf(s: Services, b: Bytes, directory: int, k: nat, seen: set<Text>) {
    |seen| == k && seen == KeysUpTo(s, b, directory, k)
  }

  /** What the loop has gathered from the first k records. */
  ghost predicate Gathered(
    s: Services, b: Bytes, end: int, k: nat, cursor: int, seen: set<Text>, spans: seq<(nat, nat)>, total: nat)
  {
    var directory := DirectoryOf(b, end);
    && MembersOk(s, b, end, k) && cursor == Cursor(b, directory, k) && total == TotalSize(b, directory, k)
    && SpansOf(b, directory, k, spans) && KeysOf(s, b, directory, k, seen)
  }

  lemma SpansNext(b: Bytes, directory: int, k: nat, spans: seq<(nat, nat)>)
    requires SpansOf(b, directory, k, spans)
    ensures var c := Cursor(b, directory, k); SpansOf(b, directory, k + 1, spans + [(Local(b, c), Finish(b, c))])
  {
    hide Cursor, Local, Finish;
  }

  lemma KeysNext(s: Services, b: Bytes, directory: int, k: nat, seen: set<Text>)
    requires KeysOf(s, b, directory, k, seen) && MemberKey(s, b, Cursor(b, directory, k)) !in seen
    ensures KeysOf(s, b, directory, k + 1, seen + {MemberKey(s, b, Cursor(b, directory, k))})
  {
    hide Cursor, MemberKey;
  }

  lemma GatherOne(
      s: Services, b: Bytes, end: int, k: nat, cursor: int, seen: set<Text>, spans: seq<(nat, nat)>, total: nat)
    requires Gathered(s, b, end, k, cursor, seen, spans, total) && k < MAX_ENTRIES
    ensures (&& MemberOk(s, b, cursor, DirectoryOf(b, end), end) && MemberKey(s, b, cursor) !in seen
             && total + Size(b, cursor) <= MAX_BYTES
             && (forall i :: 0 <= i < |spans| ==> spans[i].1 <= Local(b, cursor) || Finish(b, cursor) <= spans[i].0))
       <==> MembersOk(s, b, end, k + 1)
    ensures MembersOk(s, b, end, k + 1) ==>
      Gathered(s, b, end, k + 1, cursor + RecordSize(b, cursor), seen + {MemberKey(s, b, cursor)},
               spans + [(Local(b, cursor), Finish(b, cursor))], total + Size(b, cursor))
  {
    hide MemberOk, MemberKey, Local, Finish, Size, RecordSize, MembersOk, SpansOf, KeysOf;
    var directory := DirectoryOf(b, end);
    assert Cursor(b, directory, k + 1) == cursor + RecordSize(b, cursor);
    assert TotalSize(b, directory, k + 1) == total + Size(b, cursor);
    NextMember(s, b, end, k, spans, seen);
    SpansNext(b, directory, k, spans);
    if MembersOk(s, b, end, k + 1) {
      KeysNext(s, b, directory, k, seen);
    }
  }

  /** One more member is in order exactly when it is, and meets none of those before it. */
  lemma NextMember(s: Services, b: Bytes, end: int, k: nat, spans: seq<(nat, nat)>, seen: set<Text>)
    requires MembersOk(s, b, end, k) && SpansOf(b, DirectoryOf(b, end), k, spans)
    requires KeysOf(s, b, DirectoryOf(b, end), k, seen)
    ensures var c := Cursor(b, DirectoryOf(b, end), k);
      (&& MemberOk(s, b, c, DirectoryOf(b, end), end) && MemberKey(s, b, c) !in seen
       && TotalSize(b, DirectoryOf(b, end), k + 1) <= MAX_BYTES
       && (forall i :: 0 <= i < |spans| ==> spans[i].1 <= Local(b, c) || Finish(b, c) <= spans[i].0))
      <==> MembersOk(s, b, end, k + 1)
  {
    hide MemberOk, MemberKey, Local, Finish, Size, RecordSize, Cursor, TotalSize, KeysUpTo;
    var directory := DirectoryOf(b, end);
    KeyAmong(s, b, directory, k, KeyAt(s, b, directory, k));
    if MembersOk(s, b, end, k + 1) {
      forall i | 0 <= i < |spans|
        ensures spans[i].1 <= Local(b, Cursor(b, directory, k)) || Finish(b, Cursor(b, directory, k)) <= spans[i].0
      {
        assert Apart(b, Cursor(b, directory, i), Cursor(b, directory, k));
      }
    }
  }

  /** The whole reader: it accepts exactly the archives of this layout, and returns their files. */
  method ReadZip(s: Services, b: Bytes) returns (r: Result<map<Text, Bytes>>)
    ensures r.Ok? <==> exists end :: Accepted(s, b, end)
    ensures r.Ok? ==> exists end :: Accepted(s, b, end) && r.value == FilesOf(s, b, DirectoryOf(b, end), Count(b, end))
  {
    hide EndOk, MembersOk, Gathered, MemberOk, MemberKey, Cursor, Local, Finish, Size;
    if |b| < 22 {
      return Fail(ZipHeader);
    }
    var found := FindEnd(b);
    if found.Fail? {
      return Fail(found.refusal);
    }
    var end := found.value;
    EndIsUnique(b, end);
    var count, directory := Count(b, end), DirectoryOf(b, end);
    DirectoryBefore(b, end);
    var cursor: int, total: nat := directory, 0;
    var spans: seq<(nat, nat)> := [];
    var seen: set<Text>, files: map<Text, Bytes> := {}, map[];
    NothingGathered(s, b, end);
    for index := 0 to count
      invariant Gathered(s, b, end, index, cursor, seen, spans, total)
      invariant files == FilesOf(s, b, directory, index)
    {
      SeenSize(s, b, end, index, cursor, seen, spans, total);
      GatherOne(s, b, end, index, cursor, seen, spans, total);
      var member := ReadMember(s, b, cursor, directory, end, seen, spans, total);
      if member.Fail? {
        if MembersOk(s, b, end, count) {
          MembersOkPrefix(s, b, end, index + 1, count);
        }
        return Fail(member.refusal);
      }
      files := AddFile(s, b, end, cursor, index, files);
      total := total + Size(b, cursor);
      spans := spans + [(Local(b, cursor), Finish(b, cursor))];
      seen := member.value;
      cursor := cursor + RecordSize(b, cursor);
    }
    GatheredAll(s, b, end, count, cursor, seen, spans, total);
    if cursor != end {
      return Fail(ZipDirectorySize);
    }
    assert Accepted(s, b, end);
    r := Ok(files);
  }

  method AddFile(s: Services, b: Bytes, end: int, cursor: int, k: nat, files: map<Text, Bytes>) returns (more: map<Text, Bytes>)
    requires MemberOk(s, b, cursor, DirectoryOf(b, end), end) && cursor == Cursor(b, DirectoryOf(b, end), k)
    requires files == FilesOf(s, b, DirectoryOf(b, end), k)
    ensures more == FilesOf(s, b, DirectoryOf(b, end), k + 1)
  {
    hide SafePath, Cursor;
    var name, body := Name(s, b, cursor).value, Body(s, b, cursor).value;
    more := if IsFolder(name) then files else files[name := body];
  }

  lemma EndIsUnique(b: Bytes, end: int)
    requires EndOk(b, end)
    ensures forall other :: EndOk(b, other) ==> other == end
  {
  }

  lemma DirectoryBefore(b: Bytes, end: int)
    requires EndOk(b, end)
    ensures DirectoryOf(b, end) <= end <= |b| && Count(b, end) < MAX_ENTRIES
  {
  }

  lemma NothingGathered(s: Services, b: Bytes, end: int)
    ensures Gathered(s, b, end, 0, DirectoryOf(b, end), {}, [], 0)
  {
  }

  lemma SeenSize(s: Services, b: Bytes, end: int, k: nat, cursor: int, seen: set<Text>, spans: seq<(nat, nat)>, total: nat)
    requires Gathered(s, b, end, k, cursor, seen, spans, total)
    ensures |seen| == k && cursor == Cursor(b, DirectoryOf(b, end), k)
  {
    hide MembersOk;
  }

  lemma GatheredAll(s: Services, b: Bytes, end: int, k: nat, cursor: int, seen: set<Text>, spans: seq<(nat, nat)>, total: nat)
    requires Gathered(s, b, end, k, cursor, seen, spans, total)
    ensures MembersOk(s, b, end, k) && cursor == Cursor(b, DirectoryOf(b, end), k)
  {
    hide MembersOk;
  }

  // ---- The layout of an accepted archive ----

  lemma {:induction false} CursorsAscend(b: Bytes, directory: int, i: nat, j: nat)
    requires i < j
    ensures Cursor(b, directory, i) + RecordSize(b, Cursor(b, directory, i)) <= Cursor(b, directory, j)
    decreases j
  {
    hide RecordSize;
    if i + 1 < j {
      CursorsAscend(b, directory, i, j - 1);
    }
  }

  predicate InRecord(b: Bytes, directory: int, i: nat, p: int) {
    Cursor(b, directory, i) <= p < Cursor(b, directory, i) + RecordSize(b, Cursor(b, directory, i))
  }

  lemma {:induction false} SomeRecord(b: Bytes, directory: int, n: nat, p: int) returns (i: nat)
    requires directory <= p < Cursor(b, directory, n)
    ensures i < n && InRecord(b, directory, i, p)
  {
    hide RecordSize;
    if p < Cursor(b, directory, n - 1) {
      i := SomeRecord(b, directory, n - 1, p);
    } else {
      i := n - 1;
    }
  }

  /** The central records tile the directory: every byte of it lies in exactly one record. */
  lemma RecordsTile(s: Services, b: Bytes, end: int, p: int)
    requires Accepted(s, b, end) && DirectoryOf(b, end) <= p < end
    ensures exists i :: 0 <= i < Count(b, end) && InRecord(b, DirectoryOf(b, end), i, p)
    ensures forall i: nat, j: nat | InRecord(b, DirectoryOf(b, end), i, p) && InRecord(b, DirectoryOf(b, end), j, p) :: i == j
  {
    hide MembersOk, EndOk, RecordSize, Cursor;
    var directory := DirectoryOf(b, end);
    var i := SomeRecord(b, directory, Count(b, end), p);
    forall i: nat, j: nat | InRecord(b, directory, i, p) && InRecord(b, directory, j, p) ensures i == j {
      if i < j {
        CursorsAscend(b, directory, i, j);
      } else if j < i {
        CursorsAscend(b, directory, j, i);
      }
    }
  }

  predicate InSpan(b: Bytes, directory: int, i: nat, p: int) {
    Local(b, Cursor(b, directory, i)) <= p < Finish(b, Cursor(b, directory, i))
  }

  lemma SpansApart(s: Services, b: Bytes, end: int, i: nat, j: nat)
    requires Accepted(s, b, end) && i < Count(b, end) && j < Count(b, end) && i != j
    ensures Apart(b, Cursor(b, DirectoryOf(b, end), i), Cursor(b, DirectoryOf(b, end), j))
  {
    hide EndOk, Cursor, MemberOk, Local, Finish;
  }

  lemma SpanBeforeDirectory(s: Services, b: Bytes, end: int, i: nat)
    requires Accepted(s, b, end) && i < Count(b, end)
    ensures Finish(b, Cursor(b, DirectoryOf(b, end), i)) <= DirectoryOf(b, end)
  {
    hide EndOk, Cursor, HeaderOk, SafePath, Finish, FactsOk, BodyOk;
    assert MemberOk(s, b, Cursor(b, DirectoryOf(b, end), i), DirectoryOf(b, end), end);
  }

  /** No byte belongs to two members, and members lie before the directory. */
  lemma SpansDisjoint(s: Services, b: Bytes, end: int, i: nat, j: nat, p: int)
    requires Accepted(s, b, end) && i < Count(b, end) && j < Count(b, end)
    requires InSpan(b, DirectoryOf(b, end), i, p) && InSpan(b, DirectoryOf(b, end), j, p)
    ensures i == j && 0 <= p < DirectoryOf(b, end)
  {
    hide Accepted, Cursor, Local, Finish;
    SpanBeforeDirectory(s, b, end, i);
    if i != j {
      SpansApart(s, b, end, i, j);
    }
  }

  /** What one more member does to the returned files. */
  lemma FilesNext(s: Services, b: Bytes, end: int, k: nat)
    requires MembersOk(s, b, end, k) && k > 0
    ensures var directory := DirectoryOf(b, end);
      var c := Cursor(b, directory, k - 1);
      && MembersOk(s, b, end, k - 1)
      && Name(s, b, c).Some? && Body(s, b, c).Some? && |Body(s, b, c).value| == Size(b, c)
      && TotalSize(b, directory, k) == TotalSize(b, directory, k - 1) + Size(b, c)
      && FilesOf(s, b, directory, k) ==
         if IsFolder(Name(s, b, c).value) then FilesOf(s, b, directory, k - 1)
         else FilesOf(s, b, directory, k - 1)[Name(s, b, c).value := Body(s, b, c).value]
  {
    hide HeaderOk, SafePath, Cursor, FactsOk, Apart, MemberKey, Name, Body, DirectoryOf, Size, IsFolder;
    var directory := DirectoryOf(b, end);
    MembersOkPrefix(s, b, end, k - 1, k);
    assert MemberOk(s, b, Cursor(b, directory, k - 1), directory, end);
    assert Name(s, b, Cursor(b, directory, k - 1)).Some? by {
      NameOfMember(s, b, Cursor(b, directory, k - 1), directory, end);
    }
  }

  lemma NameOfMember(s: Services, b: Bytes, c: int, directory: int, end: int)
    requires MemberOk(s, b, c, directory, end)
    ensures Name(s, b, c).Some?
  {
  }

  /** A returned file is the body of a member of that name. */
  lemma {:induction false} FileIsMember(s: Services, b: Bytes, end: int, k: nat, name: Text) returns (i: nat)
    requires MembersOk(s, b, end, k) && name in FilesOf(s, b, DirectoryOf(b, end), k)
    ensures i < k && Name(s, b, Cursor(b, DirectoryOf(b, end), i)) == Some(name) && !IsFolder(name)
    ensures Body(s, b, Cursor(b, DirectoryOf(b, end), i)) == Some(FilesOf(s, b, DirectoryOf(b, end), k)[name])
  {
    hide MembersOk, Cursor, Name, Body, DirectoryOf, Size, IsFolder, TotalSize;
    if k > 0 {
      FilesNext(s, b, end, k);
      var c := Cursor(b, DirectoryOf(b, end), k - 1);
      if Name(s, b, c) != Some(name) || IsFolder(name) {
        i := FileIsMember(s, b, end, k - 1, name);
      } else {
        i := k - 1;
      }
    }
  }

  lemma NamesDiffer(s: Services, b: Bytes, end: int, k: nat, i: nat, j: nat)
    requires MembersOk(s, b, end, k) && i < j < k
    ensures Name(s, b, Cursor(b, DirectoryOf(b, end), i)) != Name(s, b, Cursor(b, DirectoryOf(b, end), j))
  {
    hide Cursor, Name, MemberOk, Apart, TotalSize, DirectoryOf;
    assert KeyAt(s, b, DirectoryOf(b, end), i) != KeyAt(s, b, DirectoryOf(b, end), j);
  }

  /** Every member that is not a folder is returned, with its body: none is lost or overwritten. */
  lemma {:induction false} MemberIsFile(s: Services, b: Bytes, end: int, k: nat, i: nat, name: Text)
    requires MembersOk(s, b, end, k) && i < k
    requires Name(s, b, Cursor(b, DirectoryOf(b, end), i)) == Some(name) && !IsFolder(name)
    ensures name in FilesOf(s, b, DirectoryOf(b, end), k)
    ensures Body(s, b, Cursor(b, DirectoryOf(b, end), i)) == Some(FilesOf(s, b, DirectoryOf(b, end), k)[name])
  {
    hide MembersOk, Cursor, Name, Body, DirectoryOf, Size, IsFolder, TotalSize;
    FilesNext(s, b, end, k);
    if i < k - 1 {
      MemberIsFile(s, b, end, k - 1, i, name);
      NamesDiffer(s, b, end, k, i, k - 1);
    }
  }

  // ---- The bound on everything returned ----

  predicate Listed(files: map<Text, Bytes>, names: seq<Text>) {
    && (forall i :: 0 <= i < |names| ==> names[i] in files)
    && (forall i, j :: 0 <= i < j < |names| ==> names[i] != names[j])
  }

  function BodiesSize(files: map<Text, Bytes>, names: seq<Text>): nat
    requires Listed(files, names)
  {
    if names == [] then 0 else |files[names[0]]| + BodiesSize(files, names[1..])
  }

  lemma {:induction false} SameBodies(files: map<Text, Bytes>, more: map<Text, Bytes>, names: seq<Text>)
    requires Listed(files, names) && Listed(more, names)
    requires forall i :: 0 <= i < |names| ==> files[names[i]] == more[names[i]]
    ensures BodiesSize(files, names) == BodiesSize(more, names)
  {
    if names != [] {
      SameBodies(files, more, names[1..]);
    }
  }

  function Without(names: seq<Text>, p: nat): (r: seq<Text>)
    requires p < |names|
    ensures |r| == |names| - 1 && forall i :: 0 <= i < |r| ==> r[i] == if i < p then names[i] else names[i + 1]
  {
    names[..p] + names[p + 1..]
  }

  lemma ListedWithout(files: map<Text, Bytes>, names: seq<Text>, p: nat)
    requires Listed(files, names) && p < |names|
    ensures Listed(files, Without(names, p)) && names[p] in files && Listed(files, names[1..])
    ensures forall i :: 0 <= i < |Without(names, p)| ==> Without(names, p)[i] != names[p]
  {
    var less := Without(names, p);
    forall i | 0 <= i < |less| ensures less[i] in files && less[i] != names[p] {
    }
  }

  lemma WithoutRest(names: seq<Text>, p: nat)
    requires p < |names|
    ensures p == 0 ==> Without(names, p) == names[1..]
    ensures p > 0 ==> Without(names, p)[0] == names[0] && Without(names, p)[1..] == Without(names[1..], p - 1)
  {
  }

  lemma {:induction false} WithoutOne(files: map<Text, Bytes>, names: seq<Text>, p: nat)
    requires Listed(files, names) && p < |names|
    ensures Listed(files, Without(names, p)) && names[p] in files
    ensures BodiesSize(files, names) == |files[names[p]]| + BodiesSize(files, Without(names, p))
  {
    hide Without, Listed;
    ListedWithout(files, names, p);
    WithoutRest(names, p);
    if p > 0 {
      WithoutOne(files, names[1..], p - 1);
    }
  }

  /** All the returned bytes together stay within the bound: the sum over any distinct returned files. */
  lemma {:induction false} FilesWithinBound(s: Services, b: Bytes, end: int, k: nat, names: seq<Text>)
    requires MembersOk(s, b, end, k) && Listed(FilesOf(s, b, DirectoryOf(b, end), k), names)
    ensures BodiesSize(FilesOf(s, b, DirectoryOf(b, end), k), names) <= TotalSize(b, DirectoryOf(b, end), k) <= MAX_BYTES
  {
    hide Cursor, Name, Body, DirectoryOf, Size, IsFolder, MemberOk, Apart, MemberKey, BodiesSize, FilesOf;
    if k == 0 {
      NoFiles(s, b, DirectoryOf(b, end), names);
    } else {
      FilesNext(s, b, end, k);
      var directory := DirectoryOf(b, end);
      var c := Cursor(b, directory, k - 1);
      var name, prior, files := Name(s, b, c).value, FilesOf(s, b, directory, k - 1), FilesOf(s, b, directory, k);
      if name in names && !IsFolder(name) {
        var p :| 0 <= p < |names| && names[p] == name;
        var less := Without(names, p);
        WithoutOne(files, names, p);
        ListedWithout(files, names, p);
        SameBodies(files, prior, less);
        FilesWithinBound(s, b, end, k - 1, less);
      } else {
        SameBodies(files, prior, names);
        FilesWithinBound(s, b, end, k - 1, names);
      }
    }
  }

  lemma NoFiles(s: Services, b: Bytes, directory: int, names: seq<Text>)
    requires Listed(FilesOf(s, b, directory, 0), names)
    ensures BodiesSize(FilesOf(s, b, directory, 0), names) == 0
  {
  }

  // ---- What the end record says, field by field ----

  /** Section 4.3.16: the end record of a single disk, whose comment is the rest of the file and whose directory is all
      that lies between its start and the record. */
  predicate EndSays(b: Bytes, end: int) {
    && U32(b, end) == 0x06054b50
    && U16(b, end + 4) == 0 && U16(b, end + 6) == 0
    && U16(b, end + 8) == U16(b, end + 10) < 0xFFFF
    && U32(b, end + 12) == end - U32(b, end + 16)
    && U16(b, end + 20) == |b| - end - 22
  }

  /** The end record is the one that says this and is the last that could. */
  lemma EndMeans(b: Bytes, end: int)
    ensures EndOk(b, end) <==>
      0 <= end <= |b| - 22 && EndSays(b, end) && forall i :: end < i <= |b| - 22 ==> U32(b, i) != 0x06054b50
  {
  }

  // ---- What the headers of a member say, field by field ----

  datatype Entry = Entry(flags: nat, packing: nat, crc: nat, packed: nat, size: nat, name: Text, at: nat)

  /** Section 4.3.12: the central header at c, on the first disk, of no special file. */
  ghost predicate CentralSays(s: Services, b: Bytes, c: int, end: int, e: Entry) {
    && U32(b, c) == 0x02014b50
    && e.flags == U16(b, c + 8) && e.packing == U16(b, c + 10)
    && e.crc == U32(b, c + 16) && e.packed == U32(b, c + 20) && e.size == U32(b, c + 24)
    && s.text.decode(Slice(b, c + 46, c + 46 + U16(b, c + 28))) == Some(e.name)
    && c + 46 + U16(b, c + 28) + U16(b, c + 30) + U16(b, c + 32) <= end
    && U16(b, c + 34) == 0 && U32(b, c + 38) / 0x1000_0000 in {0, 4, 8}
    && e.at == U32(b, c + 42)
  }

  /** Section 4.3.7: the local header where the central one points; with a data descriptor it need not repeat the facts. */
  ghost predicate LocalSays(s: Services, b: Bytes, directory: int, size: nat, e: Entry) {
    && e.at + 30 <= directory && U32(b, e.at) == 0x04034b50
    && U16(b, e.at + 6) == e.flags && U16(b, e.at + 8) == e.packing
    && U16(b, e.at + 26) == size && s.text.decode(Slice(b, e.at + 30, e.at + 30 + size)) == Some(e.name)
    && (e.flags in {0, 0x800} ==>
          U32(b, e.at + 14) == e.crc && U32(b, e.at + 18) == e.packed && U32(b, e.at + 22) == e.size)
  }

  /** The data after the local header, stored or deflated, has the size and the checksum that are declared. */
  ghost predicate HoldsContent(s: Services, b: Bytes, directory: int, size: nat, e: Entry, content: Bytes) {
    var start := e.at + 30 + size + U16(b, e.at + 28);
    var data := Slice(b, start, start + e.packed);
    && start + e.packed <= directory
    && (if e.packing == 0 then content == data else s.inflate(data, if e.size == 0 then 1 else e.size) == Some(content))
    && |content| == e.size && s.crc(content) == e.crc
  }

  ghost predicate IsMemberAt(s: Services, b: Bytes, c: int, directory: int, end: int, e: Entry, content: Bytes) {
    && CentralSays(s, b, c, end, e) && LocalSays(s, b, directory, U16(b, c + 28), e)
    && HoldsContent(s, b, directory, U16(b, c + 28), e, content)
    && e.flags in {0, 0x8, 0x800, 0x808} && e.packing in {0, 8}
    && SafePath(s.text, PathOf(e.name, IsFolder(e.name))) && (IsFolder(e.name) ==> content == [])
  }

  lemma FileMode(attributes: nat)
    ensures ModeOk(attributes) <==> attributes / 0x1000_0000 in {0, 4, 8}
  {
    assert attributes / 0x10000 / 0x1000 == attributes / 0x1000_0000;
  }

  /** A member is accepted exactly when both its headers say the same of it and its data is as they say. */
  lemma MemberMeans(s: Services, b: Bytes, c: int, directory: int, end: int)
    ensures MemberOk(s, b, c, directory, end) <==> exists e, content :: IsMemberAt(s, b, c, directory, end, e, content)
    ensures forall e, content :: IsMemberAt(s, b, c, directory, end, e, content) ==>
      Name(s, b, c) == Some(e.name) && Body(s, b, c) == Some(content)
  {
    hide SafePath, PathOf, U16, U32, Slice, ModeOk;
    FileMode(U32(b, c + 38));
    if MemberOk(s, b, c, directory, end) {
      var e := Entry(U16(b, c + 8), U16(b, c + 10), U32(b, c + 16), U32(b, c + 20), U32(b, c + 24), Name(s, b, c).value, U32(b, c + 42));
      assert IsMemberAt(s, b, c, directory, end, e, Body(s, b, c).value);
    }
  }

  /** Every returned file is what the headers of an accepted member describe. */
  lemma FileIsDescribed(s: Services, b: Bytes, end: int, name: Text) returns (i: nat, e: Entry)
    requires Accepted(s, b, end) && name in FilesOf(s, b, DirectoryOf(b, end), Count(b, end))
    ensures i < Count(b, end) && e.name == name
    ensures IsMemberAt(s, b, Cursor(b, DirectoryOf(b, end), i), DirectoryOf(b, end), end, e,
                       FilesOf(s, b, DirectoryOf(b, end), Count(b, end))[name])
  {
    hide Cursor, EndOk, IsMemberAt, MemberOk, Name, Body, FilesOf, DirectoryOf, Count;
    i := FileIsMember(s, b, end, Count(b, end), name);
    var c := Cursor(b, DirectoryOf(b, end), i);
    MemberMeans(s, b, c, DirectoryOf(b, end), end);
    var found: Entry, content :| IsMemberAt(s, b, c, DirectoryOf(b, end), end, found, content);
    e := found;
  }
}
