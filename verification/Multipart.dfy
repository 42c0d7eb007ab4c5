/** The upload form of the Python index: a boundary that its content cannot contain, the body it
    delimits, and the recogniser of exactly these bodies (section 5.1.1 of RFC 2046, section 4.1 of
    RFC 7578). */
module Multipart {
  import opened Texts
  import opened ReleaseModel
  import opened Utf8
  import opened Identity
  import opened Substrings

  const CRLF: Bytes := [13, 10]
  const CRLF2: Bytes := [13, 10, 13, 10]
  const DASHES: Bytes := [45, 45]
  const TSR: Bytes := [116, 115, 114, 45]  // "tsr-"
  const COLON: Bytes := [58]

  const DISPOSITION: Bytes :=  // 'Content-Disposition: form-data; name="'
    [67, 111, 110, 116, 101, 110, 116, 45, 68, 105, 115, 112, 111, 115, 105, 116, 105, 111, 110, 58, 32, 102, 111,
     114, 109, 45, 100, 97, 116, 97, 59, 32, 110, 97, 109, 101, 61, 34]

  const FILENAME: Bytes :=  // 'content"; filename="'
    [99, 111, 110, 116, 101, 110, 116, 34, 59, 32, 102, 105, 108, 101, 110, 97, 109, 101, 61, 34]

  const CONTENT_TYPE: Bytes :=  // 'Content-Type: '
    [67, 111, 110, 116, 101, 110, 116, 45, 84, 121, 112, 101, 58, 32]

  const QUOTE: Bytes := [34]

  const MAX_BYTES := 128 * 1024 * 1024
  const MAX_BODY := MAX_BYTES + 2 * 1024 * 1024

  type Digest = Bytes -> Bytes

  /** A SHA-256 in hexadecimal: 64 lower-case digits. */
  predicate IsHexDigest(h: Bytes) {
    |h| == 64 && forall i :: 0 <= i < 64 ==> 48 <= h[i] <= 57 || 97 <= h[i] <= 102
  }

  ghost predicate HexDigest(digest: Digest) {
    forall b :: IsHexDigest(digest(b))
  }

  /** What the intent fixes, and what reading the archive found in it. */
  datatype Intent = Intent(
    filename: Bytes, sha256: Bytes, size: nat, project: Bytes, version: Bytes, metadataVersion: Bytes, pythonTag: Bytes,
    wheel: bool, uploadUrl: Text, principal: Text)

  datatype Inspected = Inspected(
    project: Bytes, version: Bytes, metadataVersion: Bytes, pythonTag: Bytes, wheel: bool, fields: seq<(Bytes, Bytes)>)

  /** No carriage return, line feed or quote. */
  predicate Clean(t: Bytes) {
    13 !in t && 10 !in t && 34 !in t
  }

  const ACTION: Bytes := [58, 97, 99, 116, 105, 111, 110]  // ":action"
  const FILE_UPLOAD: Bytes := [102, 105, 108, 101, 95, 117, 112, 108, 111, 97, 100]  // "file_upload"
  const PROTOCOL_VERSION: Bytes :=  // "protocol_version"
    [112, 114, 111, 116, 111, 99, 111, 108, 95, 118, 101, 114, 115, 105, 111, 110]
  const SHA256_DIGEST: Bytes := [115, 104, 97, 50, 53, 54, 95, 100, 105, 103, 101, 115, 116]  // "sha256_digest"
  const FILETYPE: Bytes := [102, 105, 108, 101, 116, 121, 112, 101]  // "filetype"
  const BDIST_WHEEL: Bytes := [98, 100, 105, 115, 116, 95, 119, 104, 101, 101, 108]  // "bdist_wheel"
  const SDIST: Bytes := [115, 100, 105, 115, 116]  // "sdist"
  const PYVERSION: Bytes := [112, 121, 118, 101, 114, 115, 105, 111, 110]  // "pyversion"
  const TAR_GZ: Bytes := [46, 116, 97, 114, 46, 103, 122]  // ".tar.gz"
  const APPLICATION_GZIP: Bytes :=  // "application/gzip"
    [97, 112, 112, 108, 105, 99, 97, 116, 105, 111, 110, 47, 103, 122, 105, 112]
  const APPLICATION_ZIP: Bytes :=  // "application/zip"
    [97, 112, 112, 108, 105, 99, 97, 116, 105, 111, 110, 47, 122, 105, 112]

  /** The entries of every upload, before the fields of its metadata. */
  function Fixed(intent: Intent, inspected: Inspected): seq<(Bytes, Bytes)> {
    [(ACTION, FILE_UPLOAD), (PROTOCOL_VERSION, [49]), (SHA256_DIGEST, intent.sha256),
     (FILETYPE, if inspected.wheel then BDIST_WHEEL else SDIST), (PYVERSION, inspected.pythonTag)]
  }

  function ContentType(filename: Bytes): Bytes {
    if |filename| >= |TAR_GZ| && filename[|filename| - |TAR_GZ|..] == TAR_GZ then APPLICATION_GZIP else APPLICATION_ZIP
  }

  /** A source distribution is a compressed tar archive by its name, anything else a ZIP archive. */
  lemma ContentTypeMeans(filename: Bytes)
    ensures ContentType(filename) == APPLICATION_GZIP <==> exists stem :: filename == stem + TAR_GZ
    ensures ContentType(filename) in {APPLICATION_GZIP, APPLICATION_ZIP}
  {
    assert |APPLICATION_GZIP| != |APPLICATION_ZIP|;
    if |filename| >= |TAR_GZ| {
      assert filename == filename[..|filename| - |TAR_GZ|] + filename[|filename| - |TAR_GZ|..];
    }
    if stem :| filename == stem + TAR_GZ {
      assert filename[|filename| - |TAR_GZ|..] == TAR_GZ;
    }
  }

  /** Field names are identifiers of the form, tags have no hyphen, the file name is portable. */
  predicate WellNamed(intent: Intent, inspected: Inspected) {
    && Clean(intent.filename) && IsHexDigest(intent.sha256) && 45 !in inspected.pythonTag
    && (forall i :: 0 <= i < |inspected.fields| ==> Clean(inspected.fields[i].0))
  }

  // ---- The boundary ----

  /** The candidates in order: the content's own digest, then digests of it with a counter. */
  function Candidate(digest: Digest, sha256: Bytes, k: nat): Bytes {
    if k == 0 then TSR + sha256 else TSR + digest(TSR + sha256 + COLON + Encode(Digits(k)))
  }

  const CANDIDATE_SIZE := 68

  /** How many places a candidate can occur at. */
  function Places(values: Bytes): nat {
    if |values| < CANDIDATE_SIZE then 0 else |values| - CANDIDATE_SIZE + 1
  }

  /** The candidates up to this one are distinct, as SHA-256 digests are expected to be. */
  ghost predicate DistinctCandidates(digest: Digest, sha256: Bytes, last: nat) {
    forall i, j :: 0 <= i < j <= last ==> Candidate(digest, sha256, i) != Candidate(digest, sha256, j)
  }

  function FieldValues(fields: seq<(Bytes, Bytes)>): Bytes {
    if fields == [] then [] else fields[0].1 + FieldValues(fields[1..])
  }

  /** The boundary is the first candidate that the values do not contain. */
  ghost predicate IsBoundary(digest: Digest, sha256: Bytes, values: Bytes, boundary: Bytes) {
    exists k: nat :: FirstMissing(digest, sha256, values, k) && boundary == Candidate(digest, sha256, k)
  }

  ghost predicate FirstMissing(digest: Digest, sha256: Bytes, values: Bytes, k: nat) {
    && !Includes(values, Candidate(digest, sha256, k))
    && forall i :: 0 <= i < k ==> Includes(values, Candidate(digest, sha256, i))
  }

  /** Each earlier candidate was found at its own place. */
  ghost predicate Placed(digest: Digest, sha256: Bytes, values: Bytes, places: set<int>, k: nat) {
    && |places| == k
    && (forall p :: p in places ==> 0 <= p < Places(values))
    && (forall p :: p in places ==> exists i :: 0 <= i < k && Occurs(Candidate(digest, sha256, i), values, p))
  }

  lemma PlacesFit(places: set<int>, n: nat)
    requires forall p :: p in places ==> 0 <= p < n
    ensures |places| <= n
    decreases n
  {
    if n > 0 {
      PlacesFit(places - {n - 1}, n - 1);
      assert places <= places - {n - 1} + {n - 1};
      if n - 1 in places {
        assert |places| == |places - {n - 1}| + 1;
      } else {
        assert places - {n - 1} == places;
      }
    } else {
      assert forall p :: p !in places;
      assert places == {};
    }
  }

  lemma CandidateShape(digest: Digest, sha256: Bytes, k: nat)
    requires HexDigest(digest) && IsHexDigest(sha256)
    ensures |Candidate(digest, sha256, k)| == 68 && TSR <= Candidate(digest, sha256, k)
    ensures Clean(Candidate(digest, sha256, k)) && 45 in Candidate(digest, sha256, k)
  {
    var c := Candidate(digest, sha256, k);
    assert IsHexDigest(c[4..]);
    assert c == TSR + c[4..];
    assert c[3] == 45;
    forall i | 0 <= i < |c| ensures c[i] != 13 && c[i] != 10 && c[i] != 34 {
      if i >= 4 {
        assert c[i] == c[4..][i - 4];
      }
    }
  }

  lemma SamePlace(a: Bytes, b: Bytes, s: Bytes, p: int)
    requires |a| == |b|
    ensures Occurs(a, s, p) && Occurs(b, s, p) ==> a == b
  {
  }

  /** A new candidate that occurs takes a place of its own: one place cannot hold two. */
  lemma NewPlace(digest: Digest, sha256: Bytes, values: Bytes, places: set<int>, k: nat, p: int)
    requires HexDigest(digest) && IsHexDigest(sha256) && DistinctCandidates(digest, sha256, k)
    requires Placed(digest, sha256, values, places, k) && Occurs(Candidate(digest, sha256, k), values, p)
    ensures Placed(digest, sha256, values, places + {p}, k + 1)
  {
    hide Candidate;
    CandidateShape(digest, sha256, k);
    forall i | 0 <= i < k ensures !Occurs(Candidate(digest, sha256, i), values, p) {
      CandidateShape(digest, sha256, i);
      SamePlace(Candidate(digest, sha256, i), Candidate(digest, sha256, k), values, p);
    }
    forall q | q in places + {p} ensures exists i :: 0 <= i < k + 1 && Occurs(Candidate(digest, sha256, i), values, q) {
      if q in places {
        var i :| 0 <= i < k && Occurs(Candidate(digest, sha256, i), values, q);
      }
    }
  }

  /** The search ends: distinct candidates need distinct places, and one candidate more than there are
      places is enough. */
  method FindBoundary(digest: Digest, sha256: Bytes, values: Bytes) returns (boundary: Bytes)
    requires HexDigest(digest) && IsHexDigest(sha256) && DistinctCandidates(digest, sha256, Places(values))
    ensures IsBoundary(digest, sha256, values, boundary)
  {
    hide Candidate;
    var suffix := 0;
    boundary := Candidate(digest, sha256, 0);
    ghost var places: set<int> := {};
    var found := IndexOf(values, boundary, 0);
    while found.Some?
      invariant boundary == Candidate(digest, sha256, suffix)
      invariant forall i :: 0 <= i < suffix ==> Includes(values, Candidate(digest, sha256, i))
      invariant Placed(digest, sha256, values, places, suffix) && suffix <= Places(values)
      invariant found.Some? ==> Occurs(boundary, values, found.value)
      invariant found.None? ==> forall i :: 0 <= i ==> !Occurs(boundary, values, i)
      decreases Places(values) - suffix, if found.Some? then 1 else 0
    {
      NewPlace(digest, sha256, values, places, suffix, found.value);
      places := places + {found.value};
      PlacesFit(places, Places(values));
      suffix := suffix + 1;
      boundary := Candidate(digest, sha256, suffix);
      found := IndexOf(values, boundary, 0);
    }
    assert FirstMissing(digest, sha256, values, suffix);
  }

  // ---- Distinct candidates are possible, as many as any search can need ----

  function Power10(k: nat): nat {
    if k == 0 then 1 else 10 * Power10(k - 1)
  }

  /** A digest that spells the number it is asked about, filled up with the letter a. */
  function Spelled(d: Bytes): Bytes
    requires |d| <= 64
  {
    seq(64 - |d|, _ => 97) + d
  }

  predicate IsDecimal(d: Bytes) {
    forall i :: 0 <= i < |d| ==> 48 <= d[i] <= 57
  }

  function SpellingDigest(b: Bytes): Bytes {
    if |b| >= 69 && |b[69..]| <= 64 && IsDecimal(b[69..]) then Spelled(b[69..]) else Spelled([])
  }

  lemma SpellingIsHex()
    ensures HexDigest(SpellingDigest)
  {
  }

  lemma SpelledInjective(d: Bytes, e: Bytes)
    requires |d| <= |e| <= 64 && IsDecimal(d) && IsDecimal(e)
    ensures Spelled(d) == Spelled(e) ==> d == e
  {
    assert d == Spelled(d)[64 - |d|..] && e == Spelled(e)[64 - |e|..];
    assert |d| < |e| ==> Spelled(d)[64 - |e|] == 97 != e[0] == Spelled(e)[64 - |e|];
  }

  lemma {:induction false} DigitsFit(k: nat, w: nat)
    requires k < Power10(w) && w > 0
    ensures |Digits(k)| <= w && forall i :: 0 <= i < |Digits(k)| ==> 48 <= Digits(k)[i] <= 57
  {
    if k >= 10 {
      DigitsFit(k / 10, w - 1);
    }
  }

  lemma SpelledCandidate(sha256: Bytes, k: nat)
    requires |sha256| == 64 && 0 < k < Power10(63)
    ensures IsDecimal(Encode(Digits(k))) && 0 < |Encode(Digits(k))| <= 63
    ensures Candidate(SpellingDigest, sha256, k) == TSR + Spelled(Encode(Digits(k)))
  {
    DigitsFit(k, 63);
    AsciiEncode(Digits(k));
    assert (TSR + sha256 + COLON + Encode(Digits(k)))[69..] == Encode(Digits(k));
  }

  /** There are digests under which more candidates are distinct than any content has places. */
  lemma DistinctnessIsPossible(last: nat) returns (digest: Digest, sha256: Bytes)
    requires last < Power10(63)
    ensures HexDigest(digest) && IsHexDigest(sha256) && DistinctCandidates(digest, sha256, last)
  {
    hide Digits, Encode, Spelled, IsDecimal, Power10;
    digest, sha256 := SpellingDigest, seq(64, _ => 98);
    SpellingIsHex();
    forall i, j | 0 <= i < j <= last ensures Candidate(digest, sha256, i) != Candidate(digest, sha256, j) {
      SpelledCandidate(sha256, j);
      var e := Encode(Digits(j));
      StartsWithA(e);
      assert (TSR + Spelled(e))[4..] == Spelled(e);
      if i == 0 {
        assert (TSR + sha256)[4] == 98 && (TSR + Spelled(e))[4] == 97;
      } else {
        SpelledCandidate(sha256, i);
        SpelledTwice(i, j);
      }
    }
  }

  lemma StartsWithA(d: Bytes)
    requires |d| <= 63
    ensures |Spelled(d)| == 64 && Spelled(d)[0] == 97
  {
  }

  lemma SpelledTwice(i: nat, j: nat)
    requires i != j && i < Power10(63) && j < Power10(63)
    ensures |Encode(Digits(i))| <= 63 && |Encode(Digits(j))| <= 63
    ensures TSR + Spelled(Encode(Digits(i))) != TSR + Spelled(Encode(Digits(j)))
  {
    hide Spelled, Digits, Encode, Power10;
    var d, e := Digits(i), Digits(j);
    DigitsFit(i, 63);
    DigitsFit(j, 63);
    AsciiEncode(d);
    AsciiEncode(e);
    var a, b := Encode(d), Encode(e);
    if TSR + Spelled(a) == TSR + Spelled(b) {
      assert Spelled(a) == (TSR + Spelled(a))[4..] == (TSR + Spelled(b))[4..] == Spelled(b);
      if |a| <= |b| { SpelledInjective(a, b); } else { SpelledInjective(b, a); }
      assert forall k :: 0 <= k < |d| ==> d[k] == a[k] && e[k] == b[k];
      assert d == e;
      DigitsInjective(i, j);
    }
  }

  lemma BoundaryIsUnique(digest: Digest, sha256: Bytes, values: Bytes, a: Bytes, b: Bytes)
    requires IsBoundary(digest, sha256, values, a) && IsBoundary(digest, sha256, values, b)
    ensures a == b
  {
    hide Candidate, Includes;
    var i: nat :| FirstMissing(digest, sha256, values, i) && a == Candidate(digest, sha256, i);
    var j: nat :| FirstMissing(digest, sha256, values, j) && b == Candidate(digest, sha256, j);
  }

  // ---- The body ----

  function Header(name: Bytes): Bytes {
    DISPOSITION + name + QUOTE
  }

  function FileHeader(intent: Intent): Bytes {
    DISPOSITION + FILENAME + intent.filename + QUOTE + CRLF + CONTENT_TYPE + ContentType(intent.filename)
  }

  function Opening(boundary: Bytes, header: Bytes): Bytes {
    DASHES + boundary + CRLF + header + CRLF2
  }

  function EntryPart(boundary: Bytes, entry: (Bytes, Bytes)): Bytes {
    Opening(boundary, Header(entry.0)) + entry.1 + CRLF
  }

  function EntryParts(boundary: Bytes, entries: seq<(Bytes, Bytes)>): Bytes {
    if entries == [] then [] else EntryPart(boundary, entries[0]) + EntryParts(boundary, entries[1..])
  }

  function Ending(boundary: Bytes): Bytes {
    CRLF + DASHES + boundary + DASHES + CRLF
  }

  function BodyOf(intent: Intent, inspected: Inspected, boundary: Bytes, content: Bytes): Bytes {
    EntryParts(boundary, Fixed(intent, inspected) + inspected.fields)
    + Opening(boundary, FileHeader(intent)) + content + Ending(boundary)
  }

  /** What an archive must be for this intent, and what was read from it. */
  function Admit(digest: Digest, inspect: (Intent, Bytes) -> Option<Inspected>, intent: Intent, content: Bytes): Result<Inspected> {
    if |content| != intent.size || digest(content) != intent.sha256 then Fail(DistributionContent)
    else
      match inspect(intent, content)
      case None => Fail(DistributionMetadata)
      case Some(i) =>
        if i.project != intent.project || i.version != intent.version || i.metadataVersion != intent.metadataVersion
           || i.pythonTag != intent.pythonTag || i.wheel != intent.wheel
        then Fail(DistributionMetadata)
        else Ok(i)
  }

  ghost predicate Builds(
    digest: Digest, inspect: (Intent, Bytes) -> Option<Inspected>, intent: Intent, content: Bytes, boundary: Bytes, body: Bytes)
  {
    var admitted := Admit(digest, inspect, intent, content);
    && admitted.Ok?
    && IsBoundary(digest, intent.sha256, content + FieldValues(admitted.value.fields), boundary)
    && body == BodyOf(intent, admitted.value, boundary, content)
  }

  /** The search this content leads to has enough distinct candidates. */
  ghost predicate Searchable(digest: Digest, inspect: (Intent, Bytes) -> Option<Inspected>, intent: Intent, content: Bytes) {
    var admitted := Admit(digest, inspect, intent, content);
    admitted.Ok? ==>
      DistinctCandidates(digest, intent.sha256, Places(content + FieldValues(admitted.value.fields)))
  }

  /** `multipart`. */
  method BuildBody(digest: Digest, inspect: (Intent, Bytes) -> Option<Inspected>, intent: Intent, content: Bytes)
    returns (r: Result<(Bytes, Bytes)>)
    requires HexDigest(digest) && IsHexDigest(intent.sha256) && Searchable(digest, inspect, intent, content)
    ensures r.Ok? <==> Admit(digest, inspect, intent, content).Ok?
    ensures r.Ok? ==> Builds(digest, inspect, intent, content, r.value.0, r.value.1)
  {
    hide DistinctCandidates, IsBoundary;
    var admitted := Admit(digest, inspect, intent, content);
    if admitted.Fail? {
      return Fail(admitted.refusal);
    }
    var entries := Fixed(intent, admitted.value) + admitted.value.fields;
    var boundary := FindBoundary(digest, intent.sha256, content + FieldValues(admitted.value.fields));
    var parts: Bytes := [];
    for k := 0 to |entries|
      invariant parts + EntryParts(boundary, entries[k..]) == EntryParts(boundary, entries)
    {
      assert entries[k..][1..] == entries[k + 1..];
      NextPart(parts, boundary, entries[k..]);
      parts := parts + EntryPart(boundary, entries[k]);
    }
    assert parts + [] == parts;
    r := Ok((boundary, parts + Opening(boundary, FileHeader(intent)) + content + Ending(boundary)));
  }

  lemma NextPart(parts: Bytes, boundary: Bytes, entries: seq<(Bytes, Bytes)>)
    requires entries != []
    ensures parts + EntryParts(boundary, entries) == parts + EntryPart(boundary, entries[0]) + EntryParts(boundary, entries[1..])
  {
    hide EntryPart;
  }

  // ---- Reading a body back ----

  function Delimiter(boundary: Bytes): Bytes {
    CRLF + DASHES + boundary
  }

  datatype Part = Part(header: Bytes, value: Bytes)

  /** What lies between two delimiters: a line end, the header, an empty line, the value. */
  function ReadPart(segment: Bytes): Option<Part> {
    if |segment| < 2 || segment[..2] != CRLF then None
    else
      match Find(CRLF2, segment[2..])
      case None => None
      case Some(i) => Some(Part(segment[2..][..i], segment[2..][i + 4..]))
  }

  function ReadParts(segments: seq<Bytes>): Option<seq<Part>> {
    if segments == [] then Some([])
    else
      match ReadPart(segments[0])
      case None => None
      case Some(first) =>
        match ReadParts(segments[1..])
        case None => None
        case Some(rest) => Some([first] + rest)
  }

  const CLOSE: Bytes := [45, 45, 13, 10]  // "--" CRLF

  /** Section 5.1.1 of RFC 2046: the parts of a body delimited by this boundary. */
  function ReadBody(boundary: Bytes, body: Bytes): Option<seq<Part>> {
    var pieces := SplitOn(Delimiter(boundary), CRLF + body);
    if |pieces| < 2 || pieces[0] != [] || pieces[|pieces| - 1] != CLOSE then None
    else ReadParts(pieces[1..|pieces| - 1])
  }

  function Segment(header: Bytes, value: Bytes): Bytes {
    CRLF + header + CRLF2 + value
  }

  /** Header lines that neither end a header nor look like a delimiter. */
  predicate Harmless(h: Bytes) {
    && h != [] && h[0] != 45 && h[0] != 13
    && forall i :: 0 <= i < |h| && h[i] == 13 ==> i + 2 < |h| && h[i + 1] == 10 && h[i + 2] != 45 && h[i + 2] != 13
  }

  lemma CleanHeader(name: Bytes)
    requires Clean(name)
    ensures Harmless(Header(name))
  {
    var h := Header(name);
    forall i | 0 <= i < |h| ensures h[i] != 13 {
      if |DISPOSITION| <= i < |DISPOSITION| + |name| {
        assert h[i] == name[i - |DISPOSITION|];
      }
    }
  }

  lemma TwoLinesHarmless(first: Bytes, second: Bytes)
    requires first != [] && first[0] != 45 && 13 !in first
    requires second != [] && second[0] != 45 && 13 !in second
    ensures Harmless(first + CRLF + second)
  {
    var h, n := first + CRLF + second, |first|;
    forall i | 0 <= i < n ensures h[i] != 13 {
      assert h[i] == first[i];
    }
    forall i | n + 2 <= i < |h| ensures h[i] != 13 {
      assert h[i] == second[i - n - 2];
    }
    assert h[n] == 13 && h[n + 1] == 10 && h[n + 2] == second[0];
  }

  lemma CleanFileHeader(intent: Intent)
    requires Clean(intent.filename)
    ensures Harmless(FileHeader(intent))
  {
    var first, second := DISPOSITION + FILENAME + intent.filename + QUOTE, CONTENT_TYPE + ContentType(intent.filename);
    assert first[0] == 67 && second[0] == 67;
    assert 13 !in DISPOSITION && 13 !in FILENAME && 13 !in QUOTE && 13 !in CONTENT_TYPE;
    assert 13 !in APPLICATION_GZIP && 13 !in APPLICATION_ZIP;
    assert FileHeader(intent) == first + CRLF + second;
    TwoLinesHarmless(first, second);
  }

  lemma EmptyLineUnits(s: Bytes, i: int)
    ensures Occurs(CRLF2, s, i) ==> s[i] == 13 && s[i + 2] == 13
  {
    if Occurs(CRLF2, s, i) {
      OccursUnits(CRLF2, s, i);
      assert CRLF2[0] == s[i + 0] && CRLF2[2] == s[i + 2];
    }
  }

  /** The header of a part ends at its first empty line. */
  lemma PartReadsBack(header: Bytes, value: Bytes)
    requires Harmless(header)
    ensures ReadPart(Segment(header, value)) == Some(Part(header, value))
  {
    var s := header + CRLF2 + value;
    var segment := Segment(header, value);
    assert segment[..2] == CRLF && segment[2..] == s;
    assert s[|header|..|header| + 4] == CRLF2;
    forall i | 0 <= i < |header| ensures !Occurs(CRLF2, s, i) {
      assert s[i] == header[i];
      assert header[i] == 13 ==> s[i + 2] == header[i + 2];
      EmptyLineUnits(s, i);
    }
    FoundAt(CRLF2, s, |header|);
    assert s[..|header|] == header && s[|header| + 4..] == value;
  }

  /** A delimiter inside a part would show the boundary inside its value. */
  lemma DelimiterOnlyInValue(boundary: Bytes, header: Bytes, value: Bytes, i: int)
    requires Harmless(header) && Occurs(Delimiter(boundary), Segment(header, value), i)
    ensures Occurs(boundary, value, i - 2 - |header|)
  {
    var s, n := Segment(header, value), 6 + |header|;
    SegmentUnits(header, value);
    DelimiterUnits(boundary, s, i);
    assert i + 4 >= n;
    assert value == s[n..];
    assert value[i + 4 - n..i + 4 - n + |boundary|] == s[i + 4..i + 4 + |boundary|];
  }

  lemma SegmentUnits(header: Bytes, value: Bytes)
    ensures var s := Segment(header, value);
      && |s| == 6 + |header| + |value| && s[6 + |header|..] == value
      && s[0] == 13 && s[1] == 10 && (forall k :: 2 <= k < 2 + |header| ==> s[k] == header[k - 2])
      && s[2 + |header|] == 13 && s[3 + |header|] == 10 && s[4 + |header|] == 13 && s[5 + |header|] == 10
  {
    assert Segment(header, value) == CRLF + header + CRLF2 + value;
  }

  /** The delimiter lies in no part whose value does not contain the boundary. */
  lemma NoDelimiterInside(boundary: Bytes, header: Bytes, value: Bytes)
    requires Harmless(header) && !Includes(value, boundary)
    ensures !Includes(Segment(header, value), Delimiter(boundary))
  {
    hide Occurs, Harmless, Segment, Delimiter;
    forall i ensures !Occurs(Delimiter(boundary), Segment(header, value), i) {
      assert !Occurs(boundary, value, i - 2 - |header|);
      if Occurs(Delimiter(boundary), Segment(header, value), i) {
        DelimiterOnlyInValue(boundary, header, value, i);
      }
    }
  }

  lemma DelimiterUnits(boundary: Bytes, s: Bytes, i: int)
    requires Occurs(Delimiter(boundary), s, i)
    ensures s[i] == 13 && s[i + 1] == 10 && s[i + 2] == 45 && s[i + 3] == 45
    ensures s[i + 4..i + 4 + |boundary|] == boundary
  {
    var d := Delimiter(boundary);
    var t := s[i..i + |d|];
    assert t[0] == 13 && t[1] == 10 && t[2] == 45 && t[3] == 45;
    assert t[4..] == boundary;
  }

  lemma DelimiterSelfFree(boundary: Bytes)
    requires Clean(boundary)
    ensures SelfFree(Delimiter(boundary))
  {
    var d := Delimiter(boundary);
    forall j | 0 < j < |d| ensures d[j] != d[0] {
      if j >= 4 {
        assert d[j] == boundary[j - 4];
      }
    }
  }

  function Segments(entries: seq<(Bytes, Bytes)>): seq<Bytes> {
    if entries == [] then [] else [Segment(Header(entries[0].0), entries[0].1)] + Segments(entries[1..])
  }

  /** The body, with a line end in front, is its parts glued together by delimiters. */
  lemma {:induction false} BodyIsGlued(boundary: Bytes, entries: seq<(Bytes, Bytes)>, header: Bytes, content: Bytes)
    ensures CRLF + (EntryParts(boundary, entries) + Opening(boundary, header) + content + Ending(boundary))
         == Glue(Delimiter(boundary), Segments(entries) + [Segment(header, content), CLOSE])
  {
    hide Header, EntryPart, Segment, Opening, Ending, Delimiter;
    if entries == [] {
      LastParts(boundary, header, content);
      assert [] + [Segment(header, content), CLOSE] == [Segment(header, content), CLOSE];
    } else {
      BodyIsGlued(boundary, entries[1..], header, content);
      var rest := EntryParts(boundary, entries[1..]) + Opening(boundary, header) + content + Ending(boundary);
      OnePart(boundary, entries[0], rest);
      Regroup(EntryPart(boundary, entries[0]), EntryParts(boundary, entries[1..]), Opening(boundary, header), content,
              Ending(boundary));
      GlueFirst(Delimiter(boundary), Segments(entries[1..]), Segment(Header(entries[0].0), entries[0].1),
                [Segment(header, content), CLOSE]);
    }
  }

  lemma Regroup(a: Bytes, b: Bytes, c: Bytes, d: Bytes, e: Bytes)
    ensures a + b + c + d + e == a + (b + c + d + e)
  {
  }

  lemma GlueFirst(d: Bytes, segments: seq<Bytes>, first: Bytes, last: seq<Bytes>)
    ensures Glue(d, [first] + segments + last) == d + first + Glue(d, segments + last)
  {
    assert ([first] + segments + last)[1..] == segments + last;
  }

  lemma OnePart(boundary: Bytes, entry: (Bytes, Bytes), rest: Bytes)
    ensures CRLF + (EntryPart(boundary, entry) + rest)
         == Delimiter(boundary) + Segment(Header(entry.0), entry.1) + (CRLF + rest)
  {
    hide Header;
    var h := Header(entry.0);
    assert CRLF + (DASHES + boundary + CRLF + h + CRLF2 + entry.1 + CRLF + rest)
        == (CRLF + DASHES + boundary) + (CRLF + h + CRLF2 + entry.1) + (CRLF + rest);
  }

  lemma LastParts(boundary: Bytes, header: Bytes, content: Bytes)
    ensures CRLF + (EntryParts(boundary, []) + Opening(boundary, header) + content + Ending(boundary))
         == Glue(Delimiter(boundary), [Segment(header, content), CLOSE])
  {
    var segments := [Segment(header, content), CLOSE];
    assert segments[1..] == [CLOSE];
    assert |[CLOSE][1..]| == 0;
    assert Glue(Delimiter(boundary), [CLOSE]) == Delimiter(boundary) + CLOSE;
    assert CLOSE == DASHES + CRLF;
    assert CRLF + ([] + (DASHES + boundary + CRLF + header + CRLF2) + content + (CRLF + DASHES + boundary + DASHES + CRLF))
        == (CRLF + DASHES + boundary) + (CRLF + header + CRLF2 + content) + ((CRLF + DASHES + boundary) + (DASHES + CRLF));
  }

  function PartsOf(entries: seq<(Bytes, Bytes)>): seq<Part> {
    if entries == [] then [] else [Part(Header(entries[0].0), entries[0].1)] + PartsOf(entries[1..])
  }

  ghost predicate Unbounded(entries: seq<(Bytes, Bytes)>, boundary: Bytes) {
    forall i :: 0 <= i < |entries| ==> Clean(entries[i].0) && !Includes(entries[i].1, boundary)
  }

  lemma {:induction false} SegmentsReadBack(entries: seq<(Bytes, Bytes)>, boundary: Bytes, header: Bytes, content: Bytes)
    requires Unbounded(entries, boundary) && Harmless(header) && !Includes(content, boundary)
    ensures ReadParts(Segments(entries) + [Segment(header, content)]) == Some(PartsOf(entries) + [Part(header, content)])
    ensures forall i :: 0 <= i < |Segments(entries)| ==> !Includes(Segments(entries)[i], Delimiter(boundary))
  {
    hide Header, Segment, ReadPart, Includes, Delimiter, Harmless;
    var all := Segments(entries) + [Segment(header, content)];
    if entries == [] {
      PartReadsBack(header, content);
      assert all == [Segment(header, content)] && all[1..] == [];
      assert [Part(header, content)] + [] == PartsOf(entries) + [Part(header, content)];
    } else {
      SegmentsReadBack(entries[1..], boundary, header, content);
      CleanHeader(entries[0].0);
      PartReadsBack(Header(entries[0].0), entries[0].1);
      NoDelimiterInside(boundary, Header(entries[0].0), entries[0].1);
      assert all[1..] == Segments(entries[1..]) + [Segment(header, content)];
      assert PartsOf(entries) + [Part(header, content)]
          == [Part(Header(entries[0].0), entries[0].1)] + (PartsOf(entries[1..]) + [Part(header, content)]);
    }
  }

  lemma CloseHasNoDelimiter(boundary: Bytes)
    requires |boundary| == 68
    ensures !Includes(CLOSE, Delimiter(boundary)) && !Includes([], Delimiter(boundary))
  {
  }

  /** Splitting the body on its boundary gives back exactly its entries, in order, and the file. */
  lemma BodyReadsBack(intent: Intent, inspected: Inspected, boundary: Bytes, content: Bytes)
    requires Clean(boundary) && |boundary| == 68 && Clean(intent.filename)
    requires Unbounded(Fixed(intent, inspected) + inspected.fields, boundary) && !Includes(content, boundary)
    ensures ReadBody(boundary, BodyOf(intent, inspected, boundary, content))
         == Some(PartsOf(Fixed(intent, inspected) + inspected.fields) + [Part(FileHeader(intent), content)])
  {
    hide Header, Segment, ReadPart, Includes, Delimiter, Harmless, FileHeader, Opening, Ending;
    var entries, header, d := Fixed(intent, inspected) + inspected.fields, FileHeader(intent), Delimiter(boundary);
    var segments := Segments(entries) + [Segment(header, content)];
    BodyIsGlued(boundary, entries, header, content);
    CleanFileHeader(intent);
    SegmentsReadBack(entries, boundary, header, content);
    NoDelimiterInside(boundary, header, content);
    CloseHasNoDelimiter(boundary);
    DelimiterSelfFree(boundary);
    var pieces := segments + [CLOSE];
    assert Segments(entries) + [Segment(header, content), CLOSE] == pieces;
    SplitOfGlue(d, [], pieces);
    assert [] + Glue(d, pieces) == Glue(d, pieces);
    assert ([[]] + pieces)[1..|pieces|] == segments;
  }

  // ---- The chosen boundary ----

  lemma {:induction false} FieldFree(fields: seq<(Bytes, Bytes)>, i: nat, boundary: Bytes)
    requires i < |fields| && !Includes(FieldValues(fields), boundary)
    ensures !Includes(fields[i].1, boundary)
  {
    hide Includes;
    var first, rest := fields[0].1, FieldValues(fields[1..]);
    assert FieldValues(fields) == [] + first + rest == first + rest + [];
    if i == 0 {
      PieceFree([], first, rest, boundary);
    } else {
      PieceFree(first, rest, [], boundary);
      FieldFree(fields[1..], i - 1, boundary);
    }
  }

  lemma ChosenBoundary(digest: Digest, intent: Intent, inspected: Inspected, content: Bytes, boundary: Bytes)
    requires HexDigest(digest) && WellNamed(intent, inspected)
    requires IsBoundary(digest, intent.sha256, content + FieldValues(inspected.fields), boundary)
    ensures Clean(boundary) && |boundary| == 68
    ensures Unbounded(Fixed(intent, inspected) + inspected.fields, boundary) && !Includes(content, boundary)
  {
    hide Candidate, Includes;
    var values := content + FieldValues(inspected.fields);
    var k: nat :| FirstMissing(digest, intent.sha256, values, k) && boundary == Candidate(digest, intent.sha256, k);
    CandidateShape(digest, intent.sha256, k);
    assert values == [] + content + FieldValues(inspected.fields) == content + FieldValues(inspected.fields) + [];
    PieceFree([], content, FieldValues(inspected.fields), boundary);
    PieceFree(content, FieldValues(inspected.fields), [], boundary);
    var entries := Fixed(intent, inspected) + inspected.fields;
    forall i | 0 <= i < |entries| ensures Clean(entries[i].0) && !Includes(entries[i].1, boundary) {
      if i < |Fixed(intent, inspected)| {
        FixedHasNoHyphen(intent, inspected, i);
        NoHyphenNoBoundary(entries[i].1, boundary);
      } else {
        FieldFree(inspected.fields, i - |Fixed(intent, inspected)|, boundary);
      }
    }
  }

  lemma FixedHasNoHyphen(intent: Intent, inspected: Inspected, i: nat)
    requires WellNamed(intent, inspected) && i < |Fixed(intent, inspected)|
    ensures Clean(Fixed(intent, inspected)[i].0) && 45 !in Fixed(intent, inspected)[i].1
  {
    hide Clean;
    ShortNamesClean();
    LongNamesClean();
    KindsHaveNoHyphen();
    assert 45 !in intent.sha256;
  }

  lemma ShortNamesClean()
    ensures Clean(ACTION) && Clean(FILETYPE) && Clean(PYVERSION)
  {
  }

  lemma LongNamesClean()
    ensures Clean(PROTOCOL_VERSION) && Clean(SHA256_DIGEST)
  {
  }

  lemma KindsHaveNoHyphen()
    ensures 45 !in FILE_UPLOAD && 45 !in BDIST_WHEEL && 45 !in SDIST
  {
  }

  lemma NoHyphenNoBoundary(value: Bytes, boundary: Bytes)
    requires 45 !in value && 45 in boundary
    ensures !Includes(value, boundary)
  {
    var j :| 0 <= j < |boundary| && boundary[j] == 45;
    forall i ensures !Occurs(boundary, value, i) {
      assert 0 <= i && i + |boundary| <= |value| ==> value[i..i + |boundary|][j] == value[i + j] && value[i + j] in value;
    }
  }

  /** Every body that is built is unambiguous under the boundary it announces. */
  lemma BuiltBodyReadsBack(
      digest: Digest, inspect: (Intent, Bytes) -> Option<Inspected>, intent: Intent, content: Bytes, boundary: Bytes, body: Bytes)
    requires HexDigest(digest) && Builds(digest, inspect, intent, content, boundary, body)
    requires WellNamed(intent, Admit(digest, inspect, intent, content).value)
    ensures var inspected := Admit(digest, inspect, intent, content).value;
      ReadBody(boundary, body) == Some(PartsOf(Fixed(intent, inspected) + inspected.fields) + [Part(FileHeader(intent), content)])
    ensures |content| == intent.size && digest(content) == intent.sha256
    ensures var inspected := Admit(digest, inspect, intent, content).value;
      && inspect(intent, content) == Some(inspected)
      && inspected.project == intent.project && inspected.version == intent.version
      && inspected.metadataVersion == intent.metadataVersion && inspected.pythonTag == intent.pythonTag
      && inspected.wheel == intent.wheel
  {
    hide IsBoundary, Unbounded, BodyOf, ReadBody, FileHeader;
    var inspected := Admit(digest, inspect, intent, content).value;
    ChosenBoundary(digest, intent, inspected, content, boundary);
    BodyReadsBack(intent, inspected, boundary, content);
  }

  // ---- The recogniser ----

  /** The bytes of the declared size before the ending, if the body has that ending. */
  function ContentIn(intent: Intent, boundary: Bytes, body: Bytes): Option<Bytes> {
    var end := Ending(boundary);
    var start := |body| - |end| - intent.size;
    if start < 0 || body[|body| - |end|..] != end then None else Some(body[start..|body| - |end|])
  }

  /** The tail must be the ending, and rebuilding the form from the bytes before it must give this very body and
      boundary. */
  method OwnsBody(
      digest: Digest, inspect: (Intent, Bytes) -> Option<Inspected>, intent: Intent, boundary: Bytes, body: Bytes)
    returns (owns: bool)
    requires HexDigest(digest) && IsHexDigest(intent.sha256)
    requires |body| <= MAX_BODY && ContentIn(intent, boundary, body).Some?
         ==> Searchable(digest, inspect, intent, ContentIn(intent, boundary, body).value)
    ensures owns <==> |body| <= MAX_BODY && exists content :: Builds(digest, inspect, intent, content, boundary, body)
  {
    hide Searchable, IsBoundary, BodyOf, ContentIn, Admit;
    forall content | Builds(digest, inspect, intent, content, boundary, body)
      ensures ContentIn(intent, boundary, body) == Some(content)
    {
      ContentBeforeEnding(digest, inspect, intent, content, boundary, body);
    }
    if |body| > MAX_BODY {
      return false;
    }
    var content := ContentIn(intent, boundary, body);
    if content.None? {
      return false;
    }
    var expected := BuildBody(digest, inspect, intent, content.value);
    if expected.Ok? && (exists content :: Builds(digest, inspect, intent, content, boundary, body)) {
      BuiltOnce(digest, inspect, intent, content.value, boundary, body, expected.value.0, expected.value.1);
    }
    owns := expected.Ok? && expected.value.1 == body && expected.value.0 == boundary;
  }

  lemma ContentBeforeEnding(
      digest: Digest, inspect: (Intent, Bytes) -> Option<Inspected>, intent: Intent, content: Bytes, boundary: Bytes, body: Bytes)
    requires Builds(digest, inspect, intent, content, boundary, body)
    ensures ContentIn(intent, boundary, body) == Some(content)
    ensures Admit(digest, inspect, intent, content).Ok?
  {
    hide IsBoundary, Ending, Opening, EntryParts;
    var inspected := Admit(digest, inspect, intent, content).value;
    var front := EntryParts(boundary, Fixed(intent, inspected) + inspected.fields) + Opening(boundary, FileHeader(intent));
    assert body == front + content + Ending(boundary);
    assert |content| == intent.size;
  }

  lemma BuiltOnce(
      digest: Digest, inspect: (Intent, Bytes) -> Option<Inspected>, intent: Intent, content: Bytes,
      boundary: Bytes, body: Bytes, boundary': Bytes, body': Bytes)
    requires Builds(digest, inspect, intent, content, boundary, body)
    requires Builds(digest, inspect, intent, content, boundary', body')
    ensures boundary == boundary' && body == body'
  {
    hide IsBoundary, BodyOf;
    BoundaryIsUnique(digest, intent.sha256, content + FieldValues(Admit(digest, inspect, intent, content).value.fields),
                     boundary, boundary');
  }

  const POST: Text := [80, 79, 83, 84]  // "POST"
  const ACCEPT: Text := [97, 99, 99, 101, 112, 116]  // "accept"
  const ACCEPTED: Text :=  // "text/plain, application/json;q=0.1"
    [116, 101, 120, 116, 47, 112, 108, 97, 105, 110, 44, 32, 97, 112, 112, 108, 105, 99, 97, 116, 105, 111,
     110, 47, 106, 115, 111, 110, 59, 113, 61, 48, 46, 49]
  const CONTENT_TYPE_NAME: Text := [99, 111, 110, 116, 101, 110, 116, 45, 116, 121, 112, 101]  // "content-type"
  const FORM_DATA: Text :=  // "multipart/form-data; boundary="
    [109, 117, 108, 116, 105, 112, 97, 114, 116, 47, 102, 111, 114, 109, 45, 100, 97, 116, 97, 59, 32, 98, 111,
     117, 110, 100, 97, 114, 121, 61]

  function AsText(b: Bytes): (t: Text)
    ensures |t| == |b| && forall i :: 0 <= i < |b| ==> t[i] == b[i]
  {
    seq(|b|, i requires 0 <= i < |b| => b[i])
  }

  function AsBytes(t: Text): (b: Bytes)
    requires forall i :: 0 <= i < |t| ==> t[i] < 256
    ensures |b| == |t| && AsText(b) == t
  {
    seq(|t|, i requires 0 <= i < |t| => t[i])
  }

  /** The facts of the request that uploads this body. */
  function RequestFor(digest: Digest, intent: Intent, scope: Text, boundary: Bytes, body: Bytes): RequestFacts {
    RequestFacts(CoreHttp, intent.uploadUrl, POST, [(ACCEPT, ACCEPTED), (CONTENT_TYPE_NAME, FORM_DATA + AsText(boundary))],
                 AsText(digest(body)), Digits(|body|), intent.principal, scope, NoReplay)
  }

  predicate IsHexText(t: Text) {
    |t| == 64 && forall i :: 0 <= i < 64 ==> 48 <= t[i] <= 57 || 97 <= t[i] <= 102
  }

  /** A content type that announces one of our boundaries. */
  predicate IsFormType(t: Text) {
    FORM_DATA + AsText(TSR) <= t && IsHexText(t[|FORM_DATA| + 4..])
  }

  /** `ownsFacts`. */
  predicate OwnsFacts(intent: Intent, facts: RequestFacts) {
    && facts.transport == CoreHttp && facts.endpoint == intent.uploadUrl && facts.verb == POST
    && facts.principal == intent.principal && facts.replay == NoReplay
    && facts.byteLength != [] && 49 <= facts.byteLength[0] <= 57
    && (forall i :: 0 <= i < |facts.byteLength| ==> 48 <= facts.byteLength[i] <= 57)
    && IsHexText(facts.bodyDigest)
    && |facts.headers| == 2 && facts.headers[0] == (ACCEPT, ACCEPTED)
    && facts.headers[1].0 == CONTENT_TYPE_NAME && IsFormType(facts.headers[1].1)
  }

  function BoundaryIn(facts: RequestFacts): (boundary: Bytes)
    requires |facts.headers| == 2 && IsFormType(facts.headers[1].1)
    ensures facts.headers[1].1 == FORM_DATA + AsText(boundary)
  {
    FormUnits(facts.headers[1].1);
    AsBytes(facts.headers[1].1[|FORM_DATA|..])
  }

  lemma FormUnits(t: Text)
    requires IsFormType(t)
    ensures |t| == |FORM_DATA| + 68 && t == FORM_DATA + t[|FORM_DATA|..]
    ensures forall i :: 0 <= i < |t[|FORM_DATA|..]| ==> t[|FORM_DATA|..][i] < 256
  {
    var rest, front := t[|FORM_DATA|..], FORM_DATA + AsText(TSR);
    assert t == front + t[|front|..] && |front| == |FORM_DATA| + 4;
    forall i | 0 <= i < |rest| ensures rest[i] < 256 {
      if i >= 4 {
        assert rest[i] == t[|FORM_DATA| + 4..][i - 4];
      } else {
        assert rest[i] == AsText(TSR)[i];
      }
    }
  }

  /** Is the request one that uploads this intent's distribution? */
  ghost predicate Uploads(
    digest: Digest, inspect: (Intent, Bytes) -> Option<Inspected>, readScope: Text -> Option<Intent>, facts: RequestFacts,
    body: Bytes, intent: Intent, content: Bytes, boundary: Bytes)
  {
    && readScope(facts.scope) == Some(intent) && |body| <= MAX_BODY
    && facts == RequestFor(digest, intent, facts.scope, boundary, body)
    && Builds(digest, inspect, intent, content, boundary, body)
  }

  /** `ownsRequest`: within the bound, exactly the requests that upload a body built for the intent of their scope. */
  method OwnsRequest(
      digest: Digest, inspect: (Intent, Bytes) -> Option<Inspected>, readScope: Text -> Option<Intent>, facts: RequestFacts,
      body: Bytes)
    returns (owns: bool)
    requires HexDigest(digest) && (readScope(facts.scope).Some? ==> IsHexDigest(readScope(facts.scope).value.sha256))
    requires readScope(facts.scope).Some? && |body| <= MAX_BODY ==>
      forall boundary :: ContentIn(readScope(facts.scope).value, boundary, body).Some? ==>
        Searchable(digest, inspect, readScope(facts.scope).value, ContentIn(readScope(facts.scope).value, boundary, body).value)
    ensures owns <==>
      exists intent, content, boundary :: Uploads(digest, inspect, readScope, facts, body, intent, content, boundary)
  {
    hide Searchable, IsBoundary, OwnsFacts, RequestFor, Admit, IsFormType, Digits, BodyOf, ContentIn;
    var intent := readScope(facts.scope);
    if intent.Some? {
      forall content, boundary | Uploads(digest, inspect, readScope, facts, body, intent.value, content, boundary)
        ensures OwnsFacts(intent.value, facts) && facts.byteLength == Digits(|body|) && facts.bodyDigest == AsText(digest(body))
        ensures |facts.headers| == 2 && facts.headers[1].1 == FORM_DATA + AsText(boundary)
      {
        BuiltFacts(digest, inspect, intent.value, facts, content, boundary, body);
      }
    }
    if |body| > MAX_BODY || intent.None? || !OwnsFacts(intent.value, facts) || facts.byteLength != Digits(|body|)
       || facts.bodyDigest != AsText(digest(body))
    {
      return false;
    }
    OwnedHeaders(intent.value, facts);
    var boundary := BoundaryIn(facts);
    owns := OwnsBody(digest, inspect, intent.value, boundary, body);
    FactsAreThese(digest, intent.value, facts, boundary, body);
    forall content, other | Uploads(digest, inspect, readScope, facts, body, intent.value, content, other) ensures other == boundary {
      SameBoundaryText(boundary, other);
    }
    if owns {
      ghost var content :| Builds(digest, inspect, intent.value, content, boundary, body);
      assert Uploads(digest, inspect, readScope, facts, body, intent.value, content, boundary);
    }
  }

  lemma SameBoundaryText(a: Bytes, b: Bytes)
    requires FORM_DATA + AsText(a) == FORM_DATA + AsText(b)
    ensures a == b
  {
    assert AsText(a) == (FORM_DATA + AsText(a))[|FORM_DATA|..] == (FORM_DATA + AsText(b))[|FORM_DATA|..] == AsText(b);
    assert forall i :: 0 <= i < |a| ==> a[i] == AsText(a)[i] && b[i] == AsText(b)[i];
  }

  lemma OwnedHeaders(intent: Intent, facts: RequestFacts)
    requires OwnsFacts(intent, facts)
    ensures |facts.headers| == 2 && IsFormType(facts.headers[1].1)
  {
  }

  lemma FactsAreThese(digest: Digest, intent: Intent, facts: RequestFacts, boundary: Bytes, body: Bytes)
    requires OwnsFacts(intent, facts) && facts.byteLength == Digits(|body|) && facts.bodyDigest == AsText(digest(body))
    requires facts.headers[1].1 == FORM_DATA + AsText(boundary)
    ensures facts == RequestFor(digest, intent, facts.scope, boundary, body)
  {
    hide Digits;
    assert facts.headers == [facts.headers[0], facts.headers[1]];
  }

  lemma BuiltFacts(
      digest: Digest, inspect: (Intent, Bytes) -> Option<Inspected>, intent: Intent, facts: RequestFacts, content: Bytes,
      boundary: Bytes, body: Bytes)
    requires HexDigest(digest) && IsHexDigest(intent.sha256)
    requires facts == RequestFor(digest, intent, facts.scope, boundary, body)
    requires Builds(digest, inspect, intent, content, boundary, body)
    ensures OwnsFacts(intent, facts) && facts.byteLength == Digits(|body|) && facts.bodyDigest == AsText(digest(body))
    ensures |facts.headers| == 2 && facts.headers[1].1 == FORM_DATA + AsText(boundary)
  {
    hide Candidate, Includes, Admit, BodyOf, Digits, IsFormType, OwnsFacts, IsHexText, RequestFor;
    var values := content + FieldValues(Admit(digest, inspect, intent, content).value.fields);
    var k: nat :| FirstMissing(digest, intent.sha256, values, k) && boundary == Candidate(digest, intent.sha256, k);
    BoundaryIsForm(digest, intent.sha256, k);
    BodyNotEmpty(intent, Admit(digest, inspect, intent, content).value, boundary, content);
    CountDigits(|body|);
    HexText(digest(body));
    OwnedWhen(digest, intent, facts, boundary, body);
  }

  lemma OwnedWhen(digest: Digest, intent: Intent, facts: RequestFacts, boundary: Bytes, body: Bytes)
    requires facts == RequestFor(digest, intent, facts.scope, boundary, body)
    requires IsFormType(FORM_DATA + AsText(boundary)) && IsHexText(AsText(digest(body)))
    requires var n := Digits(|body|);
      n != [] && 49 <= n[0] <= 57 && forall i :: 0 <= i < |n| ==> 48 <= n[i] <= 57
    ensures OwnsFacts(intent, facts) && facts.byteLength == Digits(|body|) && facts.bodyDigest == AsText(digest(body))
    ensures |facts.headers| == 2 && facts.headers[1].1 == FORM_DATA + AsText(boundary)
  {
    hide Digits, IsFormType, IsHexText;
  }

  lemma HexText(h: Bytes)
    requires IsHexDigest(h)
    ensures IsHexText(AsText(h))
  {
  }

  lemma BodyNotEmpty(intent: Intent, inspected: Inspected, boundary: Bytes, content: Bytes)
    ensures |BodyOf(intent, inspected, boundary, content)| > 0
  {
  }

  lemma {:induction false} CountDigits(n: nat)
    requires n > 0
    ensures Digits(n) != [] && 49 <= Digits(n)[0] <= 57 && forall i :: 0 <= i < |Digits(n)| ==> 48 <= Digits(n)[i] <= 57
  {
    if n >= 10 {
      CountDigits(n / 10);
    }
  }

  lemma BoundaryIsForm(digest: Digest, sha256: Bytes, k: nat)
    requires HexDigest(digest) && IsHexDigest(sha256)
    ensures IsFormType(FORM_DATA + AsText(Candidate(digest, sha256, k)))
  {
    var c := Candidate(digest, sha256, k);
    var h := c[4..];
    assert IsHexDigest(h) && c == TSR + h;
    Announced(FORM_DATA, TSR, h);
    HexText(h);
  }

  lemma Announced(front: Text, mark: Bytes, h: Bytes)
    ensures front + AsText(mark) <= front + AsText(mark + h)
    ensures (front + AsText(mark + h))[|front| + |mark|..] == AsText(h)
  {
    assert AsText(mark + h) == AsText(mark) + AsText(h);
    assert front + AsText(mark + h) == front + AsText(mark) + AsText(h);
  }
}
