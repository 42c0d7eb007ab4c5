/** The paths an archive may name: safe, portable, and never twice up to letter case. */
module ArchivePaths {
  import opened Texts
  import opened ReleaseModel
  import opened Utf8
  import opened TreeLayout

  /** Platform text services: fatal UTF-8 decoding, the NFC test and lower-casing. */
  datatype TextServices = TextServices(decode: Bytes -> Option<Text>, nfc: Text -> bool, lower: Text -> Text)

  const MAX_PATH := 1024
  const MAX_ENTRIES := 100_000

  /** A control character, a native separator or a drive separator. */
  predicate Forbidden(u: CodeUnit) {
    u == 92 || u == 58 || u < 32 || u == 127
  }

  predicate SafePath(services: TextServices, path: Text) {
    && path != [] && |path| <= MAX_PATH && services.nfc(path)
    && (forall i :: 0 <= i < |path| ==> !Forbidden(path[i]))
    && (forall i :: 0 <= i < |Split(path)| ==> Split(path)[i] != [] && Split(path)[i] != DOT && Split(path)[i] != DOT_DOT)
  }

  /** A directory may be written with one slash at its end. */
  function PathOf(raw: Text, directory: bool): Text {
    if directory && raw != [] && raw[|raw| - 1] == SLASH then raw[..|raw| - 1] else raw
  }

  function Key(services: TextServices, raw: Text, directory: bool): Text {
    services.lower(PathOf(raw, directory))
  }

  /** `registerArchivePath`. */
  method Register(services: TextServices, seen: set<Text>, raw: Text, directory: bool) returns (r: Result<set<Text>>)
    ensures r.Ok? <==>
      SafePath(services, PathOf(raw, directory)) && Key(services, raw, directory) !in seen && |seen| < MAX_ENTRIES
    ensures r.Ok? ==> r.value == seen + {Key(services, raw, directory)}
  {
    var path := PathOf(raw, directory);
    var key := services.lower(path);
    if path == [] || |path| > MAX_PATH || !services.nfc(path)
       || (exists i :: 0 <= i < |path| && Forbidden(path[i]))
       || (exists i :: 0 <= i < |Split(path)| && (Split(path)[i] == [] || Split(path)[i] == DOT || Split(path)[i] == DOT_DOT))
       || key in seen || |seen| >= MAX_ENTRIES
    {
      return Fail(ArchivePath);
    }
    r := Ok(seen + {key});
  }
}
