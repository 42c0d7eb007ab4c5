/** Plain JSON data as the release kernel admits it. */
module JsonData {
  import opened Texts

  const MAX_SAFE: int := 0x1F_FFFF_FFFF_FFFF

  /** Number.isSafeInteger on whole numbers. */
  predicate IsSafe(n: int) {
    -MAX_SAFE <= n <= MAX_SAFE
  }

  /** An object keeps its members in the order they were written. */
  datatype Json =
    | Null
    | Bool(b: bool)
    | Number(n: int)
    | String(text: Text)
    | Array(items: seq<Json>)
    | Object(members: seq<(Text, Json)>)
}
