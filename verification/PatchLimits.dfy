/** The limits on patches, and the ones every boundary falls back to. */
module PatchLimits {
  /** Limits on number, depth and single texts; those on whole patches and attributes are not
      part of this model. */
  datatype Limits = Limits(maxOperations: int, maxDepth: int, maxEvidence: int, maxTextBytes: int)

  const DEFAULT_LIMITS := Limits(100, 24, 100, 50_000)

  /** The length of a text in UTF-8. */
  function TextBytes(s: string): nat {
    if s == "" then 0
    else
      (if s[0] < 128 as char then 1 else if s[0] < 2048 as char then 2 else if s[0] < 65536 as char then 3 else 4)
      + TextBytes(s[1..])
  }
}
