/** Digests as they are written. */
module Digests {
  import opened TextLines

  predicate IsHash(s: string) {
    |s| == 71 && s[..7] == "sha256:" && forall i | 7 <= i < 71 :: '0' <= s[i] <= '9' || 'a' <= s[i] <= 'f'
  }

  lemma {:induction false} HashTrims(s: string)
    requires IsHash(s)
    ensures Trim(s)
  {
    assert s[0] == s[..7][0] == 's' && s[70] != ' ';
    StripEnds(s);
  }

  /** A digest of the given first digit, zeros behind it. */
  function HashFrom(digit: char): (s: string)
    requires '0' <= digit <= '9' || 'a' <= digit <= 'f'
    ensures IsHash(s) && s[7] == digit
  {
    "sha256:" + ([digit] + seq(63, _ => '0'))
  }

  const ZERO_HASH: string := HashFrom('0')
}
