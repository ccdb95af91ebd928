/** Display names as the program compares them: lower case, and against the short form of a hash. */
module Names {

  /** ASCII lower case. */
  function Lower(s: string): string {
    seq(|s|, i requires 0 <= i < |s| => if 'A' <= s[i] <= 'Z' then s[i] - 'A' + 'a' else s[i])
  }

  /** The eight characters a peer is known by until it has a name. */
  function ShortHash(h: string): string {
    if |h| <= 8 then h else h[..8]
  }

  lemma LowerPlain(s: string)
    requires forall i :: 0 <= i < |s| ==> !('A' <= s[i] <= 'Z')
    ensures Lower(s) == s
  {
  }
}
