/** sha256 as a symbol: a digest is its preimage, so distinct inputs have distinct digests.
    Empty is the empty string a field holds when nothing was hashed. */
module Digests {
  import opened Prelude

  datatype Digest =
    | Empty
    | OfText(text: string)
    | OfMatches(matches: seq<(string, Option<Digest>)>)
    | OfBinding(claim: string, verifierRef: string, requirement: string, selector: string)
}
