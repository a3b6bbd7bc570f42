/** Literal encoding of the ASCII AIGER ("aag") format: a literal is twice a
    variable index, plus one when the edge is inverted. */
module Literal {

  /** The gate ID a literal names (`lit/2`). Literals are non-negative, so the
      source's truncating division agrees with Dafny's. */
  function LitId(lit: nat): nat {
    lit / 2
  }

  /** Whether a literal is inverted (`lit%2==1`). */
  predicate LitInv(lit: nat) {
    lit % 2 == 1
  }

  /** `2*id + inv`, as written for output fanins and AIG lines. */
  function EncodeLit(id: nat, inv: bool): (lit: nat)
    ensures LitId(lit) == id && LitInv(lit) == inv
  {
    2 * id + if inv then 1 else 0
  }

  /** Decoding then re-encoding gives back every literal. */
  lemma DecodeEncode(lit: nat)
    ensures EncodeLit(LitId(lit), LitInv(lit)) == lit
  {
  }
}
