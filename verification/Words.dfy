/** The widths of the machine's integers, and what a conversion to a narrower one does. */
module Words {

  const WORD: int := 0x1_0000_0000_0000_0000   // one past the largest 64-bit unsigned integer
  const HALF_WORD: int := 0x1_0000_0000
  const INT_MAX: int := 0x7FFF_FFFF

  /** A 64-bit unsigned integer cut to a signed 32-bit one. */
  function ToInt(q: nat): int {
    var low := q % HALF_WORD;
    if low <= INT_MAX then low else low - HALF_WORD
  }

  lemma CutIff(q: nat)
    ensures ToInt(q) == q <==> q <= INT_MAX
  {
  }
}
