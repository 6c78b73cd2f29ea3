/** Arithmetic in 64 bits. */
module Words {
  const WORD: int := 0x1_0000_0000_0000_0000

  /** The largest signed number. */
  const MAX_INT: int := 0x7fff_ffff_ffff_ffff

  function Wrap(n: int): (r: nat)
    ensures r < WORD
  {
    n % WORD
  }
}
