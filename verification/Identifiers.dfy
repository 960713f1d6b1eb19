/** Version 7 identifiers: 48 bits of milliseconds, the version, 12 random bits, the variant, 62 random bits. */
module Identifiers {

  const MASK_48: bv128 := 0xFFFF_FFFF_FFFF
  const MASK_62: bv128 := 0x3FFF_FFFF_FFFF_FFFF

  function Uuid7(milliseconds: bv128, randomness: bv128): bv128 {
    ((milliseconds & MASK_48) << 80)
    | (0x7 << 76)
    | (((randomness >> 62) & 0xFFF) << 64)
    | (0x2 << 62)
    | (randomness & MASK_62)
  }

  function TimeOf(u: bv128): bv128 { u >> 80 }

  function RandomOf(u: bv128): bv128 { (((u >> 64) & 0xFFF) << 62) | (u & MASK_62) }

  /** Version and variant are those of section 5.7 of RFC 9562, and both inputs are recovered. */
  lemma Layout(milliseconds: bv128, randomness: bv128)
    requires milliseconds <= MASK_48 && randomness < 0x400_0000_0000_0000_0000
    ensures var u := Uuid7(milliseconds, randomness);
      (u >> 76) & 0xF == 0x7 && (u >> 62) & 0x3 == 0x2
      && TimeOf(u) == milliseconds && RandomOf(u) == randomness
  {
  }

  /** Identifiers order by time; equal ones come from equal inputs. */
  lemma Ordered(m: bv128, r: bv128, m': bv128, r': bv128)
    requires m <= MASK_48 && m' <= MASK_48 && r < 0x400_0000_0000_0000_0000 && r' < 0x400_0000_0000_0000_0000
    ensures m < m' ==> Uuid7(m, r) < Uuid7(m', r')
    ensures Uuid7(m, r) == Uuid7(m', r') ==> m == m' && r == r'
  {
    if Uuid7(m, r) == Uuid7(m', r') {
      Layout(m, r);
      Layout(m', r');
    }
  }
}
