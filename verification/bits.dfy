/**
 * Bytes as the firmware sees them: `uint8_t` counters and 8-bit port words,
 * and the `bitfield` packer that turns eight truth values into one port word.
 */
module Bits {

  /** An unsigned 8-bit value used as a number (`uint8_t`). */
  type U8 = v: int | 0 <= v < 256

  /** The word with only bit `i` set, bit 0 being the least significant. */
  function Mask(i: nat): bv8
    requires i < 8
  {
    [0x01, 0x02, 0x04, 0x08, 0x10, 0x20, 0x40, 0x80][i]
  }

  /** Bit `i` of `w`. */
  predicate Bit(w: bv8, i: nat)
    requires i < 8
  {
    w & Mask(i) != 0
  }

  /** `mask` when `v` is non-zero, as in the C idiom `v ? mask : 0`. */
  function Flag(v: U8, mask: bv8): bv8 {
    if v != 0 then mask else 0
  }

  /**
   * Packs eight values, `a` first into the least significant bit: bit i of
   * the result is set exactly when the i-th argument is non-zero.
   */
  function Bitfield(a: U8, b: U8, c: U8, d: U8, e: U8, f: U8, g: U8, h: U8): (r: bv8)
    ensures Bit(r, 0) <==> a != 0
    ensures Bit(r, 1) <==> b != 0
    ensures Bit(r, 2) <==> c != 0
    ensures Bit(r, 3) <==> d != 0
    ensures Bit(r, 4) <==> e != 0
    ensures Bit(r, 5) <==> f != 0
    ensures Bit(r, 6) <==> g != 0
    ensures Bit(r, 7) <==> h != 0
  {
    Flag(a, 0x01) | Flag(b, 0x02) | Flag(c, 0x04) | Flag(d, 0x08) |
    Flag(e, 0x10) | Flag(f, 0x20) | Flag(g, 0x40) | Flag(h, 0x80)
  }

  /** 1 for a set bit, 0 for a clear one. */
  function BitValue(w: bv8, i: nat): U8
    requires i < 8
  {
    if Bit(w, i) then 1 else 0
  }

  /** Every word is the packing of its own bits: `Bitfield` loses nothing. */
  lemma BitfieldOfBits(w: bv8)
    ensures Bitfield(BitValue(w, 0), BitValue(w, 1), BitValue(w, 2), BitValue(w, 3),
                     BitValue(w, 4), BitValue(w, 5), BitValue(w, 6), BitValue(w, 7)) == w
  {
  }

  /** Two packings are equal exactly when the arguments agree on being non-zero. */
  lemma BitfieldTruthOnly(a: U8, b: U8, c: U8, d: U8, e: U8, f: U8, g: U8, h: U8,
                          a': U8, b': U8, c': U8, d': U8, e': U8, f': U8, g': U8, h': U8)
    ensures Bitfield(a, b, c, d, e, f, g, h) == Bitfield(a', b', c', d', e', f', g', h')
        <==> ((a != 0) == (a' != 0) && (b != 0) == (b' != 0) && (c != 0) == (c' != 0)
          && (d != 0) == (d' != 0) && (e != 0) == (e' != 0) && (f != 0) == (f' != 0)
          && (g != 0) == (g' != 0) && (h != 0) == (h' != 0))
  {
  }
}
