/** The two pieces of arithmetic nvml.c applies to the library's raw answers. */
module NvmlUnits {
  import opened CTypes

  /** `mw / 1000` on `unsigned int`: milliwatts to whole watts, rounding down. */
  function Watts(mw: uint32): (w: uint32)
    ensures w * 1000 <= mw < w * 1000 + 1000
  {
    mw / 1000
  }

  /** `x & 0xFFFF` on an `unsigned int` PCI id: its low 16 bits (the vendor
      id); masking the low bits of a non-negative value is its remainder
      modulo 2^16. */
  function Low16(x: uint32): (r: int)
    ensures 0 <= r < 0x1_0000
    ensures (x - r) % 0x1_0000 == 0
  {
    x % 0x1_0000
  }

  /** `x >> 16` on an `unsigned int` PCI id: its high 16 bits (the device id);
      a logical right shift of a non-negative value is division by 2^16. */
  function High16(x: uint32): (r: int)
    ensures 0 <= r < 0x1_0000
    ensures r * 0x1_0000 <= x < r * 0x1_0000 + 0x1_0000
  {
    x / 0x1_0000
  }

  /** The two halves recombine to the original id, so no bit is lost or
      counted twice. */
  lemma SplitPciId(x: uint32)
    ensures Low16(x) + 0x1_0000 * High16(x) == x
  {
  }
}
