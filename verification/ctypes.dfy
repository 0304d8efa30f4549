/** The fixed-width C integer types the telemetry code works with, and the one
    conversion between them whose wrap-around matters. */
module CTypes {

  /** `unsigned int` on every platform the code builds for. */
  type uint32 = x: int | 0 <= x < 0x1_0000_0000

  /** `int` on every platform the code builds for. */
  type int32 = x: int | -0x8000_0000 <= x < 0x8000_0000

  /** `UINT_MAX`, the resolver's "no such device" sentinel. */
  const UINT_MAX: uint32 := 0xFFFF_FFFF

  /** The C cast `(int)u` of an `unsigned int`: the two's-complement
      reinterpretation GCC and MSVC define, so values of 2^31 and above wrap
      to negative numbers. */
  function ToInt(u: uint32): (i: int32)
    ensures (i - u) % 0x1_0000_0000 == 0
    ensures u < 0x8000_0000 ==> i == u
    ensures i < 0 <==> u >= 0x8000_0000
  {
    if u < 0x8000_0000 then u else u - 0x1_0000_0000
  }
}
