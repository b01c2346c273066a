/** The fixed-width integers of the program and the saturating operations it uses on them. */
module MachineInts {

  const I32_MIN: int := -0x8000_0000
  const I32_MAX: int := 0x7FFF_FFFF
  const U64_MAX: int := 0xFFFF_FFFF_FFFF_FFFF

  type I32 = x: int | -0x8000_0000 <= x <= 0x7FFF_FFFF
  type U16 = x: int | 0 <= x <= 0xFFFF
  type U64 = x: int | 0 <= x <= 0xFFFF_FFFF_FFFF_FFFF

  function SaturateI32(x: int): I32 {
    if x < I32_MIN then I32_MIN else if x > I32_MAX then I32_MAX else x
  }

  function SatAdd(a: I32, b: I32): I32 {
    SaturateI32(a + b)
  }

  function SatSub(a: I32, b: I32): I32 {
    SaturateI32(a - b)
  }

  // The magnitude of i32::MIN saturates to i32::MAX.
  function SatAbs(a: I32): I32 {
    var n: int := a;
    SaturateI32(if n < 0 then -n else n)
  }

  function SatSubU64(a: U64, b: U64): U64 {
    if a < b then 0 else a - b
  }

  function SatAddU64(a: U64, b: U64): U64 {
    if a + b > U64_MAX then U64_MAX else a + b
  }

  function Clamp(x: int, lo: int, hi: int): int
    requires lo <= hi
  {
    if x < lo then lo else if x > hi then hi else x
  }

  function Min(a: int, b: int): int {
    if a < b then a else b
  }

  // Division that truncates toward zero, as the program's integers do.
  function TruncDiv(a: int, b: int): int
    requires b > 0
  {
    if a >= 0 then a / b else -((-a) / b)
  }
}
