/** Machine words, their wrapping and saturating arithmetic, and optional values. */
module Words {

  const TWO32: nat := 0x1_0000_0000
  const TWO64: nat := 0x1_0000_0000_0000_0000
  const U64_MAX: nat := 0xFFFF_FFFF_FFFF_FFFF

  type U32 = x: nat | x < 0x1_0000_0000
  type U64 = x: nat | x <= 0xFFFF_FFFF_FFFF_FFFF
  type Byte = x: nat | x < 256

  datatype Option<+T> = None | Some(value: T) {
    function GetOr(default: T): T {
      if Some? then value else default
    }
  }

  function WrapAdd32(a: U32, b: U32): U32 {
    (a + b) % TWO32
  }

  function SatAdd64(a: U64, b: U64): U64 {
    if a + b <= U64_MAX then a + b else U64_MAX
  }

  function SatSub(a: nat, b: nat): nat {
    if a >= b then a - b else 0
  }

  function Min(a: nat, b: nat): nat {
    if a <= b then a else b
  }
}
