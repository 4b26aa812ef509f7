/** Arithmetic of unsigned 64-bit machine integers that stops at the ends of their range. */
module Numbers {
  const U64_LIMIT: nat := 0x1_0000_0000_0000_0000

  function SaturatingMul(a: nat, b: nat): nat {
    if a * b < U64_LIMIT then a * b else U64_LIMIT - 1
  }

  function SaturatingSub(a: nat, b: nat): nat {
    if a >= b then a - b else 0
  }

  function Min(a: nat, b: nat): nat {
    if a <= b then a else b
  }

  function Max(a: nat, b: nat): nat {
    if a >= b then a else b
  }
}
