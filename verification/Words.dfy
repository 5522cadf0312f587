/** Machine integers of the C++ program: the widths at which values wrap, narrow or change sign. */
module Words {

  const TWO_31 := 0x8000_0000
  const TWO_32 := 0x1_0000_0000
  const TWO_63 := 0x8000_0000_0000_0000
  const TWO_64 := 0x1_0000_0000_0000_0000

  type u32 = x: int | 0 <= x < 0x1_0000_0000
  type u64 = x: int | 0 <= x < 0x1_0000_0000_0000_0000

  /** Conversion to `uint64_t`: the value modulo 2^64. */
  function Wrap(x: int): u64 {
    x % TWO_64
  }

  /** Conversion of a `uint64_t` to `long`. */
  function ToLong(x: u64): int {
    if x < TWO_63 then x else x - TWO_64
  }

  /** Conversion of a `size_t` to `int`: its low 32 bits, read as a signed number. */
  function ToInt(x: nat): int {
    var low := x % TWO_32;
    if low < TWO_31 then low else low - TWO_32
  }

  /** The cost a data call of `size` bytes has when it reaches the stage: `size_t` to `int` at
      `LdPreloadedPosix::enforce_request`, then `int` to `uint64_t` at `DataPlaneStage::enforce_request`. */
  function TokenCost(size: nat): u64 {
    Wrap(ToInt(size))
  }

  /** The cost is the sign extension of the low 32 bits of the size ... */
  lemma TokenCostIsSignExtension(size: nat)
    ensures TokenCost(size) % TWO_32 == size % TWO_32
    ensures TokenCost(size) / TWO_32 == if (size / TWO_31) % 2 == 0 then 0 else TWO_32 - 1
  {
    var low := size % TWO_32;
    assert size == TWO_32 * (size / TWO_32) + low;
    assert size / TWO_31 == 2 * (size / TWO_32) + low / TWO_31;
  }

  /** ... and so it is the requested size exactly outside the middle of the 64-bit range. */
  lemma TokenCostExact(size: u64)
    ensures TokenCost(size) == size <==> size < TWO_31 || TWO_64 - TWO_31 <= size
  {
    TokenCostIsSignExtension(size);
  }

  lemma WrapSmall(x: int)
    requires 0 <= x < TWO_64
    ensures Wrap(x) == x
  {
  }

  /** Wrapping after every addition and wrapping once at the end agree. */
  lemma WrapAdd(a: int, b: int)
    ensures Wrap(Wrap(a) + b) == Wrap(a + b)
  {
    var q := a / TWO_64;
    assert a == TWO_64 * q + Wrap(a);
    assert a + b == TWO_64 * q + (Wrap(a) + b);
  }

  /** Accumulating in a `long` is accumulating modulo 2^64 and converting once. */
  lemma LongAdd(total: nat, x: u64)
    ensures ToLong(Wrap(ToLong(Wrap(total)) + x)) == ToLong(Wrap(total + x))
  {
    WrapAdd(total, x);
    WrapAdd(Wrap(total) + x, -TWO_64);
  }
}
