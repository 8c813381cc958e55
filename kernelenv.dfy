/**
 * The arithmetic helpers of the simulated kernel environment: byte swaps,
 * min/max, ALIGN, wrap-safe jiffies comparison, jiffies/millisecond
 * conversion, `fls`, `do_div`, `xchg`, `kzalloc` and `NF_QUEUE_NR`.
 * Unsigned C types are bit-vectors of their width, or `nat` below 2^n with
 * the wrap-around written out.
 */
module KernelEnv {
  import opened Wrappers
  import opened CInt

  // ------------------------------------------------------------------
  // Byte swaps
  // ------------------------------------------------------------------

  /** The bytes of a value, least significant first. */
  function Bytes16(x: bv16): seq<bv16> { [x & 0xff, x >> 8] }
  function Bytes32(x: bv32): seq<bv32> { [x & 0xff, (x >> 8) & 0xff, (x >> 16) & 0xff, x >> 24] }
  function Bytes64(x: bv64): seq<bv64>
  {
    [x & 0xff, (x >> 8) & 0xff, (x >> 16) & 0xff, (x >> 24) & 0xff,
     (x >> 32) & 0xff, (x >> 40) & 0xff, (x >> 48) & 0xff, x >> 56]
  }

  /** `swab16`: the two bytes exchanged. */
  function Swab16(x: bv16): (r: bv16)
    ensures var b := Bytes16(x); Bytes16(r) == [b[1], b[0]]
  {
    ((x & 0x00ff) << 8) | ((x & 0xff00) >> 8)
  }

  /** `swab32`: the four bytes in reverse order. */
  function Swab32(x: bv32): (r: bv32)
    ensures r & 0xff == x >> 24 && (r >> 8) & 0xff == (x >> 16) & 0xff
    ensures (r >> 16) & 0xff == (x >> 8) & 0xff && r >> 24 == x & 0xff
  {
    ((x & 0x0000_00ff) << 24) | ((x & 0x0000_ff00) << 8)
    | ((x & 0x00ff_0000) >> 8) | ((x & 0xff00_0000) >> 24)
  }

  /** `swab64`: the eight bytes in reverse order, byte by byte. */
  function Swab64(x: bv64): (r: bv64)
    ensures r & 0xff == x >> 56 && (r >> 8) & 0xff == (x >> 48) & 0xff
    ensures (r >> 16) & 0xff == (x >> 40) & 0xff && (r >> 24) & 0xff == (x >> 32) & 0xff
    ensures (r >> 32) & 0xff == (x >> 24) & 0xff && (r >> 40) & 0xff == (x >> 16) & 0xff
    ensures (r >> 48) & 0xff == (x >> 8) & 0xff && r >> 56 == x & 0xff
  {
    ((x & 0x0000_0000_0000_00ff) << 56) | ((x & 0x0000_0000_0000_ff00) << 40)
    | ((x & 0x0000_0000_00ff_0000) << 24) | ((x & 0x0000_0000_ff00_0000) << 8)
    | ((x & 0x0000_00ff_0000_0000) >> 8) | ((x & 0x0000_ff00_0000_0000) >> 24)
    | ((x & 0x00ff_0000_0000_0000) >> 40) | ((x & 0xff00_0000_0000_0000) >> 56)
  }

  lemma Swab32Reverses(x: bv32)
    ensures var b := Bytes32(x); Bytes32(Swab32(x)) == [b[3], b[2], b[1], b[0]]
  {
  }

  lemma Swab64Reverses(x: bv64)
    ensures var b := Bytes64(x); Bytes64(Swab64(x)) == [b[7], b[6], b[5], b[4], b[3], b[2], b[1], b[0]]
  {
  }

  lemma SwabTwice(x16: bv16, x32: bv32, x64: bv64)
    ensures Swab16(Swab16(x16)) == x16
    ensures Swab32(Swab32(x32)) == x32
    ensures Swab64(Swab64(x64)) == x64
  {
  }

  // ------------------------------------------------------------------
  // min / max
  // ------------------------------------------------------------------

  /** `min`: the smaller operand. */
  function Min(x: int, y: int): (r: int)
    ensures r <= x && r <= y && (r == x || r == y)
  {
    if x < y then x else y
  }

  /** `max`: the larger operand. */
  function Max(x: int, y: int): (r: int)
    ensures r >= x && r >= y && (r == x || r == y)
  {
    if x > y then x else y
  }

  /** `min_t` for an unsigned type of `m` values: both operands are converted first. */
  function MinT(m: nat, x: int, y: int): (r: nat)
    requires m > 0
    ensures r <= Wrap(x, m) && r <= Wrap(y, m) && (r == Wrap(x, m) || r == Wrap(y, m))
  {
    Min(Wrap(x, m), Wrap(y, m))
  }

  /** `max_t` for an unsigned type of `m` values. */
  function MaxT(m: nat, x: int, y: int): (r: nat)
    requires m > 0
    ensures r >= Wrap(x, m) && r >= Wrap(y, m) && (r == Wrap(x, m) || r == Wrap(y, m))
  {
    Max(Wrap(x, m), Wrap(y, m))
  }

  // ------------------------------------------------------------------
  // Alignment
  // ------------------------------------------------------------------

  /** `ALIGN(x, a)` on `unsigned long`: `x + a - 1` wraps modulo 2^64 and
    * `& ~(a - 1)` clears its bits below the power of two `a`, which is rounding
    * it down to a multiple of `a`. */
  function Align(x: nat, a: nat): nat
    requires x < U64 && 0 < a < U64
  {
    var s := Wrap(x + a - 1, U64);
    s - s % a
  }

  /** A multiple of `a` leaves no remainder. */
  lemma MultipleMod(k: int, a: nat, r: int)
    requires a > 0 && r == k * a
    ensures r % a == 0
  {
    var d := k - r / a;
    assert d * a == r % a;
  }

  /** Unless `x + a - 1` wraps, `ALIGN` gives the least multiple of `a` that is
    * at least `x`. */
  lemma AlignIsLeastMultiple(x: nat, a: nat)
    requires x < U64 && 0 < a < U64 && x + a - 1 < U64
    ensures Align(x, a) % a == 0
    ensures x <= Align(x, a) < x + a
  {
    var s := x + a - 1;
    assert s == (s / a) * a + s % a;
    MultipleMod(s / a, a, s - s % a);
  }

  const NLMSG_ALIGNTO: nat := 4

  /** `NLMSG_ALIGN(len)`: `len` rounded up to a multiple of 4. */
  function NlmsgAlign(len: nat): (r: nat)
    requires len < U64
    ensures len + 3 < U64 ==> r % 4 == 0 && len <= r < len + 4
  {
    if len + 3 < U64 then AlignIsLeastMultiple(len, NLMSG_ALIGNTO); Align(len, NLMSG_ALIGNTO)
    else Align(len, NLMSG_ALIGNTO)
  }

  // ------------------------------------------------------------------
  // Jiffies
  // ------------------------------------------------------------------

  const HZ: nat := 100
  /** `(~0UL >> 1) - 1` */
  const MAX_JIFFY_OFFSET: nat := 0x7fff_ffff_ffff_fffe

  /** `time_after(a, b)`: `(long)b - (long)a < 0`, the subtraction wrapping as
    * a two's-complement machine does. */
  predicate TimeAfter(a: nat, b: nat)
    requires a < U64 && b < U64
  {
    ToInt64(Wrap(ToInt64(b) - ToInt64(a), U64)) < 0
  }

  predicate TimeBefore(a: nat, b: nat) requires a < U64 && b < U64 { TimeAfter(b, a) }

  /** `time_after_eq(a, b)`: `(long)a - (long)b >= 0`. */
  predicate TimeAfterEq(a: nat, b: nat)
    requires a < U64 && b < U64
  {
    ToInt64(Wrap(ToInt64(a) - ToInt64(b), U64)) >= 0
  }

  predicate TimeBeforeEq(a: nat, b: nat) requires a < U64 && b < U64 { TimeAfterEq(b, a) }

  /** The wrap-safe reading: `a` is after `b` iff `a` is reached from `b` by
    * moving forward at least one and at most half the counter range. */
  lemma TimeAfterDistance(a: nat, b: nat)
    requires a < U64 && b < U64
    ensures TimeAfter(a, b) <==> 0 < Wrap(a - b, U64) <= 0x8000_0000_0000_0000
    ensures TimeAfterEq(a, b) <==> Wrap(a - b, U64) < 0x8000_0000_0000_0000
  {
    assert Wrap(ToInt64(b) - ToInt64(a), U64) == Wrap(b - a, U64);
    assert Wrap(ToInt64(a) - ToInt64(b), U64) == Wrap(a - b, U64);
  }

  /** `time_after_eq` is reflexive, `time_after` irreflexive, and both orders
    * agree away from the half-range boundary. */
  lemma TimeOrder(a: nat, b: nat)
    requires a < U64 && b < U64
    ensures TimeAfterEq(a, a) && !TimeAfter(a, a)
    ensures TimeAfter(a, b) && Wrap(a - b, U64) != 0x8000_0000_0000_0000 ==> !TimeAfter(b, a)
    ensures TimeAfter(a, b) ==> TimeAfterEq(a, b) || Wrap(a - b, U64) == 0x8000_0000_0000_0000
  {
    TimeAfterDistance(a, a);
    TimeAfterDistance(a, b);
    TimeAfterDistance(b, a);
  }

  /** `jiffies_to_msecs`: `j * 1000 / HZ` computed in `unsigned long` and
    * returned as `unsigned int`. */
  function JiffiesToMsecs(j: nat): (r: nat)
    requires j < U64
    ensures r < U32
    ensures j * 1000 < U64 ==> r == Wrap(j * 10, U32)
  {
    Wrap(Wrap(j * 1000, U64) / HZ, U32)
  }

  /** The saturation threshold of `msecs_to_jiffies`, as the code computes it. */
  const MSECS_CUTOFF: nat := 4123168584

  lemma CutoffValue()
    ensures JiffiesToMsecs(MAX_JIFFY_OFFSET) == MSECS_CUTOFF
  {
    assert Wrap(MAX_JIFFY_OFFSET * 1000, U64) == 18446744073709549616;
    assert 18446744073709549616 / HZ == 184467440737095496;
    assert Wrap(184467440737095496, U32) == 4123168584;
  }

  /** `msecs_to_jiffies` as written: `m * HZ + 999` is evaluated in
    * `unsigned int` and wraps above 42949662 milliseconds. */
  function MsecsToJiffiesAsWritten(m: nat): nat
    requires m < U32
  {
    if m > JiffiesToMsecs(MAX_JIFFY_OFFSET) then MAX_JIFFY_OFFSET
    else Wrap(m * HZ + 999, U32) / 1000
  }

  /** Fifty million milliseconds come out as 705033 jiffies instead of 5000000. */
  lemma MsecsToJiffiesWraps()
    ensures MsecsToJiffiesAsWritten(50_000_000) == 705033
    ensures MsecsToJiffies(50_000_000) == 5000000
  {
    CutoffValue();
  }

  /** `msecs_to_jiffies` with the rounding evaluated in `unsigned long`, where
    * it cannot wrap for any `unsigned int` argument. The saturation test on
    * `jiffies_to_msecs(MAX_JIFFY_OFFSET)` is kept as the code has it. */
  function MsecsToJiffies(m: nat): (r: nat)
    requires m < U32
    ensures r <= MAX_JIFFY_OFFSET
    ensures m > JiffiesToMsecs(MAX_JIFFY_OFFSET) ==> r == MAX_JIFFY_OFFSET
    ensures m <= JiffiesToMsecs(MAX_JIFFY_OFFSET) ==>
      r * 1000 >= m * HZ && (r == 0 || (r - 1) * 1000 < m * HZ)
  {
    CutoffValue();
    if m > MSECS_CUTOFF then MAX_JIFFY_OFFSET else (m * HZ + 999) / 1000
  }

  /** Above the threshold both versions saturate, so the two differ only
    * where `m * HZ + 999` wraps below it. */
  lemma MsecsToJiffiesSaturate(m: nat)
    requires MSECS_CUTOFF < m < U32
    ensures MsecsToJiffiesAsWritten(m) == MsecsToJiffies(m) == MAX_JIFFY_OFFSET
  {
    CutoffValue();
  }

  /** Below the wrap point both versions agree and round up. */
  lemma MsecsToJiffiesAgree(m: nat)
    requires m * HZ + 999 < U32
    ensures MsecsToJiffiesAsWritten(m) == MsecsToJiffies(m)
  {
    CutoffValue();
  }

  // ------------------------------------------------------------------
  // fls, do_div, NF_QUEUE_NR
  // ------------------------------------------------------------------

  /** `fls`: the 1-based index of the highest set bit, 0 for 0, narrowing the
    * search by 16, 8, 4, 2 and 1 bits in turn. */
  method Fls(x0: bv32) returns (r: nat)
    ensures x0 == 0 ==> r == 0
    ensures x0 != 0 ==> 1 <= r <= 32 && x0 >> (r - 1) == 1
  {
    var x := x0;
    r := 32;
    if x == 0 {
      return 0;
    }
    if x & 0xffff_0000 == 0 {
      x := x << 16;
      r := r - 16;
    }
    if x & 0xff00_0000 == 0 {
      x := x << 8;
      r := r - 8;
    }
    if x & 0xf000_0000 == 0 {
      x := x << 4;
      r := r - 4;
    }
    if x & 0xc000_0000 == 0 {
      x := x << 2;
      r := r - 2;
    }
    if x & 0x8000_0000 == 0 {
      x := x << 1;
      r := r - 1;
    }
  }

  datatype Division = Division(quotient: nat, remainder: nat)

  /** `do_div(n, base)` with a 64-bit `unsigned long`: `n` becomes the quotient
    * and the remainder is the value of the expression; `base` is the value
    * after its conversion to `uint32_t`, and must not be 0. */
  function DoDiv(n: nat, base: nat): (r: Division)
    requires n < U64 && 0 < base < U32
    ensures r.quotient * base + r.remainder == n
    ensures r.remainder < base && r.quotient <= n
  {
    DivisionBounds(n, base);
    Division(n / base, n % base)
  }

  lemma DivisionBounds(n: nat, base: nat)
    requires 0 < base
    ensures (n / base) * base + n % base == n && n / base <= n
  {
    var q := n / base;
    assert q * base + n % base == n;
    MultiplyGrows(q, base);
  }

  lemma {:induction false} MultiplyGrows(q: nat, b: nat)
    requires 1 <= b
    ensures q <= q * b
  {
    if b > 1 {
      MultiplyGrows(q, b - 1);
      assert q * b == q * (b - 1) + q;
    }
  }

  const NF_QUEUE: bv32 := 3

  /** `NF_QUEUE_NR(x)`: queue number `x` in the upper 16 bits, `NF_QUEUE` below. */
  function NfQueueNr(x: bv32): (r: bv32)
    ensures r >> 16 == x & 0xffff && r & 0xffff == NF_QUEUE
  {
    ((x << 16) & 0xffff_0000) | NF_QUEUE
  }

  // ------------------------------------------------------------------
  // xchg and kzalloc
  // ------------------------------------------------------------------

  /** A memory word that `xchg` operates on. */
  class Word {
    var value: int
    constructor (v: int) ensures value == v { value := v; }
  }

  /** `xchg(ptr, v)`: stores `v` and yields the previous contents. */
  method Xchg(p: Word, v: int) returns (previous: int)
    modifies p
    ensures previous == old(p.value) && p.value == v
  {
    previous := p.value;
    p.value := v;
  }

  /** `kzalloc(size)`: `block` is what the allocator returned (None for NULL),
    * holding whatever bytes it held; a block is cleared before it is returned. */
  method Kzalloc(size: nat, block: Option<array<bv8>>) returns (r: Option<array<bv8>>)
    requires block.Some? ==> block.value.Length == size
    modifies if block.Some? then {block.value} else {}
    ensures r == block
    ensures r.Some? ==> r.value[..] == seq(size, _ => 0)
  {
    r := block;
    if block.None? {
      return;
    }
    var a := block.value;
    var i := 0;
    while i < size
      invariant 0 <= i <= size
      invariant forall k :: 0 <= k < i ==> a[k] == 0
    {
      a[i] := 0;
      i := i + 1;
    }
  }
}
