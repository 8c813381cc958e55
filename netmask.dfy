/**
 * IPv4 netmasks as the `route` and `ifconfig` commands compute them.
 * Addresses are the 32-bit numbers that dotted quads denote, most
 * significant byte first; in that reading `htonl`/`ntohl` are the
 * identity, and `&`, `~` and the shifts act on the value as written.
 */
module NetMask {
  import opened Wrappers

  /** `inet_atou32`: a dotted quad to its address, or None when the text
    * does not parse. The parser itself is not part of this model. */
  type Aton = string -> Option<bv32>

  /** `maskbits == 32 ? 0xffffffff : ~(0xffffffff >> maskbits)`: the
    * netmask of a prefix of `bits` bits (section 3.1 of RFC 4632), for
    * `bits` from 0 to 32. */
  function PrefixMask(bits: bv32): bv32
  {
    if bits >= 32 then 0xffff_ffff else !(0xffff_ffff >> bits)
  }

  /** Bit `i` of `x`, counting from the most significant: the test
    * `(x << i) & 0x80000000` of the mask loop; no bit past the word. */
  predicate Bit(x: bv32, i: bv32)
  {
    i < 32 && (x << i) & 0x8000_0000 != 0
  }

  /** The first `bits` bits of a prefix mask are set and the rest clear. */
  lemma PrefixMaskBit(bits: bv32, i: bv32)
    requires bits <= 32 && i < 32
    ensures Bit(PrefixMask(bits), i) <==> i < bits
  {
  }

  /** `x` is the netmask of some prefix. */
  ghost predicate Contiguous(x: bv32)
  {
    exists bits: bv32 {:trigger PrefixMask(bits)} :: bits <= 32 && x == PrefixMask(bits)
  }

  /** A network masked with a netmask has no host bits. */
  lemma MaskedHasNoHostBits(network: bv32, netmask: bv32)
    ensures (network & netmask) & !netmask == 0
  {
  }

  /** The number of leading one bits of `x` from bit `k` on. */
  function LeadingOnes(x: bv32, k: bv32): (r: bv32)
    requires k <= 32
    ensures k <= r <= 32
    decreases 32 - k
  {
    if k < 32 && Bit(x, k) then LeadingOnes(x, k + 1) else k
  }

  /** The count stops at a clear bit, or at the end of the word. */
  lemma {:induction false} LeadingOnesStop(x: bv32, k: bv32)
    requires k <= 32
    ensures LeadingOnes(x, k) < 32 ==> !Bit(x, LeadingOnes(x, k))
    decreases 32 - k
  {
    if k < 32 && Bit(x, k) {
      LeadingOnesStop(x, k + 1);
    }
  }

  /** A prefix mask has as many leading ones as its prefix has bits. */
  lemma {:induction false} LeadingOnesOfPrefix(bits: bv32, k: bv32)
    requires k <= bits <= 32
    ensures LeadingOnes(PrefixMask(bits), k) == bits
    decreases 32 - k
  {
    if k < bits {
      PrefixMaskBit(bits, k);
      LeadingOnesOfPrefix(bits, k + 1);
    } else if k < 32 {
      PrefixMaskBit(bits, k);
    }
  }

  /** The mask of the leading ones of `x` keeps only bits that `x` has:
    * a mask with a gap is cut at the gap. */
  lemma LeadingMaskWithin(x: bv32)
    ensures PrefixMask(LeadingOnes(x, 0)) & x == PrefixMask(LeadingOnes(x, 0))
  {
    WithinFrom(x, 0);
  }

  /** From a prefix of `k` bits that `x` has, on to all its leading ones. */
  lemma {:induction false} WithinFrom(x: bv32, k: bv32)
    requires k <= 32 && PrefixMask(k) & x == PrefixMask(k)
    ensures PrefixMask(LeadingOnes(x, k)) & x == PrefixMask(LeadingOnes(x, k))
    decreases 32 - k, 1
  {
    if k < 32 && Bit(x, k) {
      WithinStep(x, k);
    }
  }

  /** One more leading one of `x`, then the rest. */
  lemma {:induction false} WithinStep(x: bv32, k: bv32)
    requires k < 32 && PrefixMask(k) & x == PrefixMask(k) && Bit(x, k)
    ensures PrefixMask(LeadingOnes(x, k)) & x == PrefixMask(LeadingOnes(x, k))
    decreases 32 - k, 0
  {
    OneMoreBit(x, k);
    var n := LeadingOnes(x, k + 1);
    assert LeadingOnes(x, k) == n;
    WithinFrom(x, k + 1);
  }

  /** Adding bit `k` to the mask of the `k` bits before it. */
  lemma OneMoreBit(x: bv32, k: bv32)
    requires k < 32 && PrefixMask(k) & x == PrefixMask(k) && Bit(x, k)
    ensures PrefixMask(k + 1) & x == PrefixMask(k + 1)
  {
  }

  /** The leading-ones count gives `x` back exactly when `x` is the mask
    * of a prefix. */
  lemma LeadingMaskExact(x: bv32)
    ensures PrefixMask(LeadingOnes(x, 0)) == x <==> Contiguous(x)
  {
    var n := LeadingOnes(x, 0);
    if Contiguous(x) {
      var bits: bv32 :| bits <= 32 && x == PrefixMask(bits);
      LeadingOnesOfPrefix(bits, 0);
    }
    if PrefixMask(n) == x {
      assert x == PrefixMask(n);
    }
  }
}
