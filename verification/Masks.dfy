/** IPv4 prefixes on 64-bit machine integers. */
module Masks {
  const ADDRESSES: bv64 := 0x1_0000_0000

  /** All ones, shifted left. */
  function Mask(bits: bv64): bv64
    requires 1 <= bits <= 32
  {
    0xFFFF_FFFF_FFFF_FFFF << (32 - bits)
  }

  function Size(bits: bv64): bv64
    requires bits <= 32
  {
    1 << (32 - bits)
  }

  /** The addresses from `base` on, as many as the prefix leaves free. */
  predicate InBlock(ip: bv64, base: bv64, bits: bv64)
    requires bits <= 32
  {
    base <= ip && ip - base < Size(bits)
  }

  lemma MasksIntoBlock(ip: bv64, base: bv64, bits: bv64)
    requires ip < ADDRESSES && base < ADDRESSES && 1 <= bits <= 32 && ip & Mask(bits) == base
    ensures InBlock(ip, base, bits)
  {
  }

  lemma BlockMasksToBase(ip: bv64, base: bv64, bits: bv64)
    requires ip < ADDRESSES && base < ADDRESSES && 1 <= bits <= 32 && base & Mask(bits) == base
    requires InBlock(ip, base, bits)
    ensures ip & Mask(bits) == base
  {
  }

  /** For every prefix length from 1 to 32, masking to a base is lying in its block. */
  lemma MaskIsInterval(ip: bv64, base: bv64, bits: bv64)
    requires ip < ADDRESSES && base < ADDRESSES && 1 <= bits <= 32 && base & Mask(bits) == base
    ensures ip & Mask(bits) == base <==> InBlock(ip, base, bits)
  {
    if ip & Mask(bits) == base {
      MasksIntoBlock(ip, base, bits);
    }
    if InBlock(ip, base, bits) {
      BlockMasksToBase(ip, base, bits);
    }
  }

  lemma BaseIsBase(subnet: bv64, bits: bv64)
    requires subnet < ADDRESSES && 1 <= bits <= 32
    ensures subnet & Mask(bits) < ADDRESSES
    ensures (subnet & Mask(bits)) & Mask(bits) == subnet & Mask(bits)
  {
  }

  /** The same for a subnet whose host bits are not clear. */
  lemma MaskTestIsInterval(ip: bv64, subnet: bv64, bits: bv64)
    requires ip < ADDRESSES && subnet < ADDRESSES && 1 <= bits <= 32
    ensures ip & Mask(bits) == subnet & Mask(bits) <==> InBlock(ip, subnet & Mask(bits), bits)
  {
    BaseIsBase(subnet, bits);
    MaskIsInterval(ip, subnet & Mask(bits), bits);
  }

  predicate SameUnderMask(ip: bv64, subnet: bv64, bits: bv64)
    requires 1 <= bits <= 32
  {
    ip & Mask(bits) == subnet & Mask(bits)
  }

  lemma SameUnderMaskIsBlock(ip: bv64, base: bv64, bits: bv64)
    requires ip < ADDRESSES && base < ADDRESSES && 1 <= bits <= 32 && base & Mask(bits) == base
    ensures SameUnderMask(ip, base, bits) <==> InBlock(ip, base, bits)
  {
    MaskIsInterval(ip, base, bits);
  }

  lemma NothingMaskedOff(base: bv64, bits: bv64)
    requires base < ADDRESSES && bits == 32
    ensures base & Mask(bits) == base
  {
  }

  /** Prefix length 0 is everything. */
  lemma WholeSpace(ip: bv64)
    requires ip < ADDRESSES
    ensures InBlock(ip, 0, 0)
  {
  }
}
