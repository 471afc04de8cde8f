/**
 CIDR prefixes as Go's netip.Prefix treats them: the address part is kept as
 written, containment compares the leading bits (section 3.1 of RFC 4632).
 */
module Prefixes {
  import opened Basics

  type Bits = b: int | 0 <= b <= 32

  datatype Prefix = Prefix(addr: Ipv4, bits: Bits)

  const TOP: Ipv4 := 0xffff_ffff

  function Pow2(n: nat): (r: nat)
    ensures r > 0
  {
    if n == 0 then 1 else 2 * Pow2(n - 1)
  }

  /** Number of addresses in the block. */
  function BlockSize(p: Prefix): (n: nat)
    ensures n > 0
  {
    Pow2(32 - p.bits)
  }

  /** The leading `bits` bits agree. */
  predicate Contains(p: Prefix, a: Ipv4) {
    a / BlockSize(p) == p.addr / BlockSize(p)
  }

  /** Addr.Next: past the last address there is none. */
  function Next(a: Ipv4): Option<Ipv4> {
    if a == TOP then None else Some(a + 1)
  }

  /** The server sits right after the address written in the subnet. */
  function ServerIP(p: Prefix): Option<Ipv4> {
    Next(p.addr)
  }

  function LastOctet(a: Ipv4): int {
    a % 0x100
  }

  lemma MulMono(x: nat, y: nat, z: nat)
    requires x <= y
    ensures x * z <= y * z
  {
  }

  lemma QuotientInterval(a: nat, size: nat, q: nat)
    requires size > 0
    ensures a / size == q <==> q * size <= a < q * size + size
  {
    var k := a / size;
    assert a == k * size + a % size;
    if k < q {
      MulMono(k + 1, q, size);
    } else if q < k {
      MulMono(q + 1, k, size);
    }
  }

  lemma RemainderAtMost(a: nat, size: nat)
    requires size > 0
    ensures 0 <= a % size <= a
  {
    if a < size {
      QuotientInterval(a, size, 0);
    }
  }

  /** Lowest and highest number of the block. */
  function BlockStart(p: Prefix): (lo: nat)
    ensures lo <= p.addr
  {
    RemainderAtMost(p.addr, BlockSize(p));
    p.addr - p.addr % BlockSize(p)
  }

  function BlockEnd(p: Prefix): int {
    BlockStart(p) + BlockSize(p) - 1
  }

  lemma SameQuotientIffInterval(a: nat, b: nat, size: nat)
    requires size > 0
    ensures a / size == b / size <==> b - b % size <= a < b - b % size + size
  {
    assert b == b / size * size + b % size;
    QuotientInterval(a, size, b / size);
  }

  /** Containment is an interval. */
  lemma ContainsIsInterval(p: Prefix, a: Ipv4)
    ensures Contains(p, a) <==> BlockStart(p) <= a <= BlockEnd(p)
  {
    SameQuotientIffInterval(a, p.addr, BlockSize(p));
  }

  lemma LastBlockFits(q: nat, blocks: nat, size: nat)
    requires q * size < blocks * size
    ensures q * size + size <= blocks * size
  {
    if q >= blocks {
      MulMono(blocks, q, size);
    } else {
      MulMono(q + 1, blocks, size);
    }
  }

  lemma BlockOfMultipleFits(a: nat, size: nat, blocks: nat)
    requires size > 0 && a < blocks * size
    ensures a - a % size + size <= blocks * size
  {
    var q := a / size;
    assert a == q * size + a % size;
    LastBlockFits(q, blocks, size);
  }

  lemma {:induction false} Pow2Divides(n: nat, k: nat)
    requires k <= n
    ensures Pow2(n) == Pow2(n - k) * Pow2(k)
  {
    if k == 0 {
    } else {
      Pow2Divides(n, k - 1);
      assert Pow2(n - k + 1) == 2 * Pow2(n - k);
      assert Pow2(n) == (2 * Pow2(n - k)) * Pow2(k - 1) == Pow2(n - k) * (2 * Pow2(k - 1));
    }
  }

  lemma Pow2Of32()
    ensures Pow2(32) == 0x1_0000_0000
  {
    assert Pow2(8) == 0x100;
    Pow2Divides(16, 8);
    Pow2Divides(32, 16);
  }

  /** Every address the block covers is an IPv4 address. */
  lemma BlockFits(p: Prefix)
    ensures BlockEnd(p) <= TOP
  {
    assert Pow2(p.bits) * BlockSize(p) == 0x1_0000_0000 by {
      Pow2Divides(32, 32 - p.bits);
      Pow2Of32();
    }
    BlockOfMultipleFits(p.addr, BlockSize(p), Pow2(p.bits));
  }
}
