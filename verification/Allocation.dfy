/** What AllocateIP promises: sound, lowest first, and failing only when the block is full. */
module Allocation {
  import opened Basics
  import opened Prefixes
  import opened Registry

  /** The addresses automatic allocation may hand out: in the block and above the server. */
  predicate Candidate(p: Prefix, a: Ipv4) {
    ServerIP(p).Some? && ServerIP(p).value < a && Contains(p, a)
  }

  lemma {:induction false} FirstFreeScans(p: Prefix, used: set<Ipv4>, a: Option<Ipv4>)
    requires ServerIP(p).Some? && (a.Some? ==> ServerIP(p).value < a.value)
    ensures match FirstFree(p, used, a)
            case Some(r) =>
              a.Some? && a.value <= r && Candidate(p, r) && r !in used &&
              forall b: Ipv4 :: a.value <= b < r ==> b in used
            case None =>
              forall b: Ipv4 :: a.Some? && a.value <= b && Contains(p, b) ==> b in used
    decreases if a.Some? then TOP - a.value + 1 else 0
  {
    if a.None? {
    } else {
      if !Contains(p, a.value) {
        forall b: Ipv4 | a.value <= b
          ensures !Contains(p, b)
        {
          ContainsIsInterval(p, a.value);
          ContainsIsInterval(p, b);
        }
      } else if a.value in used {
        FirstFreeScans(p, used, Next(a.value));
      }
    }
  }

  /** Automatic allocation gives the lowest free candidate, and fails only when every candidate is taken. */
  lemma AutomaticAllocationExact(t: Table, p: Prefix)
    ensures match Allocate(t, p, 0)
            case Ok(a) =>
              Candidate(p, a) && a !in Used(t.machines) &&
              forall b: Ipv4 :: Candidate(p, b) && b < a ==> b in Used(t.machines)
            case Err(e) =>
              e == NoFreeAddress && forall b: Ipv4 :: Candidate(p, b) ==> b in Used(t.machines)
  {
    if ServerIP(p).Some? {
      FirstFreeScans(p, Used(t.machines), Next(ServerIP(p).value));
    }
  }

  lemma PinnedAddressParts(p: Prefix, desired: int)
    requires 2 <= desired <= 254
    ensures LastOctet(PinnedAddress(p, desired)) == desired && PinnedAddress(p, desired) / 0x100 == p.addr / 0x100
  {
    var q := p.addr / 0x100;
    assert p.addr == q * 0x100 + p.addr % 0x100;
    assert PinnedAddress(p, desired) == q * 0x100 + desired;
  }

  /** Any address handed out is in the block, unused and not the server's; a pin decides its last octet. */
  lemma AllocationSound(t: Table, p: Prefix, desired: int)
    requires Allocate(t, p, desired).Ok?
    ensures var a := Allocate(t, p, desired).value;
            Contains(p, a) && a !in Used(t.machines) && ServerIP(p) != Some(a) &&
            (desired != 0 ==> LastOctet(a) == desired && a / 0x100 == p.addr / 0x100)
  {
    if desired == 0 {
      AutomaticAllocationExact(t, p);
    } else {
      PinnedAddressParts(p, desired);
    }
  }

  /** A pin is honoured exactly when the address it names, in the /24 of the subnet address, is usable and free. */
  lemma PinnedAllocationIff(t: Table, p: Prefix, desired: int, a: Ipv4)
    requires desired != 0
    ensures Allocate(t, p, desired) == Ok(a) <==>
            2 <= desired <= 254 && LastOctet(a) == desired && a / 0x100 == p.addr / 0x100 &&
            Contains(p, a) && ServerIP(p) != Some(a) && a !in Used(t.machines)
  {
    assert a == a / 0x100 * 0x100 + a % 0x100 && p.addr == p.addr / 0x100 * 0x100 + p.addr % 0x100;
  }

  /** Why a pin is refused: by its number, by the address it names, or by who holds that. */
  lemma PinRefusal(t: Table, p: Prefix, desired: int)
    requires desired != 0 && Allocate(t, p, desired).Err?
    ensures var e := Allocate(t, p, desired).error;
            && (e == PinOutOfRange <==> desired < 2 || desired > 254)
            && (e == PinNotUsable <==>
                2 <= desired <= 254 &&
                forall a: Ipv4 :: LastOctet(a) == desired && a / 0x100 == p.addr / 0x100 ==>
                  !Contains(p, a) || ServerIP(p) == Some(a))
            && (e.AddressTaken? <==>
                exists a: Ipv4 :: LastOctet(a) == desired && a / 0x100 == p.addr / 0x100 && Contains(p, a) &&
                                  ServerIP(p) != Some(a) && a in Used(t.machines) && 2 <= desired <= 254)
  {
    if 2 <= desired <= 254 {
      PinnedAddressParts(p, desired);
      forall a: Ipv4 | LastOctet(a) == desired && a / 0x100 == p.addr / 0x100
        ensures a == PinnedAddress(p, desired)
      {
        assert a == a / 0x100 * 0x100 + a % 0x100;
        assert PinnedAddress(p, desired) == p.addr / 0x100 * 0x100 + desired;
      }
    }
  }

  /** The pin names an address of the block that is neither the server's nor held by any machine. */
  ghost predicate PinFree(t: Table, p: Prefix, desired: int) {
    && 2 <= desired <= 254
    && Contains(p, PinnedAddress(p, desired)) && Some(PinnedAddress(p, desired)) != ServerIP(p)
    && forall m :: m in t.machines ==> m.vpnIP != Some(PinnedAddress(p, desired))
  }

  lemma PinFreeIff(t: Table, p: Prefix, desired: int)
    requires desired != 0
    ensures Allocate(t, p, desired).Ok? <==> PinFree(t, p, desired)
    ensures PinFree(t, p, desired) ==>
              Allocate(t, p, desired) == Ok(PinnedAddress(p, desired)) &&
              LastOctet(PinnedAddress(p, desired)) == desired
  {
    if 2 <= desired <= 254 {
      PinnedAddressParts(p, desired);
    }
  }

  /** There is an address to allocate: the pinned one is free, or without a pin some candidate is. */
  ghost predicate AddressFree(t: Table, p: Prefix, desired: int) {
    if desired != 0 then PinFree(t, p, desired)
    else exists a: Ipv4 :: Candidate(p, a) && forall m :: m in t.machines ==> m.vpnIP != Some(a)
  }

  lemma AllocatesIff(t: Table, p: Prefix, desired: int)
    ensures Allocate(t, p, desired).Ok? <==> AddressFree(t, p, desired)
  {
    if desired != 0 {
      PinFreeIff(t, p, desired);
    } else {
      AutomaticAllocationExact(t, p);
      assert forall a: Ipv4 :: a !in Used(t.machines) ==> forall m :: m in t.machines ==> m.vpnIP != Some(a);
      if Allocate(t, p, 0).Ok? {
        assert Candidate(p, Allocate(t, p, 0).value);
      }
    }
  }

  /** Tables with the same addresses in use allocate alike. */
  lemma SameAddressesAllocateAlike(t: Table, t': Table, p: Prefix, desired: int)
    requires Used(t'.machines) == Used(t.machines)
    ensures AddressFree(t', p, desired) <==> AddressFree(t, p, desired)
  {
    AllocatesIff(t, p, desired);
    AllocatesIff(t', p, desired);
    AutomaticAllocationExact(t, p);
    AutomaticAllocationExact(t', p);
  }

  lemma {:induction false} OwnerHolds(ms: seq<Machine>, ip: Ipv4) returns (m: Machine)
    requires ip in Used(ms)
    ensures m in ms && m.vpnIP == Some(ip) && OwnerOf(ms, ip) == JoinKey(m.user, m.name)
  {
    m := ms[|ms| - 1];
    if m.vpnIP != Some(ip) {
      assert ms == ms[..|ms| - 1] + [m];
      m := OwnerHolds(ms[..|ms| - 1], ip);
    }
  }

  /** A usable pin is refused exactly when some machine holds the address, and the refusal names such a machine. */
  lemma TakenPinNamesHolder(t: Table, p: Prefix, desired: int, owner: Bytes)
    requires 2 <= desired <= 254
    requires Contains(p, PinnedAddress(p, desired)) && Some(PinnedAddress(p, desired)) != ServerIP(p)
    ensures Allocate(t, p, desired).Err? <==>
            exists m :: m in t.machines && m.vpnIP == Some(PinnedAddress(p, desired))
    ensures Allocate(t, p, desired) == Err(AddressTaken(owner)) ==>
            exists m ::
              m in t.machines && m.vpnIP == Some(PinnedAddress(p, desired)) && owner == JoinKey(m.user, m.name)
  {
    if Allocate(t, p, desired).Err? {
      var m := OwnerHolds(t.machines, PinnedAddress(p, desired));
    }
  }

  /** How many candidates the block has. */
  function Capacity(p: Prefix): nat {
    if ServerIP(p).Some? && ServerIP(p).value < BlockEnd(p) then BlockEnd(p) - ServerIP(p).value else 0
  }

  /** How many machines hold an address. */
  function Holders(ms: seq<Machine>): nat {
    if ms == [] then 0
    else Holders(ms[..|ms| - 1]) + if ms[|ms| - 1].vpnIP.Some? then 1 else 0
  }

  lemma {:induction false} UsedAtMostHolders(ms: seq<Machine>)
    ensures |Used(ms)| <= Holders(ms)
  {
    if ms == [] {
    } else {
      var front, last := ms[..|ms| - 1], ms[|ms| - 1];
      UsedAtMostHolders(front);
      assert ms == front + [last];
      assert Used(ms) == Used(front) + (if last.vpnIP.Some? then {last.vpnIP.value} else {});
    }
  }

  /** An interval contained in a finite set is no larger than the set. */
  lemma {:induction false} IntervalInSet(lo: int, n: nat, s: set<Ipv4>)
    requires 0 <= lo && lo + n - 1 <= TOP
    requires forall a: Ipv4 :: lo <= a < lo + n ==> a in s
    ensures n <= |s|
    decreases n
  {
    if n == 0 {
    } else {
      var top: Ipv4 := lo + n - 1;
      IntervalInSet(lo, n - 1, s - {top});
    }
  }

  /** Pigeonhole: with fewer address holders than candidates, automatic allocation succeeds. */
  lemma AllocationSucceedsBelowCapacity(t: Table, p: Prefix)
    requires Holders(t.machines) < Capacity(p)
    ensures Allocate(t, p, 0).Ok?
  {
    AutomaticAllocationExact(t, p);
    UsedAtMostHolders(t.machines);
    BlockFits(p);
    if Allocate(t, p, 0).Err? {
      forall a: Ipv4 | ServerIP(p).value < a <= BlockEnd(p)
        ensures a in Used(t.machines)
      {
        ContainsIsInterval(p, a);
        assert Candidate(p, a);
      }
      IntervalInSet(ServerIP(p).value + 1, Capacity(p), Used(t.machines));
    }
  }

  /** Capacity counts exactly the candidates. */
  lemma CandidatesAreAnInterval(p: Prefix, a: Ipv4)
    ensures Candidate(p, a) <==> ServerIP(p).Some? && ServerIP(p).value < a <= ServerIP(p).value + Capacity(p)
  {
    ContainsIsInterval(p, a);
  }
}
