/** The fake-IP pool: domains get addresses round-robin from a subnet, and an address leads back to
    its domain until the pool has wrapped past it. */
module FakeIp {
  import opened Bytes
  import opened Addresses
  import opened Arithmetic

  type Domain = seq<Byte>

  datatype Pool = Pool(minIp: U32, maxIp: U32, current: U32, ipToDomain: map<U32, Domain>, domainToIp: map<Domain, U32>)

  /** uint32 arithmetic. */
  function Wrap32(n: int): U32 {
    if 0 <= n < 0x1_0000_0000 then n else n % 0x1_0000_0000
  }

  /** What net.ParseCIDR yields for an IPv4 network. */
  datatype Subnet = Subnet(base: U32, ones: nat)

  predicate Parsed(s: Subnet) {
    s.ones <= 32 && Aligned(s.base, 32 - s.ones)
  }

  function NewPool(s: Subnet): Pool
    requires Parsed(s)
  {
    var total := Wrap32(Pow2(32 - s.ones));
    var minIp := Wrap32(s.base + 2);
    Pool(minIp, Wrap32(Wrap32(s.base + total) - 2), minIp, map[], map[])
  }

  function GetIp(p: Pool, d: Domain): (r: (Pool, U32)) {
    if d in p.domainToIp then (p, p.domainToIp[d])
    else
      var ip := p.current;
      var next := Wrap32(p.current + 1);
      (p.(current := if next > p.maxIp then p.minIp else next,
          domainToIp := p.domainToIp[d := ip],
          ipToDomain := p.ipToDomain[ip := d]), ip)
  }

  /** The empty domain stands for "no entry", as in the code. */
  function GetDomain(p: Pool, ip: U32): Domain {
    if ip in p.ipToDomain then p.ipToDomain[ip] else []
  }

  predicate IsFakeIp(s: Subnet, ip: U32) {
    Covers(Prefix(V4(s.base), s.ones), V4(ip))
  }

  class FakeIPPool {
    const subnet: Subnet
    var minIp: U32
    var maxIp: U32
    var current: U32
    var ipToDomain: map<U32, Domain>
    var domainToIp: map<Domain, U32>

    constructor (s: Subnet)
      requires Parsed(s)
      ensures subnet == s && View() == NewPool(s)
    {
      subnet := s;
      var total := Wrap32(Pow2(32 - s.ones));
      minIp, maxIp, current := Wrap32(s.base + 2), Wrap32(Wrap32(s.base + total) - 2), Wrap32(s.base + 2);
      ipToDomain, domainToIp := map[], map[];
    }

    ghost function View(): Pool
      reads this
    {
      Pool(minIp, maxIp, current, ipToDomain, domainToIp)
    }

    method GetIP(d: Domain) returns (ip: U32)
      modifies this
      ensures (View(), ip) == GetIp(old(View()), d)
    {
      if d in domainToIp { return domainToIp[d]; }
      ip := current;
      current := Wrap32(current + 1);
      if current > maxIp {
        current := minIp;
      }
      domainToIp := domainToIp[d := ip];
      ipToDomain := ipToDomain[ip := d];
    }
  }

  // ----- arithmetic of the subnet -----

  lemma BlockFits(s: Subnet)
    requires Parsed(s)
    ensures s.base + Pow2(32 - s.ones) <= 0x1_0000_0000
  {
    Pow2Values();
    AlignedBlockFits(s.base, 32 - s.ones, 32);
  }

  lemma Pow2AtLeast(n: nat)
    requires n >= 2
    ensures Pow2(n) >= 4
    decreases n
  {
    if n > 2 {
      Pow2AtLeast(n - 1);
    } else {
      assert Pow2(1) == 2;
    }
  }

  function PoolSize(s: Subnet): nat
    requires Parsed(s) && s.ones <= 30
    ensures PoolSize(s) == Pow2(32 - s.ones) - 3 && PoolSize(s) > 0
  {
    Pow2AtLeast(32 - s.ones);
    Pow2(32 - s.ones) - 3
  }

  /** For prefixes up to /30 the bounds are what they read as: nothing overflows. */
  lemma PoolBounds(s: Subnet)
    requires Parsed(s) && s.ones <= 30
    ensures var p := NewPool(s);
            && p.minIp == p.current == s.base + 2
            && p.maxIp == s.base + Pow2(32 - s.ones) - 2
            && p.maxIp - p.minIp + 1 == PoolSize(s)
  {
    Pow2AtLeast(32 - s.ones);
    BlockFits(s);
    BoundsWrap(s.base, Pow2(32 - s.ones));
  }

  /** In the one case where the block size itself wraps to 0, the bound wraps back. */
  lemma BoundsWrap(base: U32, size: nat)
    requires 4 <= size && base + size <= 0x1_0000_0000
    ensures Wrap32(base + 2) == base + 2 && Wrap32(Wrap32(base + Wrap32(size)) - 2) == base + size - 2
  {
  }

  lemma InBlock(s: Subnet, x: nat)
    requires Parsed(s) && x < Pow2(32 - s.ones)
    ensures s.base + x < 0x1_0000_0000 && IsFakeIp(s, s.base + x)
  {
    BlockFits(s);
    AlignedBlockShift(s.base, 32 - s.ones, x);
  }

  /** The first address handed out lies in the subnet exactly for prefixes up to /30. */
  lemma FirstAddressInSubnet(s: Subnet)
    requires Parsed(s)
    ensures IsFakeIp(s, GetIp(NewPool(s), []).1) <==> s.ones <= 30
  {
    if s.ones <= 30 {
      PoolBounds(s);
      Pow2AtLeast(32 - s.ones);
      InBlock(s, 2);
    } else {
      assert Pow2(0) == 1 && Pow2(1) == 2;
      WrapApart(s.base);
      var first := Wrap32(s.base + 2);
      assert Shift(s.base, 1) == s.base / 2 && Shift(first, 1) == first / 2;
    }
  }

  lemma WrapApart(base: U32)
    ensures Wrap32(base + 2) / 2 != base / 2
  {
    if base + 2 < 0x1_0000_0000 {
      assert (base + 2) / 2 == base / 2 + 1;
    } else {
      assert Wrap32(base + 2) == base + 2 - 0x1_0000_0000;
    }
  }

  // ----- runs -----

  /** The pool after looking up these domains in order. */
  function After(s: Subnet, ds: seq<Domain>): Pool
    requires Parsed(s)
  {
    if ds == [] then NewPool(s) else GetIp(After(s, ds[..|ds| - 1]), ds[|ds| - 1]).0
  }

  /** The distinct domains of a run in order of first appearance. */
  function Distinct(ds: seq<Domain>): (r: seq<Domain>)
    ensures forall d :: d in r <==> d in ds
    ensures forall i, j :: 0 <= i < j < |r| ==> r[i] != r[j]
  {
    if ds == [] then []
    else
      var before, d := Distinct(ds[..|ds| - 1]), ds[|ds| - 1];
      assert ds == ds[..|ds| - 1] + [d];
      if d in before then before else before + [d]
  }

  /** The slot of the k-th allocation, counted the way the pool counts: up by one, back to 0 at n. */
  function Slot(n: nat, k: nat): (r: nat)
    requires n > 0
    ensures r < n
  {
    if k == 0 then 0 else if Slot(n, k - 1) + 1 == n then 0 else Slot(n, k - 1) + 1
  }

  lemma {:induction false} SlotIsRemainder(n: nat, k: nat)
    requires n > 0
    ensures Slot(n, k) == k % n
  {
    if k == 0 {
      DivModUnique(0, n, 0, 0);
    } else {
      SlotIsRemainder(n, k - 1);
      ModStep(k - 1, n);
    }
  }

  lemma SlotsApart(n: nat, i: nat, j: nat)
    requires n > 0 && i <= j < i + n && Slot(n, i) == Slot(n, j)
    ensures i == j
  {
    SlotIsRemainder(n, i);
    SlotIsRemainder(n, j);
    ModApart(i, j, n);
  }

  ghost predicate Bounded(n: nat, p: Pool, count: nat) {
    n > 0 && p.maxIp == p.minIp + n - 1 && p.maxIp < 0xFFFF_FFFF && p.current == p.minIp + Slot(n, count)
  }

  /** Forward entries: the k-th domain has the k-th slot. */
  ghost predicate Forward(n: nat, p: Pool, dom: seq<Domain>)
    requires n > 0
  {
    && (forall d :: d in p.domainToIp <==> d in dom)
    && (forall k :: 0 <= k < |dom| ==> p.domainToIp[dom[k]] == p.minIp + Slot(n, k))
  }

  /** The last n domains are found again from their slots. */
  ghost predicate Window(n: nat, p: Pool, dom: seq<Domain>)
    requires n > 0
  {
    forall k :: 0 <= k < |dom| && k + n >= |dom| ==>
      p.minIp + Slot(n, k) in p.ipToDomain && p.ipToDomain[p.minIp + Slot(n, k)] == dom[k]
  }

  ghost predicate Reverse(p: Pool) {
    forall ip :: ip in p.ipToDomain ==>
      p.minIp <= ip <= p.maxIp && p.ipToDomain[ip] in p.domainToIp && p.domainToIp[p.ipToDomain[ip]] == ip
  }

  lemma BoundedStep(n: nat, p: Pool, count: nat, d: Domain)
    requires Bounded(n, p, count) && d !in p.domainToIp
    ensures Bounded(n, GetIp(p, d).0, count + 1)
  {
    assert Slot(n, count + 1) == if Slot(n, count) + 1 == n then 0 else Slot(n, count) + 1;
  }

  lemma ForwardStep(n: nat, p: Pool, dom: seq<Domain>, d: Domain)
    requires Bounded(n, p, |dom|) && Forward(n, p, dom) && d !in dom
    ensures Forward(n, GetIp(p, d).0, dom + [d])
  {
    var p', dom' := GetIp(p, d).0, dom + [d];
    forall k | 0 <= k < |dom'|
      ensures p'.domainToIp[dom'[k]] == p'.minIp + Slot(n, k)
    {
      if k < |dom| {
        assert dom'[k] == dom[k] && dom[k] in dom;
      }
    }
  }

  lemma WindowStep(n: nat, p: Pool, dom: seq<Domain>, d: Domain)
    requires Bounded(n, p, |dom|) && Window(n, p, dom) && d !in p.domainToIp
    ensures Window(n, GetIp(p, d).0, dom + [d])
  {
    var p', dom' := GetIp(p, d).0, dom + [d];
    forall k | 0 <= k < |dom'| && k + n >= |dom'|
      ensures p.minIp + Slot(n, k) in p'.ipToDomain && p'.ipToDomain[p.minIp + Slot(n, k)] == dom'[k]
    {
      if k < |dom| && Slot(n, k) == Slot(n, |dom|) {
        SlotsApart(n, k, |dom|);
      }
    }
  }

  lemma ReverseStep(n: nat, p: Pool, count: nat, d: Domain)
    requires Bounded(n, p, count) && Reverse(p) && d !in p.domainToIp
    ensures Reverse(GetIp(p, d).0)
  {
  }

  lemma {:induction false} PoolInvAlways(s: Subnet, ds: seq<Domain>)
    requires Parsed(s) && s.ones <= 30
    ensures var n, p, dom := PoolSize(s), After(s, ds), Distinct(ds);
            Bounded(n, p, |dom|) && Forward(n, p, dom) && Window(n, p, dom) && Reverse(p) && p.minIp == s.base + 2
  {
    if ds == [] {
      PoolBounds(s);
      BlockFits(s);
    } else {
      PoolInvAlways(s, ds[..|ds| - 1]);
      var n, p, dom, d := PoolSize(s), After(s, ds[..|ds| - 1]), Distinct(ds[..|ds| - 1]), ds[|ds| - 1];
      if d !in dom {
        BoundedStep(n, p, |dom|, d);
        ForwardStep(n, p, dom, d);
        WindowStep(n, p, dom, d);
        ReverseStep(n, p, |dom|, d);
      }
    }
  }

  /** The latest index below m with the slot of k. */
  lemma {:induction false} LatestSameSlot(k: nat, n: nat, m: nat) returns (j: nat)
    requires n > 0 && k < m
    ensures k <= j < m <= j + n && Slot(n, j) == Slot(n, k)
    decreases m - k
  {
    if k + n < m {
      SlotIsRemainder(n, k);
      SlotIsRemainder(n, k + n);
      ModAddOne(k, n);
      j := LatestSameSlot(k + n, n, m);
    } else {
      j := k;
    }
  }

  lemma LookUpAgain(n: nat, p: Pool, dom: seq<Domain>, k: nat)
    requires n > 0 && Forward(n, p, dom) && k < |dom|
    ensures GetIp(p, dom[k]) == (p, p.minIp + Slot(n, k))
  {
    assert dom[k] in dom;
  }

  lemma LookUpBack(n: nat, p: Pool, dom: seq<Domain>, k: nat)
    requires Bounded(n, p, |dom|) && Window(n, p, dom) && k < |dom|
    requires forall i, j :: 0 <= i < j < |dom| ==> dom[i] != dom[j]
    ensures GetDomain(p, p.minIp + Slot(n, k)) == dom[k] <==> |dom| - 1 - k < n
  {
    var j := LatestSameSlot(k, n, |dom|);
    assert GetDomain(p, p.minIp + Slot(n, j)) == dom[j];
  }

  lemma ForwardAlways(s: Subnet, ds: seq<Domain>)
    requires Parsed(s) && s.ones <= 30
    ensures Forward(PoolSize(s), After(s, ds), Distinct(ds)) && After(s, ds).minIp == s.base + 2
  {
    PoolInvAlways(s, ds);
  }

  lemma WindowAlways(s: Subnet, ds: seq<Domain>)
    requires Parsed(s) && s.ones <= 30
    ensures Bounded(PoolSize(s), After(s, ds), |Distinct(ds)|) && Window(PoolSize(s), After(s, ds), Distinct(ds))
  {
    PoolInvAlways(s, ds);
  }

  lemma SlotInSubnet(s: Subnet, k: nat)
    requires Parsed(s) && s.ones <= 30
    ensures s.base + 2 + Slot(PoolSize(s), k) < 0x1_0000_0000 && IsFakeIp(s, s.base + 2 + Slot(PoolSize(s), k))
  {
    InBlock(s, 2 + Slot(PoolSize(s), k));
  }

  /** In every run, the k-th distinct domain keeps the address min + k mod N, inside the subnet. */
  lemma KthDomainAddress(s: Subnet, ds: seq<Domain>, k: nat)
    requires Parsed(s) && s.ones <= 30 && k < |Distinct(ds)|
    ensures var (p, ip) := GetIp(After(s, ds), Distinct(ds)[k]);
            && p == After(s, ds)
            && ip == s.base + 2 + k % PoolSize(s)
            && IsFakeIp(s, ip)
  {
    SlotInSubnet(s, k);
    SlotIsRemainder(PoolSize(s), k);
    ForwardAlways(s, ds);
    LookUpAgain(PoolSize(s), After(s, ds), Distinct(ds), k);
  }

  lemma ThereAndBack(n: nat, p: Pool, dom: seq<Domain>, k: nat)
    requires Bounded(n, p, |dom|) && Forward(n, p, dom) && Window(n, p, dom) && k < |dom|
    requires forall i, j :: 0 <= i < j < |dom| ==> dom[i] != dom[j]
    ensures var (p', ip) := GetIp(p, dom[k]); GetDomain(p', ip) == dom[k] <==> |dom| - 1 - k < n
  {
    LookUpAgain(n, p, dom, k);
    LookUpBack(n, p, dom, k);
  }

  /** An address leads back to its domain exactly while fewer than N new domains came after it. */
  lemma RoundTripWindow(s: Subnet, ds: seq<Domain>, k: nat)
    requires Parsed(s) && s.ones <= 30 && k < |Distinct(ds)|
    ensures var d := Distinct(ds)[k];
            var (p, ip) := GetIp(After(s, ds), d);
            GetDomain(p, ip) == d <==> |Distinct(ds)| - 1 - k < PoolSize(s)
  {
    ForwardAlways(s, ds);
    WindowAlways(s, ds);
    ThereAndBack(PoolSize(s), After(s, ds), Distinct(ds), k);
  }

  /** Forward and reverse entries agree, in every run. */
  lemma ReverseAgrees(s: Subnet, ds: seq<Domain>)
    requires Parsed(s) && s.ones <= 30
    ensures Reverse(After(s, ds))
    ensures forall ip :: ip in After(s, ds).ipToDomain ==> IsFakeIp(s, ip)
  {
    PoolInvAlways(s, ds);
    RangeInSubnet(s, After(s, ds), |Distinct(ds)|);
  }

  lemma RangeInSubnet(s: Subnet, p: Pool, count: nat)
    requires Parsed(s) && s.ones <= 30 && Bounded(PoolSize(s), p, count) && p.minIp == s.base + 2
    ensures forall ip: U32 :: p.minIp <= ip <= p.maxIp ==> IsFakeIp(s, ip)
  {
    forall ip: U32 | p.minIp <= ip <= p.maxIp
      ensures IsFakeIp(s, ip)
    {
      InBlock(s, ip - s.base);
    }
  }
}
