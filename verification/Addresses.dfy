/** IP addresses, endpoints and prefix containment, shared by the interception paths. */
module Addresses {
  import opened Bytes
  import opened Arithmetic

  /** An IPv6 address is its four 32-bit words, most significant first. */
  datatype IpAddr = V4(v4: U32) | V6(w0: U32, w1: U32, w2: U32, w3: U32)

  datatype Endpoint = Endpoint(ip: IpAddr, port: U16)

  const LOCALHOST4 := V4(0x7F00_0001)
  const LOCALHOST6 := V6(0, 0, 0, 1)
  const DNS_PORT: U16 := 53

  function Pow2(n: nat): (p: nat)
    ensures p >= 1
  {
    if n == 0 then 1 else 2 * Pow2(n - 1)
  }

  /** a >> n. */
  function Shift(a: nat, n: nat): nat {
    if n == 0 then a else Shift(a / 2, n - 1)
  }

  /** The leading `bits` bits of two 32-bit words agree. */
  predicate LeadAgree(bits: int, a: U32, b: U32) {
    if bits <= 0 then true
    else if bits >= 32 then a == b
    else Shift(a, 32 - bits) == Shift(b, 32 - bits)
  }

  /** An address prefix: only the leading `bits` bits of `base` count. */
  datatype Prefix = Prefix(base: IpAddr, bits: nat)

  /** net.IPNet.Contains and netip.Prefix.Contains, within one family. */
  predicate Covers(p: Prefix, ip: IpAddr) {
    match (p.base, ip)
    case (V4(b), V4(a)) => LeadAgree(p.bits, b, a)
    case (V6(b0, b1, b2, b3), V6(a0, a1, a2, a3)) =>
      && LeadAgree(p.bits, b0, a0)
      && LeadAgree(p.bits - 32, b1, a1)
      && LeadAgree(p.bits - 64, b2, a2)
      && LeadAgree(p.bits - 96, b3, a3)
    case _ => false
  }

  predicate IsMapped4(ip: IpAddr) {
    ip.V6? && ip.w0 == 0 && ip.w1 == 0 && ip.w2 == 0xFFFF
  }

  /** net.IP.To4: IPv4-mapped IPv6 addresses are IPv4 addresses to Go. */
  function To4(ip: IpAddr): Option<U32> {
    if ip.V4? then Some(ip.v4) else if IsMapped4(ip) then Some(ip.w3) else None
  }

  /** net.IP.IsLoopback. */
  predicate IsLoopback(ip: IpAddr) {
    match To4(ip)
    case Some(a) => a / 0x100_0000 == 127
    case None => ip == LOCALHOST6
  }

  /** isPrivateIP of the router: loopback, link-local unicast or multicast, or a private range. */
  predicate IsPrivateIp(ip: IpAddr) {
    || IsLoopback(ip)
    || (match To4(ip)
        case Some(a) =>
          || a / 0x1_0000 == 0xA9FE                             // 169.254.0.0/16
          || a / 0x100 == 0xE0_0000                             // 224.0.0.0/24
          || a / 0x100_0000 == 10
          || (a / 0x100_0000 == 172 && 16 <= a / 0x1_0000 % 0x100 <= 31)
          || (a / 0x100_0000 == 192 && a / 0x1_0000 % 0x100 == 168)
        case None =>
          || ip.w0 / 0x40_0000 == 0x3FA                         // fe80::/10
          || (ip.w0 / 0x100_0000 == 0xFF && ip.w0 / 0x1_0000 % 0x10 == 2)
          || ip.w0 / 0x200_0000 == 0x7E)                        // fc00::/7
  }

  /** 10/8, 127/8, 169.254/16, 172.16/12, 192.168/16 and 224.0.0/24. */
  predicate Local4(a: U32) {
    || 0x0A00_0000 <= a <= 0x0AFF_FFFF || 0x7F00_0000 <= a <= 0x7FFF_FFFF || 0xA9FE_0000 <= a <= 0xA9FE_FFFF
    || 0xAC10_0000 <= a <= 0xAC1F_FFFF || 0xC0A8_0000 <= a <= 0xC0A8_FFFF || 0xE000_0000 <= a <= 0xE000_00FF
  }

  /** A multicast prefix of link-local scope, by its flags: ff02::/16, ff12::/16 and so on. */
  predicate LinkScope(flags: nat, w0: U32) {
    flags < 16 && 0xFF02_0000 + flags * 0x10_0000 <= w0 <= 0xFF02_FFFF + flags * 0x10_0000
  }

  lemma LinkScopes(w0: U32)
    ensures (exists f: nat :: LinkScope(f, w0)) <==> w0 / 0x100_0000 == 0xFF && w0 / 0x1_0000 % 0x10 == 2
  {
    if w0 / 0x100_0000 == 0xFF && w0 / 0x1_0000 % 0x10 == 2 {
      assert LinkScope((w0 - 0xFF02_0000) / 0x10_0000, w0);
    }
  }

  /** The private addresses as ranges; an IPv4-mapped address counts as the IPv4 address. */
  lemma PrivateRanges(ip: IpAddr)
    ensures IsPrivateIp(ip) <==>
              match To4(ip)
              case Some(a) => Local4(a)
              case None =>
                || ip == V6(0, 0, 0, 1)
                || 0xFC00_0000 <= ip.w0 <= 0xFDFF_FFFF
                || 0xFE80_0000 <= ip.w0 <= 0xFEBF_FFFF
                || exists f: nat :: LinkScope(f, ip.w0)
  {
    if To4(ip).None? {
      LinkScopes(ip.w0);
    }
  }

  lemma {:induction false} ShiftIsDiv(a: nat, n: nat)
    ensures Shift(a, n) == a / Pow2(n)
  {
    if n > 0 {
      var p, h := Pow2(n - 1), a / 2;
      ShiftIsDiv(h, n - 1);
      DivMod(h, p);
      MulTwice(h / p, p);
      DivModUnique(a, 2 * p, h / p, 2 * (h % p) + a % 2);
    }
  }

  lemma MulTwice(q: nat, p: nat)
    ensures q * (2 * p) == 2 * (q * p)
  {
  }

  lemma Pow2Values()
    ensures Pow2(16) == 0x1_0000 && Pow2(20) == 0x10_0000 && Pow2(22) == 0x40_0000
    ensures Pow2(24) == 0x100_0000 && Pow2(25) == 0x200_0000 && Pow2(31) == 0x8000_0000 && Pow2(32) == 0x1_0000_0000
  {
    assert Pow2(8) == 0x100;
    assert Pow2(16) == 0x100 * Pow2(8);
    assert Pow2(24) == 0x100 * Pow2(16);
    assert Pow2(32) == 0x100 * Pow2(24);
  }

  /** The shift amounts the address ranges use. */
  lemma ShiftValues(a: nat)
    ensures Shift(a, 0) == a && Shift(a, 16) == a / 0x1_0000 && Shift(a, 20) == a / 0x10_0000
    ensures Shift(a, 22) == a / 0x40_0000
    ensures Shift(a, 24) == a / 0x100_0000 && Shift(a, 25) == a / 0x200_0000 && Shift(a, 31) == a / 0x8000_0000
  {
    Pow2Values();
    ShiftIsDiv(a, 16);
    ShiftIsDiv(a, 20);
    ShiftIsDiv(a, 22);
    ShiftIsDiv(a, 24);
    ShiftIsDiv(a, 25);
    ShiftIsDiv(a, 31);
  }

  // ----- prefixes, bit by bit -----

  /** Bit i of a word, the most significant first. */
  function WordBit(a: U32, i: nat): nat
    requires i < 32
  {
    Shift(a, 31 - i) % 2
  }

  ghost predicate WordsAgree(bits: int, a: U32, b: U32) {
    forall i :: 0 <= i < 32 && i < bits ==> WordBit(a, i) == WordBit(b, i)
  }

  lemma {:induction false} ShiftOnce(a: nat, n: nat)
    ensures Shift(a, n + 1) == Shift(a, n) / 2
  {
    if n > 0 {
      ShiftOnce(a / 2, n - 1);
    }
  }

  lemma {:induction false} LeadByBit(bits: int, a: U32, b: U32)
    ensures LeadAgree(bits, a, b) <==> WordsAgree(bits, a, b)
    decreases if bits <= 0 then 0 else if bits > 32 then 33 else bits
  {
    if bits > 32 {
      LeadByBit(32, a, b);
      assert WordsAgree(32, a, b) <==> WordsAgree(bits, a, b);
    } else if bits > 0 {
      LeadByBit(bits - 1, a, b);
      LeadOneMore(bits, a, b);
    }
  }

  lemma LeadOneMore(bits: nat, a: U32, b: U32)
    requires 0 < bits <= 32
    ensures LeadAgree(bits, a, b) <==> LeadAgree(bits - 1, a, b) && WordBit(a, bits - 1) == WordBit(b, bits - 1)
    ensures WordsAgree(bits, a, b) <==> WordsAgree(bits - 1, a, b) && WordBit(a, bits - 1) == WordBit(b, bits - 1)
  {
    ShiftOnce(a, 32 - bits);
    ShiftOnce(b, 32 - bits);
    if bits == 1 {
      ShiftIsDiv(a, 32);
      ShiftIsDiv(b, 32);
      Pow2Values();
    }
  }

  function Bit(ip: IpAddr, i: nat): nat
    requires i < if ip.V4? then 32 else 128
  {
    if ip.V4? || i < 32 then WordBit(if ip.V4? then ip.v4 else ip.w0, i)
    else if i < 64 then WordBit(ip.w1, i - 32)
    else if i < 96 then WordBit(ip.w2, i - 64)
    else WordBit(ip.w3, i - 96)
  }

  /** A prefix covers exactly the addresses of its family that agree with it in its leading bits, one by one. */
  lemma CoversByBits(p: Prefix, ip: IpAddr)
    ensures Covers(p, ip) <==>
              && p.base.V4? == ip.V4?
              && forall i :: 0 <= i < p.bits && i < (if ip.V4? then 32 else 128) ==> Bit(p.base, i) == Bit(ip, i)
  {
    if p.base.V4? && ip.V4? {
      LeadByBit(p.bits, p.base.v4, ip.v4);
      assert forall i :: 0 <= i < 32 ==> Bit(ip, i) == WordBit(ip.v4, i) && Bit(p.base, i) == WordBit(p.base.v4, i);
    } else if p.base.V6? && ip.V6? {
      LeadByBit(p.bits, p.base.w0, ip.w0);
      LeadByBit(p.bits - 32, p.base.w1, ip.w1);
      LeadByBit(p.bits - 64, p.base.w2, ip.w2);
      LeadByBit(p.bits - 96, p.base.w3, ip.w3);
      BitsOfWords(p.base, ip, p.bits);
    }
  }

  lemma BitsOfWords(x: IpAddr, y: IpAddr, bits: nat)
    requires x.V6? && y.V6?
    ensures (forall i :: 0 <= i < bits && i < 128 ==> Bit(x, i) == Bit(y, i)) <==>
              && WordsAgree(bits, x.w0, y.w0) && WordsAgree(bits - 32, x.w1, y.w1)
              && WordsAgree(bits - 64, x.w2, y.w2) && WordsAgree(bits - 96, x.w3, y.w3)
  {
    if forall i :: 0 <= i < bits && i < 128 ==> Bit(x, i) == Bit(y, i) {
      forall i | 0 <= i < 32
        ensures i < bits ==> WordBit(x.w0, i) == WordBit(y.w0, i)
        ensures i < bits - 32 ==> WordBit(x.w1, i) == WordBit(y.w1, i)
        ensures i < bits - 64 ==> WordBit(x.w2, i) == WordBit(y.w2, i)
        ensures i < bits - 96 ==> WordBit(x.w3, i) == WordBit(y.w3, i)
      {
        assert i < bits ==> Bit(x, i) == Bit(y, i);
        assert i + 32 < bits ==> Bit(x, i + 32) == Bit(y, i + 32);
        assert i + 64 < bits ==> Bit(x, i + 64) == Bit(y, i + 64);
        assert i + 96 < bits ==> Bit(x, i + 96) == Bit(y, i + 96);
      }
    }
  }

  /** The low n bits are zero. */
  predicate Aligned(a: nat, n: nat) {
    n == 0 || (a % 2 == 0 && Aligned(a / 2, n - 1))
  }

  /** A block of an aligned base stays within the power of two the base is below. */
  lemma {:induction false} AlignedBlockFits(a: nat, n: nat, m: nat)
    requires Aligned(a, n) && n <= m && a < Pow2(m)
    ensures a + Pow2(n) <= Pow2(m)
  {
    if n > 0 {
      AlignedBlockFits(a / 2, n - 1, m - 1);
    }
  }

  /** Within its block, an address has the leading bits of the base. */
  lemma {:induction false} AlignedBlockShift(a: nat, n: nat, x: nat)
    requires Aligned(a, n) && x < Pow2(n)
    ensures Shift(a + x, n) == Shift(a, n)
  {
    if n > 0 {
      AlignedBlockShift(a / 2, n - 1, x / 2);
      assert (a + x) / 2 == a / 2 + x / 2;
    }
  }
}
