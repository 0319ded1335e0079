/** The cgroup and sockops programs that divert a connection to the proxy, the three maps they share
    with user space, and the lookups that consume those maps. */
module RedirectHooks {
  import opened Bytes
  import opened Addresses

  type Cookie = nat

  datatype Protocol = Tcp | Udp | OtherProtocol

  datatype Family = Inet | Inet6

  function FamilyOf(ip: IpAddr): Family {
    if ip.V4? then Inet else Inet6
  }

  /** config_map and cidr_bypass_map, in local (self-forwarding) mode. */
  datatype Config = Config(proxyPort: U16, bypassMark: U32, cidrs: set<Prefix>)

  const DEFAULT_CIDRS: seq<Prefix> := [
    Prefix(V4(0x7F00_0000), 8),
    Prefix(V4(0x0A00_0000), 8),
    Prefix(V4(0xAC10_0000), 12),
    Prefix(V4(0xC0A8_0000), 16),
    Prefix(V4(0xA9FE_0000), 16)
  ]

  /** struct original_dst as it lies in memory: the address in network order, the port as the
      byte-swapped low half of a little-endian word. */
  datatype OriginalDst = OriginalDst(ip: seq<Byte>, port: U32, family: Family, pid: U32)

  datatype TupleKey = TupleKey(family: Family, clientIp: IpAddr, proxyIp: IpAddr, clientPort: U16, proxyPort: U16)

  datatype UdpKey = UdpKey(srcPort: U16, family: Family)

  datatype Maps = Maps(
    tcpCookie: map<Cookie, OriginalDst>, tcpOrig: map<TupleKey, OriginalDst>, udpOrig: map<UdpKey, OriginalDst>)

  // ----- the decision -----

  predicate IsLocal6(ip: IpAddr)
    requires ip.V6?
  {
    || (ip.w0 == 0 && ip.w1 == 0 && ip.w2 == 0 && ip.w3 == 1)
    || ip.w0 / 0x40_0000 == 0x3FA   // fe80::/10
    || ip.w0 / 0x200_0000 == 0x7E   // fc00::/7
  }

  predicate InCidrs(cidrs: set<Prefix>, ip: IpAddr) {
    exists p :: p in cidrs && Covers(p, ip)
  }

  /** The hooks leave this destination alone. */
  predicate Bypassed(cfg: Config, mark: U32, dst: Endpoint) {
    || mark == cfg.bypassMark
    || dst.port == DNS_PORT
    || (dst.ip.V4? && (dst.ip.v4 / 0x100_0000 == 127 || InCidrs(cfg.cidrs, dst.ip)))
    || (dst.ip.V6? && IsLocal6(dst.ip))
  }

  function ProxyEndpoint(cfg: Config, ip: IpAddr): Endpoint {
    Endpoint(if ip.V4? then LOCALHOST4 else LOCALHOST6, cfg.proxyPort)
  }

  /** The address the kernel connects or sends to once the hook has run. */
  function HookDst(cfg: Config, mark: U32, dst: Endpoint): Endpoint {
    if Bypassed(cfg, mark, dst) then dst else ProxyEndpoint(cfg, dst.ip)
  }

  // ----- saving and restoring the destination -----

  function Swap16(n: U16): U16 {
    n % 0x100 * 0x100 + n / 0x100
  }

  function IpBytes(ip: IpAddr): (bs: seq<Byte>)
    ensures |bs| == 16
  {
    match ip
    case V4(a) => Put32(a) + [0, 0, 0, 0, 0, 0, 0, 0, 0, 0, 0, 0]
    case V6(w0, w1, w2, w3) => Put32(w0) + Put32(w1) + Put32(w2) + Put32(w3)
  }

  function Save(dst: Endpoint, pid: U32): OriginalDst {
    OriginalDst(IpBytes(dst.ip), Swap16(dst.port), FamilyOf(dst.ip), pid)
  }

  /** OriginalDst.ToTCPAddr and ToUDPAddr: the port is read from the first two bytes in memory. */
  function ToAddr(d: OriginalDst): Endpoint
    requires |d.ip| == 16
  {
    Endpoint(
      if d.family == Inet6 then V6(Get32(d.ip, 0), Get32(d.ip, 4), Get32(d.ip, 8), Get32(d.ip, 12))
      else V4(Get32(d.ip, 0)),
      d.port % 0x100 * 0x100 + d.port / 0x100 % 0x100)
  }

  lemma SavedDstRoundTrip(dst: Endpoint, pid: U32)
    ensures ToAddr(Save(dst, pid)) == dst
  {
    match dst.ip
    case V4(a) => Get32Middle([], Put32(a), [0, 0, 0, 0, 0, 0, 0, 0, 0, 0, 0, 0], IpBytes(dst.ip));
    case V6(w0, w1, w2, w3) => SavedWords(w0, w1, w2, w3);
  }

  lemma Get32Middle(a: seq<Byte>, b: seq<Byte>, c: seq<Byte>, all: seq<Byte>)
    requires |b| == 4 && all == a + b + c
    ensures Get32(all, |a|) == Get32(b, 0)
  {
    HoldsMiddle(a, b, c);
    Get32At(all, |a|, b, 0);
  }

  lemma SavedWords(w0: U32, w1: U32, w2: U32, w3: U32)
    ensures var bs := IpBytes(V6(w0, w1, w2, w3));
            Get32(bs, 0) == w0 && Get32(bs, 4) == w1 && Get32(bs, 8) == w2 && Get32(bs, 12) == w3
  {
    var b0, b1, b2, b3 := Put32(w0), Put32(w1), Put32(w2), Put32(w3);
    FourPieces(b0, b1, b2, b3, IpBytes(V6(w0, w1, w2, w3)));
  }

  lemma FourPieces(b0: seq<Byte>, b1: seq<Byte>, b2: seq<Byte>, b3: seq<Byte>, all: seq<Byte>)
    requires |b0| == |b1| == |b2| == |b3| == 4 && all == b0 + b1 + b2 + b3
    ensures Get32(all, 0) == Get32(b0, 0) && Get32(all, 4) == Get32(b1, 0) && Get32(all, 8) == Get32(b2, 0)
    ensures Get32(all, 12) == Get32(b3, 0)
  {
    assert all == [] + b0 + (b1 + b2 + b3) && all == b0 + b1 + (b2 + b3) && all == b0 + b1 + b2 + b3 + [];
    Get32Middle([], b0, b1 + b2 + b3, all);
    Get32Middle(b0, b1, b2 + b3, all);
    Get32Middle(b0 + b1, b2, b3, all);
    Get32Middle(b0 + b1 + b2, b3, [], all);
  }

  // ----- what the programs do to the maps -----

  /** cgroup/connect4 and cgroup/connect6. */
  function ConnectMaps(
    cfg: Config, mark: U32, cookie: Cookie, srcPort: U16, protocol: Protocol, dst: Endpoint, pid: U32,
    m: Maps): Maps
  {
    if Bypassed(cfg, mark, dst) then m
    else match protocol
      case Tcp => m.(tcpCookie := m.tcpCookie[cookie := Save(dst, pid)])
      case Udp => SendMaps(cfg, mark, srcPort, dst, pid, m)
      case OtherProtocol => m
  }

  /** cgroup/sendmsg4 and cgroup/sendmsg6. */
  function SendMaps(cfg: Config, mark: U32, srcPort: U16, dst: Endpoint, pid: U32, m: Maps): Maps {
    if Bypassed(cfg, mark, dst) then m
    else m.(udpOrig := m.udpOrig[UdpKey(srcPort, FamilyOf(dst.ip)) := Save(dst, pid)])
  }

  /** What a connect hook leaves behind, protocol by protocol: a destination that is not bypassed can be read back
      from the one entry it is filed under, and nothing else changes. */
  lemma ConnectSaves(
    cfg: Config, mark: U32, cookie: Cookie, srcPort: U16, protocol: Protocol, dst: Endpoint, pid: U32, m: Maps)
    ensures var m' := ConnectMaps(cfg, mark, cookie, srcPort, protocol, dst, pid, m);
            var key := UdpKey(srcPort, FamilyOf(dst.ip));
            && m'.tcpOrig == m.tcpOrig
            && m'.tcpCookie - {cookie} == m.tcpCookie - {cookie} && m'.udpOrig - {key} == m.udpOrig - {key}
            && (Bypassed(cfg, mark, dst) || protocol == OtherProtocol ==> m' == m)
            && (!Bypassed(cfg, mark, dst) && protocol == Tcp ==>
                  && m'.udpOrig == m.udpOrig && cookie in m'.tcpCookie && SavedAs(m'.tcpCookie[cookie], dst, pid))
            && (!Bypassed(cfg, mark, dst) && protocol == Udp ==>
                  && m'.tcpCookie == m.tcpCookie && key in m'.udpOrig && SavedAs(m'.udpOrig[key], dst, pid))
  {
    SavedDstRoundTrip(dst, pid);
  }

  /** Likewise for an unconnected send. */
  lemma SendSaves(cfg: Config, mark: U32, srcPort: U16, dst: Endpoint, pid: U32, m: Maps)
    ensures var m' := SendMaps(cfg, mark, srcPort, dst, pid, m);
            var key := UdpKey(srcPort, FamilyOf(dst.ip));
            && m'.tcpOrig == m.tcpOrig && m'.tcpCookie == m.tcpCookie && m'.udpOrig - {key} == m.udpOrig - {key}
            && (Bypassed(cfg, mark, dst) ==> m' == m)
            && (!Bypassed(cfg, mark, dst) ==> key in m'.udpOrig && SavedAs(m'.udpOrig[key], dst, pid))
  {
    SavedDstRoundTrip(dst, pid);
  }

  /** The entry reads back as this destination and process. */
  predicate SavedAs(d: OriginalDst, dst: Endpoint, pid: U32) {
    |d.ip| == 16 && ToAddr(d) == dst && d.pid == pid
  }

  function KernelKey(client: Endpoint, peer: Endpoint): TupleKey {
    TupleKey(FamilyOf(client.ip), client.ip, peer.ip, client.port, peer.port)
  }

  /** sockops, on BPF_SOCK_OPS_ACTIVE_ESTABLISHED_CB. */
  function EstablishedMaps(cookie: Cookie, key: TupleKey, m: Maps): Maps {
    if cookie in m.tcpCookie
    then m.(tcpOrig := m.tcpOrig[key := m.tcpCookie[cookie]], tcpCookie := m.tcpCookie - {cookie})
    else m
  }

  /** The key LookupTCPOrigDst builds from the accepted connection's own addresses. */
  function AcceptKey(remote: Endpoint, local: Endpoint): TupleKey {
    match To4(local.ip)
    case Some(l) =>
      TupleKey(Inet, V4(if To4(remote.ip).Some? then To4(remote.ip).value else 0), V4(l), remote.port, local.port)
    case None =>
      TupleKey(Inet6, if remote.ip.V4? then V6(0, 0, 0xFFFF, remote.ip.v4) else remote.ip,
               local.ip, remote.port, local.port)
  }

  /** How a dual-stack listener reports an address: IPv4 peers appear IPv4-mapped. */
  function Mapped(e: Endpoint): Endpoint {
    if e.ip.V4? then e.(ip := V6(0, 0, 0xFFFF, e.ip.v4)) else e
  }

  /** The accepting side finds the key the kernel wrote, whether or not the listener maps addresses. */
  lemma KeysAgree(client: Endpoint, peer: Endpoint)
    requires FamilyOf(client.ip) == FamilyOf(peer.ip) && !IsMapped4(peer.ip)
    ensures AcceptKey(client, peer) == KernelKey(client, peer)
    ensures AcceptKey(Mapped(client), Mapped(peer)) == KernelKey(client, peer)
  {
  }

  /** Addresses of different families, which no connection has: an IPv4 client of an IPv6 listener is IPv4-mapped, an
      IPv6 client of an IPv4 listener is all zeros. */
  lemma MixedKeys(a: U32, b: IpAddr, clientPort: U16, port: U16)
    requires To4(b) == None
    ensures AcceptKey(Endpoint(V4(a), clientPort), Endpoint(b, port)) ==
              TupleKey(Inet6, V6(0, 0, 0xFFFF, a), b, clientPort, port)
    ensures AcceptKey(Endpoint(b, clientPort), Endpoint(V4(a), port)) ==
              TupleKey(Inet, V4(0), V4(a), clientPort, port)
  {
  }

  // ----- the programs themselves -----

  class BpfMaps {
    var tcpCookie: map<Cookie, OriginalDst>
    var tcpOrig: map<TupleKey, OriginalDst>
    var udpOrig: map<UdpKey, OriginalDst>

    constructor ()
      ensures View() == Maps(map[], map[], map[])
    {
      tcpCookie, tcpOrig, udpOrig := map[], map[], map[];
    }

    ghost function View(): Maps
      reads this
    {
      Maps(tcpCookie, tcpOrig, udpOrig)
    }

    /** vproxy_sockops for an actively established connection. */
    method Established(cookie: Cookie, client: Endpoint, peer: Endpoint)
      modifies this
      ensures View() == EstablishedMaps(cookie, KernelKey(client, peer), old(View()))
    {
      if cookie in tcpCookie {
        tcpOrig := tcpOrig[KernelKey(client, peer) := tcpCookie[cookie]];
        tcpCookie := tcpCookie - {cookie};
      }
    }

    /** LookupTCPOrigDst: the entry is deleted as it is read. */
    method LookupTcp(remote: Endpoint, local: Endpoint) returns (dst: Option<OriginalDst>)
      modifies this
      ensures var key := AcceptKey(remote, local);
        && dst == (if key in old(tcpOrig) then Some(old(tcpOrig)[key]) else None)
        && View() == old(View()).(tcpOrig := old(tcpOrig) - {key})
    {
      var key := AcceptKey(remote, local);
      if key in tcpOrig {
        dst := Some(tcpOrig[key]);
        tcpOrig := tcpOrig - {key};
      } else {
        dst := None;
        assert tcpOrig == tcpOrig - {key};
      }
    }

    /** LookupUDPOrigDst. */
    method LookupUdp(src: Endpoint) returns (dst: Option<OriginalDst>)
      modifies this
      ensures var key := UdpKey(src.port, if To4(src.ip).Some? then Inet else Inet6);
        && dst == (if key in old(udpOrig) then Some(old(udpOrig)[key]) else None)
        && View() == old(View()).(udpOrig := old(udpOrig) - {key})
    {
      var key := UdpKey(src.port, if To4(src.ip).Some? then Inet else Inet6);
      if key in udpOrig {
        dst := Some(udpOrig[key]);
        udpOrig := udpOrig - {key};
      } else {
        dst := None;
        assert udpOrig == udpOrig - {key};
      }
    }
  }

  /** struct bpf_sock_addr: the fields a hook reads, and the destination it may rewrite in place. */
  class SockAddr {
    const mark: U32
    const cookie: Cookie
    const srcPort: U16
    const protocol: Protocol
    const pid: U32
    var userIp4: U32
    const userIp6: array<U32>
    var userPort: U16

    constructor (mark: U32, cookie: Cookie, srcPort: U16, protocol: Protocol, pid: U32, dst: Endpoint)
      ensures Valid() && fresh(userIp6)
      ensures this.mark == mark && this.cookie == cookie && this.srcPort == srcPort && this.protocol == protocol
      ensures this.pid == pid
      ensures (if dst.ip.V4? then Dst4() else Dst6()) == dst
    {
      this.mark, this.cookie, this.srcPort, this.protocol, this.pid := mark, cookie, srcPort, protocol, pid;
      userIp4 := if dst.ip.V4? then dst.ip.v4 else 0;
      var words: seq<U32> := if dst.ip.V6? then [dst.ip.w0, dst.ip.w1, dst.ip.w2, dst.ip.w3] else [0, 0, 0, 0];
      userIp6 := new U32[4](i requires 0 <= i < 4 => words[i]);
      userPort := dst.port;
    }

    ghost predicate Valid() {
      userIp6.Length == 4
    }

    ghost function Dst4(): Endpoint
      reads this
    {
      Endpoint(V4(userIp4), userPort)
    }

    ghost function Dst6(): Endpoint
      requires Valid()
      reads this, userIp6
    {
      Endpoint(V6(userIp6[0], userIp6[1], userIp6[2], userIp6[3]), userPort)
    }

    method Sock4Connect(cfg: Config, m: BpfMaps)
      modifies this, m
      ensures m.View() == ConnectMaps(cfg, mark, cookie, srcPort, protocol, old(Dst4()), pid, old(m.View()))
      ensures Dst4() == HookDst(cfg, mark, old(Dst4()))
    {
      if mark == cfg.bypassMark { return; }
      if userIp4 / 0x100_0000 == 127 { return; }
      if userPort == DNS_PORT { return; }
      if exists p | p in cfg.cidrs :: Covers(p, V4(userIp4)) { return; }

      var dst := OriginalDst(Put32(userIp4) + [0, 0, 0, 0, 0, 0, 0, 0, 0, 0, 0, 0], Swap16(userPort), Inet, pid);
      if protocol == Tcp {
        m.tcpCookie := m.tcpCookie[cookie := dst];
      } else if protocol == Udp {
        m.udpOrig := m.udpOrig[UdpKey(srcPort, Inet) := dst];
      }
      userIp4 := 0x7F00_0001;
      userPort := cfg.proxyPort;
    }

    method Sock4Sendmsg(cfg: Config, m: BpfMaps)
      modifies this, m
      ensures m.View() == SendMaps(cfg, mark, srcPort, old(Dst4()), pid, old(m.View()))
      ensures Dst4() == HookDst(cfg, mark, old(Dst4()))
    {
      if mark == cfg.bypassMark { return; }
      if userIp4 / 0x100_0000 == 127 { return; }
      if userPort == DNS_PORT { return; }
      if exists p | p in cfg.cidrs :: Covers(p, V4(userIp4)) { return; }

      var dst := OriginalDst(Put32(userIp4) + [0, 0, 0, 0, 0, 0, 0, 0, 0, 0, 0, 0], Swap16(userPort), Inet, pid);
      m.udpOrig := m.udpOrig[UdpKey(srcPort, Inet) := dst];
      userIp4 := 0x7F00_0001;
      userPort := cfg.proxyPort;
    }

    method Sock6Connect(cfg: Config, m: BpfMaps)
      requires Valid()
      modifies this, userIp6, m
      ensures m.View() == ConnectMaps(cfg, mark, cookie, srcPort, protocol, old(Dst6()), pid, old(m.View()))
      ensures Dst6() == HookDst(cfg, mark, old(Dst6()))
    {
      if mark == cfg.bypassMark { return; }
      if IsLocal6(V6(userIp6[0], userIp6[1], userIp6[2], userIp6[3])) { return; }
      if userPort == DNS_PORT { return; }

      var dst := OriginalDst(
        Put32(userIp6[0]) + Put32(userIp6[1]) + Put32(userIp6[2]) + Put32(userIp6[3]), Swap16(userPort), Inet6, pid);
      if protocol == Tcp {
        m.tcpCookie := m.tcpCookie[cookie := dst];
      } else if protocol == Udp {
        m.udpOrig := m.udpOrig[UdpKey(srcPort, Inet6) := dst];
      }
      userIp6[0], userIp6[1], userIp6[2], userIp6[3] := 0, 0, 0, 1;
      userPort := cfg.proxyPort;
    }

    method Sock6Sendmsg(cfg: Config, m: BpfMaps)
      requires Valid()
      modifies this, userIp6, m
      ensures m.View() == SendMaps(cfg, mark, srcPort, old(Dst6()), pid, old(m.View()))
      ensures Dst6() == HookDst(cfg, mark, old(Dst6()))
    {
      if mark == cfg.bypassMark { return; }
      if IsLocal6(V6(userIp6[0], userIp6[1], userIp6[2], userIp6[3])) { return; }
      if userPort == DNS_PORT { return; }

      var dst := OriginalDst(
        Put32(userIp6[0]) + Put32(userIp6[1]) + Put32(userIp6[2]) + Put32(userIp6[3]), Swap16(userPort), Inet6, pid);
      m.udpOrig := m.udpOrig[UdpKey(srcPort, Inet6) := dst];
      userIp6[0], userIp6[1], userIp6[2], userIp6[3] := 0, 0, 0, 1;
      userPort := cfg.proxyPort;
    }
  }

  /** CIDRManager over cidr_bypass_map. */
  class CidrManager {
    var entries: set<Prefix>

    constructor ()
      ensures entries == {}
    {
      entries := {};
    }

    method Add(p: Prefix)
      modifies this
      ensures entries == old(entries) + {p}
    {
      entries := entries + {p};
    }

    method AddDefaults()
      modifies this
      ensures forall p :: p in entries <==> p in old(entries) || p in DEFAULT_CIDRS
    {
      for i := 0 to |DEFAULT_CIDRS|
        invariant forall p :: p in entries <==> p in old(entries) || p in DEFAULT_CIDRS[..i]
      {
        Add(DEFAULT_CIDRS[i]);
        assert DEFAULT_CIDRS[..i + 1] == DEFAULT_CIDRS[..i] + [DEFAULT_CIDRS[i]];
      }
    }
  }
}
