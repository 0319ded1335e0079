/** How packets of the vproxy cgroup fare in the installed chains, compared with the eBPF hooks. */
module PacketWalk {
  import opened Bytes
  import opened Addresses
  import opened RedirectHooks
  import opened NetfilterKernel
  import opened IptablesRules
  import opened IptablesInstalled

  datatype Packet = Packet(proto: Protocol, dst: Endpoint, mark: U32, cgroup: bool)

  /** A chain either hands the packet back, perhaps re-marked, or decides where it goes. */
  datatype Fate = HandedBack(packet: Packet) | SentTo(target: Target)

  type ForeignMatch = (string, Packet) -> bool

  predicate Matches(r: Rule, p: Packet, foreign: ForeignMatch) {
    match r
    case Rule(proto, cgroup, mark, dst, _) =>
      && (proto.Some? ==> proto.value == p.proto)
      && (cgroup ==> p.cgroup)
      && (mark.Some? ==> mark.value == p.mark)
      && (dst.Some? ==> Covers(dst.value, p.dst.ip))
    case ForeignRule(text, _) => foreign(text, p)
  }

  function TargetOf(r: Rule): Target {
    match r
    case Rule(_, _, _, _, target) => target
    case ForeignRule(_, jump) => if jump.Some? then Jump(jump.value) else Return
  }

  /** Walk rules in order, following jumps at most `depth` deep. */
  function Walk(k: Kernel, t: Table, rs: seq<Rule>, p: Packet, foreign: ForeignMatch, depth: nat): Fate
    decreases depth, |rs|
  {
    if rs == [] then HandedBack(p)
    else if !Matches(rs[0], p, foreign) then Walk(k, t, rs[1..], p, foreign, depth)
    else
      match TargetOf(rs[0])
      case Return => HandedBack(p)
      case SetMark(m) => Walk(k, t, rs[1..], p.(mark := m), foreign, depth)
      case Jump(n) =>
        var c := ChainId(FamilyOf(p.dst.ip), t, n);
        if c !in k.chains || depth == 0 then Walk(k, t, rs[1..], p, foreign, depth)
        else
          (match Walk(k, t, k.chains[c], p, foreign, depth - 1)
           case HandedBack(p') => Walk(k, t, rs[1..], p', foreign, depth)
           case SentTo(target) => SentTo(target))
      case target => SentTo(target)
  }

  lemma {:induction false} WalkSkips(
    k: Kernel, t: Table, a: seq<Rule>, b: seq<Rule>, p: Packet, foreign: ForeignMatch, depth: nat)
    requires forall r :: r in a ==> !Matches(r, p, foreign)
    ensures Walk(k, t, a + b, p, foreign, depth) == Walk(k, t, b, p, foreign, depth)
  {
    if a == [] {
      assert a + b == b;
    } else {
      assert (a + b)[1..] == a[1..] + b;
      WalkSkips(k, t, a[1..], b, p, foreign, depth);
    }
  }

  // ----- the skip rules and the hooks agree on what is local -----

  function DefaultCidrs(): set<Prefix> {
    set p | p in DEFAULT_CIDRS
  }

  /** The eBPF configuration with the default bypass list and mark. */
  function DefaultConfig(proxyPort: U16): Config {
    Config(proxyPort, BYPASS_MARK, DefaultCidrs())
  }

  predicate InDefaultCidrs(a: U32) {
    a / 0x100_0000 == 127 || a / 0x100_0000 == 10 || a / 0x10_0000 == 0xAC1 ||
    a / 0x1_0000 == 0xC0A8 || a / 0x1_0000 == 0xA9FE
  }

  lemma DefaultPrefixes(a: U32)
    ensures Covers(DEFAULT_CIDRS[0], V4(a)) <==> a / 0x100_0000 == 127
    ensures Covers(DEFAULT_CIDRS[1], V4(a)) <==> a / 0x100_0000 == 10
    ensures Covers(DEFAULT_CIDRS[2], V4(a)) <==> a / 0x10_0000 == 0xAC1
    ensures Covers(DEFAULT_CIDRS[3], V4(a)) <==> a / 0x1_0000 == 0xC0A8
    ensures Covers(DEFAULT_CIDRS[4], V4(a)) <==> a / 0x1_0000 == 0xA9FE
  {
    ShiftValues(a);
    ShiftValues(0x7F00_0000);
    ShiftValues(0x0A00_0000);
    ShiftValues(0xAC10_0000);
    ShiftValues(0xC0A8_0000);
    ShiftValues(0xA9FE_0000);
  }

  lemma DefaultCidrsByRange(a: U32)
    ensures InCidrs(DefaultCidrs(), V4(a)) <==> InDefaultCidrs(a)
  {
    var ps := DEFAULT_CIDRS;
    DefaultPrefixes(a);
    if InCidrs(DefaultCidrs(), V4(a)) {
      var p :| p in DefaultCidrs() && Covers(p, V4(a));
      var i :| 0 <= i < |ps| && ps[i] == p;
      assert i == 0 || i == 1 || i == 2 || i == 3 || i == 4;
    }
    if InDefaultCidrs(a) {
      var i := if Covers(ps[0], V4(a)) then 0 else if Covers(ps[1], V4(a)) then 1
               else if Covers(ps[2], V4(a)) then 2 else if Covers(ps[3], V4(a)) then 3 else 4;
      assert ps[i] in DefaultCidrs() && Covers(ps[i], V4(a));
    }
  }

  lemma SkipPrefixes6(ip: IpAddr)
    requires ip.V6?
    ensures Covers(Prefix(V6(0, 0, 0, 1), 128), ip) <==> ip == LOCALHOST6
    ensures Covers(Prefix(V6(0xFC00_0000, 0, 0, 0), 7), ip) <==> ip.w0 / 0x200_0000 == 0x7E
    ensures Covers(Prefix(V6(0xFE80_0000, 0, 0, 0), 10), ip) <==> ip.w0 / 0x40_0000 == 0x3FA
  {
    ShiftValues(ip.w0);
    ShiftValues(0xFC00_0000);
    ShiftValues(0xFE80_0000);
  }

  lemma Halves(a: U32)
    ensures var h := a / 0x1_0000; a / 0x100_0000 == h / 0x100 && a / 0x10_0000 == h / 0x10
  {
  }

  lemma Range172(h: U16)
    ensures h / 0x10 == 0xAC1 <==> h / 0x100 == 172 && 16 <= h % 0x100 <= 31
    ensures h == 0xC0A8 <==> h / 0x100 == 192 && h % 0x100 == 168
  {
  }

  /** Every address of the default bypass list is private to the router; the router's only other
      private IPv4 addresses are the link-local multicast ones. */
  lemma BypassListVersusPrivate(a: U32)
    ensures IsPrivateIp(V4(a)) <==> InCidrs(DefaultCidrs(), V4(a)) || a / 0x100 == 0xE0_0000
  {
    DefaultCidrsByRange(a);
    Halves(a);
    Range172(a / 0x1_0000);
  }

  /** What every vproxy chain starts by letting return. */
  predicate Skipped(p: Packet) {
    p.mark == 0xFF || (if p.dst.ip.V4? then InDefaultCidrs(p.dst.ip.v4) else IsLocal6(p.dst.ip))
  }

  lemma WalkOne(k: Kernel, t: Table, r: Rule, rest: seq<Rule>, p: Packet, foreign: ForeignMatch, depth: nat)
    requires TargetOf(r) == Return
    ensures Walk(k, t, [r] + rest, p, foreign, depth) ==
            if Matches(r, p, foreign) then HandedBack(p) else Walk(k, t, rest, p, foreign, depth)
  {
    assert ([r] + rest)[1..] == rest;
  }

  lemma WalkPastSkips(k: Kernel, t: Table, tail: seq<Rule>, p: Packet, foreign: ForeignMatch, depth: nat)
    ensures Walk(k, t, SkipRules(FamilyOf(p.dst.ip)) + tail, p, foreign, depth) ==
            if Skipped(p) then HandedBack(p) else Walk(k, t, tail, p, foreign, depth)
  {
    var rs := SkipRules(FamilyOf(p.dst.ip));
    if p.dst.ip.V4? {
      DefaultPrefixes(p.dst.ip.v4);
      assert rs + tail == [rs[0]] + ([rs[1]] + ([rs[2]] + ([rs[3]] + ([rs[4]] + ([rs[5]] + tail)))));
      WalkOne(k, t, rs[5], tail, p, foreign, depth);
      WalkOne(k, t, rs[4], [rs[5]] + tail, p, foreign, depth);
      WalkOne(k, t, rs[3], [rs[4]] + ([rs[5]] + tail), p, foreign, depth);
      WalkOne(k, t, rs[2], [rs[3]] + ([rs[4]] + ([rs[5]] + tail)), p, foreign, depth);
      WalkOne(k, t, rs[1], [rs[2]] + ([rs[3]] + ([rs[4]] + ([rs[5]] + tail))), p, foreign, depth);
      WalkOne(k, t, rs[0], [rs[1]] + ([rs[2]] + ([rs[3]] + ([rs[4]] + ([rs[5]] + tail)))), p, foreign, depth);
    } else {
      SkipPrefixes6(p.dst.ip);
      assert rs + tail == [rs[0]] + ([rs[1]] + ([rs[2]] + ([rs[3]] + tail)));
      WalkOne(k, t, rs[3], tail, p, foreign, depth);
      WalkOne(k, t, rs[2], [rs[3]] + tail, p, foreign, depth);
      WalkOne(k, t, rs[1], [rs[2]] + ([rs[3]] + tail), p, foreign, depth);
      WalkOne(k, t, rs[0], [rs[1]] + ([rs[2]] + ([rs[3]] + tail)), p, foreign, depth);
    }
  }

  /** The hooks skip exactly what the chains skip, and DNS besides. */
  lemma SkippedIsBypassed(p: Packet, proxyPort: U16)
    ensures Bypassed(DefaultConfig(proxyPort), p.mark, p.dst) <==> Skipped(p) || p.dst.port == 53
  {
    if p.dst.ip.V4? {
      DefaultCidrsByRange(p.dst.ip.v4);
    }
  }

  // ----- the walk through the output chains -----

  lemma {:induction false} StripMember<T>(s: seq<T>, own: T -> bool, x: T)
    requires x in s && !own(x)
    ensures x in Strip(s, own)
  {
    if s[0] != x {
      StripMember(s[1..], own, x);
    }
  }

  /** What any setups leave behind: the built-in chains, and nothing foreign changed. */
  lemma AfterSetups(k: Kernel, runs: seq<SetupRun>)
    requires VproxyFree(k) && BUILTINS <= k.chains.Keys
    ensures Tidy(RunSetups(k, runs)) && BUILTINS <= RunSetups(k, runs).chains.Keys && Foreign(RunSetups(k, runs)) == k
  {
    FreeIsForeign(k);
    SetupsStayTidy(k, runs);
    var dirty := RunSetups(k, runs);
    assert forall d :: d in BUILTINS ==> d in Foreign(dirty).chains;
  }

  /** In a tidy table, an output chain without its hook holds foreign rules and perhaps the UDP hook. */
  lemma WithoutHook(k: Kernel, dirty: Kernel, c: ChainId, hook: Rule, r: Rule)
    requires Tidy(dirty) && Foreign(dirty) == k && c in BUILTINS && c in dirty.chains && IsHook(c, hook)
    requires (c.table == Nat && hook == TCP_HOOK) || c.table == Mangle
    requires r in RemoveFirst(dirty.chains[c], hook)
    ensures c in k.chains && (r in k.chains[c] || (c.table == Nat && r == UDP_HOOK))
  {
    assert ChainTidy(c, dirty.chains[c]);
    RemoveFirstKeeps(dirty.chains[c], hook, r);
    if OwnRule(r) {
      assert IsHook(c, r) && AtMostOnce(dirty.chains[c], r);
    } else {
      StripMember(dirty.chains[c], OwnRule, r);
    }
  }

  /** After a complete local setup, the output chain is the foreign rules and stale hooks, then the hook. */
  lemma OutputEndsInHook(
    k: Kernel, runs: seq<SetupRun>, target: string, c: ChainId, hook: Rule)
    returns (before: seq<Rule>)
    requires VproxyFree(k) && BUILTINS <= k.chains.Keys && c in BUILTINS && IsHook(c, hook)
    requires (c.table == Nat && hook == TCP_HOOK) || c.table == Mangle
    ensures At(RunLines(RunSetups(k, runs), LocalLines(target)).0, c) == Some(before + [hook])
    ensures forall r :: r in before ==> r in k.chains[c] || (c.table == Nat && r == UDP_HOOK)
  {
    var dirty := RunSetups(k, runs);
    AfterSetups(k, runs);
    InstalledAt(dirty, target, c);
    before := RemoveFirst(dirty.chains[c], hook);
    forall r | r in before
      ensures r in k.chains[c] || (c.table == Nat && r == UDP_HOOK)
    {
      WithoutHook(k, dirty, c, hook, r);
    }
  }

  lemma InstalledAt(k: Kernel, target: string, c: ChainId)
    requires BUILTINS <= k.chains.Keys
    ensures At(RunLines(k, LocalLines(target)).0, c) == Installed(At(k, c), c, target, false)
  {
    SetupInstalls(k, target, false);
  }

  lemma WalkThroughHook(
    k: Kernel, t: Table, before: seq<Rule>, hook: Rule, inner: seq<Rule>, p: Packet, foreign: ForeignMatch,
    depth: nat)
    requires depth > 0 && hook.Rule? && hook.target.Jump? && Matches(hook, p, foreign)
    requires forall r :: r in before ==> !Matches(r, p, foreign)
    requires At(k, ChainId(FamilyOf(p.dst.ip), t, hook.target.chain)) == Some(inner)
    ensures Walk(k, t, before + [hook], p, foreign, depth) == Walk(k, t, inner, p, foreign, depth - 1)
  {
    WalkSkips(k, t, before, [hook], p, foreign, depth);
    assert [hook][1..] == [];
  }

  lemma TcpThroughHook(k: Kernel, before: seq<Rule>, target: string, p: Packet, foreign: ForeignMatch, depth: nat)
    requires depth > 0 && p.cgroup && p.proto == Tcp && forall r :: r in before ==> !Matches(r, p, foreign)
    requires At(k, ChainId(FamilyOf(p.dst.ip), Nat, VproxyRedirect)) ==
      Some(SkipRules(FamilyOf(p.dst.ip)) + [Divert(Tcp, RedirectTo(target))])
    ensures Walk(k, Nat, before + [TCP_HOOK], p, foreign, depth) ==
      if Skipped(p) then HandedBack(p) else SentTo(RedirectTo(target))
  {
    var tail := [Divert(Tcp, RedirectTo(target))];
    WalkThroughHook(k, Nat, before, TCP_HOOK, SkipRules(FamilyOf(p.dst.ip)) + tail, p, foreign, depth);
    WalkPastSkips(k, Nat, tail, p, foreign, depth - 1);
  }

  lemma UdpThroughHook(k: Kernel, before: seq<Rule>, p: Packet, foreign: ForeignMatch, depth: nat)
    requires depth > 0 && p.cgroup && p.proto == Udp && forall r :: r in before ==> !Matches(r, p, foreign)
    requires At(k, ChainId(FamilyOf(p.dst.ip), Mangle, VproxyMark)) == Some(SkipRules(FamilyOf(p.dst.ip)) + [MARK_ONE])
    ensures Walk(k, Mangle, before + [MARK_HOOK], p, foreign, depth) ==
      HandedBack(if Skipped(p) then p else p.(mark := 1))
  {
    WalkThroughHook(k, Mangle, before, MARK_HOOK, SkipRules(FamilyOf(p.dst.ip)) + [MARK_ONE], p, foreign, depth);
    WalkPastSkips(k, Mangle, [MARK_ONE], p, foreign, depth - 1);
    assert [MARK_ONE][1..] == [];
  }

  /** After a complete local setup, whatever ran before it, a TCP packet of the cgroup that no foreign
      rule claims is redirected to the proxy exactly when the eBPF hooks would divert its address on any
      port other than 53; in particular, on every other port the two agree. */
  lemma TcpWalkAgreesWithHooks(
    k: Kernel, runs: seq<SetupRun>, target: string, p: Packet, foreign: ForeignMatch, depth: nat,
    proxyPort: U16, port: U16)
    requires VproxyFree(k) && BUILTINS <= k.chains.Keys && depth > 0
    requires p.cgroup && p.proto == Tcp && port != DNS_PORT
    requires forall r :: r in k.chains[ChainId(FamilyOf(p.dst.ip), Nat, Output)] ==> !Matches(r, p, foreign)
    ensures var k' := RunLines(RunSetups(k, runs), SetupLines(target, false)).0;
            var c := ChainId(FamilyOf(p.dst.ip), Nat, Output);
            && c in k'.chains
            && Walk(k', Nat, k'.chains[c], p, foreign, depth) ==
               (if Bypassed(DefaultConfig(proxyPort), p.mark, p.dst.(port := port)) then HandedBack(p)
                else SentTo(RedirectTo(target)))
  {
    var f := FamilyOf(p.dst.ip);
    var k' := RunLines(RunSetups(k, runs), LocalLines(target)).0;
    var before := OutputEndsInHook(k, runs, target, ChainId(f, Nat, Output), TCP_HOOK);
    InnerInstalled(k, runs, target, f);
    TcpThroughHook(k', before, target, p, foreign, depth);
    SkippedIsBypassed(p.(dst := p.dst.(port := port)), proxyPort);
  }

  /** Likewise for UDP in the mangle table, where diverting is marking with 1 for the TPROXY rule. */
  lemma UdpWalkAgreesWithHooks(
    k: Kernel, runs: seq<SetupRun>, target: string, p: Packet, foreign: ForeignMatch, depth: nat,
    proxyPort: U16, port: U16)
    requires VproxyFree(k) && BUILTINS <= k.chains.Keys && depth > 0
    requires p.cgroup && p.proto == Udp && port != DNS_PORT
    requires forall r :: r in k.chains[ChainId(FamilyOf(p.dst.ip), Mangle, Output)] ==> !Matches(r, p, foreign)
    ensures var k' := RunLines(RunSetups(k, runs), SetupLines(target, false)).0;
            var c := ChainId(FamilyOf(p.dst.ip), Mangle, Output);
            && c in k'.chains
            && Walk(k', Mangle, k'.chains[c], p, foreign, depth) ==
               HandedBack(if Bypassed(DefaultConfig(proxyPort), p.mark, p.dst.(port := port)) then p else p.(mark := 1))
  {
    var f := FamilyOf(p.dst.ip);
    var k' := RunLines(RunSetups(k, runs), LocalLines(target)).0;
    var before := OutputEndsInHook(k, runs, target, ChainId(f, Mangle, Output), MARK_HOOK);
    InnerInstalled(k, runs, target, f);
    UdpThroughHook(k', before, p, foreign, depth);
    SkippedIsBypassed(p.(dst := p.dst.(port := port)), proxyPort);
  }

  lemma InnerInstalled(k: Kernel, runs: seq<SetupRun>, target: string, f: Family)
    requires VproxyFree(k) && BUILTINS <= k.chains.Keys
    ensures var k' := RunLines(RunSetups(k, runs), LocalLines(target)).0;
            && At(k', ChainId(f, Nat, VproxyRedirect)) == Some(SkipRules(f) + [Divert(Tcp, RedirectTo(target))])
            && At(k', ChainId(f, Mangle, VproxyMark)) == Some(SkipRules(f) + [MARK_ONE])
  {
    AfterSetups(k, runs);
    InstalledAt(RunSetups(k, runs), target, ChainId(f, Nat, VproxyRedirect));
    InstalledAt(RunSetups(k, runs), target, ChainId(f, Mangle, VproxyMark));
  }

  // ----- everybody else's packets -----

  /** A jump to a chain that hands the packet back as it was. */
  predicate ComesBack(k: Kernel, t: Table, r: Rule, p: Packet, foreign: ForeignMatch, depth: nat) {
    && depth > 0 && TargetOf(r).Jump?
    && var c := ChainId(FamilyOf(p.dst.ip), t, TargetOf(r).chain);
       c in k.chains && Walk(k, t, k.chains[c], p, foreign, depth - 1) == HandedBack(p)
  }

  lemma {:induction false} WalkReturns(
    k: Kernel, t: Table, a: seq<Rule>, b: seq<Rule>, p: Packet, foreign: ForeignMatch, depth: nat)
    requires forall r :: r in a ==> !Matches(r, p, foreign) || ComesBack(k, t, r, p, foreign, depth)
    ensures Walk(k, t, a + b, p, foreign, depth) == Walk(k, t, b, p, foreign, depth)
  {
    if a == [] {
      assert a + b == b;
    } else {
      assert (a + b)[1..] == a[1..] + b;
      WalkReturns(k, t, a[1..], b, p, foreign, depth);
    }
  }

  lemma WalkAllReturn(k: Kernel, t: Table, a: seq<Rule>, p: Packet, foreign: ForeignMatch, depth: nat)
    requires forall r :: r in a ==> !Matches(r, p, foreign) || ComesBack(k, t, r, p, foreign, depth)
    ensures Walk(k, t, a, p, foreign, depth) == HandedBack(p)
  {
    WalkReturns(k, t, a, [], p, foreign, depth);
    assert a + [] == a;
  }

  /** The kernel after a complete set-up, whatever ran before it. */
  function SetUpKernel(k: Kernel, runs: seq<SetupRun>, target: string, remote: bool): Kernel {
    RunLines(RunSetups(k, runs), SetupLines(target, remote)).0
  }

  lemma TcpChainIgnoresUdp(k: Kernel, target: string, p: Packet, foreign: ForeignMatch, depth: nat)
    requires depth > 0 && p.proto == Udp
    requires At(k, ChainId(FamilyOf(p.dst.ip), Nat, VproxyRedirect))
          == Some(SkipRules(FamilyOf(p.dst.ip)) + [Divert(Tcp, RedirectTo(target))])
    ensures ComesBack(k, Nat, UDP_HOOK, p, foreign, depth)
  {
    var tail := [Divert(Tcp, RedirectTo(target))];
    WalkPastSkips(k, Nat, tail, p, foreign, depth - 1);
    assert tail[1..] == [];
  }

  /** In local mode the nat table touches no packet but TCP of the cgroup. */
  lemma NatLeavesOthers(
    k: Kernel, runs: seq<SetupRun>, target: string, p: Packet, foreign: ForeignMatch, depth: nat)
    requires VproxyFree(k) && BUILTINS <= k.chains.Keys && depth > 0 && !(p.cgroup && p.proto == Tcp)
    requires forall r :: r in k.chains[ChainId(FamilyOf(p.dst.ip), Nat, Output)] ==> !Matches(r, p, foreign)
    ensures var k' := SetUpKernel(k, runs, target, false);
            var c := ChainId(FamilyOf(p.dst.ip), Nat, Output);
            c in k'.chains && Walk(k', Nat, k'.chains[c], p, foreign, depth) == HandedBack(p)
  {
    var f := FamilyOf(p.dst.ip);
    var k' := RunLines(RunSetups(k, runs), LocalLines(target)).0;
    var before := OutputEndsInHook(k, runs, target, ChainId(f, Nat, Output), TCP_HOOK);
    InnerInstalled(k, runs, target, f);
    if p.proto == Udp {
      TcpChainIgnoresUdp(k', target, p, foreign, depth);
    }
    WalkAllReturn(k', Nat, before + [TCP_HOOK], p, foreign, depth);
  }

  /** And the mangle table marks no packet but UDP of the cgroup. */
  lemma MangleLeavesOthers(
    k: Kernel, runs: seq<SetupRun>, target: string, p: Packet, foreign: ForeignMatch, depth: nat)
    requires VproxyFree(k) && BUILTINS <= k.chains.Keys && !(p.cgroup && p.proto == Udp)
    requires forall r :: r in k.chains[ChainId(FamilyOf(p.dst.ip), Mangle, Output)] ==> !Matches(r, p, foreign)
    ensures var k' := SetUpKernel(k, runs, target, false);
            var c := ChainId(FamilyOf(p.dst.ip), Mangle, Output);
            c in k'.chains && Walk(k', Mangle, k'.chains[c], p, foreign, depth) == HandedBack(p)
  {
    var k' := RunLines(RunSetups(k, runs), LocalLines(target)).0;
    var before := OutputEndsInHook(k, runs, target, ChainId(FamilyOf(p.dst.ip), Mangle, Output), MARK_HOOK);
    WalkAllReturn(k', Mangle, before + [MARK_HOOK], p, foreign, depth);
  }

  // ----- the second half of UDP interception -----

  lemma CaughtThroughHook(
    k: Kernel, before: seq<Rule>, target: string, p: Packet, foreign: ForeignMatch, depth: nat)
    requires depth > 0 && forall r :: r in before ==> !Matches(r, p, foreign)
    requires At(k, ChainId(FamilyOf(p.dst.ip), Mangle, VproxyTproxy))
          == Some([Catch(target, if p.dst.ip.V4? then V4(0x7F00_0001) else V6(0, 0, 0, 1))])
    ensures Walk(k, Mangle, before + [TPROXY_HOOK], p, foreign, depth) ==
              if p.proto == Udp && p.mark == 1
              then SentTo(TproxyTo(target, if p.dst.ip.V4? then V4(0x7F00_0001) else V6(0, 0, 0, 1)))
              else HandedBack(p)
  {
    var inner := [Catch(target, if p.dst.ip.V4? then V4(0x7F00_0001) else V6(0, 0, 0, 1))];
    if p.proto == Udp && p.mark == 1 {
      WalkThroughHook(k, Mangle, before, TPROXY_HOOK, inner, p, foreign, depth);
    } else {
      WalkAllReturn(k, Mangle, before + [TPROXY_HOOK], p, foreign, depth);
    }
  }

  /** After a complete local set-up, whatever ran before, prerouting hands exactly the UDP packets with mark 1 to the
      proxy's port on the loopback address of their family, and every other packet back. */
  lemma PreroutingCatchesMarked(
    k: Kernel, runs: seq<SetupRun>, target: string, p: Packet, foreign: ForeignMatch, depth: nat)
    requires VproxyFree(k) && BUILTINS <= k.chains.Keys && depth > 0
    requires forall r :: r in k.chains[ChainId(FamilyOf(p.dst.ip), Mangle, Prerouting)] ==> !Matches(r, p, foreign)
    ensures var k' := SetUpKernel(k, runs, target, false);
            var c := ChainId(FamilyOf(p.dst.ip), Mangle, Prerouting);
            && c in k'.chains
            && Walk(k', Mangle, k'.chains[c], p, foreign, depth) ==
                 if p.proto == Udp && p.mark == 1
                 then SentTo(TproxyTo(target, if p.dst.ip.V4? then V4(0x7F00_0001) else V6(0, 0, 0, 1)))
                 else HandedBack(p)
  {
    var f := FamilyOf(p.dst.ip);
    var before := OutputEndsInHook(k, runs, target, ChainId(f, Mangle, Prerouting), TPROXY_HOOK);
    AfterSetups(k, runs);
    InstalledAt(RunSetups(k, runs), target, ChainId(f, Mangle, VproxyTproxy));
    CaughtThroughHook(RunLines(RunSetups(k, runs), LocalLines(target)).0, before, target, p, foreign, depth);
  }

  /** Where a UDP packet that leaves the machine ends up: through mangle output, then prerouting with the mark it has
      by then. */
  function UdpJourney(k: Kernel, p: Packet, foreign: ForeignMatch, depth: nat): Fate
    requires ChainId(FamilyOf(p.dst.ip), Mangle, Output) in k.chains
    requires ChainId(FamilyOf(p.dst.ip), Mangle, Prerouting) in k.chains
  {
    match Walk(k, Mangle, k.chains[ChainId(FamilyOf(p.dst.ip), Mangle, Output)], p, foreign, depth)
    case SentTo(target) => SentTo(target)
    case HandedBack(q) =>
      if FamilyOf(q.dst.ip) != FamilyOf(p.dst.ip) then HandedBack(q)
      else Walk(k, Mangle, k.chains[ChainId(FamilyOf(p.dst.ip), Mangle, Prerouting)], q, foreign, depth)
  }

  /** Both halves together: after a complete local set-up, whatever ran before, the proxy gets exactly the UDP packets
      of the cgroup that the eBPF hooks would divert (port 53 aside), and those that had mark 1 to begin with. */
  lemma UdpJourneyAgreesWithHooks(
    k: Kernel, runs: seq<SetupRun>, target: string, p: Packet, foreign: ForeignMatch, depth: nat,
    proxyPort: U16, port: U16)
    requires VproxyFree(k) && BUILTINS <= k.chains.Keys && depth > 0 && p.proto == Udp && port != 53
    requires forall r :: r in k.chains[ChainId(FamilyOf(p.dst.ip), Mangle, Output)] ==> !Matches(r, p, foreign)
    requires forall r :: r in k.chains[ChainId(FamilyOf(p.dst.ip), Mangle, Prerouting)] ==>
               !Matches(r, p, foreign) && !Matches(r, p.(mark := 1), foreign)
    ensures var k' := SetUpKernel(k, runs, target, false);
            var diverted := p.cgroup && !Bypassed(DefaultConfig(proxyPort), p.mark, p.dst.(port := port));
            && ChainId(FamilyOf(p.dst.ip), Mangle, Output) in k'.chains
            && ChainId(FamilyOf(p.dst.ip), Mangle, Prerouting) in k'.chains
            && UdpJourney(k', p, foreign, depth) ==
                 if diverted || p.mark == 1
                 then SentTo(TproxyTo(target, if p.dst.ip.V4? then V4(0x7F00_0001) else V6(0, 0, 0, 1)))
                 else HandedBack(p)
  {
    if p.cgroup {
      UdpWalkAgreesWithHooks(k, runs, target, p, foreign, depth, proxyPort, port);
    } else {
      MangleLeavesOthers(k, runs, target, p, foreign, depth);
    }
    PreroutingCatchesMarked(k, runs, target, p, foreign, depth);
    PreroutingCatchesMarked(k, runs, target, p.(mark := 1), foreign, depth);
  }

  // ----- remote mode -----

  /** After a complete remote set-up the output chain is the foreign rules, then both hooks. */
  lemma RemoteOutput(k: Kernel, runs: seq<SetupRun>, target: string, f: Family) returns (before: seq<Rule>)
    requires VproxyFree(k) && BUILTINS <= k.chains.Keys
    ensures At(SetUpKernel(k, runs, target, true), ChainId(f, Nat, Output)) == Some(before + [TCP_HOOK] + [UDP_HOOK])
    ensures forall r :: r in before ==> r in k.chains[ChainId(f, Nat, Output)]
  {
    var c, dirty := ChainId(f, Nat, Output), RunSetups(k, runs);
    AfterSetups(k, runs);
    SetupInstalls(dirty, target, true);
    var rest := RemoveFirst(dirty.chains[c], TCP_HOOK);
    before := RemoveFirst(rest, UDP_HOOK);
    RemoveThenSnoc(rest, UDP_HOOK, TCP_HOOK);
    forall r | r in before
      ensures r in k.chains[c]
    {
      RemoveFirstKeeps(rest, UDP_HOOK, r);
      WithoutHook(k, dirty, c, TCP_HOOK, r);
      if r == UDP_HOOK {
        assert ChainTidy(c, dirty.chains[c]);
        RemoveFirstKeeps(dirty.chains[c], TCP_HOOK, r);
        OnceAfterRemove(dirty.chains[c], TCP_HOOK, UDP_HOOK);
        assert false;
      }
    }
  }

  lemma RemoteInner(k: Kernel, runs: seq<SetupRun>, target: string, f: Family, to: Target)
    requires VproxyFree(k) && BUILTINS <= k.chains.Keys
    requires to == if f == Inet then DnatTo(target) else RedirectTo(AfterLastColon(target))
    ensures At(SetUpKernel(k, runs, target, true), ChainId(f, Nat, VproxyRedirect))
         == Some(SkipRules(f) + ([Divert(Tcp, to)] + [Divert(Udp, to)]))
  {
    AfterSetups(k, runs);
    SetupInstalls(RunSetups(k, runs), target, true);
    var skips, tcp, udp := SkipRules(f), [Divert(Tcp, to)], [Divert(Udp, to)];
    assert skips + tcp + udp == skips + (tcp + udp);
  }

  lemma DivertBoth(k: Kernel, p: Packet, to: Target, foreign: ForeignMatch, depth: nat)
    requires to.DnatTo? || to.RedirectTo?
    ensures Walk(k, Nat, [Divert(Tcp, to)] + [Divert(Udp, to)], p, foreign, depth)
         == if p.proto == Tcp || p.proto == Udp then SentTo(to) else HandedBack(p)
  {
    WalkDivert(k, Tcp, to, [Divert(Udp, to)], p, foreign, depth);
    WalkDivert(k, Udp, to, [], p, foreign, depth);
    assert [Divert(Udp, to)] + [] == [Divert(Udp, to)];
  }

  lemma WalkDivert(
    k: Kernel, proto: Protocol, to: Target, rest: seq<Rule>, p: Packet, foreign: ForeignMatch, depth: nat)
    requires to.DnatTo? || to.RedirectTo?
    ensures Walk(k, Nat, [Divert(proto, to)] + rest, p, foreign, depth)
         == if p.proto == proto then SentTo(to) else Walk(k, Nat, rest, p, foreign, depth)
  {
    assert ([Divert(proto, to)] + rest)[1..] == rest;
  }

  lemma WalkHook(
    k: Kernel, hook: Rule, inner: seq<Rule>, rest: seq<Rule>, p: Packet, foreign: ForeignMatch, depth: nat)
    requires depth > 0 && hook.Rule? && hook.target.Jump?
    requires At(k, ChainId(FamilyOf(p.dst.ip), Nat, hook.target.chain)) == Some(inner)
    requires Walk(k, Nat, inner, p, foreign, depth - 1).HandedBack? ==>
               Walk(k, Nat, inner, p, foreign, depth - 1) == HandedBack(p)
    ensures Walk(k, Nat, [hook] + rest, p, foreign, depth) ==
              if Matches(hook, p, foreign) && Walk(k, Nat, inner, p, foreign, depth - 1).SentTo?
              then Walk(k, Nat, inner, p, foreign, depth - 1)
              else Walk(k, Nat, rest, p, foreign, depth)
  {
    assert ([hook] + rest)[1..] == rest;
  }

  lemma RemoteThroughHooks(
    k: Kernel, before: seq<Rule>, p: Packet, to: Target, foreign: ForeignMatch, depth: nat)
    requires depth > 0 && forall r :: r in before ==> !Matches(r, p, foreign)
    requires to.DnatTo? || to.RedirectTo?
    requires At(k, ChainId(FamilyOf(p.dst.ip), Nat, VproxyRedirect))
          == Some(SkipRules(FamilyOf(p.dst.ip)) + ([Divert(Tcp, to)] + [Divert(Udp, to)]))
    ensures Walk(k, Nat, before + [TCP_HOOK] + [UDP_HOOK], p, foreign, depth) ==
              if p.cgroup && (p.proto == Tcp || p.proto == Udp) && !Skipped(p) then SentTo(to) else HandedBack(p)
  {
    var inner := [Divert(Tcp, to)] + [Divert(Udp, to)];
    WalkPastSkips(k, Nat, inner, p, foreign, depth - 1);
    DivertBoth(k, p, to, foreign, depth - 1);
    var hooks := [TCP_HOOK] + [UDP_HOOK];
    assert before + [TCP_HOOK] + [UDP_HOOK] == before + hooks;
    WalkSkips(k, Nat, before, hooks, p, foreign, depth);
    var chain := SkipRules(FamilyOf(p.dst.ip)) + inner;
    WalkHook(k, TCP_HOOK, chain, [UDP_HOOK], p, foreign, depth);
    WalkHook(k, UDP_HOOK, chain, [], p, foreign, depth);
    assert [UDP_HOOK] + [] == [UDP_HOOK];
  }

  /** In remote mode, after a complete set-up, whatever ran before: TCP and UDP of the cgroup that the chains do not
      skip goes to the remote proxy, over IPv4 by its address and over IPv6 by its port; all else is handed back. */
  lemma RemoteWalk(
    k: Kernel, runs: seq<SetupRun>, host: string, port: string, p: Packet, foreign: ForeignMatch, depth: nat)
    requires VproxyFree(k) && BUILTINS <= k.chains.Keys && depth > 0 && ':' !in port
    requires forall r :: r in k.chains[ChainId(FamilyOf(p.dst.ip), Nat, Output)] ==> !Matches(r, p, foreign)
    ensures var k' := SetUpKernel(k, runs, host + ":" + port, true);
            var c := ChainId(FamilyOf(p.dst.ip), Nat, Output);
            && c in k'.chains
            && Walk(k', Nat, k'.chains[c], p, foreign, depth) ==
                 if p.cgroup && (p.proto == Tcp || p.proto == Udp) && !Skipped(p)
                 then SentTo(if p.dst.ip.V4? then DnatTo(host + ":" + port) else RedirectTo(port))
                 else HandedBack(p)
  {
    var f, target := FamilyOf(p.dst.ip), host + ":" + port;
    PortText(host, port);
    var to := if f == Inet then DnatTo(target) else RedirectTo(AfterLastColon(target));
    var before := RemoteOutput(k, runs, target, f);
    RemoteInner(k, runs, target, f, to);
    RemoteThroughHooks(SetUpKernel(k, runs, target, true), before, p, to, foreign, depth);
  }

  /** The port is what follows the last colon. */
  lemma {:induction false} PortText(host: string, port: string)
    requires ':' !in port
    ensures AfterLastColon(host + ":" + port) == port
  {
    var s := host + ":" + port;
    if host == [] {
      assert s[0] == ':' && s[1..] == port;
    } else {
      assert s[1..] == host[1..] + ":" + port;
      assert s[1..][|host| - 1] == ':';
      PortText(host[1..], port);
    }
  }

  // ----- policy routing of the mark -----

  lemma {:induction false} PolicyListsStay(k: Kernel, lines: seq<Line>)
    ensures RunLines(k, lines).0.policy.Keys == k.policy.Keys
  {
    if lines != [] {
      PolicyListsStay(k, lines[..|lines| - 1]);
    }
  }

  /** After a complete local set-up, in each family, packets with mark 1 look up routing table 100, and table 100
      delivers everything locally. */
  lemma MarkIsRouted(k: Kernel, target: string, f: Family)
    requires BUILTINS <= k.chains.Keys
    requires PolicyId(f, RuleList) in k.policy && PolicyId(f, RouteTables) in k.policy
    ensures var k' := RunLines(k, SetupLines(target, false)).0;
            && PolicyId(f, RuleList) in k'.policy && FwmarkLookup(1, 100) in k'.policy[PolicyId(f, RuleList)]
            && PolicyId(f, RouteTables) in k'.policy && LocalDefault("lo", 100) in k'.policy[PolicyId(f, RouteTables)]
  {
    var lines := LocalLines(target);
    SetupInstalls(k, target, false);
    PolicyListsStay(k, lines);
    LocalReady(target);
    forall i | 0 <= i < |lines|
      ensures !lines[i].cmd.DelPolicy?
    {
      assert ReadyAt(BUILTINS, lines, i);
    }
    RoutesStay(k, lines);
    RouteIsListed(target, f, RuleList);
    RouteIsListed(target, f, RouteTables);
    var i :| 0 <= i < |lines| && lines[i] == Route(f, RuleList);
    var j :| 0 <= j < |lines| && lines[j] == Route(f, RouteTables);
    assert Routed(RunLines(k, lines).0, lines[i].cmd) && Routed(RunLines(k, lines).0, lines[j].cmd);
  }

  lemma RouteIsListed(target: string, f: Family, kind: PolicyKind)
    ensures Route(f, kind) in LocalLines(target)
  {
    var ps := PolicyLines();
    assert ps[0] == Route(Inet, RuleList) && ps[1] == Route(Inet, RouteTables);
    assert ps[2] == Route(Inet6, RuleList) && ps[3] == Route(Inet6, RouteTables);
    assert Route(f, kind) in ps;
    assert LocalLines(target) == LocalNatLines(target) + ps + MarkLines() + TproxyLines(target);
  }
}
