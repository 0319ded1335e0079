/** SetupRules and CleanupRules as programs over the kernel, and what every sequence of them conserves. */
module IptablesRules {
  import opened Bytes
  import opened Addresses
  import opened RedirectHooks
  import opened NetfilterKernel

  const BYPASS_MARK: U32 := 0xFF

  // ----- the rules vproxy writes -----

  const TCP_HOOK := Rule(Some(Tcp), true, None, None, Jump(VproxyRedirect))
  const UDP_HOOK := Rule(Some(Udp), true, None, None, Jump(VproxyRedirect))
  const MARK_HOOK := Rule(Some(Udp), true, None, None, Jump(VproxyMark))
  const TPROXY_HOOK := Rule(Some(Udp), false, Some(1), None, Jump(VproxyTproxy))

  const SKIP_MARKED := Rule(None, false, Some(BYPASS_MARK), None, Return)
  const MARK_ONE := Rule(None, false, None, None, SetMark(1))

  function SkipTo(ip: IpAddr, bits: nat): Rule {
    Rule(None, false, None, Some(Prefix(ip, bits)), Return)
  }

  function Divert(proto: Protocol, target: Target): Rule {
    Rule(Some(proto), false, None, None, target)
  }

  function Catch(port: string, onIp: IpAddr): Rule {
    Rule(Some(Udp), false, Some(1), None, TproxyTo(port, onIp))
  }

  const SKIP_LOOPBACK := SkipTo(V4(0x7F00_0000), 8)
  const SKIP_TEN := SkipTo(V4(0x0A00_0000), 8)
  const SKIP_172 := SkipTo(V4(0xAC10_0000), 12)
  const SKIP_192 := SkipTo(V4(0xC0A8_0000), 16)
  const SKIP_LINK_LOCAL := SkipTo(V4(0xA9FE_0000), 16)
  const SKIP_LOOPBACK6 := SkipTo(V6(0, 0, 0, 1), 128)
  const SKIP_ULA6 := SkipTo(V6(0xFC00_0000, 0, 0, 0), 7)
  const SKIP_LINK_LOCAL6 := SkipTo(V6(0xFE80_0000, 0, 0, 0), 10)

  function EntryFor(kind: PolicyKind): PolicyEntry {
    match kind
    case RuleList => FwmarkLookup(1, 100)
    case RouteTables => LocalDefault("lo", 100)
  }

  // ----- the programs -----

  function New(f: Family, t: Table, n: ChainName): Line { Line(NewChain(ChainId(f, t, n)), true) }
  function Clear(f: Family, t: Table, n: ChainName): Line { Line(Flush(ChainId(f, t, n)), false) }
  function Add(f: Family, t: Table, n: ChainName, r: Rule): Line { Line(Append(ChainId(f, t, n), r), false) }
  function Del(f: Family, t: Table, n: ChainName, r: Rule): Line { Line(Delete(ChainId(f, t, n), r), true) }
  function Route(f: Family, kind: PolicyKind): Line { Line(AddPolicy(PolicyId(f, kind), EntryFor(kind)), true) }
  function Unroute(f: Family, kind: PolicyKind): Line { Line(DelPolicy(PolicyId(f, kind), EntryFor(kind)), true) }
  function Wipe(f: Family, t: Table, n: ChainName): Line { Line(Flush(ChainId(f, t, n)), true) }
  function Drop(f: Family, t: Table, n: ChainName): Line { Line(DropChain(ChainId(f, t, n)), true) }

  /** Create a chain in both families if it is missing, and empty it. */
  function CreateLines(t: Table, n: ChainName): seq<Line> {
    [New(Inet, t, n), Clear(Inet, t, n), New(Inet6, t, n), Clear(Inet6, t, n)]
  }

  /** Re-append a hook in both families: delete it if present, then append. */
  function HookLines(t: Table, n: ChainName, hook: Rule): seq<Line> {
    [Del(Inet, t, n, hook), Add(Inet, t, n, hook), Del(Inet6, t, n, hook), Add(Inet6, t, n, hook)]
  }

  function SkipMarkedLines(t: Table, n: ChainName): seq<Line> {
    [Add(Inet, t, n, SKIP_MARKED), Add(Inet6, t, n, SKIP_MARKED)]
  }

  function SkipV4Lines(t: Table, n: ChainName): seq<Line> {
    [Add(Inet, t, n, SKIP_LOOPBACK), Add(Inet, t, n, SKIP_TEN), Add(Inet, t, n, SKIP_172),
     Add(Inet, t, n, SKIP_192), Add(Inet, t, n, SKIP_LINK_LOCAL)]
  }

  /** ::1, fc00::/7, fe80::/10. */
  function SkipV6Lines(t: Table, n: ChainName): seq<Line> {
    [Add(Inet6, t, n, SKIP_LOOPBACK6), Add(Inet6, t, n, SKIP_ULA6), Add(Inet6, t, n, SKIP_LINK_LOCAL6)]
  }

  /** A fresh chain that lets marked and local traffic return. */
  function PreludeLines(t: Table, n: ChainName): seq<Line> {
    CreateLines(t, n) + SkipMarkedLines(t, n) + SkipV4Lines(t, n) + SkipV6Lines(t, n)
  }

  function BothLines(t: Table, n: ChainName, r4: Rule, r6: Rule): seq<Line> {
    [Add(Inet, t, n, r4), Add(Inet6, t, n, r6)]
  }

  /** The text after the last colon of s; all of s when it has none. */
  function AfterLastColon(s: string): string {
    if s == [] then []
    else if ':' in s[1..] then AfterLastColon(s[1..])
    else if s[0] == ':' then s[1..]
    else s
  }

  function RemoteLines(target: string): seq<Line> {
    var port := AfterLastColon(target);
    PreludeLines(Nat, VproxyRedirect)
    + BothLines(Nat, VproxyRedirect, Divert(Tcp, DnatTo(target)), Divert(Tcp, RedirectTo(port)))
    + BothLines(Nat, VproxyRedirect, Divert(Udp, DnatTo(target)), Divert(Udp, RedirectTo(port)))
    + HookLines(Nat, Output, TCP_HOOK)
    + HookLines(Nat, Output, UDP_HOOK)
  }

  function LocalNatLines(target: string): seq<Line> {
    PreludeLines(Nat, VproxyRedirect)
    + BothLines(Nat, VproxyRedirect, Divert(Tcp, RedirectTo(target)), Divert(Tcp, RedirectTo(target)))
    + HookLines(Nat, Output, TCP_HOOK)
  }

  function PolicyLines(): seq<Line> {
    [Route(Inet, RuleList), Route(Inet, RouteTables), Route(Inet6, RuleList), Route(Inet6, RouteTables)]
  }

  function MarkLines(): seq<Line> {
    PreludeLines(Mangle, VproxyMark)
    + BothLines(Mangle, VproxyMark, MARK_ONE, MARK_ONE)
    + HookLines(Mangle, Output, MARK_HOOK)
  }

  function TproxyLines(target: string): seq<Line> {
    CreateLines(Mangle, VproxyTproxy)
    + BothLines(Mangle, VproxyTproxy, Catch(target, LOCALHOST4), Catch(target, LOCALHOST6))
    + HookLines(Mangle, Prerouting, TPROXY_HOOK)
  }

  function LocalLines(target: string): seq<Line> {
    LocalNatLines(target) + PolicyLines() + MarkLines() + TproxyLines(target)
  }

  function SetupLines(target: string, remote: bool): seq<Line> {
    if remote then RemoteLines(target) else LocalLines(target)
  }

  function CleanupLines(): seq<Line> {
    [
      Del(Inet, Nat, Output, TCP_HOOK), Del(Inet6, Nat, Output, TCP_HOOK),
      Del(Inet, Nat, Output, UDP_HOOK), Del(Inet6, Nat, Output, UDP_HOOK),
      Wipe(Inet, Nat, VproxyRedirect), Drop(Inet, Nat, VproxyRedirect),
      Wipe(Inet6, Nat, VproxyRedirect), Drop(Inet6, Nat, VproxyRedirect),
      Del(Inet, Mangle, Output, MARK_HOOK), Del(Inet, Mangle, Prerouting, TPROXY_HOOK),
      Del(Inet6, Mangle, Output, MARK_HOOK), Del(Inet6, Mangle, Prerouting, TPROXY_HOOK),
      Wipe(Inet, Mangle, VproxyMark), Drop(Inet, Mangle, VproxyMark),
      Wipe(Inet6, Mangle, VproxyMark), Drop(Inet6, Mangle, VproxyMark),
      Wipe(Inet, Mangle, VproxyTproxy), Drop(Inet, Mangle, VproxyTproxy),
      Wipe(Inet6, Mangle, VproxyTproxy), Drop(Inet6, Mangle, VproxyTproxy),
      Unroute(Inet, RuleList), Unroute(Inet, RouteTables),
      Unroute(Inet6, RuleList), Unroute(Inet6, RouteTables)
    ]
  }

  // ----- what belongs to vproxy -----

  predicate IsOwn(n: ChainName) {
    n == VproxyRedirect || n == VproxyMark || n == VproxyTproxy
  }

  predicate OwnChain(c: ChainId) {
    (c.table == Nat && c.name == VproxyRedirect) ||
    (c.table == Mangle && (c.name == VproxyMark || c.name == VproxyTproxy))
  }

  predicate IsHook(c: ChainId, r: Rule) {
    || (c.table == Nat && c.name == Output && (r == TCP_HOOK || r == UDP_HOOK))
    || (c.table == Mangle && c.name == Output && r == MARK_HOOK)
    || (c.table == Mangle && c.name == Prerouting && r == TPROXY_HOOK)
  }

  predicate OwnRule(r: Rule) {
    JumpOf(r).Some? && IsOwn(JumpOf(r).value)
  }

  predicate OwnPolicy(e: PolicyEntry) {
    e == EntryFor(RuleList) || e == EntryFor(RouteTables)
  }

  function Strip<T>(s: seq<T>, own: T -> bool): seq<T> {
    if s == [] then [] else if own(s[0]) then Strip(s[1..], own) else [s[0]] + Strip(s[1..], own)
  }

  /** The kernel with everything of vproxy's taken out, all else in its place and order. */
  function Foreign(k: Kernel): Kernel {
    Kernel(map c | c in k.chains && !IsOwn(c.name) :: Strip(k.chains[c], OwnRule),
           map id | id in k.policy :: Strip(k.policy[id], OwnPolicy))
  }

  ghost predicate VproxyFree(k: Kernel) {
    && (forall c :: c in k.chains ==> !IsOwn(c.name) && forall r :: r in k.chains[c] ==> !OwnRule(r))
    && (forall id :: id in k.policy ==> forall e :: e in k.policy[id] ==> !OwnPolicy(e))
  }

  predicate AtMostOnce<T(==)>(s: seq<T>, x: T) {
    x !in RemoveFirst(s, x)
  }

  ghost predicate ChainTidy(c: ChainId, rs: seq<Rule>) {
    if IsOwn(c.name) then OwnChain(c) && forall r :: r in rs ==> JumpOf(r).None?
    else forall r :: r in rs && OwnRule(r) ==> IsHook(c, r) && AtMostOnce(rs, r)
  }

  ghost predicate PolicyTidy(id: PolicyId, es: seq<PolicyEntry>) {
    forall e :: e in es && OwnPolicy(e) ==> e == EntryFor(id.kind) && AtMostOnce(es, e)
  }

  /** Whatever vproxy has left behind is something CleanupRules knows, and there is one of it. */
  ghost predicate Tidy(k: Kernel) {
    && (forall c :: c in k.chains ==> ChainTidy(c, k.chains[c]))
    && (forall id :: id in k.policy ==> PolicyTidy(id, k.policy[id]))
  }

  predicate OwnCommand(cmd: Command) {
    match cmd
    case NewChain(c) => OwnChain(c)
    case Flush(c) => OwnChain(c)
    case DropChain(c) => OwnChain(c)
    case Append(c, r) => (OwnChain(c) && JumpOf(r).None?) || IsHook(c, r)
    case Delete(c, r) => IsHook(c, r)
    case AddPolicy(id, e) => e == EntryFor(id.kind)
    case DelPolicy(id, e) => e == EntryFor(id.kind)
  }

  predicate AppendsHook(cmd: Command) {
    cmd.Append? && IsHook(cmd.c, cmd.r)
  }

  /** Only vproxy's own things are touched, and a hook is appended only right after it was deleted. */
  ghost predicate Guarded(lines: seq<Line>) {
    forall i :: 0 <= i < |lines| ==> GuardedAt(lines, i)
  }

  predicate GuardedAt(lines: seq<Line>, i: nat)
    requires i < |lines|
  {
    && OwnCommand(lines[i].cmd)
    && (AppendsHook(lines[i].cmd) ==> i > 0 && lines[i - 1].cmd == Delete(lines[i].cmd.c, lines[i].cmd.r))
  }

  // ----- single commands -----

  lemma {:induction false} StripSnoc<T>(s: seq<T>, x: T, own: T -> bool)
    ensures Strip(s + [x], own) == if own(x) then Strip(s, own) else Strip(s, own) + [x]
  {
    if s == [] {
      assert s + [x] == [x];
    } else {
      assert (s + [x])[1..] == s[1..] + [x];
      StripSnoc(s[1..], x, own);
    }
  }

  lemma {:induction false} StripRemove<T>(s: seq<T>, x: T, own: T -> bool)
    requires own(x)
    ensures Strip(RemoveFirst(s, x), own) == Strip(s, own)
  {
    if s != [] && s[0] != x {
      StripRemove(s[1..], x, own);
      assert ([s[0]] + RemoveFirst(s[1..], x))[1..] == RemoveFirst(s[1..], x);
    }
  }

  lemma {:induction false} StripNothing<T>(s: seq<T>, own: T -> bool)
    requires forall x :: x in s ==> !own(x)
    ensures Strip(s, own) == s
  {
    if s != [] {
      StripNothing(s[1..], own);
      assert s == [s[0]] + s[1..];
    }
  }

  lemma {:induction false} OnceAfterRemove<T>(s: seq<T>, x: T, y: T)
    requires AtMostOnce(s, y)
    ensures AtMostOnce(RemoveFirst(s, x), y)
  {
    if s != [] {
      RemoveFirstKeeps(s[1..], x, y);
      RemoveFirstKeeps(s[1..], y, y);
      if s[0] != x {
        assert ([s[0]] + RemoveFirst(s[1..], x))[1..] == RemoveFirst(s[1..], x);
        if s[0] != y {
          OnceAfterRemove(s[1..], x, y);
        }
      } else if s[0] == y {
        RemoveFirstKeeps(s[1..], y, y);
      } else {
        assert RemoveFirst(s, y) == [s[0]] + RemoveFirst(s[1..], y);
      }
    }
  }

  lemma {:induction false} OnceAfterSnoc<T>(s: seq<T>, x: T, y: T)
    requires AtMostOnce(s, y) && (x == y ==> x !in s)
    ensures AtMostOnce(s + [x], y)
  {
    if s == [] {
      assert s + [x] == [x];
    } else {
      assert (s + [x])[1..] == s[1..] + [x];
      if s[0] != y {
        OnceAfterSnoc(s[1..], x, y);
      }
    }
  }

  lemma {:induction false} OnceAfterCons<T>(s: seq<T>, x: T, y: T)
    requires AtMostOnce(s, y) && (x == y ==> x !in s)
    ensures AtMostOnce([x] + s, y)
  {
    assert ([x] + s)[1..] == s;
  }

  lemma AbsentIsOnce<T>(s: seq<T>, x: T)
    requires x !in s
    ensures AtMostOnce(s, x)
  {
    RemoveFirstKeeps(s, x, x);
  }

  lemma DeleteKeepsChainTidy(c: ChainId, rs: seq<Rule>, r: Rule)
    requires ChainTidy(c, rs)
    ensures ChainTidy(c, RemoveFirst(rs, r))
  {
    forall q | q in RemoveFirst(rs, r)
      ensures q in rs && (AtMostOnce(rs, q) ==> AtMostOnce(RemoveFirst(rs, r), q))
    {
      RemoveFirstKeeps(rs, r, q);
      if AtMostOnce(rs, q) {
        OnceAfterRemove(rs, r, q);
      }
    }
  }

  lemma AppendKeepsChainTidy(c: ChainId, rs: seq<Rule>, r: Rule)
    requires ChainTidy(c, rs) && OwnCommand(Append(c, r)) && (IsHook(c, r) ==> r !in rs)
    ensures ChainTidy(c, rs + [r])
  {
    if !IsOwn(c.name) {
      forall q | q in rs + [r] && OwnRule(q)
        ensures IsHook(c, q) && AtMostOnce(rs + [r], q)
      {
        if q !in rs {
          AbsentIsOnce(rs, q);
        }
        OnceAfterSnoc(rs, r, q);
      }
    }
  }

  lemma PolicyStepTidy(id: PolicyId, es: seq<PolicyEntry>, e: PolicyEntry)
    requires PolicyTidy(id, es) && e == EntryFor(id.kind)
    ensures PolicyTidy(id, RemoveFirst(es, e))
    ensures e !in es ==> PolicyTidy(id, [e] + es) && PolicyTidy(id, es + [e])
  {
    forall q | q in RemoveFirst(es, e) && OwnPolicy(q)
      ensures q == EntryFor(id.kind) && AtMostOnce(RemoveFirst(es, e), q)
    {
      RemoveFirstKeeps(es, e, q);
      OnceAfterRemove(es, e, q);
    }
    if e !in es {
      AbsentIsOnce(es, e);
      OnceAfterCons(es, e, e);
      OnceAfterSnoc(es, e, e);
      assert forall q :: q in es && OwnPolicy(q) ==> q == e;
    }
  }

  /** One command of vproxy's keeps the kernel tidy and everything foreign where it was. */
  lemma StepKeepsTidy(k: Kernel, cmd: Command)
    requires Tidy(k) && OwnCommand(cmd)
    requires AppendsHook(cmd) && cmd.c in k.chains ==> cmd.r !in k.chains[cmd.c]
    ensures Tidy(Step(k, cmd))
  {
    match cmd
    case Append(c, r) =>
      if c in k.chains { AppendKeepsChainTidy(c, k.chains[c], r); }
    case Delete(c, r) =>
      if c in k.chains { DeleteKeepsChainTidy(c, k.chains[c], r); }
    case AddPolicy(id, e) =>
      if id in k.policy { PolicyStepTidy(id, k.policy[id], e); }
    case DelPolicy(id, e) =>
      if id in k.policy { PolicyStepTidy(id, k.policy[id], e); }
    case _ =>
  }

  lemma ForeignIgnoresChain(k: Kernel, c: ChainId, rs: seq<Rule>)
    requires IsOwn(c.name) || (c in k.chains && Strip(rs, OwnRule) == Strip(k.chains[c], OwnRule))
    ensures Foreign(k.(chains := k.chains[c := rs])) == Foreign(k)
    ensures IsOwn(c.name) ==> Foreign(k.(chains := k.chains - {c})) == Foreign(k)
  {
  }

  lemma ForeignIgnoresPolicy(k: Kernel, id: PolicyId, es: seq<PolicyEntry>)
    requires id in k.policy && Strip(es, OwnPolicy) == Strip(k.policy[id], OwnPolicy)
    ensures Foreign(k.(policy := k.policy[id := es])) == Foreign(k)
  {
  }

  lemma StepKeepsForeign(k: Kernel, cmd: Command)
    requires OwnCommand(cmd)
    ensures Foreign(Step(k, cmd)) == Foreign(k)
  {
    if Exec(k, cmd).Some? {
      match cmd
      case NewChain(c) => ForeignIgnoresChain(k, c, []);
      case Flush(c) => ForeignIgnoresChain(k, c, []);
      case DropChain(c) => ForeignIgnoresChain(k, c, []);
      case Append(c, r) =>
        StripSnoc(k.chains[c], r, OwnRule);
        ForeignIgnoresChain(k, c, k.chains[c] + [r]);
      case Delete(c, r) =>
        StripRemove(k.chains[c], r, OwnRule);
        ForeignIgnoresChain(k, c, RemoveFirst(k.chains[c], r));
      case AddPolicy(id, e) =>
        StripSnoc(k.policy[id], e, OwnPolicy);
        assert ([e] + k.policy[id])[1..] == k.policy[id];
        ForeignIgnoresPolicy(k, id, if id.kind == RuleList then [e] + k.policy[id] else k.policy[id] + [e]);
      case DelPolicy(id, e) =>
        StripRemove(k.policy[id], e, OwnPolicy);
        ForeignIgnoresPolicy(k, id, RemoveFirst(k.policy[id], e));
    }
  }

  lemma DeletedIsGone(k: Kernel, c: ChainId, r: Rule)
    requires Tidy(k) && IsHook(c, r)
    ensures c in Step(k, Delete(c, r)).chains ==> r !in Step(k, Delete(c, r)).chains[c]
  {
    if c in k.chains && r in k.chains[c] {
      assert ChainTidy(c, k.chains[c]);
    }
  }

  // ----- whole programs -----

  lemma {:induction false} GuardedRun(k: Kernel, lines: seq<Line>, n: nat)
    requires Tidy(k) && Guarded(lines) && n <= |lines|
    ensures var k' := RunLines(k, lines[..n]).0; Tidy(k') && Foreign(k') == Foreign(k)
    ensures var (k', ok) := RunLines(k, lines[..n]);
            n > 0 && ok && lines[n - 1].cmd.Delete? ==>
              var cmd := lines[n - 1].cmd; cmd.c in k'.chains ==> cmd.r !in k'.chains[cmd.c]
  {
    if n > 0 {
      GuardedRun(k, lines, n - 1);
      var (k', ok) := RunLines(k, lines[..n - 1]);
      assert lines[..n] == lines[..n - 1] + [lines[n - 1]];
      RunSnoc(k, lines[..n - 1], lines[n - 1]);
      assert GuardedAt(lines, n - 1);
      if ok {
        StepKeepsTidy(k', lines[n - 1].cmd);
        StepKeepsForeign(k', lines[n - 1].cmd);
        if lines[n - 1].cmd.Delete? {
          DeletedIsGone(k', lines[n - 1].cmd.c, lines[n - 1].cmd.r);
        }
      }
    }
  }

  lemma GuardedConcat(a: seq<Line>, b: seq<Line>)
    requires Guarded(a) && Guarded(b)
    ensures Guarded(a + b)
  {
    forall i | 0 <= i < |a + b|
      ensures GuardedAt(a + b, i)
    {
      if i < |a| {
        assert GuardedAt(a, i);
      } else {
        assert GuardedAt(b, i - |a|);
      }
    }
  }

  lemma PreludeGuarded(t: Table, n: ChainName)
    requires OwnChain(ChainId(Inet, t, n))
    ensures Guarded(PreludeLines(t, n))
  {
    GuardedConcat(CreateLines(t, n), SkipMarkedLines(t, n));
    GuardedConcat(CreateLines(t, n) + SkipMarkedLines(t, n), SkipV4Lines(t, n));
    GuardedConcat(CreateLines(t, n) + SkipMarkedLines(t, n) + SkipV4Lines(t, n), SkipV6Lines(t, n));
  }

  lemma HookGuarded(a: seq<Line>, t: Table, n: ChainName, hook: Rule)
    requires Guarded(a) && IsHook(ChainId(Inet, t, n), hook)
    ensures Guarded(a + HookLines(t, n, hook))
  {
    GuardedConcat(a, HookLines(t, n, hook));
  }

  lemma BothGuarded(a: seq<Line>, t: Table, n: ChainName, r4: Rule, r6: Rule)
    requires Guarded(a) && OwnChain(ChainId(Inet, t, n)) && JumpOf(r4).None? && JumpOf(r6).None?
    ensures Guarded(a + BothLines(t, n, r4, r6))
  {
    GuardedConcat(a, BothLines(t, n, r4, r6));
  }

  lemma RemoteGuarded(target: string)
    ensures Guarded(RemoteLines(target))
  {
    var port := AfterLastColon(target);
    var a := PreludeLines(Nat, VproxyRedirect);
    PreludeGuarded(Nat, VproxyRedirect);
    BothGuarded(a, Nat, VproxyRedirect, Divert(Tcp, DnatTo(target)), Divert(Tcp, RedirectTo(port)));
    var b := a + BothLines(Nat, VproxyRedirect, Divert(Tcp, DnatTo(target)), Divert(Tcp, RedirectTo(port)));
    BothGuarded(b, Nat, VproxyRedirect, Divert(Udp, DnatTo(target)), Divert(Udp, RedirectTo(port)));
    var c := b + BothLines(Nat, VproxyRedirect, Divert(Udp, DnatTo(target)), Divert(Udp, RedirectTo(port)));
    HookGuarded(c, Nat, Output, TCP_HOOK);
    HookGuarded(c + HookLines(Nat, Output, TCP_HOOK), Nat, Output, UDP_HOOK);
  }

  lemma LocalGuarded(target: string)
    ensures Guarded(LocalLines(target))
  {
    var a := PreludeLines(Nat, VproxyRedirect);
    PreludeGuarded(Nat, VproxyRedirect);
    BothGuarded(a, Nat, VproxyRedirect, Divert(Tcp, RedirectTo(target)), Divert(Tcp, RedirectTo(target)));
    HookGuarded(a + BothLines(Nat, VproxyRedirect, Divert(Tcp, RedirectTo(target)), Divert(Tcp, RedirectTo(target))),
                Nat, Output, TCP_HOOK);
    GuardedConcat(LocalNatLines(target), PolicyLines());

    var m := PreludeLines(Mangle, VproxyMark);
    PreludeGuarded(Mangle, VproxyMark);
    BothGuarded(m, Mangle, VproxyMark, MARK_ONE, MARK_ONE);
    HookGuarded(m + BothLines(Mangle, VproxyMark, MARK_ONE, MARK_ONE), Mangle, Output, MARK_HOOK);
    GuardedConcat(LocalNatLines(target) + PolicyLines(), MarkLines());

    var t := CreateLines(Mangle, VproxyTproxy);
    BothGuarded(t, Mangle, VproxyTproxy, Catch(target, LOCALHOST4), Catch(target, LOCALHOST6));
    HookGuarded(t + BothLines(Mangle, VproxyTproxy, Catch(target, LOCALHOST4), Catch(target, LOCALHOST6)),
                Mangle, Prerouting, TPROXY_HOOK);
    GuardedConcat(LocalNatLines(target) + PolicyLines() + MarkLines(), TproxyLines(target));
  }

  /** One invocation of SetupRules, cut off after `stop` commands at the latest. */
  datatype SetupRun = SetupRun(target: string, remote: bool, stop: nat)

  function SetupPrefix(run: SetupRun): seq<Line> {
    var lines := SetupLines(run.target, run.remote);
    if run.stop <= |lines| then lines[..run.stop] else lines
  }

  function RunSetups(k: Kernel, runs: seq<SetupRun>): Kernel {
    if runs == [] then k else RunLines(RunSetups(k, runs[..|runs| - 1]), SetupPrefix(runs[|runs| - 1])).0
  }

  lemma {:induction false} SetupsStayTidy(k: Kernel, runs: seq<SetupRun>)
    requires Tidy(k)
    ensures Tidy(RunSetups(k, runs)) && Foreign(RunSetups(k, runs)) == Foreign(k)
  {
    if runs != [] {
      var run := runs[|runs| - 1];
      SetupsStayTidy(k, runs[..|runs| - 1]);
      RemoteGuarded(run.target);
      LocalGuarded(run.target);
      var lines := SetupLines(run.target, run.remote);
      var n := if run.stop <= |lines| then run.stop else |lines|;
      assert SetupPrefix(run) == lines[..n];
      GuardedRun(RunSetups(k, runs[..|runs| - 1]), lines, n);
    }
  }

  // ----- cleaning up -----

  predicate ShrinkingAt(lines: seq<Line>, i: nat)
    requires i < |lines|
  {
    var cmd := lines[i].cmd;
    lines[i].tolerant && OwnCommand(cmd) && (cmd.Delete? || cmd.Flush? || cmd.DropChain? || cmd.DelPolicy?)
  }

  /** Every line tolerates failure and only takes things of vproxy's away. */
  ghost predicate Shrinking(lines: seq<Line>) {
    forall i :: 0 <= i < |lines| ==> ShrinkingAt(lines, i)
  }

  function Cleaned(k: Kernel, lines: seq<Line>, n: nat): Kernel
    requires n <= |lines|
  {
    RunLines(k, lines[..n]).0
  }

  lemma {:induction false} CleanedStep(k: Kernel, lines: seq<Line>, n: nat)
    requires Shrinking(lines) && n <= |lines|
    ensures RunLines(k, lines[..n]).1
    ensures n < |lines| ==> Cleaned(k, lines, n + 1) == Step(Cleaned(k, lines, n), lines[n].cmd)
  {
    if n > 0 {
      CleanedStep(k, lines, n - 1);
      assert ShrinkingAt(lines, n - 1);
      assert lines[..n] == lines[..n - 1] + [lines[n - 1]];
      RunSnoc(k, lines[..n - 1], lines[n - 1]);
    }
    if n < |lines| {
      assert lines[..n + 1] == lines[..n] + [lines[n]];
      RunSnoc(k, lines[..n], lines[n]);
    }
  }

  lemma CleanedTidy(k: Kernel, lines: seq<Line>, n: nat)
    requires Tidy(k) && Shrinking(lines) && n <= |lines|
    ensures Tidy(Cleaned(k, lines, n)) && Foreign(Cleaned(k, lines, n)) == Foreign(k)
  {
    forall i | 0 <= i < |lines|
      ensures GuardedAt(lines, i)
    {
      assert ShrinkingAt(lines, i);
    }
    GuardedRun(k, lines, n);
  }

  lemma {:induction false} HookGone(k: Kernel, lines: seq<Line>, c: ChainId, r: Rule, i: nat, n: nat)
    requires Tidy(k) && Shrinking(lines) && i < n <= |lines|
    requires IsHook(c, r) && lines[i].cmd == Delete(c, r)
    ensures c in Cleaned(k, lines, n).chains ==> r !in Cleaned(k, lines, n).chains[c]
  {
    var before := Cleaned(k, lines, n - 1);
    CleanedStep(k, lines, n - 1);
    assert ShrinkingAt(lines, n - 1);
    var cmd := lines[n - 1].cmd;
    if i == n - 1 {
      CleanedTidy(k, lines, n - 1);
      DeletedIsGone(before, c, r);
    } else {
      HookGone(k, lines, c, r, i, n - 1);
      if cmd.Delete? && cmd.c in before.chains {
        RemoveFirstKeeps(before.chains[cmd.c], cmd.r, r);
      }
    }
  }

  /** Every hook that jumps to c is deleted before line j. */
  ghost predicate UnhookedBefore(lines: seq<Line>, c: ChainId, j: nat)
    requires j <= |lines|
  {
    forall d, r :: IsHook(d, r) && d.family == c.family && d.table == c.table && JumpOf(r) == Some(c.name) ==>
      Delete(d, r) in Commands(lines[..j])
  }

  ghost function Commands(lines: seq<Line>): set<Command> {
    set line | line in lines :: line.cmd
  }

  /** By the time the chain is dropped, nothing jumps to it any more. */
  lemma Unreferenced(k: Kernel, lines: seq<Line>, c: ChainId, j: nat)
    requires Tidy(k) && Shrinking(lines) && j < |lines| && OwnChain(c) && UnhookedBefore(lines, c, j)
    ensures !Referenced(Cleaned(k, lines, j + 1), c)
  {
    var before := Cleaned(k, lines, j + 1);
    if Referenced(before, c) {
      CleanedTidy(k, lines, j + 1);
      var d :| d in before.chains && d.family == c.family && d.table == c.table && JumpsTo(before.chains[d], c.name);
      var r :| r in before.chains[d] && JumpOf(r) == Some(c.name);
      assert ChainTidy(d, before.chains[d]);
      assert Delete(d, r) in Commands(lines[..j]);
      var i :| 0 <= i < j && lines[i].cmd == Delete(d, r);
      HookGone(k, lines, d, r, i, j + 1);
      assert false;
    }
  }

  lemma {:induction false} ChainGone(k: Kernel, lines: seq<Line>, c: ChainId, j: nat, n: nat)
    requires Tidy(k) && Shrinking(lines) && j + 2 <= n <= |lines| && OwnChain(c) && UnhookedBefore(lines, c, j)
    requires lines[j].cmd == Flush(c) && lines[j + 1].cmd == DropChain(c)
    ensures c !in Cleaned(k, lines, n).chains
  {
    CleanedStep(k, lines, n - 1);
    assert ShrinkingAt(lines, n - 1);
    if j + 2 < n {
      ChainGone(k, lines, c, j, n - 1);
    } else {
      CleanedStep(k, lines, j);
      Unreferenced(k, lines, c, j);
    }
  }

  lemma {:induction false} PolicyGone(k: Kernel, lines: seq<Line>, id: PolicyId, i: nat, n: nat)
    requires Tidy(k) && Shrinking(lines) && i < n <= |lines| && lines[i].cmd == DelPolicy(id, EntryFor(id.kind))
    ensures id in Cleaned(k, lines, n).policy ==> EntryFor(id.kind) !in Cleaned(k, lines, n).policy[id]
  {
    var before := Cleaned(k, lines, n - 1);
    CleanedStep(k, lines, n - 1);
    assert ShrinkingAt(lines, n - 1);
    var cmd := lines[n - 1].cmd;
    if i == n - 1 {
      CleanedTidy(k, lines, n - 1);
      if id in before.policy && EntryFor(id.kind) in before.policy[id] {
        assert PolicyTidy(id, before.policy[id]);
      }
    } else {
      PolicyGone(k, lines, id, i, n - 1);
      if cmd.DelPolicy? && cmd.id in before.policy {
        RemoveFirstKeeps(before.policy[cmd.id], cmd.entry, EntryFor(id.kind));
      }
    }
  }

  /** The lines take away every hook, then every chain, and every policy entry. */
  ghost predicate Thorough(lines: seq<Line>) {
    && Shrinking(lines)
    && (forall c, r :: IsHook(c, r) ==> Delete(c, r) in Commands(lines))
    && (forall c :: OwnChain(c) ==> exists j :: 0 <= j < |lines| - 1 && DropsAt(lines, c, j))
    && (forall id: PolicyId :: DelPolicy(id, EntryFor(id.kind)) in Commands(lines))
  }

  ghost predicate DropsAt(lines: seq<Line>, c: ChainId, j: nat)
    requires j + 1 < |lines|
  {
    lines[j].cmd == Flush(c) && lines[j + 1].cmd == DropChain(c) && UnhookedBefore(lines, c, j)
  }

  lemma ThoroughLeavesNothing(k: Kernel, lines: seq<Line>)
    requires Tidy(k) && Thorough(lines)
    ensures VproxyFree(Cleaned(k, lines, |lines|))
  {
    var n := |lines|;
    var k' := Cleaned(k, lines, n);
    CleanedTidy(k, lines, n);
    forall c | c in k'.chains
      ensures !IsOwn(c.name) && forall r :: r in k'.chains[c] ==> !OwnRule(r)
    {
      assert ChainTidy(c, k'.chains[c]);
      if IsOwn(c.name) {
        var j :| 0 <= j < n - 1 && DropsAt(lines, c, j);
        ChainGone(k, lines, c, j, n);
        assert false;
      }
      forall r | r in k'.chains[c]
        ensures !OwnRule(r)
      {
        if OwnRule(r) {
          assert Delete(c, r) in Commands(lines);
          var i :| 0 <= i < n && lines[i].cmd == Delete(c, r);
          HookGone(k, lines, c, r, i, n);
          assert false;
        }
      }
    }
    forall id, e | id in k'.policy && e in k'.policy[id]
      ensures !OwnPolicy(e)
    {
      assert PolicyTidy(id, k'.policy[id]);
      assert DelPolicy(id, EntryFor(id.kind)) in Commands(lines);
      var i :| 0 <= i < n && lines[i].cmd == DelPolicy(id, EntryFor(id.kind));
      PolicyGone(k, lines, id, i, n);
    }
  }

  lemma CleanupShrinks()
    ensures Shrinking(CleanupLines())
  {
  }

  lemma CleanupUnhooks()
    ensures forall c, r :: IsHook(c, r) ==> Delete(c, r) in Commands(CleanupLines()[..12])
    ensures forall c, r :: IsHook(c, r) && c.table == Nat ==> Delete(c, r) in Commands(CleanupLines()[..4])
  {
    var lines := CleanupLines();
    forall c, r | IsHook(c, r)
      ensures Delete(c, r) in Commands(lines[..12])
      ensures c.table == Nat ==> Delete(c, r) in Commands(lines[..4])
    {
      var i := if c.table == Nat then (if r == TCP_HOOK then 0 else 2) + (if c.family == Inet then 0 else 1)
               else (if r == MARK_HOOK then 8 else 9) + (if c.family == Inet then 0 else 2);
      assert lines[i].cmd == Delete(c, r);
      assert lines[i] in lines[..12] && (i < 4 ==> lines[i] in lines[..4]);
    }
  }

  lemma CleanupDrops(c: ChainId)
    requires OwnChain(c)
    ensures exists j :: 0 <= j < |CleanupLines()| - 1 && DropsAt(CleanupLines(), c, j)
  {
    var lines := CleanupLines();
    var j := (if c.name == VproxyRedirect then 4 else if c.name == VproxyMark then 12 else 16)
             + if c.family == Inet then 0 else 2;
    assert lines[j].cmd == Flush(c) && lines[j + 1].cmd == DropChain(c);
    CleanupUnhooks();
    forall d, r | IsHook(d, r) && d.table == c.table
      ensures Delete(d, r) in Commands(lines[..j])
    {
      var m := if c.table == Nat then 4 else 12;
      assert Delete(d, r) in Commands(lines[..m]);
      var line :| line in lines[..m] && line.cmd == Delete(d, r);
      assert lines[..m] <= lines[..j];
      assert line in lines[..j];
    }
    assert DropsAt(lines, c, j);
  }

  lemma CleanupUnroutes(id: PolicyId)
    ensures DelPolicy(id, EntryFor(id.kind)) in Commands(CleanupLines())
  {
    var i := 20 + (if id.family == Inet then 0 else 2) + if id.kind == RuleList then 0 else 1;
    assert CleanupLines()[i].cmd == DelPolicy(id, EntryFor(id.kind));
    assert CleanupLines()[i] in CleanupLines();
  }

  lemma CommandsOfPrefix(lines: seq<Line>, n: nat)
    requires n <= |lines|
    ensures Commands(lines[..n]) <= Commands(lines)
  {
  }

  lemma CleanupIsThorough(lines: seq<Line>)
    requires lines == CleanupLines()
    ensures Thorough(lines)
  {
    CleanupShrinks();
    CleanupUnhooks();
    CommandsOfPrefix(lines, 12);
    forall c | OwnChain(c)
      ensures exists j :: 0 <= j < |lines| - 1 && DropsAt(lines, c, j)
    {
      CleanupDrops(c);
    }
    forall id: PolicyId
      ensures DelPolicy(id, EntryFor(id.kind)) in Commands(lines)
    {
      CleanupUnroutes(id);
    }
  }

  lemma FreeIsForeign(k: Kernel)
    requires VproxyFree(k)
    ensures Foreign(k) == k && Tidy(k)
  {
    forall c | c in k.chains
      ensures Strip(k.chains[c], OwnRule) == k.chains[c]
    {
      StripNothing(k.chains[c], OwnRule);
    }
    forall id | id in k.policy
      ensures Strip(k.policy[id], OwnPolicy) == k.policy[id]
    {
      StripNothing(k.policy[id], OwnPolicy);
    }
  }

  /** From any kernel whose vproxy entries, if any, are in order, any sequence of SetupRules runs in either mode,
      each cut off anywhere, followed by CleanupRules, leaves exactly what is not vproxy's, in its place and order. */
  lemma CleanupLeavesForeign(k: Kernel, runs: seq<SetupRun>)
    requires Tidy(k)
    ensures RunLines(RunSetups(k, runs), CleanupLines()) == (Foreign(k), true)
  {
    var lines := CleanupLines();
    var dirty := RunSetups(k, runs);
    SetupsStayTidy(k, runs);
    CleanupIsThorough(lines);
    CleanedTidy(dirty, lines, |lines|);
    ThoroughLeavesNothing(dirty, lines);
    FreeIsForeign(Cleaned(dirty, lines, |lines|));
    CleanedStep(dirty, lines, |lines|);
    assert lines[..|lines|] == lines;
  }

  /** So the kernel it started from comes back if and only if that had no entry that looks like vproxy's. */
  lemma CleanupRestores(k: Kernel, runs: seq<SetupRun>)
    requires Tidy(k) || VproxyFree(k)
    ensures RunLines(RunSetups(k, runs), CleanupLines()) == (k, true) <==> VproxyFree(k)
  {
    if VproxyFree(k) {
      FreeIsForeign(k);
    }
    CleanupLeavesForeign(k, runs);
    if Foreign(k) == k {
      ForeignIsFree(k);
    }
  }

  lemma ForeignIsFree(k: Kernel)
    requires Foreign(k) == k
    ensures VproxyFree(k)
  {
    forall c | c in k.chains
      ensures !IsOwn(c.name) && forall r :: r in k.chains[c] ==> !OwnRule(r)
    {
      assert c in Foreign(k).chains;
      StripsAll(k.chains[c], OwnRule);
    }
    forall id | id in k.policy
      ensures forall e :: e in k.policy[id] ==> !OwnPolicy(e)
    {
      assert Foreign(k).policy[id] == k.policy[id];
      StripsAll(k.policy[id], OwnPolicy);
    }
  }

  lemma {:induction false} StripsAll<T>(s: seq<T>, own: T -> bool)
    ensures forall x :: x in Strip(s, own) ==> !own(x)
  {
    if s != [] {
      StripsAll(s[1..], own);
    }
  }

  /** Another transparent proxy's policy rule for mark 1 is the same as vproxy's: setting up tolerates it, cleaning
      up takes it away. */
  lemma OtherProxyLosesItsRule(runs: seq<SetupRun>)
    ensures var id := PolicyId(Inet, RuleList);
            var k := Kernel(map[], map[id := [ForeignPolicy("from all lookup local"), EntryFor(RuleList)]]);
            && Tidy(k)
            && RunLines(RunSetups(k, runs), CleanupLines())
               == (Kernel(map[], map[id := [ForeignPolicy("from all lookup local")]]), true)
  {
    var id, other := PolicyId(Inet, RuleList), ForeignPolicy("from all lookup local");
    var k := Kernel(map[], map[id := [other, EntryFor(RuleList)]]);
    TwoEntries(other, EntryFor(RuleList), OwnPolicy);
    assert PolicyTidy(id, k.policy[id]);
    CleanupLeavesForeign(k, runs);
    assert Foreign(k).policy == map[id := [other]];
  }

  lemma TwoEntries<T>(x: T, y: T, own: T -> bool)
    requires !own(x) && own(y)
    ensures Strip([x, y], own) == [x] && AtMostOnce([x, y], y)
  {
    var two, one, none: seq<T> := [x, y], [y], [];
    assert two[1..] == one && one[1..] == none;
    assert Strip(one, own) == Strip(none, own) == none;
    assert RemoveFirst(one, y) == none;
    assert RemoveFirst(two, y) == [x] + none;
  }

  /** The machine whose tables the commands change. */
  class Host {
    var kernel: Kernel

    constructor (kernel: Kernel)
      ensures this.kernel == kernel
    {
      this.kernel := kernel;
    }

    /** Runs one shell line and reports its exit status. */
    method Execute(line: Line) returns (ok: bool)
      modifies this
      ensures kernel == Step(old(kernel), line.cmd) && ok == Succeeds(old(kernel), line)
    {
      ok := line.tolerant;
      match Exec(kernel, line.cmd) {
        case Some(k) => kernel, ok := k, true;
        case None =>
      }
    }

    method SetupRules(target: string, isRemoteTProxy: bool) returns (ok: bool)
      modifies this
      ensures (kernel, ok) == RunLines(old(kernel), SetupLines(target, isRemoteTProxy))
    {
      var cmds := PreludeLines(Nat, VproxyRedirect);
      if isRemoteTProxy {
        var targetPort := AfterLastColon(target);
        cmds := cmds + BothLines(Nat, VproxyRedirect, Divert(Tcp, DnatTo(target)), Divert(Tcp, RedirectTo(targetPort)));
        cmds := cmds + BothLines(Nat, VproxyRedirect, Divert(Udp, DnatTo(target)), Divert(Udp, RedirectTo(targetPort)));
        cmds := cmds + HookLines(Nat, Output, TCP_HOOK);
        cmds := cmds + HookLines(Nat, Output, UDP_HOOK);
      } else {
        cmds := cmds + BothLines(Nat, VproxyRedirect, Divert(Tcp, RedirectTo(target)), Divert(Tcp, RedirectTo(target)));
        cmds := cmds + HookLines(Nat, Output, TCP_HOOK);
        cmds := cmds + PolicyLines();
        cmds := cmds + MarkLines();
        cmds := cmds + TproxyLines(target);
      }
      ok := RunUntilFailure(cmds);
    }

    method RunUntilFailure(cmds: seq<Line>) returns (ok: bool)
      modifies this
      ensures (kernel, ok) == RunLines(old(kernel), cmds)
    {
      ok := true;
      for i := 0 to |cmds|
        invariant ok && (kernel, ok) == RunLines(old(kernel), cmds[..i])
      {
        RunSnoc(old(kernel), cmds[..i], cmds[i]);
        assert cmds[..i + 1] == cmds[..i] + [cmds[i]];
        ok := Execute(cmds[i]);
        if !ok {
          StopsThere(old(kernel), cmds, i + 1);
          return;
        }
      }
      assert cmds[..|cmds|] == cmds;
    }

    /** Exit statuses are ignored; every command tolerates failure anyway. */
    method CleanupRules()
      modifies this
      ensures (kernel, true) == RunLines(old(kernel), CleanupLines())
    {
      var cmds := CleanupLines();
      CleanupShrinks();
      for i := 0 to |cmds|
        invariant (kernel, true) == RunLines(old(kernel), cmds[..i])
      {
        RunSnoc(old(kernel), cmds[..i], cmds[i]);
        assert cmds[..i + 1] == cmds[..i] + [cmds[i]];
        assert ShrinkingAt(cmds, i);
        var _ := Execute(cmds[i]);
      }
      assert cmds[..|cmds|] == cmds;
    }
  }

  lemma {:induction false} StopsThere(k: Kernel, lines: seq<Line>, n: nat)
    requires n <= |lines| && !RunLines(k, lines[..n]).1
    ensures RunLines(k, lines) == RunLines(k, lines[..n])
  {
    RunConcat(k, lines[..n], lines[n..]);
    assert lines[..n] + lines[n..] == lines;
  }
}
