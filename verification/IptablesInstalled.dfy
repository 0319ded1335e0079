/** What a complete SetupRules leaves in each chain, and that repeating it changes nothing. */
module IptablesInstalled {
  import opened Bytes
  import opened Addresses
  import opened RedirectHooks
  import opened NetfilterKernel
  import opened IptablesRules

  // ----- the effect of a program on one chain and on one policy list -----

  function At(k: Kernel, c: ChainId): Option<seq<Rule>> {
    if c in k.chains then Some(k.chains[c]) else None
  }

  function ChainStep(o: Option<seq<Rule>>, c: ChainId, cmd: Command): Option<seq<Rule>> {
    match cmd
    case NewChain(d) => if d == c && o.None? then Some([]) else o
    case Flush(d) => if d == c && o.Some? then Some([]) else o
    case Append(d, r) => if d == c && o.Some? then Some(o.value + [r]) else o
    case Delete(d, r) => if d == c && o.Some? then Some(RemoveFirst(o.value, r)) else o
    case _ => o
  }

  function Fold(o: Option<seq<Rule>>, c: ChainId, lines: seq<Line>): Option<seq<Rule>> {
    if lines == [] then o else ChainStep(Fold(o, c, lines[..|lines| - 1]), c, lines[|lines| - 1].cmd)
  }

  lemma FoldSnoc(o: Option<seq<Rule>>, c: ChainId, lines: seq<Line>, line: Line)
    ensures Fold(o, c, lines + [line]) == ChainStep(Fold(o, c, lines), c, line.cmd)
  {
    assert (lines + [line])[..|lines + [line]| - 1] == lines;
  }

  lemma {:induction false} FoldConcat(o: Option<seq<Rule>>, c: ChainId, a: seq<Line>, b: seq<Line>)
    ensures Fold(o, c, a + b) == Fold(Fold(o, c, a), c, b)
  {
    if b == [] {
      assert a + b == a;
    } else {
      var n := |b| - 1;
      assert a + b == (a + b[..n]) + [b[n]];
      FoldSnoc(o, c, a + b[..n], b[n]);
      FoldConcat(o, c, a, b[..n]);
    }
  }

  lemma FoldTwo(o: Option<seq<Rule>>, c: ChainId, l0: Line, l1: Line)
    ensures Fold(o, c, [l0, l1]) == ChainStep(ChainStep(o, c, l0.cmd), c, l1.cmd)
  {
    assert [l0] == [] + [l0] && [l0, l1] == [l0] + [l1];
    FoldSnoc(o, c, [], l0);
    FoldSnoc(o, c, [l0], l1);
  }

  lemma FoldFour(o: Option<seq<Rule>>, c: ChainId, l0: Line, l1: Line, l2: Line, l3: Line)
    ensures Fold(o, c, [l0, l1, l2, l3]) ==
        ChainStep(ChainStep(ChainStep(ChainStep(o, c, l0.cmd), c, l1.cmd), c, l2.cmd), c, l3.cmd)
  {
    FoldTwo(o, c, l0, l1);
    assert [l0, l1, l2] == [l0, l1] + [l2] && [l0, l1, l2, l3] == [l0, l1, l2] + [l3];
    FoldSnoc(o, c, [l0, l1], l2);
    FoldSnoc(o, c, [l0, l1, l2], l3);
  }

  // ----- every command of a complete setup succeeds -----

  /** The chains known to exist before line i: the given ones and those created on the way. */
  ghost function Known(given: set<ChainId>, lines: seq<Line>, i: nat): set<ChainId>
    requires i <= |lines|
  {
    given + set j | 0 <= j < i && lines[j].cmd.NewChain? :: lines[j].cmd.c
  }

  ghost predicate ReadyAt(given: set<ChainId>, lines: seq<Line>, i: nat)
    requires i < |lines|
  {
    var cmd := lines[i].cmd;
    match cmd
    case Flush(c) => c in Known(given, lines, i)
    case Append(c, r) =>
      c in Known(given, lines, i) && (JumpOf(r).Some? ==> c.(name := JumpOf(r).value) in Known(given, lines, i))
    case DropChain(_) => false
    case DelPolicy(_, _) => false
    case _ => lines[i].tolerant
  }

  ghost predicate Ready(given: set<ChainId>, lines: seq<Line>) {
    forall i :: 0 <= i < |lines| ==> ReadyAt(given, lines, i)
  }

  lemma ReadyConcat(given: set<ChainId>, a: seq<Line>, given': set<ChainId>, b: seq<Line>)
    requires Ready(given, a) && Ready(given', b) && given' <= Known(given, a, |a|)
    ensures Ready(given, a + b) && Known(given', b, |b|) <= Known(given, a + b, |a + b|)
    ensures Known(given, a, |a|) <= Known(given, a + b, |a + b|)
  {
    forall i | 0 <= i < |a + b|
      ensures ReadyAt(given, a + b, i)
    {
      if i < |a| {
        assert ReadyAt(given, a, i);
        assert forall j | 0 <= j < i :: (a + b)[j] == a[j];
        assert Known(given, a, i) <= Known(given, a + b, i);
      } else {
        assert ReadyAt(given', b, i - |a|);
        KnownLater(given, a, given', b, i - |a|);
      }
    }
    KnownLater(given, a, given', b, |b|);
  }

  lemma KnownLater(given: set<ChainId>, a: seq<Line>, given': set<ChainId>, b: seq<Line>, i: nat)
    requires i <= |b| && given' <= Known(given, a, |a|)
    ensures Known(given', b, i) <= Known(given, a + b, |a| + i)
    ensures Known(given, a, |a|) <= Known(given, a + b, |a| + i)
  {
    assert forall j | 0 <= j < |a| :: (a + b)[j] == a[j];
    assert forall j | 0 <= j < |b| :: (a + b)[|a| + j] == b[j];
    forall c | c in Known(given', b, i)
      ensures c in Known(given, a + b, |a| + i)
    {
      if c !in given' {
        var j :| 0 <= j < i && b[j].cmd.NewChain? && b[j].cmd.c == c;
        assert (a + b)[|a| + j].cmd.c == c;
      } else if c !in given {
        var j :| 0 <= j < |a| && a[j].cmd.NewChain? && a[j].cmd.c == c;
        assert (a + b)[j].cmd.c == c;
      }
    }
  }

  lemma StepFollowsChain(k: Kernel, line: Line, c: ChainId)
    requires !line.cmd.DropChain? && (line.cmd.Append? ==> Exec(k, line.cmd).Some?)
    ensures At(Step(k, line.cmd), c) == ChainStep(At(k, c), c, line.cmd)
  {
    if line.cmd.Delete? && line.cmd.c in k.chains {
      RemoveFirstKeeps(k.chains[line.cmd.c], line.cmd.r, line.cmd.r);
    }
  }

  lemma {:induction false} ReadyRun(k: Kernel, given: set<ChainId>, lines: seq<Line>)
    requires given <= k.chains.Keys && Ready(given, lines)
    ensures RunLines(k, lines).1
    ensures Known(given, lines, |lines|) <= RunLines(k, lines).0.chains.Keys
    ensures forall c :: At(RunLines(k, lines).0, c) == Fold(At(k, c), c, lines)
  {
    if lines == [] {
      assert Known(given, lines, 0) == given;
    } else {
      var n := |lines| - 1;
      var before, line := lines[..n], lines[n];
      assert lines == before + [line];
      forall i | 0 <= i < n
        ensures ReadyAt(given, before, i)
      {
        assert ReadyAt(given, lines, i);
        assert Known(given, before, i) == Known(given, lines, i);
      }
      ReadyRun(k, given, before);
      RunSnoc(k, before, line);
      assert ReadyAt(given, lines, n);
      assert Known(given, before, n) == Known(given, lines, n);
      var k' := RunLines(k, before).0;
      forall c
        ensures At(Step(k', line.cmd), c) == ChainStep(At(k', c), c, line.cmd)
      {
        StepFollowsChain(k', line, c);
      }
      KnownGrows(given, lines, n, Step(k', line.cmd));
    }
  }

  lemma KnownGrows(given: set<ChainId>, lines: seq<Line>, n: nat, k: Kernel)
    requires n == |lines| - 1 && Known(given, lines, n) <= k.chains.Keys
    requires lines[n].cmd.NewChain? ==> lines[n].cmd.c in k.chains
    ensures Known(given, lines, n + 1) <= k.chains.Keys
  {
    forall c | c in Known(given, lines, n + 1)
      ensures c in k.chains
    {
      if c !in Known(given, lines, n) {
        var j :| 0 <= j < n + 1 && lines[j].cmd.NewChain? && lines[j].cmd.c == c;
        assert j == n;
      }
    }
  }

  // ----- what is installed where -----

  predicate On(c: ChainId, t: Table, n: ChainName) {
    c.table == t && c.name == n
  }

  /** The rules that let marked and local traffic return. */
  function SkipRules(f: Family): seq<Rule> {
    match f
    case Inet => [SKIP_MARKED, SKIP_LOOPBACK, SKIP_TEN, SKIP_172, SKIP_192, SKIP_LINK_LOCAL]
    case Inet6 => [SKIP_MARKED, SKIP_LOOPBACK6, SKIP_ULA6, SKIP_LINK_LOCAL6]
  }

  function Rehooked(o: Option<seq<Rule>>, hook: Rule): Option<seq<Rule>> {
    match o
    case None => None
    case Some(rs) => Some(RemoveFirst(rs, hook) + [hook])
  }

  function LocalInstalled(o: Option<seq<Rule>>, c: ChainId, target: string): Option<seq<Rule>> {
    if On(c, Nat, VproxyRedirect) then Some(SkipRules(c.family) + [Divert(Tcp, RedirectTo(target))])
    else if On(c, Mangle, VproxyMark) then Some(SkipRules(c.family) + [MARK_ONE])
    else if On(c, Mangle, VproxyTproxy) then Some([Catch(target, if c.family == Inet then LOCALHOST4 else LOCALHOST6)])
    else if On(c, Nat, Output) then Rehooked(o, TCP_HOOK)
    else if On(c, Mangle, Output) then Rehooked(o, MARK_HOOK)
    else if On(c, Mangle, Prerouting) then Rehooked(o, TPROXY_HOOK)
    else o
  }

  function RemoteInstalled(o: Option<seq<Rule>>, c: ChainId, target: string): Option<seq<Rule>> {
    if On(c, Nat, VproxyRedirect) then
      var to := if c.family == Inet then DnatTo(target) else RedirectTo(AfterLastColon(target));
      Some(SkipRules(c.family) + [Divert(Tcp, to)] + [Divert(Udp, to)])
    else if On(c, Nat, Output) then Rehooked(Rehooked(o, TCP_HOOK), UDP_HOOK)
    else o
  }

  function Installed(o: Option<seq<Rule>>, c: ChainId, target: string, remote: bool): Option<seq<Rule>> {
    if remote then RemoteInstalled(o, c, target) else LocalInstalled(o, c, target)
  }

  lemma CreateEffect(o: Option<seq<Rule>>, c: ChainId, t: Table, n: ChainName)
    ensures Fold(o, c, CreateLines(t, n)) == if On(c, t, n) then Some([]) else o
  {
    assert c.family == Inet || c.family == Inet6;
    FoldFour(o, c, New(Inet, t, n), Clear(Inet, t, n), New(Inet6, t, n), Clear(Inet6, t, n));
  }

  lemma HookEffect(o: Option<seq<Rule>>, c: ChainId, t: Table, n: ChainName, hook: Rule)
    ensures Fold(o, c, HookLines(t, n, hook)) == if On(c, t, n) then Rehooked(o, hook) else o
  {
    assert c.family == Inet || c.family == Inet6;
    FoldFour(o, c, Del(Inet, t, n, hook), Add(Inet, t, n, hook), Del(Inet6, t, n, hook), Add(Inet6, t, n, hook));
  }

  lemma BothEffect(o: Option<seq<Rule>>, c: ChainId, t: Table, n: ChainName, r4: Rule, r6: Rule)
    ensures Fold(o, c, BothLines(t, n, r4, r6)) ==
            if On(c, t, n) && o.Some? then Some(o.value + [if c.family == Inet then r4 else r6]) else o
  {
    FoldTwo(o, c, Add(Inet, t, n, r4), Add(Inet6, t, n, r6));
  }

  lemma SkipV4Effect(o: Option<seq<Rule>>, c: ChainId, t: Table, n: ChainName)
    ensures Fold(o, c, SkipV4Lines(t, n)) ==
            if On(c, t, n) && c.family == Inet && o.Some?
            then Some(o.value + [SKIP_LOOPBACK] + [SKIP_TEN] + [SKIP_172] + [SKIP_192] + [SKIP_LINK_LOCAL]) else o
  {
    var ls := SkipV4Lines(t, n);
    FoldFour(o, c, ls[0], ls[1], ls[2], ls[3]);
    assert ls == [ls[0], ls[1], ls[2], ls[3]] + [ls[4]];
    FoldSnoc(o, c, [ls[0], ls[1], ls[2], ls[3]], ls[4]);
  }

  lemma SkipV6Effect(o: Option<seq<Rule>>, c: ChainId, t: Table, n: ChainName)
    ensures Fold(o, c, SkipV6Lines(t, n)) ==
            if On(c, t, n) && c.family == Inet6 && o.Some?
            then Some(o.value + [SKIP_LOOPBACK6] + [SKIP_ULA6] + [SKIP_LINK_LOCAL6]) else o
  {
    var ls := SkipV6Lines(t, n);
    FoldTwo(o, c, ls[0], ls[1]);
    assert ls == [ls[0], ls[1]] + [ls[2]];
    FoldSnoc(o, c, [ls[0], ls[1]], ls[2]);
  }

  lemma PreludeEffect(o: Option<seq<Rule>>, c: ChainId, t: Table, n: ChainName)
    ensures Fold(o, c, PreludeLines(t, n)) == if On(c, t, n) then Some(SkipRules(c.family)) else o
  {
    var l1, l2, l3, l4 := CreateLines(t, n), SkipMarkedLines(t, n), SkipV4Lines(t, n), SkipV6Lines(t, n);
    FoldConcat(o, c, l1 + l2 + l3, l4);
    FoldConcat(o, c, l1 + l2, l3);
    FoldConcat(o, c, l1, l2);
    CreateEffect(o, c, t, n);
    BothEffect(Fold(o, c, l1), c, t, n, SKIP_MARKED, SKIP_MARKED);
    SkipV4Effect(Fold(o, c, l1 + l2), c, t, n);
    SkipV6Effect(Fold(o, c, l1 + l2 + l3), c, t, n);
    assert SkipRules(Inet) == [] + [SKIP_MARKED] + [SKIP_LOOPBACK]
                              + [SKIP_TEN] + [SKIP_172] + [SKIP_192] + [SKIP_LINK_LOCAL];
    assert SkipRules(Inet6) == [] + [SKIP_MARKED] + [SKIP_LOOPBACK6] + [SKIP_ULA6] + [SKIP_LINK_LOCAL6];
  }

  lemma PolicyEffect(o: Option<seq<Rule>>, c: ChainId)
    ensures Fold(o, c, PolicyLines()) == o
  {
    var ls := PolicyLines();
    FoldFour(o, c, ls[0], ls[1], ls[2], ls[3]);
  }

  lemma RemoteEffect(o: Option<seq<Rule>>, c: ChainId, target: string)
    ensures Fold(o, c, RemoteLines(target)) == RemoteInstalled(o, c, target)
  {
    var port := AfterLastColon(target);
    var l1 := PreludeLines(Nat, VproxyRedirect);
    var l2 := BothLines(Nat, VproxyRedirect, Divert(Tcp, DnatTo(target)), Divert(Tcp, RedirectTo(port)));
    var l3 := BothLines(Nat, VproxyRedirect, Divert(Udp, DnatTo(target)), Divert(Udp, RedirectTo(port)));
    var l4, l5 := HookLines(Nat, Output, TCP_HOOK), HookLines(Nat, Output, UDP_HOOK);
    FoldConcat(o, c, l1 + l2 + l3 + l4, l5);
    FoldConcat(o, c, l1 + l2 + l3, l4);
    FoldConcat(o, c, l1 + l2, l3);
    FoldConcat(o, c, l1, l2);
    PreludeEffect(o, c, Nat, VproxyRedirect);
    BothEffect(Fold(o, c, l1), c, Nat, VproxyRedirect, Divert(Tcp, DnatTo(target)), Divert(Tcp, RedirectTo(port)));
    BothEffect(Fold(o, c, l1 + l2), c, Nat, VproxyRedirect, Divert(Udp, DnatTo(target)), Divert(Udp, RedirectTo(port)));
    HookEffect(Fold(o, c, l1 + l2 + l3), c, Nat, Output, TCP_HOOK);
    HookEffect(Fold(o, c, l1 + l2 + l3 + l4), c, Nat, Output, UDP_HOOK);
  }

  lemma LocalNatEffect(o: Option<seq<Rule>>, c: ChainId, target: string)
    ensures Fold(o, c, LocalNatLines(target)) ==
            if On(c, Nat, VproxyRedirect) then Some(SkipRules(c.family) + [Divert(Tcp, RedirectTo(target))])
            else if On(c, Nat, Output) then Rehooked(o, TCP_HOOK) else o
  {
    var l1 := PreludeLines(Nat, VproxyRedirect);
    var l2 := BothLines(Nat, VproxyRedirect, Divert(Tcp, RedirectTo(target)), Divert(Tcp, RedirectTo(target)));
    var l3 := HookLines(Nat, Output, TCP_HOOK);
    FoldConcat(o, c, l1 + l2, l3);
    FoldConcat(o, c, l1, l2);
    PreludeEffect(o, c, Nat, VproxyRedirect);
    BothEffect(Fold(o, c, l1), c, Nat, VproxyRedirect,
               Divert(Tcp, RedirectTo(target)), Divert(Tcp, RedirectTo(target)));
    HookEffect(Fold(o, c, l1 + l2), c, Nat, Output, TCP_HOOK);
  }

  lemma MarkEffect(o: Option<seq<Rule>>, c: ChainId)
    ensures Fold(o, c, MarkLines()) ==
            if On(c, Mangle, VproxyMark) then Some(SkipRules(c.family) + [MARK_ONE])
            else if On(c, Mangle, Output) then Rehooked(o, MARK_HOOK) else o
  {
    var l1 := PreludeLines(Mangle, VproxyMark);
    var l2 := BothLines(Mangle, VproxyMark, MARK_ONE, MARK_ONE);
    var l3 := HookLines(Mangle, Output, MARK_HOOK);
    FoldConcat(o, c, l1 + l2, l3);
    FoldConcat(o, c, l1, l2);
    PreludeEffect(o, c, Mangle, VproxyMark);
    BothEffect(Fold(o, c, l1), c, Mangle, VproxyMark, MARK_ONE, MARK_ONE);
    HookEffect(Fold(o, c, l1 + l2), c, Mangle, Output, MARK_HOOK);
  }

  lemma TproxyEffect(o: Option<seq<Rule>>, c: ChainId, target: string)
    ensures Fold(o, c, TproxyLines(target)) ==
            if On(c, Mangle, VproxyTproxy)
              then Some([Catch(target, if c.family == Inet then LOCALHOST4 else LOCALHOST6)])
            else if On(c, Mangle, Prerouting) then Rehooked(o, TPROXY_HOOK) else o
  {
    var l1 := CreateLines(Mangle, VproxyTproxy);
    var l2 := BothLines(Mangle, VproxyTproxy, Catch(target, LOCALHOST4), Catch(target, LOCALHOST6));
    var l3 := HookLines(Mangle, Prerouting, TPROXY_HOOK);
    FoldConcat(o, c, l1 + l2, l3);
    FoldConcat(o, c, l1, l2);
    CreateEffect(o, c, Mangle, VproxyTproxy);
    BothEffect(Fold(o, c, l1), c, Mangle, VproxyTproxy, Catch(target, LOCALHOST4), Catch(target, LOCALHOST6));
    HookEffect(Fold(o, c, l1 + l2), c, Mangle, Prerouting, TPROXY_HOOK);
    assert forall r: Rule :: [] + [r] == [r];
  }

  lemma LocalEffect(o: Option<seq<Rule>>, c: ChainId, target: string)
    ensures Fold(o, c, LocalLines(target)) == LocalInstalled(o, c, target)
  {
    var l1, l2, l3, l4 := LocalNatLines(target), PolicyLines(), MarkLines(), TproxyLines(target);
    FoldConcat(o, c, l1 + l2 + l3, l4);
    FoldConcat(o, c, l1 + l2, l3);
    FoldConcat(o, c, l1, l2);
    LocalNatEffect(o, c, target);
    PolicyEffect(Fold(o, c, l1), c);
    MarkEffect(Fold(o, c, l1 + l2), c);
    TproxyEffect(Fold(o, c, l1 + l2 + l3), c, target);
  }

  // ----- readiness of the programs -----

  function Both(t: Table, n: ChainName): set<ChainId> {
    {ChainId(Inet, t, n), ChainId(Inet6, t, n)}
  }

  const BUILTINS: set<ChainId> := Both(Nat, Output) + Both(Mangle, Output) + Both(Mangle, Prerouting)

  lemma CreateReady(given: set<ChainId>, t: Table, n: ChainName)
    ensures Ready(given, CreateLines(t, n)) && given + Both(t, n) <= Known(given, CreateLines(t, n), 4)
  {
    var ls := CreateLines(t, n);
    assert ls[0].cmd == NewChain(ChainId(Inet, t, n)) && ls[2].cmd == NewChain(ChainId(Inet6, t, n));
    assert ChainId(Inet, t, n) in Known(given, ls, 1);
    assert ChainId(Inet6, t, n) in Known(given, ls, 3);
  }

  lemma AppendsReady(given: set<ChainId>, lines: seq<Line>)
    requires forall i :: 0 <= i < |lines| ==>
      lines[i].cmd.Append? && lines[i].cmd.c in given && JumpOf(lines[i].cmd.r).None?
    ensures Ready(given, lines)
  {
  }

  lemma PreludeReady(given: set<ChainId>, t: Table, n: ChainName)
    ensures Ready(given, PreludeLines(t, n))
    ensures given + Both(t, n) <= Known(given, PreludeLines(t, n), |PreludeLines(t, n)|)
  {
    var l1, l2, l3, l4 := CreateLines(t, n), SkipMarkedLines(t, n), SkipV4Lines(t, n), SkipV6Lines(t, n);
    var more := given + Both(t, n);
    CreateReady(given, t, n);
    AppendsReady(more, l2);
    AppendsReady(more, l3);
    AppendsReady(more, l4);
    ReadyConcat(given, l1, more, l2);
    ReadyConcat(given, l1 + l2, more, l3);
    ReadyConcat(given, l1 + l2 + l3, more, l4);
  }

  lemma BothReady(given: set<ChainId>, a: seq<Line>, more: set<ChainId>, t: Table, n: ChainName, r4: Rule, r6: Rule)
    requires Ready(given, a) && more <= Known(given, a, |a|) && Both(t, n) <= more
    requires JumpOf(r4).None? && JumpOf(r6).None?
    ensures var b := a + BothLines(t, n, r4, r6); Ready(given, b) && more <= Known(given, b, |b|)
  {
    AppendsReady(more, BothLines(t, n, r4, r6));
    ReadyConcat(given, a, more, BothLines(t, n, r4, r6));
  }

  lemma HookReady(given: set<ChainId>, a: seq<Line>, more: set<ChainId>, t: Table, n: ChainName, hook: Rule)
    requires Ready(given, a) && more <= Known(given, a, |a|)
    requires Both(t, n) <= more && JumpOf(hook).Some? && Both(t, JumpOf(hook).value) <= more
    ensures var b := a + HookLines(t, n, hook); Ready(given, b) && more <= Known(given, b, |b|)
  {
    ReadyConcat(given, a, more, HookLines(t, n, hook));
  }

  lemma RemoteReady(target: string)
    ensures Ready(BUILTINS, RemoteLines(target))
  {
    var port := AfterLastColon(target);
    var more := BUILTINS + Both(Nat, VproxyRedirect);
    var a := PreludeLines(Nat, VproxyRedirect);
    PreludeReady(BUILTINS, Nat, VproxyRedirect);
    BothReady(BUILTINS, a, more, Nat, VproxyRedirect, Divert(Tcp, DnatTo(target)), Divert(Tcp, RedirectTo(port)));
    var b := a + BothLines(Nat, VproxyRedirect, Divert(Tcp, DnatTo(target)), Divert(Tcp, RedirectTo(port)));
    BothReady(BUILTINS, b, more, Nat, VproxyRedirect, Divert(Udp, DnatTo(target)), Divert(Udp, RedirectTo(port)));
    var c := b + BothLines(Nat, VproxyRedirect, Divert(Udp, DnatTo(target)), Divert(Udp, RedirectTo(port)));
    HookReady(BUILTINS, c, more, Nat, Output, TCP_HOOK);
    HookReady(BUILTINS, c + HookLines(Nat, Output, TCP_HOOK), more, Nat, Output, UDP_HOOK);
  }

  lemma LocalNatReady(target: string)
    ensures Ready(BUILTINS, LocalNatLines(target))
    ensures BUILTINS <= Known(BUILTINS, LocalNatLines(target), |LocalNatLines(target)|)
  {
    var more := BUILTINS + Both(Nat, VproxyRedirect);
    var a := PreludeLines(Nat, VproxyRedirect);
    PreludeReady(BUILTINS, Nat, VproxyRedirect);
    BothReady(BUILTINS, a, more, Nat, VproxyRedirect, Divert(Tcp, RedirectTo(target)), Divert(Tcp, RedirectTo(target)));
    HookReady(BUILTINS, a + BothLines(Nat, VproxyRedirect, Divert(Tcp, RedirectTo(target)),
                                      Divert(Tcp, RedirectTo(target))),
              more, Nat, Output, TCP_HOOK);
  }

  lemma MarkReady()
    ensures Ready(BUILTINS, MarkLines()) && BUILTINS <= Known(BUILTINS, MarkLines(), |MarkLines()|)
  {
    var more := BUILTINS + Both(Mangle, VproxyMark);
    var a := PreludeLines(Mangle, VproxyMark);
    PreludeReady(BUILTINS, Mangle, VproxyMark);
    BothReady(BUILTINS, a, more, Mangle, VproxyMark, MARK_ONE, MARK_ONE);
    HookReady(BUILTINS, a + BothLines(Mangle, VproxyMark, MARK_ONE, MARK_ONE), more, Mangle, Output, MARK_HOOK);
  }

  lemma TproxyReady(target: string)
    ensures Ready(BUILTINS, TproxyLines(target))
  {
    var more := BUILTINS + Both(Mangle, VproxyTproxy);
    var a := CreateLines(Mangle, VproxyTproxy);
    CreateReady(BUILTINS, Mangle, VproxyTproxy);
    BothReady(BUILTINS, a, more, Mangle, VproxyTproxy, Catch(target, LOCALHOST4), Catch(target, LOCALHOST6));
    HookReady(BUILTINS, a + BothLines(Mangle, VproxyTproxy, Catch(target, LOCALHOST4), Catch(target, LOCALHOST6)),
              more, Mangle, Prerouting, TPROXY_HOOK);
  }

  lemma LocalReady(target: string)
    ensures Ready(BUILTINS, LocalLines(target))
  {
    var l1, l2, l3, l4 := LocalNatLines(target), PolicyLines(), MarkLines(), TproxyLines(target);
    LocalNatReady(target);
    assert Ready(BUILTINS, l2);
    ReadyConcat(BUILTINS, l1, BUILTINS, l2);
    MarkReady();
    ReadyConcat(BUILTINS, l1 + l2, BUILTINS, l3);
    TproxyReady(target);
    ReadyConcat(BUILTINS, l1 + l2 + l3, BUILTINS, l4);
  }

  /** On a kernel with its built-in chains, a complete SetupRules never fails, and leaves exactly these
      rules in each chain whatever the chains held before. */
  lemma SetupInstalls(k: Kernel, target: string, remote: bool)
    requires BUILTINS <= k.chains.Keys
    ensures RunLines(k, SetupLines(target, remote)).1
    ensures forall c :: At(RunLines(k, SetupLines(target, remote)).0, c) == Installed(At(k, c), c, target, remote)
  {
    if remote { RemoteReady(target); } else { LocalReady(target); }
    ReadyRun(k, BUILTINS, SetupLines(target, remote));
    forall c
      ensures Fold(At(k, c), c, SetupLines(target, remote)) == Installed(At(k, c), c, target, remote)
    {
      if remote { RemoteEffect(At(k, c), c, target); } else { LocalEffect(At(k, c), c, target); }
    }
  }

  // ----- repeating a setup -----

  lemma {:induction false} RemoveThenSnoc(s: seq<Rule>, x: Rule, y: Rule)
    requires x != y
    ensures RemoveFirst(s + [y], x) == RemoveFirst(s, x) + [y]
  {
    if s == [] {
      assert s + [y] == [y] && [y][1..] == [];
    } else {
      assert (s + [y])[1..] == s[1..] + [y];
      RemoveThenSnoc(s[1..], x, y);
    }
  }

  lemma RemoveLast(s: seq<Rule>, x: Rule)
    requires x !in s
    ensures RemoveFirst(s + [x], x) == s
  {
    RemoveFirstOfAppend(s, [x], x);
    assert [x][1..] == [];
  }

  lemma RehookedTwice(o: Option<seq<Rule>>, hook: Rule)
    requires o.Some? ==> AtMostOnce(o.value, hook)
    ensures Rehooked(Rehooked(o, hook), hook) == Rehooked(o, hook)
  {
    if o.Some? {
      RemoveLast(RemoveFirst(o.value, hook), hook);
    }
  }

  lemma TwoHooksTwice(o: Option<seq<Rule>>, t: Rule, u: Rule)
    requires t != u && (o.Some? ==> AtMostOnce(o.value, t) && AtMostOnce(o.value, u))
    ensures var once := Rehooked(Rehooked(o, t), u); Rehooked(Rehooked(once, t), u) == once
  {
    if o.Some? {
      var y := RemoveFirst(o.value, t);
      var b := RemoveFirst(y, u);
      OnceAfterRemove(o.value, t, u);
      RemoveFirstKeeps(y, u, t);
      RemoveThenSnoc(y, u, t);
      assert Rehooked(Rehooked(o, t), u) == Some(b + [t] + [u]);
      RemoveThenSnoc(b + [t], t, u);
      RemoveLast(b, t);
      assert Rehooked(Some(b + [t] + [u]), t) == Some(b + [u] + [t]);
      RemoveThenSnoc(b + [u], u, t);
      RemoveLast(b, u);
    }
  }

  lemma InstalledTwice(o: Option<seq<Rule>>, c: ChainId, target: string, remote: bool)
    requires o.Some? ==> ChainTidy(c, o.value)
    ensures Installed(Installed(o, c, target, remote), c, target, remote) == Installed(o, c, target, remote)
  {
    if o.Some? && IsBuiltin(c.name) {
      forall hook | OwnRule(hook)
        ensures AtMostOnce(o.value, hook)
      {
        if hook !in o.value {
          AbsentIsOnce(o.value, hook);
        }
      }
      RehookedTwice(o, TCP_HOOK);
      RehookedTwice(o, MARK_HOOK);
      RehookedTwice(o, TPROXY_HOOK);
      TwoHooksTwice(o, TCP_HOOK, UDP_HOOK);
    }
  }

  predicate Routed(k: Kernel, cmd: Command) {
    cmd.AddPolicy? && cmd.id in k.policy ==> cmd.entry in k.policy[cmd.id]
  }

  lemma {:induction false} RoutesStay(k: Kernel, lines: seq<Line>)
    requires forall i :: 0 <= i < |lines| ==> !lines[i].cmd.DelPolicy?
    requires RunLines(k, lines).1
    ensures forall i :: 0 <= i < |lines| ==> Routed(RunLines(k, lines).0, lines[i].cmd)
  {
    if lines != [] {
      RoutesStay(k, lines[..|lines| - 1]);
      var k' := RunLines(k, lines[..|lines| - 1]).0;
      forall i | 0 <= i < |lines| - 1
        ensures Routed(RunLines(k, lines).0, lines[i].cmd)
      {
        assert Routed(k', lines[..|lines| - 1][i].cmd);
      }
    }
  }

  lemma {:induction false} RoutedAddsNothing(k: Kernel, lines: seq<Line>)
    requires forall i :: 0 <= i < |lines| ==> !lines[i].cmd.DelPolicy? && Routed(k, lines[i].cmd)
    ensures RunLines(k, lines).0.policy == k.policy
  {
    if lines != [] {
      RoutedAddsNothing(k, lines[..|lines| - 1]);
      assert Routed(k, lines[|lines| - 1].cmd);
    }
  }

  lemma PolicyTwice(k: Kernel, lines: seq<Line>)
    requires Ready(BUILTINS, lines) && RunLines(k, lines).1
    ensures var once := RunLines(k, lines).0; RunLines(once, lines).0.policy == once.policy
  {
    forall i | 0 <= i < |lines|
      ensures !lines[i].cmd.DelPolicy?
    {
      assert ReadyAt(BUILTINS, lines, i);
    }
    RoutesStay(k, lines);
    RoutedAddsNothing(RunLines(k, lines).0, lines);
  }

  lemma SameChains(a: Kernel, b: Kernel)
    requires forall c :: At(a, c) == At(b, c)
    ensures a.chains == b.chains
  {
    assert forall c :: (c in a.chains <==> At(a, c).Some?) && (c in b.chains <==> At(b, c).Some?);
    assert forall c :: c in a.chains ==> At(b, c) == At(a, c) == Some(a.chains[c]);
  }

  /** A program that installs fixed contents, run twice on a tidy kernel, might as well run once. */
  lemma InstallTwice(k: Kernel, lines: seq<Line>, target: string, remote: bool)
    requires Tidy(k) && BUILTINS <= k.chains.Keys && Ready(BUILTINS, lines)
    requires forall o, c :: Fold(o, c, lines) == Installed(o, c, target, remote)
    ensures var once := RunLines(k, lines).0; RunLines(once, lines) == (once, true)
  {
    ReadyRun(k, BUILTINS, lines);
    var once := RunLines(k, lines).0;
    assert BUILTINS <= Known(BUILTINS, lines, |lines|);
    ReadyRun(once, BUILTINS, lines);
    var twice := RunLines(once, lines).0;
    forall c
      ensures At(twice, c) == At(once, c)
    {
      assert At(once, c) == Installed(At(k, c), c, target, remote);
      InstalledTwice(At(k, c), c, target, remote);
    }
    SameChains(twice, once);
    PolicyTwice(k, lines);
  }

  /** Repeating a complete SetupRules in the same mode changes nothing, on any kernel that earlier runs
      of either mode can have left. */
  lemma SetupTwice(k: Kernel, runs: seq<SetupRun>, target: string, remote: bool)
    requires VproxyFree(k) && BUILTINS <= k.chains.Keys
    ensures var once := RunLines(RunSetups(k, runs), SetupLines(target, remote)).0;
            RunLines(once, SetupLines(target, remote)) == (once, true)
  {
    var dirty := RunSetups(k, runs);
    FreeIsForeign(k);
    SetupsStayTidy(k, runs);
    assert BUILTINS <= dirty.chains.Keys by {
      assert forall c :: c in BUILTINS ==> c in Foreign(dirty).chains;
    }
    if remote { RemoteReady(target); } else { LocalReady(target); }
    forall o, c
      ensures Fold(o, c, SetupLines(target, remote)) == Installed(o, c, target, remote)
    {
      if remote { RemoteEffect(o, c, target); } else { LocalEffect(o, c, target); }
    }
    InstallTwice(dirty, SetupLines(target, remote), target, remote);
  }
}
