/** The kernel state that iptables, ip6tables, ip rule and ip route change, and what one command does
    to it. A command that fails leaves the state as it was. */
module NetfilterKernel {
  import opened Bytes
  import opened Addresses
  import opened RedirectHooks

  datatype Table = Nat | Mangle

  datatype ChainName = Output | Prerouting | VproxyRedirect | VproxyMark | VproxyTproxy | OtherChain(name: string)

  datatype ChainId = ChainId(family: Family, table: Table, name: ChainName)

  datatype Target =
    | Return
    | Jump(chain: ChainName)
    | RedirectTo(ports: string)
    | DnatTo(destination: string)
    | SetMark(value: U32)
    | TproxyTo(port: string, onIp: IpAddr)

  /** A rule written by vproxy has the modelled matches; a foreign rule is opaque apart from its jump. */
  datatype Rule =
    | Rule(proto: Option<Protocol>, cgroup: bool, mark: Option<U32>, dst: Option<Prefix>, target: Target)
    | ForeignRule(text: string, jump: Option<ChainName>)

  datatype PolicyKind = RuleList | RouteTables

  datatype PolicyId = PolicyId(family: Family, kind: PolicyKind)

  datatype PolicyEntry =
    FwmarkLookup(fwmark: U32, table: nat) | LocalDefault(dev: string, table: nat) | ForeignPolicy(text: string)

  datatype Kernel = Kernel(chains: map<ChainId, seq<Rule>>, policy: map<PolicyId, seq<PolicyEntry>>)

  datatype Command =
    | NewChain(c: ChainId)
    | Flush(c: ChainId)
    | Append(c: ChainId, r: Rule)
    | Delete(c: ChainId, r: Rule)
    | DropChain(c: ChainId)
    | AddPolicy(id: PolicyId, entry: PolicyEntry)
    | DelPolicy(id: PolicyId, entry: PolicyEntry)

  /** One shell line; `|| true` makes it tolerant. */
  datatype Line = Line(cmd: Command, tolerant: bool)

  function JumpOf(r: Rule): Option<ChainName> {
    match r
    case Rule(_, _, _, _, target) => if target.Jump? then Some(target.chain) else None
    case ForeignRule(_, jump) => jump
  }

  predicate IsBuiltin(n: ChainName) {
    n == Output || n == Prerouting
  }

  /** Some chain of the same family and table jumps to c. */
  predicate Referenced(k: Kernel, c: ChainId) {
    exists d :: d in k.chains && d.family == c.family && d.table == c.table && JumpsTo(k.chains[d], c.name)
  }

  /** While any rule of its family and table jumps to it, or it holds a rule, a chain cannot be dropped. */
  lemma JumpedToStays(k: Kernel, c: ChainId, from: ChainName, r: Rule)
    requires c.(name := from) in k.chains && r in k.chains[c.(name := from)]
    requires JumpOf(r) == Some(c.name) || from == c.name
    ensures Exec(k, DropChain(c)) == None
  {
    if JumpOf(r) == Some(c.name) {
      assert JumpsTo(k.chains[c.(name := from)], c.name);
    }
  }

  predicate JumpsTo(rs: seq<Rule>, n: ChainName) {
    exists r :: r in rs && JumpOf(r) == Some(n)
  }

  function RemoveFirst<T(==)>(s: seq<T>, x: T): seq<T> {
    if s == [] then [] else if s[0] == x then s[1..] else [s[0]] + RemoveFirst(s[1..], x)
  }

  /** None: the command fails. */
  function Exec(k: Kernel, cmd: Command): Option<Kernel> {
    match cmd
    case NewChain(c) =>
      if c in k.chains then None else Some(k.(chains := k.chains[c := []]))
    case Flush(c) =>
      if c !in k.chains then None else Some(k.(chains := k.chains[c := []]))
    case Append(c, r) =>
      if c !in k.chains || (JumpOf(r).Some? && c.(name := JumpOf(r).value) !in k.chains) then None
      else Some(k.(chains := k.chains[c := k.chains[c] + [r]]))
    case Delete(c, r) =>
      if c !in k.chains || r !in k.chains[c] then None
      else Some(k.(chains := k.chains[c := RemoveFirst(k.chains[c], r)]))
    case DropChain(c) =>
      if c !in k.chains || IsBuiltin(c.name) || k.chains[c] != [] || Referenced(k, c) then None
      else Some(k.(chains := k.chains - {c}))
    case AddPolicy(id, e) =>
      if id !in k.policy || e in k.policy[id] then None
      else Some(k.(policy := k.policy[id := if id.kind == RuleList then [e] + k.policy[id] else k.policy[id] + [e]]))
    case DelPolicy(id, e) =>
      if id !in k.policy || e !in k.policy[id] then None
      else Some(k.(policy := k.policy[id := RemoveFirst(k.policy[id], e)]))
  }

  /** A policy rule is added before the others and so looked up first; a route is added behind the others; and neither
      is added twice. */
  lemma WhereEntriesGo(k: Kernel, f: Family, e: PolicyEntry)
    requires PolicyId(f, RuleList) in k.policy && PolicyId(f, RouteTables) in k.policy
    ensures Exec(k, AddPolicy(PolicyId(f, RuleList), e)) ==
              var entries := k.policy[PolicyId(f, RuleList)];
              if e in entries then None else Some(k.(policy := k.policy[PolicyId(f, RuleList) := [e] + entries]))
    ensures Exec(k, AddPolicy(PolicyId(f, RouteTables), e)) ==
              var entries := k.policy[PolicyId(f, RouteTables)];
              if e in entries then None else Some(k.(policy := k.policy[PolicyId(f, RouteTables) := entries + [e]]))
  {
  }

  /** The state after the line; a failing line changes nothing. */
  function Step(k: Kernel, cmd: Command): Kernel {
    match Exec(k, cmd)
    case Some(k') => k'
    case None => k
  }

  predicate Succeeds(k: Kernel, line: Line) {
    line.tolerant || Exec(k, line.cmd).Some?
  }

  /** Lines run in order until one fails that may not. */
  function RunLines(k: Kernel, lines: seq<Line>): (r: (Kernel, bool)) {
    if lines == [] then (k, true)
    else
      var (k', ok) := RunLines(k, lines[..|lines| - 1]);
      var line := lines[|lines| - 1];
      if !ok then (k', false)
      else (Step(k', line.cmd), Succeeds(k', line))
  }

  lemma RunSnoc(k: Kernel, lines: seq<Line>, line: Line)
    ensures RunLines(k, lines + [line]) ==
            var (k', ok) := RunLines(k, lines);
            if !ok then (k', false) else (Step(k', line.cmd), Succeeds(k', line))
  {
    assert (lines + [line])[..|lines + [line]| - 1] == lines;
  }

  lemma {:induction false} RunConcat(k: Kernel, a: seq<Line>, b: seq<Line>)
    ensures RunLines(k, a + b) == if RunLines(k, a).1 then RunLines(RunLines(k, a).0, b) else RunLines(k, a)
  {
    if b == [] {
      assert a + b == a;
    } else {
      var n := |b| - 1;
      assert a + b == (a + b[..n]) + [b[n]];
      RunSnoc(k, a + b[..n], b[n]);
      RunConcat(k, a, b[..n]);
    }
  }

  // ----- facts about RemoveFirst -----

  lemma {:induction false} RemoveFirstKeeps<T>(s: seq<T>, x: T, y: T)
    ensures y != x ==> (y in RemoveFirst(s, x) <==> y in s)
    ensures y in RemoveFirst(s, x) ==> y in s
    ensures x !in s ==> RemoveFirst(s, x) == s
  {
    if s != [] {
      RemoveFirstKeeps(s[1..], x, y);
      assert s == [s[0]] + s[1..];
    }
  }

  lemma {:induction false} RemoveFirstOfAppend<T>(s: seq<T>, t: seq<T>, x: T)
    requires x !in s
    ensures RemoveFirst(s + t, x) == s + RemoveFirst(t, x)
  {
    if s == [] {
      assert s + t == t;
    } else {
      RemoveFirstOfAppend(s[1..], t, x);
      assert (s + t)[1..] == s[1..] + t;
      assert s == [s[0]] + s[1..];
    }
  }
}
