/** Deciding what to do with a connection: guards first, then the first rule that matches, then the default. */
module RuleMatcher {
  import opened Bytes
  import opened Addresses
  import opened Scan
  import opened Text
  import opened RuleCompiler

  datatype MatchContext = MatchContext(host: string, port: int, process: string, pid: int, url: string)

  datatype Manager = Manager(rules: seq<Rule>, remoteLans: seq<Prefix>, default: Action, directDns: bool)

  /** A pattern with or without its leading dot matches the name itself and every name below it. */
  predicate DomainMatches(pattern: string, host: string) {
    if HasPrefix(pattern, ".") then host == pattern[1..] || HasSuffix(host, pattern)
    else host == pattern || HasSuffix(host, ['.'] + pattern)
  }

  predicate ProcessMatches(pattern: string, process: string) {
    process != "" && (process == pattern || Contains(Lower(process), Lower(pattern)))
  }

  predicate UrlMatches(pattern: string, url: string, host: string) {
    if url != "" then HasPrefix(url, pattern) || Contains(url, pattern) else host != "" && Contains(pattern, host)
  }

  /** net.IPNet.Contains takes an IPv4-mapped address for the IPv4 address. */
  predicate NetContains(net: Prefix, ip: IpAddr) {
    Covers(net, match To4(ip) case Some(a) => V4(a) case None => ip)
  }

  predicate IpMatches(net: Prefix, ip: Option<IpAddr>) {
    ip.Some? && NetContains(net, ip.value)
  }

  predicate Matches(r: Rule, ctx: MatchContext, ps: Parsers) {
    match r
    case Pid(pid, _, _) => ctx.pid != 0 && ctx.pid == pid
    case Process(pattern, _, _) => ProcessMatches(pattern, ctx.process)
    case Domain(pattern, _, _) => ctx.host != "" && DomainMatches(pattern, ctx.host)
    case Url(pattern, _, _) => UrlMatches(pattern, ctx.url, ctx.host)
    case IpCidr(net, _, _) => IpMatches(net, ps.ip(ctx.host))
  }

  predicate InLans(lans: seq<Prefix>, ip: IpAddr) {
    exists i | 0 <= i < |lans| :: NetContains(lans[i], ip)
  }

  /** The guards no user rule comes before: DNS and this machine. */
  predicate AlwaysDirect(m: Manager, ctx: MatchContext) {
    (m.directDns && ctx.port == 53) || ctx.host in {"localhost", "127.0.0.1", "::1"}
  }

  /** What the guards decide: remote LANs before private addresses. */
  function Guard(m: Manager, ctx: MatchContext, ps: Parsers): Option<Action> {
    var ip := ps.ip(ctx.host);
    if AlwaysDirect(m, ctx) then Some(Direct)
    else if ip.Some? && InLans(m.remoteLans, ip.value) then Some(Proxy)
    else if ip.Some? && IsPrivateIp(ip.value) then Some(Direct)
    else None
  }

  /** A rule answers with itself when it matches. */
  function Matched(r: Rule, ctx: MatchContext, ps: Parsers): Option<Rule> {
    if Matches(r, ctx, ps) then Some(r) else None
  }

  function Decide(m: Manager, ctx: MatchContext, ps: Parsers): (Action, string) {
    match Guard(m, ctx, ps)
    case Some(a) => (a, "")
    case None =>
      match FirstMatch(m.rules, r => Matched(r, ctx, ps))
      case Some(r) => (r.action, r.target)
      case None => (m.default, "")
  }

  /** What an entry of the remote-LAN list stands for. */
  datatype LanEntry = Blank | Net(net: Prefix) | Name(pattern: string)

  function LanEntryOf(raw: string, ps: Parsers): LanEntry {
    var entry := Trim(raw);
    if entry == "" then Blank
    else if '/' in entry then
      match ps.cidr(entry) case Some(p) => Net(p) case None => Name(Unstarred(entry))
    else
      match ps.ip(entry)
      case None => Name(Unstarred(entry))
      case Some(ip) =>
        match ps.cidr(entry + if To4(ip).Some? then "/32" else "/128")
        case Some(p) => Net(p)
        case None => Name(Unstarred(entry))
  }

  function Unstarred(entry: string): string {
    if HasPrefix(entry, "*") then entry[1..] else entry
  }

  function LanNets(entries: seq<LanEntry>): seq<Prefix> {
    if entries == [] then []
    else
      var e := entries[|entries| - 1];
      LanNets(entries[..|entries| - 1]) + if e.Net? then [e.net] else []
  }

  function LanRules(entries: seq<LanEntry>): seq<Rule> {
    if entries == [] then []
    else
      var e := entries[|entries| - 1];
      LanRules(entries[..|entries| - 1]) + if e.Name? then [Domain(e.pattern, Proxy, "")] else []
  }

  function LanEntries(raws: seq<string>, ps: Parsers): (es: seq<LanEntry>)
    ensures |es| == |raws|
  {
    if raws == [] then [] else LanEntries(raws[..|raws| - 1], ps) + [LanEntryOf(raws[|raws| - 1], ps)]
  }

  function WithLans(m: Manager, entries: seq<LanEntry>): Manager {
    m.(rules := LanRules(entries) + m.rules, remoteLans := m.remoteLans + LanNets(entries))
  }

  function WithPid(m: Manager, pid: int, action: Action): Manager {
    m.(rules := [Pid(pid, action, "")] + m.rules)
  }

  // ----- the manager as code -----

  class RuleManager {
    var rules: seq<Rule>
    var remoteLans: seq<Prefix>
    var defaultAction: Action
    var directDns: bool
    const ps: Parsers

    ghost function View(): Manager
      reads this
    {
      Manager(rules, remoteLans, defaultAction, directDns)
    }

    /** NewRuleManager. */
    constructor (entries: seq<string>, ps: Parsers)
      ensures View() == Manager(Compile(entries, ps).rules, [], Compile(entries, ps).default, true) && this.ps == ps
    {
      var rs, d := CompileEntries(entries, ps);
      rules, remoteLans, defaultAction, directDns := rs, [], d, true;
      this.ps := ps;
    }

    method SetDirectDNS(direct: bool)
      modifies this`directDns
      ensures directDns == direct
    {
      directDns := direct;
    }

    method AddPIDRule(pid: int, action: Action)
      modifies this`rules
      ensures View() == WithPid(old(View()), pid, action)
    {
      rules := [Pid(pid, action, "")] + rules;
    }

    method SetRemoteLANs(entries: seq<string>)
      modifies this`rules, this`remoteLans
      ensures View() == WithLans(old(View()), LanEntries(entries, ps))
    {
      var prepended: seq<Rule> := [];
      for i := 0 to |entries|
        invariant rules == old(rules)
        invariant prepended == LanRules(LanEntries(entries[..i], ps))
        invariant remoteLans == old(remoteLans) + LanNets(LanEntries(entries[..i], ps))
      {
        assert entries[..i + 1][..i] == entries[..i];
        match LanEntryOf(entries[i], ps)
        case Blank =>
        case Net(net) => remoteLans := remoteLans + [net];
        case Name(pattern) => prepended := prepended + [Domain(pattern, Proxy, "")];
      }
      assert entries[..|entries|] == entries;
      if |prepended| > 0 {
        rules := prepended + rules;
      } else {
        assert prepended + rules == rules;
      }
    }

    /** doMatchContext. */
    method DoMatchContext(ctx: MatchContext) returns (action: Action, target: string)
      ensures (action, target) == Decide(View(), ctx, ps)
    {
      if directDns && ctx.port == 53 {
        return Direct, "";
      }
      if ctx.host == "localhost" || ctx.host == "127.0.0.1" || ctx.host == "::1" {
        return Direct, "";
      }
      var ip := ps.ip(ctx.host);
      if ip.Some? {
        for i := 0 to |remoteLans|
          invariant forall j :: 0 <= j < i ==> !NetContains(remoteLans[j], ip.value)
        {
          if NetContains(remoteLans[i], ip.value) {
            return Proxy, "";
          }
        }
        if IsPrivateIp(ip.value) {
          return Direct, "";
        }
      }
      action, target := MatchRules(ctx);
    }

    /** The loop over the user's rules. */
    method MatchRules(ctx: MatchContext) returns (action: Action, target: string)
      ensures (action, target) ==
                match FirstMatch(rules, r => Matched(r, ctx, ps))
                case Some(r) => (r.action, r.target)
                case None => (defaultAction, "")
    {
      ghost var m := r => Matched(r, ctx, ps);
      for i := 0 to |rules|
        invariant FirstMatch(rules, m) == FirstMatch(rules[i..], m)
      {
        assert rules[i..][1..] == rules[i + 1..];
        if Matches(rules[i], ctx, ps) {
          return rules[i].action, rules[i].target;
        }
      }
      action, target := defaultAction, "";
    }
  }

  // ----- what a domain rule matches -----

  function Undotted(pattern: string): string {
    if HasPrefix(pattern, ".") then pattern[1..] else pattern
  }

  /** A domain rule matches a host exactly when the labels of its pattern, less one leading dot, are the last
      labels of the host. */
  lemma DomainRuleByLabels(pattern: string, host: string)
    ensures DomainMatches(pattern, host) <==> IsSuffix(Split(Undotted(pattern), '.'), Split(host, '.'))
  {
    SuffixOfParts(host, Undotted(pattern), '.');
    if HasPrefix(pattern, ".") {
      assert pattern == ['.'] + pattern[1..];
    }
  }

  // ----- what the other rules match -----

  /** The text holds the word from this place on. */
  predicate StandsAt(word: string, text: string, i: nat) {
    i + |word| <= |text| && text[i..i + |word|] == word
  }

  ghost predicate StandsIn(word: string, text: string) {
    exists i: nat :: StandsAt(word, text, i)
  }

  lemma ContainsByPlace(text: string, word: string)
    ensures Contains(text, word) <==> StandsIn(word, text)
  {
    if Contains(text, word) {
      var i: nat :| i <= |text| && word <= text[i..];
      assert text[i..i + |word|] == text[i..][..|word|];
      assert StandsAt(word, text, i);
    }
    if i: nat :| StandsAt(word, text, i) {
      assert text[i..][..|word|] == text[i..i + |word|];
    }
  }

  /** A process rule matches a known process whose name has the pattern in it, in any case. */
  lemma ProcessRuleBySubstring(pattern: string, action: Action, target: string, ctx: MatchContext, ps: Parsers)
    ensures Matches(Process(pattern, action, target), ctx, ps) <==>
              ctx.process != "" && StandsIn(Lower(pattern), Lower(ctx.process))
  {
    var name, low := Lower(ctx.process), Lower(pattern);
    ContainsByPlace(name, low);
    if ctx.process == pattern {
      assert low <= name[0..];
      assert Contains(name, low);
    }
  }

  /** A URL rule matches a URL with the pattern in it; with no URL yet, a host that the pattern has in it. */
  lemma UrlRuleBySubstring(pattern: string, action: Action, target: string, ctx: MatchContext, ps: Parsers)
    ensures Matches(Url(pattern, action, target), ctx, ps) <==>
              if ctx.url != "" then StandsIn(pattern, ctx.url)
              else ctx.host != "" && StandsIn(ctx.host, pattern)
  {
    ContainsByPlace(ctx.url, pattern);
    ContainsByPlace(pattern, ctx.host);
    if HasPrefix(ctx.url, pattern) {
      assert StandsAt(pattern, ctx.url, 0);
    }
  }

  /** A CIDR rule matches a host that is an address, IPv4-mapped or not, with the network's leading bits; a process-id
      rule matches its process, and never the unknown process 0. */
  lemma CidrAndPidRules(base: U32, bits: nat, pid: int, action: Action, ctx: MatchContext, ps: Parsers)
    requires bits <= 32
    ensures Matches(IpCidr(Prefix(V4(base), bits), action, ""), ctx, ps) <==>
              && ps.ip(ctx.host).Some? && To4(ps.ip(ctx.host).value).Some?
              && To4(ps.ip(ctx.host).value).value / Pow2(32 - bits) == base / Pow2(32 - bits)
    ensures Matches(Pid(pid, action, ""), ctx, ps) <==> ctx.pid == pid != 0
  {
    if ps.ip(ctx.host).Some? && To4(ps.ip(ctx.host).value).Some? {
      LeadingBits(bits, base, To4(ps.ip(ctx.host).value).value);
    }
  }

  lemma LeadingBits(bits: nat, a: U32, b: U32)
    requires bits <= 32
    ensures LeadAgree(bits, a, b) <==> b / Pow2(32 - bits) == a / Pow2(32 - bits)
  {
    ShiftIsDiv(a, 32 - bits);
    ShiftIsDiv(b, 32 - bits);
    Pow2Values();
  }

  // ----- first match -----

  /** Guards, then the earliest matching rule, then the default. */
  lemma DecisionIsGuardsThenFirst(m: Manager, ctx: MatchContext, ps: Parsers) returns (k: nat)
    ensures Guard(m, ctx, ps).Some? ==> Decide(m, ctx, ps) == (Guard(m, ctx, ps).value, "")
    ensures Guard(m, ctx, ps).None? ==>
              && k <= |m.rules| && (forall i :: 0 <= i < k ==> !Matches(m.rules[i], ctx, ps))
              && (k < |m.rules| ==> Matches(m.rules[k], ctx, ps))
              && Decide(m, ctx, ps) == if k < |m.rules| then (m.rules[k].action, m.rules[k].target) else (m.default, "")
  {
    var f := r => Matched(r, ctx, ps);
    k := FirstMatchIsFirst(m.rules, f);
    assert forall i :: 0 <= i < |m.rules| ==> (f(m.rules[i]).Some? <==> Matches(m.rules[i], ctx, ps));
  }

  /** No guard decides: neither DNS nor this machine, and no address of a remote LAN or a private range. */
  predicate Unguarded(m: Manager, ctx: MatchContext, ps: Parsers) {
    && !(m.directDns && ctx.port == 53) && ctx.host != "localhost" && ctx.host != "127.0.0.1" && ctx.host != "::1"
    && match ps.ip(ctx.host)
       case None => true
       case Some(ip) =>
         (forall i :: 0 <= i < |m.remoteLans| ==> !NetContains(m.remoteLans[i], ip)) && !IsPrivateIp(ip)
  }

  /** The whole decision: DNS and this machine go direct, a remote LAN goes to the proxy, another private address goes
      direct, and the earliest matching rule decides the rest, or else the default. */
  lemma DecisionTable(m: Manager, ctx: MatchContext, ps: Parsers) returns (k: nat)
    ensures m.directDns && ctx.port == 53 ==> Decide(m, ctx, ps) == (Direct, "")
    ensures ctx.host == "localhost" || ctx.host == "127.0.0.1" || ctx.host == "::1" ==>
              Decide(m, ctx, ps) == (Direct, "")
    ensures forall i :: 0 <= i < |m.remoteLans| && !AlwaysDirect(m, ctx) && ps.ip(ctx.host).Some? ==>
              NetContains(m.remoteLans[i], ps.ip(ctx.host).value) ==> Decide(m, ctx, ps) == (Proxy, "")
    ensures ps.ip(ctx.host).Some? && IsPrivateIp(ps.ip(ctx.host).value) &&
            (forall i :: 0 <= i < |m.remoteLans| ==> !NetContains(m.remoteLans[i], ps.ip(ctx.host).value)) ==>
              Decide(m, ctx, ps) == (Direct, "")
    ensures Unguarded(m, ctx, ps) ==>
              && k <= |m.rules| && (forall i :: 0 <= i < k ==> !Matches(m.rules[i], ctx, ps))
              && (k < |m.rules| ==> Matches(m.rules[k], ctx, ps))
              && Decide(m, ctx, ps) == if k < |m.rules| then (m.rules[k].action, m.rules[k].target) else (m.default, "")
  {
    k := DecisionIsGuardsThenFirst(m, ctx, ps);
  }

  /** A process-id rule added at run time decides for its process before every existing rule, and for no other. */
  lemma PidRuleTakesPrecedence(m: Manager, pid: int, action: Action, ctx: MatchContext, ps: Parsers)
    ensures Decide(WithPid(m, pid, action), ctx, ps) ==
              if Guard(m, ctx, ps).None? && ctx.pid != 0 && ctx.pid == pid then (action, "") else Decide(m, ctx, ps)
  {
    assert WithPid(m, pid, action).rules[1..] == m.rules;
  }

  lemma {:induction false} LanRulesMatch(entries: seq<LanEntry>, f: Rule -> Option<Rule>)
    requires forall r :: f(r).Some? ==> f(r) == Some(r)
    ensures match FirstMatch(LanRules(entries), f)
            case Some(r) => r.Domain? && r.action == Proxy && r.target == "" && Name(r.pattern) in entries && f(r).Some?
            case None => forall p :: Name(p) in entries ==> f(Domain(p, Proxy, "")).None?
  {
    if entries != [] {
      var n := |entries| - 1;
      LanRulesMatch(entries[..n], f);
      assert entries == entries[..n] + [entries[n]];
      var last := if entries[n].Name? then [Domain(entries[n].pattern, Proxy, "")] else [];
      FirstMatchConcat(LanRules(entries[..n]), last, f);
    }
  }

  lemma {:induction false} LanNetsCover(lans: seq<Prefix>, entries: seq<LanEntry>, ip: IpAddr)
    ensures InLans(lans + LanNets(entries), ip) <==>
            InLans(lans, ip) || exists p :: Net(p) in entries && NetContains(p, ip)
  {
    if entries == [] {
      assert lans + LanNets(entries) == lans;
    } else {
      var n := |entries| - 1;
      LanNetsCover(lans, entries[..n], ip);
      assert entries == entries[..n] + [entries[n]];
      if entries[n].Net? {
        InLansSnoc(lans + LanNets(entries[..n]), entries[n].net, ip);
        assert lans + LanNets(entries) == lans + LanNets(entries[..n]) + [entries[n].net];
      } else {
        assert LanNets(entries) == LanNets(entries[..n]);
      }
    }
  }

  lemma InLansSnoc(lans: seq<Prefix>, p: Prefix, ip: IpAddr)
    ensures InLans(lans + [p], ip) <==> InLans(lans, ip) || NetContains(p, ip)
  {
    var more := lans + [p];
    assert more[|lans|] == p;
    assert forall i :: 0 <= i < |lans| ==> more[i] == lans[i];
  }

  predicate NewNetCovers(entries: seq<LanEntry>, ctx: MatchContext, ps: Parsers) {
    ps.ip(ctx.host).Some? && exists e | e in entries :: e.Net? && NetContains(e.net, ps.ip(ctx.host).value)
  }

  predicate NewNameMatches(entries: seq<LanEntry>, ctx: MatchContext) {
    ctx.host != "" && exists e | e in entries :: e.Name? && DomainMatches(e.pattern, ctx.host)
  }

  lemma LanGuard(m: Manager, entries: seq<LanEntry>, ctx: MatchContext, ps: Parsers)
    ensures Guard(WithLans(m, entries), ctx, ps) ==
              if !AlwaysDirect(m, ctx) && NewNetCovers(entries, ctx, ps) then Some(Proxy) else Guard(m, ctx, ps)
  {
    if ps.ip(ctx.host).Some? {
      var ip := ps.ip(ctx.host).value;
      LanNetsCover(m.remoteLans, entries, ip);
      assert (exists p :: Net(p) in entries && NetContains(p, ip)) <==> NewNetCovers(entries, ctx, ps);
    }
  }

  /** Registered remote LANs take precedence over everything but DNS and this machine: their networks over the
      private-address bypass and all rules, their names over all existing rules; nothing else changes. */
  lemma RemoteLansTakePrecedence(m: Manager, entries: seq<LanEntry>, ctx: MatchContext, ps: Parsers)
    ensures Decide(WithLans(m, entries), ctx, ps) ==
              if AlwaysDirect(m, ctx) then (Direct, "")
              else if NewNetCovers(entries, ctx, ps) then (Proxy, "")
              else if Guard(m, ctx, ps).None? && NewNameMatches(entries, ctx) then (Proxy, "")
              else Decide(m, ctx, ps)
  {
    LanGuard(m, entries, ctx, ps);
    var f := r => Matched(r, ctx, ps);
    FirstMatchConcat(LanRules(entries), m.rules, f);
    LanRulesMatch(entries, f);
    assert FirstMatch(LanRules(entries), f).Some? <==> NewNameMatches(entries, ctx);
  }

  /** Registering a bare address sends that address to the proxy, given that it reads as a CIDR with all bits; no
      other address is affected. */
  lemma RemoteAddress(m: Manager, raw: string, a: U32, ctx: MatchContext, ps: Parsers)
    requires Trim(raw) != "" && '/' !in Trim(raw)
    requires ps.ip(Trim(raw)) == Some(V4(a)) && ps.cidr(Trim(raw) + "/32") == Some(Prefix(V4(a), 32))
    ensures Decide(WithLans(m, LanEntries([raw], ps)), ctx, ps) ==
              if !AlwaysDirect(m, ctx) && ps.ip(ctx.host).Some? && To4(ps.ip(ctx.host).value) == Some(a)
              then (Proxy, "") else Decide(m, ctx, ps)
  {
    var net := Net(Prefix(V4(a), 32));
    OneEntry(raw, ps, net);
    RemoteLansTakePrecedence(m, [net], ctx, ps);
    assert net in [net];
    assert NewNetCovers([net], ctx, ps) <==>
           ps.ip(ctx.host).Some? && To4(ps.ip(ctx.host).value) == Some(a);
    assert !NewNameMatches([net], ctx);
  }

  /** Likewise for an IPv6 address, which reads as a CIDR with all its 128 bits. */
  lemma RemoteAddress6(m: Manager, raw: string, a: IpAddr, ctx: MatchContext, ps: Parsers)
    requires Trim(raw) != "" && '/' !in Trim(raw) && To4(a) == None
    requires ps.ip(Trim(raw)) == Some(a) && ps.cidr(Trim(raw) + "/128") == Some(Prefix(a, 128))
    ensures Decide(WithLans(m, LanEntries([raw], ps)), ctx, ps) ==
              if !AlwaysDirect(m, ctx) && ps.ip(ctx.host) == Some(a) then (Proxy, "") else Decide(m, ctx, ps)
  {
    var net := Net(Prefix(a, 128));
    OneEntry(raw, ps, net);
    RemoteLansTakePrecedence(m, [net], ctx, ps);
    assert net in [net];
    assert NewNetCovers([net], ctx, ps) <==> ps.ip(ctx.host) == Some(a);
    assert !NewNameMatches([net], ctx);
  }

  /** Registering "*.domain" sends the domain and every name below it to the proxy, before all rules. */
  lemma RemoteName(m: Manager, raw: string, domain: string, ctx: MatchContext, ps: Parsers)
    requires Trim(raw) == "*." + domain && '/' !in domain && ps.ip(Trim(raw)) == None
    ensures Decide(WithLans(m, LanEntries([raw], ps)), ctx, ps) ==
              if Unguarded(m, ctx, ps) && ctx.host != "" && (ctx.host == domain || HasSuffix(ctx.host, "." + domain))
              then (Proxy, "") else Decide(m, ctx, ps)
  {
    var entry := Name("." + domain);
    assert '/' !in "*." + domain && ("*." + domain)[1..] == "." + domain && ("." + domain)[1..] == domain;
    OneEntry(raw, ps, entry);
    RemoteLansTakePrecedence(m, [entry], ctx, ps);
    assert entry in [entry];
    assert !NewNetCovers([entry], ctx, ps);
    assert NewNameMatches([entry], ctx) <==> ctx.host != "" && DomainMatches("." + domain, ctx.host);
  }

  lemma OneEntry(raw: string, ps: Parsers, e: LanEntry)
    requires LanEntryOf(raw, ps) == e
    ensures LanEntries([raw], ps) == [e]
  {
    assert [raw][..0] == [];
  }
}
