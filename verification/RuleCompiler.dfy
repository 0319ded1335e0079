/** Routing-rule entries: what NewRuleManager compiles them to, and what toggling one in the UI does to the
    compiled rules. CIDR, process-id and IP parsing are functions the compiler is given. */
module RuleCompiler {
  import opened Bytes
  import opened Addresses
  import opened Text

  datatype Action = Direct | Proxy | Intercept | Map | Block

  datatype Rule =
    | Pid(pid: int, action: Action, target: string)
    | Process(pattern: string, action: Action, target: string)
    | Domain(pattern: string, action: Action, target: string)
    | Url(pattern: string, action: Action, target: string)
    | IpCidr(net: Prefix, action: Action, target: string)

  /** net.ParseCIDR, fmt.Sscanf("%d") and net.ParseIP. */
  datatype Parsers = Parsers(cidr: string -> Option<Prefix>, pid: string -> int, ip: string -> Option<IpAddr>)

  /** What one entry adds to the compiled rules. */
  datatype Contribution = Nothing | Add(rule: Rule) | SetDefault(action: Action)

  /** The words of the entry syntax; anything else is no word of it. */
  datatype Word = MapWord | InterceptWord | CidrWord | PidWord | ProcessWord |
                  UrlWord | DefaultWord | FinalWord | OtherWord

  function WordOf(upper: string): Word {
    if upper == "MAP" then MapWord
    else if upper == "INTERCEPT" then InterceptWord
    else if upper == "IP_CIDR" then CidrWord
    else if upper == "PID" then PidWord
    else if upper == "PROCESS" then ProcessWord
    else if upper == "URL" then UrlWord
    else if upper == "DEFAULT" then DefaultWord
    else if upper == "FINAL" then FinalWord
    else OtherWord
  }

  function ActionOf(upper: string): Option<Action> {
    if upper == "DIRECT" then Some(Direct)
    else if upper == "PROXY" then Some(Proxy)
    else if upper == "INTERCEPT" then Some(Intercept)
    else if upper == "MAP" then Some(Map)
    else if upper == "BLOCK" then Some(Block)
    else None
  }

  function PartWord(part: string): Word {
    WordOf(Upper(Trim(part)))
  }

  function PartAction(part: string): Option<Action> {
    ActionOf(Upper(Trim(part)))
  }

  /** A rule once its action is known: PID first, then the default, then by kind. */
  function Classify(kind: Word, pattern: string, action: Option<Action>, target: string, ps: Parsers): Contribution {
    if action.None? then Nothing
    else if kind == PidWord then Add(Pid(ps.pid(pattern), action.value, target))
    else if WordOf(Upper(pattern)) in {DefaultWord, FinalWord} then SetDefault(action.value)
    else if kind == ProcessWord then Add(Process(pattern, action.value, target))
    else if kind in {UrlWord, MapWord} then Add(Url(pattern, action.value, target))
    else Add(Domain(pattern, action.value, target))
  }

  function ClassifyCidr(net: Option<Prefix>, action: Option<Action>): Contribution {
    if net.None? || action !in {Some(Direct), Some(Proxy), Some(Block)} then Nothing
    else Add(IpCidr(net.value, action.value, ""))
  }

  /** What the comma-separated parts of an active entry mean. */
  function PartsContribution(parts: seq<string>, ps: Parsers): Contribution {
    if |parts| < 2 then Nothing
    else
      var kind := PartWord(parts[0]);
      if kind == MapWord && |parts| >= 3 then Classify(kind, Trim(parts[1]), Some(Map), Trim(parts[2]), ps)
      else if kind == InterceptWord then Classify(kind, Trim(parts[1]), Some(Intercept), "", ps)
      else if kind == CidrWord && |parts| >= 3 then ClassifyCidr(ps.cidr(Trim(parts[1])), PartAction(parts[2]))
      else if |parts| == 3 then Classify(kind, Trim(parts[1]), PartAction(parts[2]), "", ps)
      else Classify(kind, Trim(parts[0]), PartAction(parts[1]), "", ps)
  }

  /** The length of the comment marker an entry starts with: "#", "//" or, in any case, "DISABLED,". */
  function Marker(t: string): (n: nat)
    ensures n <= |t|
    ensures t != [] && t[0] == '#' ==> n == 1
  {
    if |t| >= 1 && t[0] == '#' then 1
    else if |t| >= 2 && t[0] == '/' && t[1] == '/' then 2
    else if |t| >= 9 && Upper(t[..9]) == "DISABLED," then 9
    else 0
  }

  predicate Commented(trimmed: string) {
    Marker(trimmed) > 0
  }

  function EntryContribution(entry: string, ps: Parsers): Contribution {
    var trimmed := Trim(entry);
    if trimmed == "" || Commented(trimmed) then Nothing else PartsContribution(Split(trimmed, ','), ps)
  }

  // ----- compilation is per entry -----

  /** Everything NewRuleManager computes from the entries, one after the other; k is what an entry contributes. */
  datatype Compiled = Compiled(rules: seq<Rule>, default: Action)

  function Extend(c: Compiled, k: Contribution): Compiled {
    match k
    case Nothing => c
    case Add(r) => c.(rules := c.rules + [r])
    case SetDefault(a) => c.(default := a)
  }

  function CompileWith(entries: seq<string>, k: string -> Contribution): Compiled {
    if entries == [] then Compiled([], Direct)
    else Extend(CompileWith(entries[..|entries| - 1], k), k(entries[|entries| - 1]))
  }

  function Compile(entries: seq<string>, ps: Parsers): Compiled {
    CompileWith(entries, e => EntryContribution(e, ps))
  }

  /** The loop of NewRuleManager. */
  method CompileEntries(entries: seq<string>, ps: Parsers) returns (rules: seq<Rule>, default: Action)
    ensures Compiled(rules, default) == Compile(entries, ps)
  {
    rules, default := [], Direct;
    ghost var k := e => EntryContribution(e, ps);
    for i := 0 to |entries|
      invariant Compiled(rules, default) == CompileWith(entries[..i], k)
    {
      assert entries[..i + 1][..i] == entries[..i];
      match EntryContribution(entries[i], ps)
      case Nothing =>
      case Add(r) => rules := rules + [r];
      case SetDefault(a) => default := a;
    }
    assert entries[..|entries|] == entries;
  }

  /** The rules an entry adds. */
  function Added(k: Contribution): seq<Rule> {
    if k.Add? then [k.rule] else []
  }

  function Flat(entries: seq<string>, k: string -> Contribution): seq<Rule> {
    if entries == [] then [] else Added(k(entries[0])) + Flat(entries[1..], k)
  }

  lemma {:induction false} FlatSnoc(a: seq<string>, e: string, k: string -> Contribution)
    ensures Flat(a + [e], k) == Flat(a, k) + Added(k(e))
  {
    if a == [] {
      assert a + [e] == [e] && [e][1..] == [];
    } else {
      assert (a + [e])[1..] == a[1..] + [e];
      FlatSnoc(a[1..], e, k);
    }
  }

  /** The compiled rules are the contributions of the entries, in order. */
  lemma {:induction false} CompiledRulesAreFlat(entries: seq<string>, k: string -> Contribution)
    ensures CompileWith(entries, k).rules == Flat(entries, k)
  {
    if entries != [] {
      var n := |entries| - 1;
      CompiledRulesAreFlat(entries[..n], k);
      FlatSnoc(entries[..n], entries[n], k);
      assert entries == entries[..n] + [entries[n]];
    }
  }

  /** This entry sets the default and no later one does. */
  ghost predicate LastDefault(entries: seq<string>, k: string -> Contribution, i: nat, a: Action) {
    i < |entries| && k(entries[i]) == SetDefault(a) && NoDefault(entries, k, i + 1)
  }

  ghost predicate SomeLastDefault(entries: seq<string>, k: string -> Contribution, a: Action) {
    exists i: nat :: LastDefault(entries, k, i, a)
  }

  ghost predicate NoDefault(entries: seq<string>, k: string -> Contribution, from: nat) {
    forall j :: from <= j < |entries| ==> !k(entries[j]).SetDefault?
  }

  /** The default is that of the last entry that sets one, and DIRECT when none does. */
  lemma {:induction false} CompiledDefaultIsLast(entries: seq<string>, k: string -> Contribution)
    ensures SomeLastDefault(entries, k, CompileWith(entries, k).default)
         || (CompileWith(entries, k).default == Direct && NoDefault(entries, k, 0))
  {
    if entries != [] {
      var n := |entries| - 1;
      CompiledDefaultIsLast(entries[..n], k);
      var d := CompileWith(entries, k).default;
      if k(entries[n]).SetDefault? {
        assert LastDefault(entries, k, n, d);
      } else {
        NoDefaultSnoc(entries, k, 0);
        if i: nat :| LastDefault(entries[..n], k, i, d) {
          NoDefaultSnoc(entries, k, i + 1);
          assert LastDefault(entries, k, i, d);
        }
      }
    }
  }

  lemma NoDefaultSnoc(entries: seq<string>, k: string -> Contribution, from: nat)
    requires entries != [] && !k(entries[|entries| - 1]).SetDefault?
    ensures NoDefault(entries, k, from) <==> NoDefault(entries[..|entries| - 1], k, from)
  {
    var front := entries[..|entries| - 1];
    assert forall j :: 0 <= j < |front| ==> front[j] == entries[j];
  }

  /** Only an entry's contribution matters to the compile. */
  lemma {:induction false} SameContributionSameCompile(
    a: seq<string>, x: string, y: string, b: seq<string>, k: string -> Contribution)
    requires k(x) == k(y)
    ensures CompileWith(a + [x] + b, k) == CompileWith(a + [y] + b, k)
    decreases |b|
  {
    if b == [] {
      assert a + [x] + b == a + [x] && (a + [x])[..|a|] == a;
      assert a + [y] + b == a + [y] && (a + [y])[..|a|] == a;
    } else {
      var n := |b| - 1;
      assert (a + [x] + b)[..|a| + 1 + n] == a + [x] + b[..n];
      assert (a + [y] + b)[..|a| + 1 + n] == a + [y] + b[..n];
      SameContributionSameCompile(a, x, y, b[..n], k);
    }
  }

  /** An entry that contributes nothing may as well not be there. */
  lemma {:induction false} IdleEntry(a: seq<string>, x: string, b: seq<string>, k: string -> Contribution)
    requires k(x) == Nothing
    ensures CompileWith(a + [x] + b, k) == CompileWith(a + b, k)
    decreases |b|
  {
    if b == [] {
      assert a + [x] + b == a + [x] && (a + [x])[..|a|] == a && a + b == a;
    } else {
      var n := |b| - 1;
      assert (a + [x] + b)[..|a| + 1 + n] == a + [x] + b[..n];
      assert (a + b)[..|a| + n] == a + b[..n];
      IdleEntry(a, x, b[..n], k);
    }
  }

  // ----- every rule list can be written down -----

  function ActionWord(a: Action): string {
    match a
    case Direct => "DIRECT"
    case Proxy => "PROXY"
    case Intercept => "INTERCEPT"
    case Map => "MAP"
    case Block => "BLOCK"
  }

  function KindWord(r: Rule): string
    requires r.Domain? || r.Process? || r.Url?
  {
    if r.Domain? then "DOMAIN" else if r.Process? then "PROCESS" else "URL"
  }

  /** A rule with a pattern that an entry can spell. */
  predicate Writable(r: Rule) {
    && (r.Domain? || r.Process? || r.Url?) && r.target == ""
    && Trimmed(r.pattern) && ',' !in r.pattern && WordOf(Upper(r.pattern)) !in {DefaultWord, FinalWord}
  }

  /** The entry "KIND,pattern,ACTION". */
  function Written(r: Rule): string
    requires Writable(r)
  {
    KindWord(r) + [','] + (r.pattern + [','] + ActionWord(r.action))
  }

  /** A word of the syntax: upper case, no blank and no comma. */
  predicate IsWord(w: string) {
    w != "" && forall i :: 0 <= i < |w| ==> UpperChar(w[i]) == w[i] && !IsSpace(w[i]) && w[i] != ','
  }

  lemma WordReads(w: string)
    requires IsWord(w)
    ensures Upper(Trim(w)) == w && Trimmed(w) && ',' !in w
  {
    TrimOfTrimmed(w);
    UpperOfUpper(w);
  }

  lemma ActionWordIsWord(a: Action)
    ensures IsWord(ActionWord(a)) && ActionOf(ActionWord(a)) == Some(a)
  {
  }

  lemma ActionWordReads(a: Action)
    ensures PartAction(ActionWord(a)) == Some(a) && ',' !in ActionWord(a) && Trimmed(ActionWord(a))
    ensures ActionWord(a) != ""
  {
    ActionWordIsWord(a);
    WordReads(ActionWord(a));
  }

  lemma KindWordIsWord(r: Rule)
    requires r.Domain? || r.Process? || r.Url?
    ensures IsWord(KindWord(r)) && |KindWord(r)| >= 2 && KindWord(r)[0] in {'D', 'P', 'U'} && KindWord(r)[1] != 'I'
    ensures WordOf(KindWord(r)) == (if r.Domain? then OtherWord else if r.Process? then ProcessWord else UrlWord)
  {
  }

  lemma KindWordReads(r: Rule)
    requires r.Domain? || r.Process? || r.Url?
    ensures PartWord(KindWord(r)) == (if r.Domain? then OtherWord else if r.Process? then ProcessWord else UrlWord)
    ensures ',' !in KindWord(r) && |KindWord(r)| >= 2 && KindWord(r)[0] in {'D', 'P', 'U'}
    ensures UpperChar(KindWord(r)[1]) != 'I'
  {
    KindWordIsWord(r);
    WordReads(KindWord(r));
  }

  lemma NotCommented(t: string)
    requires |t| >= 2 && t[0] != '#' && t[0] != '/' && UpperChar(t[1]) != 'I'
    ensures !Commented(t)
  {
    if |t| >= 9 {
      UpperAt(t[..9], 1);
      assert "DISABLED,"[1] == 'I';
    }
  }

  lemma WrittenParts(r: Rule)
    requires Writable(r)
    ensures Trim(Written(r)) == Written(r) && Written(r) != "" && !Commented(Written(r))
    ensures Split(Written(r), ',') == [KindWord(r), r.pattern, ActionWord(r.action)]
  {
    KindWordReads(r);
    ActionWordReads(r.action);
    var t := Written(r);
    assert t[0] == KindWord(r)[0] && t[1] == KindWord(r)[1];
    assert t[|t| - 1] == ActionWord(r.action)[|ActionWord(r.action)| - 1];
    TrimOfTrimmed(t);
    NotCommented(t);
    SplitThree(KindWord(r), r.pattern, ActionWord(r.action), ',');
  }

  lemma ThreeParts(kind: string, pattern: string, action: string, ps: Parsers)
    requires PartWord(kind) in {OtherWord, ProcessWord, UrlWord}
    ensures PartsContribution([kind, pattern, action], ps) ==
      Classify(PartWord(kind), Trim(pattern), PartAction(action), "", ps)
  {
  }

  /** The entry of a rule compiles to that rule. */
  lemma WrittenCompiles(r: Rule, ps: Parsers)
    requires Writable(r)
    ensures EntryContribution(Written(r), ps) == Add(r)
  {
    WrittenParts(r);
    KindWordReads(r);
    ActionWordReads(r.action);
    ThreeParts(KindWord(r), r.pattern, ActionWord(r.action), ps);
    TrimOfTrimmed(r.pattern);
  }

  // ----- the other forms of an entry -----

  lemma TwoPartEntry(x: string, y: string, ps: Parsers)
    requires x != "" && y != "" && Trimmed(x) && Trimmed(y) && ',' !in x && ',' !in y
    requires !Commented(x + [','] + y)
    ensures EntryContribution(x + [','] + y, ps) == PartsContribution([x, y], ps)
  {
    var t := x + [','] + y;
    assert t[0] == x[0] && t[|t| - 1] == y[|y| - 1];
    TrimOfTrimmed(t);
    SplitConcat(x, ',', y);
    SplitWhole(x, ',');
    SplitWhole(y, ',');
  }

  lemma ThreePartEntry(x: string, y: string, z: string, ps: Parsers)
    requires x != "" && z != "" && Trimmed(x) && Trimmed(z) && ',' !in x && ',' !in y && ',' !in z
    requires !Commented(x + [','] + (y + [','] + z))
    ensures EntryContribution(x + [','] + (y + [','] + z), ps) == PartsContribution([x, y, z], ps)
  {
    var t := x + [','] + (y + [','] + z);
    assert t[0] == x[0] && t[|t| - 1] == z[|z| - 1];
    TrimOfTrimmed(t);
    SplitThree(x, y, z, ',');
  }

  /** A word that can start an entry, and what it reads as. */
  predicate Starts(w: string, kind: Word) {
    && |w| >= 2 && Trimmed(w) && ',' !in w && PartWord(w) == kind
    && w[0] != '#' && w[0] != '/' && (UpperChar(w[0]) != 'D' || UpperChar(w[1]) != 'I')
  }

  lemma StartsEntry(w: string, kind: Word, rest: string)
    requires Starts(w, kind)
    ensures !Commented(w + [','] + rest)
  {
    var t := w + [','] + rest;
    assert t[0] == w[0] && t[1] == w[1];
    if |t| >= 9 {
      UpperAt(t[..9], 0);
      UpperAt(t[..9], 1);
      assert "DISABLED,"[0] == 'D' && "DISABLED,"[1] == 'I';
    }
  }

  /** The words of the syntax read as themselves. */
  lemma Keyword(w: string, kind: Word)
    requires IsWord(w) && |w| >= 2 && w[0] != '#' && w[0] != '/' && (w[0] != 'D' || w[1] != 'I') && WordOf(w) == kind
    ensures Starts(w, kind)
  {
    WordReads(w);
  }

  lemma HostParts(host: string, action: string, ps: Parsers)
    requires WordOf(Upper(Trim(host))) == OtherWord && PartAction(action).Some?
    ensures PartsContribution([host, action], ps) == Add(Domain(Trim(host), PartAction(action).value, ""))
  {
  }

  lemma DefaultParts(word: string, action: string, ps: Parsers)
    requires PartWord(word) in {DefaultWord, FinalWord} && PartAction(action).Some?
    ensures PartsContribution([word, action], ps) == SetDefault(PartAction(action).value)
  {
  }

  lemma MapParts(w: string, url: string, target: string, ps: Parsers)
    requires PartWord(w) == MapWord && WordOf(Upper(Trim(url))) !in {DefaultWord, FinalWord}
    ensures PartsContribution([w, url, target], ps) == Add(Url(Trim(url), Map, Trim(target)))
  {
  }

  lemma InterceptParts(w: string, host: string, ps: Parsers)
    requires PartWord(w) == InterceptWord && WordOf(Upper(Trim(host))) !in {DefaultWord, FinalWord}
    ensures PartsContribution([w, host], ps) == Add(Domain(Trim(host), Intercept, ""))
  {
  }

  lemma CidrParts(w: string, cidr: string, action: string, ps: Parsers)
    requires PartWord(w) == CidrWord
    ensures PartsContribution([w, cidr, action], ps) == ClassifyCidr(ps.cidr(Trim(cidr)), PartAction(action))
  {
  }

  lemma PidParts(w: string, n: string, action: string, ps: Parsers)
    requires PartWord(w) == PidWord && PartAction(action).Some?
    ensures PartsContribution([w, n, action], ps) == Add(Pid(ps.pid(Trim(n)), PartAction(action).value, ""))
  {
  }

  /** "host,ACTION" is a domain rule. */
  lemma HostEntry(host: string, a: Action, ps: Parsers)
    requires host != "" && Trimmed(host) && ',' !in host && WordOf(Upper(host)) == OtherWord
    requires !Commented(host + [','] + ActionWord(a))
    ensures EntryContribution(host + [','] + ActionWord(a), ps) == Add(Domain(host, a, ""))
  {
    TrimOfTrimmed(host);
    EndsInAction(a);
    TwoPartEntry(host, ActionWord(a), ps);
    HostParts(host, ActionWord(a), ps);
  }

  /** A word that can end an entry, and the action it reads as. */
  predicate Ends(action: string, a: Action) {
    action != "" && Trimmed(action) && ',' !in action && PartAction(action) == Some(a)
  }

  lemma EndsInAction(a: Action)
    ensures Ends(ActionWord(a), a)
  {
    ActionWordReads(a);
  }

  /** "DEFAULT,ACTION" and "FINAL,ACTION" set the default. */
  lemma DefaultEntry(word: string, a: Action, ps: Parsers)
    requires word == "DEFAULT" || word == "FINAL"
    ensures EntryContribution(word + [','] + ActionWord(a), ps) == SetDefault(a)
  {
    Keyword(word, WordOf(word));
    EndsInAction(a);
    DefaultReads(word, WordOf(word), ActionWord(a), a, ps);
  }

  lemma DefaultReads(word: string, kind: Word, action: string, a: Action, ps: Parsers)
    requires Starts(word, kind) && (kind == DefaultWord || kind == FinalWord) && Ends(action, a)
    ensures EntryContribution(word + [','] + action, ps) == SetDefault(a)
  {
    StartsEntry(word, kind, action);
    TwoPartEntry(word, action, ps);
    DefaultParts(word, action, ps);
  }

  /** "MAP,url,target" is a URL rule that maps to the target. */
  lemma MapEntry(w: string, url: string, target: string, ps: Parsers)
    requires w == "MAP" && target != "" && Trimmed(url) && Trimmed(target) && ',' !in url && ',' !in target
    requires WordOf(Upper(url)) !in {DefaultWord, FinalWord}
    ensures EntryContribution(w + [','] + (url + [','] + target), ps) == Add(Url(url, Map, target))
  {
    Keyword(w, MapWord);
    StartsEntry(w, MapWord, url + [','] + target);
    ThreePartEntry(w, url, target, ps);
    TrimOfTrimmed(url);
    TrimOfTrimmed(target);
    MapParts(w, url, target, ps);
  }

  /** "INTERCEPT,host" is a domain rule that intercepts. */
  lemma InterceptEntry(w: string, host: string, ps: Parsers)
    requires w == "INTERCEPT" && host != "" && Trimmed(host) && ',' !in host
    requires WordOf(Upper(host)) !in {DefaultWord, FinalWord}
    ensures EntryContribution(w + [','] + host, ps) == Add(Domain(host, Intercept, ""))
  {
    Keyword(w, InterceptWord);
    StartsEntry(w, InterceptWord, host);
    TwoPartEntry(w, host, ps);
    TrimOfTrimmed(host);
    InterceptParts(w, host, ps);
  }

  /** "IP_CIDR,cidr,ACTION" is a CIDR rule for three of the actions and a readable CIDR, and nothing otherwise. */
  lemma CidrEntry(w: string, cidr: string, a: Action, ps: Parsers)
    requires w == "IP_CIDR" && Trimmed(cidr) && ',' !in cidr
    ensures EntryContribution(w + [','] + (cidr + [','] + ActionWord(a)), ps) ==
              if ps.cidr(cidr).Some? && (a == Direct || a == Proxy || a == Block)
              then Add(IpCidr(ps.cidr(cidr).value, a, "")) else Nothing
  {
    Keyword(w, CidrWord);
    EndsInAction(a);
    CidrReads(w, cidr, ActionWord(a), a, ps);
  }

  lemma CidrReads(w: string, cidr: string, action: string, a: Action, ps: Parsers)
    requires Starts(w, CidrWord) && Trimmed(cidr) && ',' !in cidr && Ends(action, a)
    ensures EntryContribution(w + [','] + (cidr + [','] + action), ps) == ClassifyCidr(ps.cidr(cidr), Some(a))
  {
    StartsEntry(w, CidrWord, cidr + [','] + action);
    ThreePartEntry(w, cidr, action, ps);
    TrimOfTrimmed(cidr);
    CidrParts(w, cidr, action, ps);
  }

  /** "PID,n,ACTION" is a rule for the process id that n reads as. */
  lemma PidEntry(w: string, n: string, a: Action, ps: Parsers)
    requires w == "PID" && Trimmed(n) && ',' !in n
    ensures EntryContribution(w + [','] + (n + [','] + ActionWord(a)), ps) == Add(Pid(ps.pid(n), a, ""))
  {
    Keyword(w, PidWord);
    StartsEntry(w, PidWord, n + [','] + ActionWord(a));
    EndsInAction(a);
    ThreePartEntry(w, n, ActionWord(a), ps);
    TrimOfTrimmed(n);
    PidParts(w, n, ActionWord(a), ps);
  }

  lemma {:induction false} AllAdded(entries: seq<string>, rs: seq<Rule>, k: string -> Contribution)
    requires |entries| == |rs| && forall i :: 0 <= i < |rs| ==> k(entries[i]) == Add(rs[i])
    ensures CompileWith(entries, k) == Compiled(rs, Direct)
  {
    if rs != [] {
      var n := |rs| - 1;
      AllAdded(entries[..n], rs[..n], k);
      assert rs == rs[..n] + [rs[n]];
    }
  }

  /** Compiling the entries of any list of such rules gives that list, in order, and leaves the default alone. */
  lemma WriteThenCompile(rs: seq<Rule>, entries: seq<string>, ps: Parsers)
    requires |entries| == |rs| && forall i :: 0 <= i < |rs| ==> Writable(rs[i]) && entries[i] == Written(rs[i])
    ensures Compile(entries, ps) == Compiled(rs, Direct)
  {
    forall i | 0 <= i < |rs|
      ensures EntryContribution(entries[i], ps) == Add(rs[i])
    {
      WrittenCompiles(rs[i], ps);
    }
    AllAdded(entries, rs, x => EntryContribution(x, ps));
  }

  // ----- toggling an entry in the UI -----

  /** parseRuleItem's isActive. */
  predicate IsActive(entry: string) {
    !Commented(Trim(entry))
  }

  /** The text after the comment marker, and after the blanks that follow the marker. */
  function Uncommented(trimmed: string): string {
    TrimLeft(trimmed[Marker(trimmed)..])
  }

  function Hashed(trimmed: string): string {
    ['#'] + trimmed
  }

  function Toggle(entry: string): string {
    if IsActive(entry) then Hashed(Trim(entry)) else Uncommented(Trim(entry))
  }

  lemma HashedIsCommented(t: string)
    requires Trimmed(t)
    ensures Trimmed(Hashed(t)) && Trim(Hashed(t)) == Hashed(t)
    ensures Commented(Hashed(t)) && Uncommented(Hashed(t)) == t
  {
    assert Trimmed(Hashed(t)) by {
      assert t != [] ==> Hashed(t)[|t|] == t[|t| - 1];
    }
    TrimOfTrimmed(Hashed(t));
    assert Hashed(t)[1..] == t;
    TrimOfTrimmed(t);
  }

  lemma UncommentedIsTrimmed(t: string)
    requires Trimmed(t) && Commented(t)
    ensures Trimmed(Uncommented(t)) && Trim(Uncommented(t)) == Uncommented(t) && |Uncommented(t)| < |t|
  {
    TrimLeftStarts(t[Marker(t)..]);
    TrimOfTrimmed(Uncommented(t));
  }

  /** What is commented out: "#", "//" or, in any case, "DISABLED," in front. */
  lemma CommentedExactly(t: string)
    ensures Commented(t) <==> "#" <= t || "//" <= t || (|t| >= 9 && Upper(t[..9]) == "DISABLED,")
  {
    assert "#" <= t <==> |t| >= 1 && t[0] == '#';
    assert "//" <= t <==> |t| >= 2 && t[0] == '/' && t[1] == '/';
  }

  lemma MarkerGone(marker: string, rule: string)
    requires Marker(marker + rule) == |marker|
    ensures Uncommented(marker + rule) == TrimLeft(rule)
  {
    assert (marker + rule)[|marker|..] == rule;
  }

  lemma DisabledIsMarker(word: string, rule: string)
    requires word == "DISABLED,"
    ensures Marker(word + rule) == 9
  {
    assert word[0] == 'D' && (word + rule)[0] == word[0] && (word + rule)[..9] == word;
    UpperOfUpper(word);
  }

  /** And what taking the marker away leaves. */
  lemma UncommentedExactly(marker: string, rule: string)
    requires marker == "#" || marker == "//" || marker == "DISABLED,"
    ensures Uncommented(marker + rule) == TrimLeft(rule)
  {
    assert (marker + rule)[0] == marker[0];
    if marker == "DISABLED," {
      DisabledIsMarker(marker, rule);
    } else if marker == "//" {
      assert (marker + rule)[1] == marker[1];
    }
    MarkerGone(marker, rule);
  }

  lemma CommentedContributesNothing(e: string, ps: Parsers)
    requires Commented(Trim(e))
    ensures EntryContribution(e, ps) == Nothing
  {
  }

  lemma TrimKeepsContribution(e: string, ps: Parsers)
    ensures EntryContribution(Trim(e), ps) == EntryContribution(e, ps)
  {
    TrimTrims(e);
    TrimOfTrimmed(Trim(e));
  }

  lemma ToggleOffContributesNothing(e: string, ps: Parsers)
    requires IsActive(e)
    ensures EntryContribution(Toggle(e), ps) == Nothing
  {
    TrimTrims(e);
    HashedIsCommented(Trim(e));
    CommentedContributesNothing(Toggle(e), ps);
  }

  /** Toggling an active entry off compiles to exactly the list with the entry deleted. */
  lemma ToggleOffDeletes(a: seq<string>, e: string, b: seq<string>, ps: Parsers)
    requires IsActive(e)
    ensures Compile(a + [Toggle(e)] + b, ps) == Compile(a + b, ps)
  {
    ToggleOffContributesNothing(e, ps);
    IdleEntry(a, Toggle(e), b, x => EntryContribution(x, ps));
  }

  lemma ToggleTwiceTrims(e: string)
    requires IsActive(e)
    ensures Toggle(Toggle(e)) == Trim(e)
  {
    TrimTrims(e);
    HashedIsCommented(Trim(e));
  }

  /** Toggling an active entry twice gives the entry back, trimmed, and so restores the compile. */
  lemma ToggleTwiceRestoresActive(a: seq<string>, e: string, b: seq<string>, ps: Parsers)
    requires IsActive(e)
    ensures Toggle(Toggle(e)) == Trim(e)
    ensures Compile(a + [Toggle(Toggle(e))] + b, ps) == Compile(a + [e] + b, ps)
  {
    ToggleTwiceTrims(e);
    TrimKeepsContribution(e, ps);
    SameContributionSameCompile(a, Trim(e), e, b, x => EntryContribution(x, ps));
  }

  /** How many comment markers stand before the rule, and the rule after all of them. */
  function Markers(trimmed: string): nat
    requires Trimmed(trimmed)
    decreases |trimmed|
  {
    if !Commented(trimmed) then 0 else UncommentedIsTrimmed(trimmed); 1 + Markers(Uncommented(trimmed))
  }

  function Core(trimmed: string): string
    requires Trimmed(trimmed)
    decreases |trimmed|
  {
    if !Commented(trimmed) then trimmed else UncommentedIsTrimmed(trimmed); Core(Uncommented(trimmed))
  }

  /** What toggling twice makes of an inactive entry. */
  lemma ToggleTwiceOfInactive(e: string, t: string)
    requires Trim(e) == t && Trimmed(t) && Commented(t)
    ensures var twice := Toggle(Toggle(e));
            && Trimmed(twice) && Trim(twice) == twice
            && if Markers(t) == 1 then Commented(twice) else Markers(twice) == Markers(t) - 2 && Core(twice) == Core(t)
  {
    var u := Uncommented(t);
    UncommentedIsTrimmed(t);
    assert Markers(t) == 1 + Markers(u) && Core(t) == Core(u);
    if Commented(u) {
      UncommentedIsTrimmed(u);
      assert Markers(u) == 1 + Markers(Uncommented(u)) && Core(u) == Core(Uncommented(u));
    } else {
      HashedIsCommented(u);
    }
  }

  /** Toggling an entry twice keeps what it contributes unless it carries exactly two comment markers before a
      rule that contributes something: then the second toggle strips the second marker and turns the rule on. */
  lemma ToggleTwiceKeepsContribution(e: string, ps: Parsers)
    ensures Trimmed(Trim(e))
    ensures EntryContribution(Toggle(Toggle(e)), ps) == EntryContribution(e, ps)
       <==> Markers(Trim(e)) != 2 || EntryContribution(Core(Trim(e)), ps) == Nothing
  {
    TrimTrims(e);
    if IsActive(e) {
      ToggleTwiceTrims(e);
      TrimKeepsContribution(e, ps);
    } else {
      var twice := Toggle(Toggle(e));
      ToggleTwiceOfInactive(e, Trim(e));
      CommentedContributesNothing(e, ps);
      if Commented(twice) {
        CommentedContributesNothing(twice, ps);
      }
    }
  }

  /** "##a,DIRECT" is off; toggled twice it is on. */
  lemma TwoMarkers(ps: Parsers)
    ensures EntryContribution("##a,DIRECT", ps) == Nothing
    ensures Toggle(Toggle("##a,DIRECT")) == "a,DIRECT"
  {
    var t := "a,DIRECT";
    assert Trimmed(t) && Trimmed(Hashed(t));
    HashedIsCommented(t);
    HashedIsCommented(Hashed(t));
    assert "##a,DIRECT" == Hashed(Hashed(t));
    CommentedContributesNothing(Hashed(Hashed(t)), ps);
  }
}
