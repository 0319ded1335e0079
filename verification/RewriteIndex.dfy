/** The rewrite engine's host-bucket index. A rule's pattern and target are not looked into:
    evaluating a rule on a request is a function the engine is given. */
module RewriteIndex {
  import opened Bytes
  import opened Scan

  /** A compiled rule: the host it is filed under ("" for none) and the entry it came from. */
  datatype Rule = Rule(host: string, raw: string)

  /** What an entry compiles to: a comment or incomplete entry, an error, or a rule. */
  datatype Entry = Skipped | Invalid | Compiled(rule: Rule)

  /** The compiled rules in entry order, unless an entry is invalid. */
  function Rules(entries: seq<Entry>): Option<seq<Rule>> {
    if entries == [] then Some([])
    else
      var e := entries[|entries| - 1];
      match Rules(entries[..|entries| - 1])
      case None => None
      case Some(rs) => match e case Skipped => Some(rs) case Invalid => None case Compiled(r) => Some(rs + [r])
  }

  /** The rules filed under a host, in order. */
  function OfHost(rs: seq<Rule>, host: string): seq<Rule> {
    if rs == [] then []
    else
      var r := rs[|rs| - 1];
      OfHost(rs[..|rs| - 1], host) + if r.host == host then [r] else []
  }

  /** The reference: scan the rules of the host, then the rules of no host. */
  function LinearMatch<R>(rs: seq<Rule>, host: string, eval: Rule -> Option<R>): Option<R> {
    FirstMatch(OfHost(rs, host) + OfHost(rs, ""), eval)
  }

  class RewriteEngine {
    var hostBuckets: map<string, seq<Rule>>
    var globalRules: seq<Rule>
    var allHosts: seq<string>

    /** The engine is the index of these rules. */
    ghost predicate Indexes(rs: seq<Rule>)
      reads this
    {
      && (forall h :: h in hostBuckets <==> h != "" && OfHost(rs, h) != [])
      && (forall h :: h in hostBuckets ==> hostBuckets[h] == OfHost(rs, h))
      && globalRules == OfHost(rs, "")
      && (forall h :: h in allHosts <==> h in hostBuckets)
      && (forall i, j :: 0 <= i < j < |allHosts| ==> allHosts[i] != allHosts[j])
    }

    constructor ()
      ensures Indexes([])
    {
      hostBuckets, globalRules, allHosts := map[], [], [];
    }

    /** NewRewriteEngine; false is the error return. */
    static method New(entries: seq<Entry>) returns (engine: RewriteEngine, ok: bool)
      ensures fresh(engine) && ok == Rules(entries).Some?
      ensures ok ==> engine.Indexes(Rules(entries).value)
    {
      engine := new RewriteEngine();
      ok := true;
      var hostSet: set<string> := {};
      for i := 0 to |entries|
        invariant fresh(engine)
        invariant Rules(entries[..i]).Some? && engine.Indexes(Rules(entries[..i]).value)
        invariant hostSet == engine.hostBuckets.Keys
      {
        assert entries[..i + 1][..i] == entries[..i];
        match entries[i]
        case Skipped =>
        case Invalid =>
          InvalidIsFinal(entries, i);
          return engine, false;
        case Compiled(rule) =>
          engine.File(rule, hostSet, Rules(entries[..i]).value);
          if rule.host != "" {
            hostSet := hostSet + {rule.host};
          }
      }
      assert entries[..|entries|] == entries;
    }

    /** The filing step of the loop. */
    method File(rule: Rule, hostSet: set<string>, ghost rs: seq<Rule>)
      requires Indexes(rs) && hostSet == hostBuckets.Keys
      modifies this
      ensures Indexes(rs + [rule])
      ensures hostBuckets.Keys == old(hostBuckets.Keys) + if rule.host != "" then {rule.host} else {}
    {
      OfHostSnoc(rs, rule);
      if rule.host != "" {
        var bucket := if rule.host in hostBuckets then hostBuckets[rule.host] else [];
        hostBuckets := hostBuckets[rule.host := bucket + [rule]];
        if rule.host !in hostSet {
          allHosts := allHosts + [rule.host];
        }
      } else {
        globalRules := globalRules + [rule];
      }
    }

    /** IsInterceptHost: exactly the hosts listed, each of which is listed once. */
    method IsInterceptHost(host: string, ghost rs: seq<Rule>) returns (yes: bool)
      requires Indexes(rs)
      ensures yes == (host in allHosts) == (host != "" && exists r :: r in rs && r.host == host)
      ensures forall i, j :: 0 <= i < j < |allHosts| ==> allHosts[i] != allHosts[j]
    {
      OfHostMembers(rs, host);
      yes := host in hostBuckets;
      assert forall r :: r in rs && r.host == host ==> r in OfHost(rs, host);
      assert OfHost(rs, host) != [] ==> OfHost(rs, host)[0] in OfHost(rs, host);
    }

    /** Match: a missing host is taken from the request's URL, where that can be parsed. */
    method Match<R>(
      host: string, urlHost: Option<string>, eval: Rule -> Option<R>, ghost rs: seq<Rule>)
      returns (res: Option<R>)
      requires Indexes(rs)
      ensures res == LinearMatch(rs, if host == "" && urlHost.Some? then urlHost.value else host, eval)
    {
      var h := if host == "" && urlHost.Some? then urlHost.value else host;
      FirstMatchConcat(OfHost(rs, h), OfHost(rs, ""), eval);
      if h in hostBuckets {
        var rules := hostBuckets[h];
        for i := 0 to |rules|
          invariant FirstMatch(rules, eval) == FirstMatch(rules[i..], eval)
        {
          assert rules[i..][1..] == rules[i + 1..];
          if eval(rules[i]).Some? {
            return eval(rules[i]);
          }
        }
      }
      for i := 0 to |globalRules|
        invariant FirstMatch(globalRules, eval) == FirstMatch(globalRules[i..], eval)
      {
        assert globalRules[i..][1..] == globalRules[i + 1..];
        if eval(globalRules[i]).Some? {
          return eval(globalRules[i]);
        }
      }
      res := None;
    }
  }

  lemma {:induction false} InvalidIsFinal(entries: seq<Entry>, i: nat)
    requires i < |entries| && entries[i] == Invalid
    ensures Rules(entries).None?
    decreases |entries|
  {
    if i < |entries| - 1 {
      InvalidIsFinal(entries[..|entries| - 1], i);
    }
  }

  lemma OfHostSnoc(rs: seq<Rule>, rule: Rule)
    ensures forall h :: OfHost(rs + [rule], h) == OfHost(rs, h) + if rule.host == h then [rule] else []
  {
    assert (rs + [rule])[..|rs|] == rs;
  }

  lemma {:induction false} OfHostMembers(rs: seq<Rule>, h: string)
    ensures forall r :: r in OfHost(rs, h) <==> r in rs && r.host == h
  {
    if rs != [] {
      OfHostMembers(rs[..|rs| - 1], h);
      assert rs == rs[..|rs| - 1] + [rs[|rs| - 1]];
    }
  }

  lemma ApplicableHostRule<R>(rs: seq<Rule>, host: string, eval: Rule -> Option<R>, r: Rule)
    requires r in rs && r.host == host && eval(r).Some?
    ensures FirstMatch(OfHost(rs, host), eval).Some?
    ensures LinearMatch(rs, host, eval) == FirstMatch(OfHost(rs, host), eval)
  {
    OfHostMembers(rs, host);
    assert r in OfHost(rs, host);
    var k := FirstMatchIsFirst(OfHost(rs, host), eval);
    FirstMatchConcat(OfHost(rs, host), OfHost(rs, ""), eval);
  }

  /** Whatever the entry order, a host rule that applies is preferred to every rule of no host: putting such a
      rule between any two others leaves the answer as it was. */
  lemma HostRulesGoFirst<R>(a: seq<Rule>, global: Rule, b: seq<Rule>, host: string, eval: Rule -> Option<R>, r: Rule)
    requires global.host == "" && host != "" && r in a + b && r.host == host && eval(r).Some?
    ensures LinearMatch(a + [global] + b, host, eval) == LinearMatch(a + b, host, eval)
  {
    assert r in a + [global] + b;
    ApplicableHostRule(a + b, host, eval, r);
    ApplicableHostRule(a + [global] + b, host, eval, r);
    OfHostConcat(a, b, host);
    OfHostConcat(a + [global], b, host);
    OfHostSnoc(a, global);
    assert OfHost(a + [global], host) == OfHost(a, host);
  }

  lemma {:induction false} OfHostConcat(a: seq<Rule>, b: seq<Rule>, h: string)
    ensures OfHost(a + b, h) == OfHost(a, h) + OfHost(b, h)
  {
    if b == [] {
      assert a + b == a;
    } else {
      assert (a + b)[..|a + b| - 1] == a + b[..|b| - 1];
      OfHostConcat(a, b[..|b| - 1], h);
    }
  }

  // ----- what is indexed -----

  /** The rules of two lists of entries are those of the first and then those of the second, unless either has an
      invalid entry. */
  lemma {:induction false} RulesConcat(a: seq<Entry>, b: seq<Entry>)
    ensures Rules(a + b) ==
              if Rules(a).None? || Rules(b).None? then None else Some(Rules(a).value + Rules(b).value)
    decreases |b|
  {
    if b == [] {
      assert a + b == a;
      assert Rules(a).Some? ==> Rules(a).value + [] == Rules(a).value;
    } else {
      var n := |b| - 1;
      RulesConcat(a, b[..n]);
      RulesSnoc(a + b[..n], b[n]);
      RulesSnoc(b[..n], b[n]);
      assert a + b == a + b[..n] + [b[n]] && b == b[..n] + [b[n]];
      if Rules(a).Some? && Rules(b[..n]).Some? {
        var x, y, z := Rules(a).value, Rules(b[..n]).value, if b[n].Compiled? then [b[n].rule] else [];
        assert x + y + z == x + (y + z);
      }
    }
  }

  lemma RulesSnoc(a: seq<Entry>, e: Entry)
    ensures Rules(a + [e]) ==
              if Rules(a).None? || e == Invalid then None
              else Some(Rules(a).value + if e.Compiled? then [e.rule] else [])
  {
    assert (a + [e])[..|a|] == a;
    assert Rules(a).Some? ==> Rules(a).value + [] == Rules(a).value;
  }

  /** And a single entry gives its rule, nothing, or the error. */
  lemma RulesOfOne(e: Entry)
    ensures Rules([e]) == match e case Compiled(r) => Some([r]) case Skipped => Some([]) case Invalid => None
  {
    RulesSnoc([], e);
    assert [] + [e] == [e];
    assert e.Compiled? ==> [] + [e.rule] == [e.rule];
  }

  /** A request gets an answer exactly if a rule of its host or of no host has one, and then it is one of those. */
  lemma MatchIsSome<R>(rs: seq<Rule>, host: string, eval: Rule -> Option<R>)
    ensures LinearMatch(rs, host, eval).Some? <==>
              exists r :: r in rs && (r.host == host || r.host == "") && eval(r).Some?
    ensures LinearMatch(rs, host, eval).Some? ==>
              exists r :: r in rs && (r.host == host || r.host == "") && eval(r) == LinearMatch(rs, host, eval)
  {
    var scanned := OfHost(rs, host) + OfHost(rs, "");
    OfHostMembers(rs, host);
    OfHostMembers(rs, "");
    var k := FirstMatchIsFirst(scanned, eval);
    if k < |scanned| {
      assert scanned[k] in scanned;
    } else {
      forall r | r in rs && (r.host == host || r.host == "")
        ensures eval(r).None?
      {
        assert r in scanned;
      }
    }
  }
}
