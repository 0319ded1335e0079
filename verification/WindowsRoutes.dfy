/** Route planning around the Wintun adapter: the two /1 capture routes and the bypass routes that keep
    upstream traffic on the interface it would have used without the adapter. */
module WindowsRoutes {
  import opened Bytes
  import opened Addresses

  /** A row of the IPv4 forward table; next hop 0 is "on link". */
  datatype Route = Route(luid: nat, prefix: Prefix, nextHop: U32, metric: nat)

  predicate WellFormed(r: Route) {
    r.prefix.base.V4? && r.prefix.bits <= 32
  }

  /** The row may carry traffic to a, and is not on the adapter to be avoided (0 avoids nothing). */
  predicate Candidate(r: Route, avoid: nat, a: U32) {
    !(avoid != 0 && r.luid == avoid) && Covers(r.prefix, V4(a))
  }

  /** Longest prefix first, then lowest metric. */
  predicate Better(r: Route, s: Route) {
    r.prefix.bits > s.prefix.bits || (r.prefix.bits == s.prefix.bits && r.metric < s.metric)
  }

  /** Longest-prefix lookup; ties go to the earlier row. */
  function Best(rows: seq<Route>, avoid: nat, a: U32): Option<Route> {
    if rows == [] then None
    else
      var r := rows[|rows| - 1];
      var best := Best(rows[..|rows| - 1], avoid, a);
      if Candidate(r, avoid, a) && (best.None? || Better(r, best.value)) then Some(r) else best
  }

  /** Best is optimal: it finds a row whenever one may carry the traffic, no candidate beats it, and it
      beats every earlier candidate. */
  lemma {:induction false} BestIsOptimal(rows: seq<Route>, avoid: nat, a: U32) returns (k: nat)
    ensures match Best(rows, avoid, a)
            case None => forall i :: 0 <= i < |rows| ==> !Candidate(rows[i], avoid, a)
            case Some(r) =>
              && k < |rows| && rows[k] == r && Candidate(r, avoid, a)
              && (forall i :: 0 <= i < |rows| && Candidate(rows[i], avoid, a) ==> !Better(rows[i], r))
              && (forall i :: 0 <= i < k && Candidate(rows[i], avoid, a) ==> Better(r, rows[i]))
  {
    if rows == [] {
      k := 0;
    } else {
      var n := |rows| - 1;
      k := BestIsOptimal(rows[..n], avoid, a);
      var best := Best(rows[..n], avoid, a);
      assert forall i :: 0 <= i < n ==> rows[..n][i] == rows[i];
      if Candidate(rows[n], avoid, a) && (best.None? || Better(rows[n], best.value)) {
        k := n;
      }
    }
  }

  /** findBestPhysicalRoute. */
  method FindBestPhysicalRoute(routes: seq<Route>, target: U32, tun: nat) returns (best: Option<Route>)
    ensures best == Best(routes, tun, target)
  {
    best := None;
    var bestBits: int := -1;
    for i := 0 to |routes|
      invariant best == Best(routes[..i], tun, target)
      invariant bestBits == if best.None? then -1 else best.value.prefix.bits
    {
      assert routes[..i + 1][..i] == routes[..i];
      var row := routes[i];
      if tun != 0 && row.luid == tun { continue; }
      if !Covers(row.prefix, V4(target)) { continue; }
      var bits := row.prefix.bits;
      if bits > bestBits {
        best, bestBits := Some(row), bits;
      } else if bits == bestBits && best.Some? {
        if row.metric < best.value.metric {
          best := Some(row);
        }
      }
    }
    assert routes[..|routes|] == routes;
  }

  lemma {:induction false} BestAppend(rows: seq<Route>, more: seq<Route>, avoid: nat, a: U32)
    requires Best(rows, avoid, a).Some?
    requires forall r :: r in more && Candidate(r, avoid, a) ==> !Better(r, Best(rows, avoid, a).value)
    ensures Best(rows + more, avoid, a) == Best(rows, avoid, a)
  {
    if more == [] {
      assert rows + more == rows;
    } else {
      var n := |more| - 1;
      assert (rows + more)[..|rows + more| - 1] == rows + more[..n];
      BestAppend(rows, more[..n], avoid, a);
      assert more[n] in more;
    }
  }

  lemma {:induction false} BestImproves(rows: seq<Route>, more: seq<Route>, avoid: nat, a: U32)
    ensures Best(rows, avoid, a).Some? ==>
              Best(rows + more, avoid, a).Some? &&
              !Better(Best(rows, avoid, a).value, Best(rows + more, avoid, a).value)
    ensures forall r :: r in more && Candidate(r, avoid, a) ==>
              Best(rows + more, avoid, a).Some? && !Better(r, Best(rows + more, avoid, a).value)
  {
    if more == [] {
      assert rows + more == rows;
    } else {
      var n := |more| - 1;
      assert (rows + more)[..|rows + more| - 1] == rows + more[..n];
      BestImproves(rows, more[..n], avoid, a);
      assert forall r :: r in more ==> r in more[..n] || r == more[n];
    }
  }

  // ----- the table the set-up builds -----

  predicate SameKey(r: Route, s: Route) {
    r.luid == s.luid && r.prefix == s.prefix && r.nextHop == s.nextHop
  }

  /** CreateIpForwardEntry2: rejects a row whose prefix, interface and next hop are taken. */
  function Create(rows: seq<Route>, r: Route): seq<Route> {
    if exists s :: s in rows && SameKey(s, r) then rows else rows + [r]
  }

  const LOW_HALF := Prefix(V4(0), 1)
  const HIGH_HALF := Prefix(V4(0x8000_0000), 1)

  function CaptureRow(tun: nat, base: U32): Route {
    Route(tun, Prefix(V4(base), 1), 0, 1)
  }

  function CaptureRows(tun: nat): seq<Route> {
    [CaptureRow(tun, 0), CaptureRow(tun, 0x8000_0000)]
  }

  /** DeleteIpForwardEntry2: identifies rows by prefix, interface and next hop. */
  function Delete(rows: seq<Route>, r: Route): seq<Route> {
    if rows == [] then [] else if SameKey(rows[0], r) then Delete(rows[1..], r) else [rows[0]] + Delete(rows[1..], r)
  }

  function DeleteAll(rows: seq<Route>, rs: seq<Route>): seq<Route>
    decreases |rs|
  {
    if rs == [] then rows else DeleteAll(Delete(rows, rs[0]), rs[1..])
  }

  function Captured(rows: seq<Route>, tun: nat): seq<Route> {
    Create(Create(rows, CaptureRow(tun, 0)), CaptureRow(tun, 0x8000_0000))
  }

  /** Neither capture row is there yet. */
  predicate CanCapture(rows: seq<Route>, tun: nat) {
    forall i :: 0 <= i < |rows| ==>
      !SameKey(rows[i], CaptureRow(tun, 0)) && !SameKey(rows[i], CaptureRow(tun, 0x8000_0000))
  }

  /** `route delete` of a destination and mask: every row of that prefix, whatever its interface and next hop. */
  function DropPrefix(rows: seq<Route>, p: Prefix): seq<Route> {
    if rows == [] then []
    else if rows[0].prefix == p then DropPrefix(rows[1..], p)
    else [rows[0]] + DropPrefix(rows[1..], p)
  }

  function DropHalves(rows: seq<Route>): seq<Route> {
    DropPrefix(DropPrefix(rows, LOW_HALF), HIGH_HALF)
  }

  /** Everything the clean-up deletes; tun is 0 in a process that did not do the set-up. */
  function CleanedUp(rows: seq<Route>, bypassRoutes: seq<Route>, tun: nat): seq<Route> {
    DropHalves(DeleteAll(rows, bypassRoutes + if tun != 0 then CaptureRows(tun) else []))
  }

  predicate Installable(p: Prefix) {
    p.base.V4? && p.bits <= 32 && p.base.v4 / 0x100_0000 != 127
  }

  /** The bypass row for a prefix: out the way the physical table sends the prefix's own address. */
  function BypassRow(snapshot: seq<Route>, tun: nat, p: Prefix): Option<Route>
    requires Installable(p)
  {
    match Best(snapshot, tun, p.base.v4)
    case None => None
    case Some(r) => Some(Route(r.luid, p, r.nextHop, 1))
  }

  /** The table after the first n bypass prefixes; a prefix already seen is skipped. */
  function Bypassed(rows: seq<Route>, snapshot: seq<Route>, tun: nat, ps: seq<Prefix>, n: nat): seq<Route>
    requires n <= |ps|
  {
    if n == 0 then rows
    else
      var before := Bypassed(rows, snapshot, tun, ps, n - 1);
      var p := ps[n - 1];
      if !Installable(p) || p in ps[..n - 1] || BypassRow(snapshot, tun, p).None? then before
      else Create(before, BypassRow(snapshot, tun, p).value)
  }

  function SetUp(rows: seq<Route>, tun: nat, ps: seq<Prefix>): seq<Route> {
    var captured := Captured(rows, tun);
    Bypassed(captured, captured, tun, ps, |ps|)
  }

  // ----- which prefixes are bypassed -----

  /** What a configured upstream or bypass node comes to: nothing usable, a name that does not resolve, the
      addresses a name resolves to (as byte slices), or a prefix given as such. */
  datatype Target = Unusable | Unresolved | Answers(ips: seq<seq<Byte>>) | Given(prefix: Prefix)

  /** netip.AddrFromSlice and Is4: only a four-byte slice is an IPv4 address, not the sixteen-byte form of one. */
  function AddrPrefix(ip: seq<Byte>): Option<Prefix> {
    if |ip| == 4 then Some(Prefix(V4(Get32(ip, 0)), 32)) else None
  }

  function AnswerPrefixes(ips: seq<seq<Byte>>): seq<Prefix> {
    if ips == [] then []
    else
      var p := AddrPrefix(ips[|ips| - 1]);
      AnswerPrefixes(ips[..|ips| - 1]) + if p.Some? then [p.value] else []
  }

  function TargetPrefixes(t: Target): seq<Prefix> {
    match t
    case Answers(ips) => AnswerPrefixes(ips)
    case Given(p) => [p]
    case _ => []
  }

  function AllPrefixes(ts: seq<Target>): seq<Prefix> {
    if ts == [] then [] else AllPrefixes(ts[..|ts| - 1]) + TargetPrefixes(ts[|ts| - 1])
  }

  /** How many upstreams are dealt with: all before the first that does not resolve. */
  function Resolvable(ts: seq<Target>): (n: nat)
    ensures n <= |ts| && (n < |ts| ==> ts[n] == Unresolved) && forall i :: 0 <= i < n ==> ts[i] != Unresolved
  {
    if ts == [] || ts[0] == Unresolved then 0 else 1 + Resolvable(ts[1..])
  }

  /** The prefixes to bypass, in order; after an upstream that does not resolve nothing more is done. */
  function BypassPrefixes(upstreams: seq<Target>, nodes: seq<Target>): seq<Prefix> {
    var n := Resolvable(upstreams);
    AllPrefixes(upstreams[..n]) + if n == |upstreams| then AllPrefixes(nodes) else []
  }

  /** The loop over the upstreams, which stops at one that does not resolve. */
  method CollectUpstreams(ts: seq<Target>) returns (ps: seq<Prefix>, resolved: bool)
    ensures ps == AllPrefixes(ts[..Resolvable(ts)]) && resolved == (Resolvable(ts) == |ts|)
  {
    ps := [];
    for i := 0 to |ts|
      invariant ps == AllPrefixes(ts[..i]) && forall j :: 0 <= j < i ==> ts[j] != Unresolved
    {
      assert ts[..i + 1][..i] == ts[..i];
      if ts[i] == Unresolved {
        FirstUnresolved(ts, i);
        return ps, false;
      }
      var more := CollectTarget(ts[i]);
      ps := ps + more;
    }
    FirstUnresolved(ts, |ts|);
    resolved := true;
  }

  /** The loop over the bypass nodes, which skips one that does not resolve. */
  method CollectNodes(ts: seq<Target>) returns (ps: seq<Prefix>)
    ensures ps == AllPrefixes(ts)
  {
    ps := [];
    for i := 0 to |ts|
      invariant ps == AllPrefixes(ts[..i])
    {
      assert ts[..i + 1][..i] == ts[..i];
      var more := CollectTarget(ts[i]);
      ps := ps + more;
    }
    assert ts[..|ts|] == ts;
  }

  method CollectTarget(t: Target) returns (ps: seq<Prefix>)
    ensures ps == TargetPrefixes(t)
  {
    ps := [];
    match t
    case Given(p) => ps := [p];
    case Answers(ips) =>
      for i := 0 to |ips|
        invariant ps == AnswerPrefixes(ips[..i])
      {
        assert ips[..i + 1][..i] == ips[..i];
        if |ips[i]| != 4 { continue; }
        ps := ps + [Prefix(V4(Get32(ips[i], 0)), 32)];
      }
      assert ips[..|ips|] == ips;
    case _ =>
  }

  lemma FirstUnresolved(ts: seq<Target>, n: nat)
    requires n <= |ts| && (forall j :: 0 <= j < n ==> ts[j] != Unresolved) && (n < |ts| ==> ts[n] == Unresolved)
    ensures Resolvable(ts) == n
  {
    var m := Resolvable(ts);
    assert m < |ts| ==> ts[m] == Unresolved;
  }

  /** An address that some answer of a dealt-with upstream gives in four bytes is bypassed as a host. */
  lemma {:induction false} AnswerIsListed(ips: seq<seq<Byte>>, ip: seq<Byte>)
    requires ip in ips && |ip| == 4
    ensures Prefix(V4(Get32(ip, 0)), 32) in AnswerPrefixes(ips)
  {
    if ip != ips[|ips| - 1] {
      AnswerIsListed(ips[..|ips| - 1], ip);
    }
  }

  lemma {:induction false} TargetIsListed(ts: seq<Target>, i: nat, p: Prefix)
    requires i < |ts| && p in TargetPrefixes(ts[i])
    ensures p in AllPrefixes(ts)
  {
    if i < |ts| - 1 {
      TargetIsListed(ts[..|ts| - 1], i, p);
    }
  }

  // ----- the forward table as code -----

  /** The installable ones of these prefixes. */
  ghost predicate SeenAre(seen: set<Prefix>, ps: seq<Prefix>) {
    forall p :: p in seen <==> p in ps && Installable(p)
  }

  lemma SeenGrow(seen: set<Prefix>, ps: seq<Prefix>, i: nat)
    requires i < |ps| && SeenAre(seen, ps[..i])
    ensures SeenAre(if Installable(ps[i]) then seen + {ps[i]} else seen, ps[..i + 1])
    ensures Installable(ps[i]) ==> (ps[i] in seen <==> ps[i] in ps[..i])
  {
    assert ps[..i + 1] == ps[..i] + [ps[i]];
  }

  /** This target asks for this prefix: it was given as such, or it is the /32 of a four-byte answer. */
  ghost predicate Names(t: Target, p: Prefix) {
    t == Given(p) || (t.Answers? && exists ip :: ip in t.ips && IsHostOf(p, ip))
  }

  predicate IsHostOf(p: Prefix, ip: seq<Byte>) {
    && |ip| == 4
    && p == Prefix(V4(ip[0] as int * 0x100_0000 + ip[1] as int * 0x1_0000 + ip[2] as int * 0x100 + ip[3] as int), 32)
  }

  lemma {:induction false} AnswersNamed(ips: seq<seq<Byte>>, p: Prefix)
    ensures p in AnswerPrefixes(ips) <==> exists ip :: ip in ips && IsHostOf(p, ip)
  {
    if ips != [] {
      var front, last := ips[..|ips| - 1], ips[|ips| - 1];
      AnswersNamed(front, p);
      assert forall ip :: ip in ips <==> ip in front || ip == last;
      assert AddrPrefix(last) == Some(p) <==> IsHostOf(p, last);
    }
  }

  lemma {:induction false} TargetsNamed(ts: seq<Target>, p: Prefix)
    ensures p in AllPrefixes(ts) <==> exists t :: t in ts && Names(t, p)
  {
    if ts != [] {
      var front, last := ts[..|ts| - 1], ts[|ts| - 1];
      TargetsNamed(front, p);
      if last.Answers? {
        AnswersNamed(last.ips, p);
      }
      assert p in TargetPrefixes(last) <==> Names(last, p);
      assert forall t :: t in ts <==> t in front || t == last;
    }
  }

  lemma {:induction false} BeforeUnresolved(ts: seq<Target>, i: nat)
    requires i < |ts| && Unresolved !in ts[..i] && ts[i] != Unresolved
    ensures i < Resolvable(ts)
    decreases i
  {
    if i > 0 {
      assert ts[0] in ts[..i] && ts[1..][..i - 1] == ts[..i][1..];
      BeforeUnresolved(ts[1..], i - 1);
    }
  }

  /** A prefix is bypassed exactly if an upstream that comes before every unresolved one asks for it, or a bypass node
      does and no upstream is unresolved. An unresolved node stops nothing. */
  lemma WhichAreBypassed(upstreams: seq<Target>, nodes: seq<Target>, p: Prefix)
    ensures p in BypassPrefixes(upstreams, nodes) <==>
              || (exists i :: 0 <= i < |upstreams| && Unresolved !in upstreams[..i] && Names(upstreams[i], p))
              || (Unresolved !in upstreams && exists t :: t in nodes && Names(t, p))
  {
    var n := Resolvable(upstreams);
    TargetsNamed(upstreams[..n], p);
    TargetsNamed(nodes, p);
    assert Unresolved !in upstreams <==> n == |upstreams|;
    if t :| t in upstreams[..n] && Names(t, p) {
      var i :| 0 <= i < n && upstreams[i] == t;
      assert Unresolved !in upstreams[..i] && Names(upstreams[i], p);
    }
    if i :| 0 <= i < |upstreams| && Unresolved !in upstreams[..i] && Names(upstreams[i], p) {
      BeforeUnresolved(upstreams, i);
      assert upstreams[i] in upstreams[..n];
    }
  }

  class ForwardTable {
    var rows: seq<Route>
    var bypassRoutes: seq<Route>   // what was really created, to be deleted again

    constructor (rows: seq<Route>)
      ensures this.rows == rows && bypassRoutes == []
    {
      this.rows, bypassRoutes := rows, [];
    }

    method CreateRow(r: Route) returns (ok: bool)
      modifies this`rows
      ensures rows == Create(old(rows), r) && ok == !(exists s :: s in old(rows) && SameKey(s, r))
    {
      ok := !(exists s | s in rows :: SameKey(s, r));
      if ok {
        rows := rows + [r];
      }
    }

    /** The installPrefix closure over one snapshot of the table; `seen` are the prefixes dealt with before. */
    method InstallPrefix(routes: seq<Route>, seen: set<Prefix>, tun: nat, p: Prefix)
      returns (seen': set<Prefix>, ghost added: seq<Route>)
      modifies this
      ensures rows == if !Installable(p) || p in seen || BypassRow(routes, tun, p).None? then old(rows)
                      else Create(old(rows), BypassRow(routes, tun, p).value)
      ensures rows == old(rows) + added && bypassRoutes == old(bypassRoutes) + added
      ensures seen' == if Installable(p) then seen + {p} else seen
    {
      seen', added := seen, [];
      if !p.base.V4? || p.bits > 32 { return; }
      if p.base.v4 / 0x100_0000 == 127 { return; }
      if p in seen { return; }
      seen' := seen + {p};
      var best := FindBestPhysicalRoute(routes, p.base.v4, tun);
      if best.None? { return; }
      var row := Route(best.value.luid, p, best.value.nextHop, 1);
      var ok := CreateRow(row);
      if ok {
        bypassRoutes := bypassRoutes + [row];
        added := [row];
      }
    }

    method InstallPrefixes(tun: nat, ps: seq<Prefix>)
      modifies this
      ensures rows == Bypassed(old(rows), old(rows), tun, ps, |ps|)
      ensures exists added :: rows == old(rows) + added && bypassRoutes == old(bypassRoutes) + added
    {
      var routes := rows;
      var seen: set<Prefix> := {};
      ghost var added := [];
      for i := 0 to |ps|
        invariant rows == Bypassed(old(rows), routes, tun, ps, i)
        invariant SeenAre(seen, ps[..i])
        invariant rows == old(rows) + added && bypassRoutes == old(bypassRoutes) + added
      {
        ghost var more;
        SeenGrow(seen, ps, i);
        seen, more := InstallPrefix(routes, seen, tun, ps[i]);
        added := added + more;
      }
    }

    /** setupUpstreamBypassRoutes; false when an upstream does not resolve. */
    method SetupUpstreamBypassRoutes(tun: nat, upstreams: seq<Target>, nodes: seq<Target>) returns (ok: bool)
      modifies this
      ensures ok == (Resolvable(upstreams) == |upstreams|)
      ensures var ps := BypassPrefixes(upstreams, nodes);
              && rows == Bypassed(old(rows), old(rows), tun, ps, |ps|)
              && exists added :: rows == old(rows) + added && bypassRoutes == old(bypassRoutes) + added
    {
      var ps: seq<Prefix>;
      ps, ok := CollectUpstreams(upstreams);
      if ok {
        var more := CollectNodes(nodes);
        ps := ps + more;
      } else {
        assert ps + [] == ps;
      }
      InstallPrefixes(tun, ps);
    }

    /** The loop over the two /1 routes, which takes the first back if the second is there already. */
    method CreateCaptures(tun: nat) returns (ok: bool)
      modifies this`rows
      ensures ok == CanCapture(old(rows), tun)
      ensures rows == if ok then Captured(old(rows), tun) else old(rows)
    {
      ghost var before := rows;
      ok := CreateRow(CaptureRow(tun, 0));
      if !ok { return; }
      assert forall r :: r in before ==> r in rows;
      ok := CreateRow(CaptureRow(tun, 0x8000_0000));
      if !ok {
        DeleteCreated(before, CaptureRow(tun, 0));
        rows := Delete(rows, CaptureRow(tun, 0));
      }
    }

    /** The routing part of setupRoutingWindowsLUID. A capture row that is already there fails the set-up, which
        then takes back the other one. An upstream that does not resolve fails it too; the capture rows are taken
        back and the bypass rows stay, on record. */
    method SetupRouting(tun: nat, upstreams: seq<Target>, nodes: seq<Target>) returns (ok: bool)
      modifies this
      ensures ok == (CanCapture(old(rows), tun) && Resolvable(upstreams) == |upstreams|)
      ensures !CanCapture(old(rows), tun) ==> rows == old(rows) && bypassRoutes == old(bypassRoutes)
      ensures CanCapture(old(rows), tun) ==>
                var table := SetUp(old(rows), tun, BypassPrefixes(upstreams, nodes));
                exists added :: && table == Captured(old(rows), tun) + added
                                && bypassRoutes == old(bypassRoutes) + added
                                && rows == if ok then table else old(rows) + added
    {
      ghost var before := rows;
      ghost var ps := BypassPrefixes(upstreams, nodes);
      ok := CreateCaptures(tun);
      if !ok { return; }
      ok := SetupUpstreamBypassRoutes(tun, upstreams, nodes);
      ghost var added :| rows == Captured(before, tun) + added && bypassRoutes == old(bypassRoutes) + added;
      assert rows == SetUp(before, tun, ps);
      if !ok {
        CapturesTakenBack(before, tun, ps, added);
        rows := Delete(rows, CaptureRow(tun, 0));
        rows := Delete(rows, CaptureRow(tun, 0x8000_0000));
      }
    }

    /** The routing part of cleanupWindowsState. */
    method CleanupRouting(tun: nat)
      modifies this
      ensures rows == CleanedUp(old(rows), old(bypassRoutes), tun) && bypassRoutes == []
    {
      ghost var rest := if tun != 0 then CaptureRows(tun) else [];
      for i := 0 to |bypassRoutes|
        invariant bypassRoutes == old(bypassRoutes)
        invariant DeleteAll(rows, bypassRoutes[i..] + rest) == DeleteAll(old(rows), bypassRoutes + rest)
      {
        assert (bypassRoutes[i..] + rest)[1..] == bypassRoutes[i + 1..] + rest;
        rows := Delete(rows, bypassRoutes[i]);
      }
      assert bypassRoutes[|bypassRoutes|..] + rest == rest;
      if tun != 0 {
        DeleteBothCaptures(rows, tun);
        rows := Delete(rows, CaptureRow(tun, 0));
        rows := Delete(rows, CaptureRow(tun, 0x8000_0000));
      }
      rows := DropPrefix(rows, LOW_HALF);
      rows := DropPrefix(rows, HIGH_HALF);
      bypassRoutes := [];
    }
  }

  // ----- where traffic goes afterwards -----

  /** The default-route fallback of the bypass set-up is never used: a default row covers everything. */
  lemma DefaultFallbackIsDead(rows: seq<Route>, tun: nat, a: U32)
    requires Best(rows, tun, a).None? && (forall r :: r in rows ==> WellFormed(r))
    ensures forall r :: r in rows && r.luid != tun ==> r.prefix.bits != 0
  {
    var _ := BestIsOptimal(rows, tun, a);
  }

  lemma HostPrefix(p: Prefix, a: U32)
    requires p.base.V4? && p.bits == 32
    ensures Covers(p, V4(a)) <==> p == Prefix(V4(a), 32)
  {
  }

  lemma CapturedRows(rows: seq<Route>, tun: nat)
    requires CanCapture(rows, tun)
    ensures Captured(rows, tun) == rows + CaptureRows(tun)
  {
    var one := rows + [CaptureRow(tun, 0)];
    assert one + [CaptureRow(tun, 0x8000_0000)] == rows + CaptureRows(tun);
  }

  lemma CaptureCovers(tun: nat, a: U32)
    ensures Covers(CaptureRow(tun, 0).prefix, V4(a)) <==> a < 0x8000_0000
    ensures Covers(CaptureRow(tun, 0x8000_0000).prefix, V4(a)) <==> a >= 0x8000_0000
  {
    ShiftValues(a);
    ShiftValues(0);
    ShiftValues(0x8000_0000);
  }

  /** The capture rows do not matter to a lookup that avoids the adapter. */
  lemma AvoidedRowsAreInvisible(rows: seq<Route>, tun: nat, a: U32)
    requires tun != 0 && CanCapture(rows, tun)
    ensures Best(Captured(rows, tun), tun, a) == Best(rows, tun, a)
  {
    CapturedRows(rows, tun);
    var t0, t1 := CaptureRow(tun, 0), CaptureRow(tun, 0x8000_0000);
    BestSnoc(rows, t0, tun, a);
    BestSnoc(rows + [t0], t1, tun, a);
    assert rows + CaptureRows(tun) == rows + [t0] + [t1];
  }

  /** The adapter's own rows, such as those of its address, leave this address alone. */
  predicate TunAvoids(rows: seq<Route>, tun: nat, a: U32) {
    forall i :: 0 <= i < |rows| && rows[i].luid == tun ==> !Covers(rows[i].prefix, V4(a))
  }

  lemma {:induction false} SameWithoutAvoided(rows: seq<Route>, tun: nat, a: U32)
    requires TunAvoids(rows, tun, a)
    ensures Best(rows, tun, a) == Best(rows, 0, a)
  {
    if rows != [] {
      SameWithoutAvoided(rows[..|rows| - 1], tun, a);
    }
  }

  /** The adapter has no host row for this address. */
  predicate NoTunHost(rows: seq<Route>, tun: nat, a: U32) {
    forall i :: 0 <= i < |rows| && rows[i].luid == tun ==> !HostRow(rows[i], a)
  }

  /** Both lookups found the same host row, or neither found one. */
  predicate SameHost(best: Option<Route>, all: Option<Route>) {
    && (best.Some? ==> best.value.prefix.bits <= 32)
    && if best.Some? && best.value.prefix.bits == 32 then all == best else all.None? || all.value.prefix.bits < 32
  }

  /** Then a physical host row that is best without the adapter is best with it. */
  lemma {:induction false} HostRowBeatsTun(rows: seq<Route>, tun: nat, a: U32)
    requires NoTunHost(rows, tun, a) && forall i :: 0 <= i < |rows| ==> WellFormed(rows[i])
    ensures SameHost(Best(rows, tun, a), Best(rows, 0, a))
  {
    if rows != [] {
      var n := |rows| - 1;
      var r := rows[n];
      HostRowBeatsTun(rows[..n], tun, a);
      assert WellFormed(r) && (r.luid == tun ==> !HostRow(r, a));
      if r.prefix.bits == 32 {
        HostPrefix(r.prefix, a);
        assert Candidate(r, tun, a) <==> Candidate(r, 0, a);
      }
    }
  }

  /** What each bypass row is, and that all rows of one prefix come from one list entry. */
  lemma {:induction false} BypassedRows(
    rows: seq<Route>, snapshot: seq<Route>, tun: nat, ps: seq<Prefix>, n: nat)
    returns (added: seq<Route>)
    requires n <= |ps|
    ensures Bypassed(rows, snapshot, tun, ps, n) == rows + added
    ensures forall r :: r in added ==>
      r.prefix in ps[..n] && Installable(r.prefix) && BypassRow(snapshot, tun, r.prefix) == Some(r)
    ensures forall r, s :: r in added && s in rows ==> !SameKey(s, r)
    ensures forall p :: p in ps[..n] && Installable(p) && BypassRow(snapshot, tun, p).Some? ==>
              exists s :: s in rows + added && SameKey(s, BypassRow(snapshot, tun, p).value)
  {
    added := [];
    if n > 0 {
      added := BypassedRows(rows, snapshot, tun, ps, n - 1);
      var p := ps[n - 1];
      assert ps[..n] == ps[..n - 1] + [p];
      if Installable(p) && BypassRow(snapshot, tun, p).Some? {
        var row := BypassRow(snapshot, tun, p).value;
        if p !in ps[..n - 1] && !(exists s :: s in rows + added && SameKey(s, row)) {
          var more := added + [row];
          assert rows + added + [row] == rows + more;
          assert row in rows + more && SameKey(row, row);
          forall q | q in ps[..n - 1] && Installable(q) && BypassRow(snapshot, tun, q).Some?
            ensures exists s :: s in rows + more && SameKey(s, BypassRow(snapshot, tun, q).value)
          {
            var s :| s in rows + added && SameKey(s, BypassRow(snapshot, tun, q).value);
            assert s in rows + more;
          }
          added := more;
        }
      }
    } else {
      assert rows + added == rows;
    }
  }

  predicate HostRow(q: Route, a: U32) {
    q.prefix == Prefix(V4(a), 32)
  }

  /** If every added host row of a points where the physical table pointed, and some host row does, so does
      the new table. */
  lemma HostRowWins(rows: seq<Route>, others: seq<Route>, tun: nat, a: U32, r: Route)
    requires tun != 0 && Best(rows, tun, a) == Some(r) && NoTunHost(rows, tun, a)
    requires forall q :: q in rows || q in others ==> WellFormed(q)
    requires forall q :: q in others && HostRow(q, a) ==>
      q.luid == r.luid && q.nextHop == r.nextHop && forall s :: s in rows ==> !SameKey(s, q)
    requires exists s :: s in rows + others && SameKey(s, Route(r.luid, Prefix(V4(a), 32), r.nextHop, 1))
    ensures var after := Best(rows + others, 0, a);
            after.Some? && after.value.luid == r.luid && after.value.nextHop == r.nextHop
  {
    var j := BestIsOptimal(rows, tun, a);
    if r.prefix.bits == 32 {
      HostRowStays(rows, others, tun, a, r);
    } else {
      HostRowIsNew(rows, others, tun, a, r);
    }
  }

  lemma HostRowStays(rows: seq<Route>, others: seq<Route>, tun: nat, a: U32, r: Route)
    requires Best(rows, tun, a) == Some(r) && r.prefix.bits == 32 && NoTunHost(rows, tun, a) && r in rows
    requires Candidate(r, tun, a)
    requires forall q :: q in rows || q in others ==> WellFormed(q)
    requires forall q :: q in others && HostRow(q, a) ==>
      q.luid == r.luid && q.nextHop == r.nextHop && forall s :: s in rows ==> !SameKey(s, q)
    ensures Best(rows + others, 0, a) == Some(r)
  {
    HostPrefix(r.prefix, a);
    HostRowBeatsTun(rows, tun, a);
    forall q | q in others && Candidate(q, 0, a)
      ensures !Better(q, r)
    {
      if q.prefix.bits == 32 {
        HostPrefix(q.prefix, a);
        assert SameKey(r, q);
      }
    }
    BestAppend(rows, others, 0, a);
  }

  lemma HostRowIsNew(rows: seq<Route>, others: seq<Route>, tun: nat, a: U32, r: Route)
    requires tun != 0 && Best(rows, tun, a) == Some(r) && r.prefix.bits < 32 && NoTunHost(rows, tun, a)
    requires Candidate(r, tun, a)
    requires forall q :: q in rows || q in others ==> WellFormed(q)
    requires forall q :: q in others && HostRow(q, a) ==> q.luid == r.luid && q.nextHop == r.nextHop
    requires exists s :: s in rows + others && SameKey(s, Route(r.luid, Prefix(V4(a), 32), r.nextHop, 1))
    ensures var after := Best(rows + others, 0, a);
            after.Some? && after.value.luid == r.luid && after.value.nextHop == r.nextHop
  {
    NoHostInRows(rows, tun, a, r);
    var s :| s in rows + others && SameKey(s, Route(r.luid, Prefix(V4(a), 32), r.nextHop, 1));
    HostPrefix(s.prefix, a);
    assert s in others;
    BestImproves(rows, others, 0, a);
    var after := Best(rows + others, 0, a).value;
    var k := BestIsOptimal(rows + others, 0, a);
    HostPrefix(after.prefix, a);
    assert after in others;
  }

  lemma NoHostInRows(rows: seq<Route>, tun: nat, a: U32, r: Route)
    requires tun != 0 && Best(rows, tun, a) == Some(r) && r.prefix.bits < 32 && NoTunHost(rows, tun, a)
    ensures forall q :: q in rows ==> !HostRow(q, a)
  {
    var k := BestIsOptimal(rows, tun, a);
    forall i | 0 <= i < |rows|
      ensures !HostRow(rows[i], a)
    {
      if rows[i].prefix == Prefix(V4(a), 32) && rows[i].luid != tun {
        assert Candidate(rows[i], tun, a) && Better(rows[i], r);
        assert false;
      }
    }
  }

  /** What set-up adds for a host address: rows out the way the table sent it, none of them there before. */
  lemma HostRowsAdded(rows: seq<Route>, tun: nat, ps: seq<Prefix>, a: U32) returns (others: seq<Route>)
    requires tun != 0 && CanCapture(rows, tun) && forall r :: r in rows ==> WellFormed(r)
    requires Prefix(V4(a), 32) in ps && a / 0x100_0000 != 127 && Best(rows, tun, a).Some?
    ensures SetUp(rows, tun, ps) == rows + others && forall q :: q in others ==> WellFormed(q)
    ensures var row := Route(Best(rows, tun, a).value.luid, Prefix(V4(a), 32), Best(rows, tun, a).value.nextHop, 1);
            && (forall q :: q in others && HostRow(q, a) ==> q == row && forall s :: s in rows ==> !SameKey(s, q))
            && exists s :: s in rows + others && SameKey(s, row)
  {
    var captured, host := Captured(rows, tun), Prefix(V4(a), 32);
    var added := BypassedRows(captured, captured, tun, ps, |ps|);
    assert ps[..|ps|] == ps;
    CapturedRows(rows, tun);
    others := CaptureRows(tun) + added;
    assert captured + added == rows + others;
    HostBypass(rows, tun, a);
    CapturesAreNotHosts(tun, added, a);
  }

  lemma HostBypass(rows: seq<Route>, tun: nat, a: U32)
    requires tun != 0 && CanCapture(rows, tun) && a / 0x100_0000 != 127 && Best(rows, tun, a).Some?
    ensures BypassRow(Captured(rows, tun), tun, Prefix(V4(a), 32))
         == Some(Route(Best(rows, tun, a).value.luid, Prefix(V4(a), 32), Best(rows, tun, a).value.nextHop, 1))
  {
    AvoidedRowsAreInvisible(rows, tun, a);
  }

  lemma CapturesAreNotHosts(tun: nat, added: seq<Route>, a: U32)
    ensures forall q :: q in CaptureRows(tun) + added && HostRow(q, a) ==> q in added
    ensures forall q :: q in CaptureRows(tun) + added ==> q in added || WellFormed(q)
  {
  }

  /** Traffic to a bypassed host address leaves by the interface and next hop the table chose without the
      adapter, whatever rows the adapter has besides one for that very host. */
  lemma UpstreamKeepsItsRoute(rows: seq<Route>, tun: nat, ps: seq<Prefix>, a: U32)
    requires tun != 0 && CanCapture(rows, tun) && NoTunHost(rows, tun, a) && forall r :: r in rows ==> WellFormed(r)
    requires Prefix(V4(a), 32) in ps && a / 0x100_0000 != 127
    requires Best(rows, tun, a).Some?
    ensures var before, after := Best(rows, tun, a), Best(SetUp(rows, tun, ps), 0, a);
            after.Some? && after.value.luid == before.value.luid && after.value.nextHop == before.value.nextHop
  {
    var others := HostRowsAdded(rows, tun, ps, a);
    HostRowWins(rows, others, tun, a, Best(rows, tun, a).value);
  }

  /** So every upstream address that a lookup gave in four bytes keeps its route. */
  lemma UpstreamAddressKeepsItsRoute(
    rows: seq<Route>, tun: nat, upstreams: seq<Target>, nodes: seq<Target>, i: nat, ip: seq<Byte>)
    requires i < Resolvable(upstreams) && upstreams[i].Answers? && ip in upstreams[i].ips && |ip| == 4 && ip[0] != 127
    requires tun != 0 && CanCapture(rows, tun) && NoTunHost(rows, tun, Get32(ip, 0))
    requires forall r :: r in rows ==> WellFormed(r)
    requires Best(rows, tun, Get32(ip, 0)).Some?
    ensures var before := Best(rows, tun, Get32(ip, 0));
            var after := Best(SetUp(rows, tun, BypassPrefixes(upstreams, nodes)), 0, Get32(ip, 0));
            after.Some? && after.value.luid == before.value.luid && after.value.nextHop == before.value.nextHop
  {
    var n, p := Resolvable(upstreams), Prefix(V4(Get32(ip, 0)), 32);
    AnswerIsListed(upstreams[i].ips, ip);
    assert upstreams[..n][i] == upstreams[i];
    TargetIsListed(upstreams[..n], i, p);
    FirstByte(ip);
    UpstreamKeepsItsRoute(rows, tun, BypassPrefixes(upstreams, nodes), Get32(ip, 0));
  }

  /** A bypass node works: with every upstream resolved, no address under a prefix that a node asks for goes to the
      adapter, whatever the other nodes are. */
  lemma NodesStayOffTheAdapter(
    rows: seq<Route>, tun: nat, upstreams: seq<Target>, nodes: seq<Target>, t: Target, p: Prefix, a: U32)
    requires Unresolved !in upstreams && t in nodes && Names(t, p)
    requires tun != 0 && CanCapture(rows, tun) && TunAvoids(rows, tun, a)
    requires p.base.V4? && 1 < p.bits <= 32 && p.base.v4 / 0x100_0000 != 127 && Covers(p, V4(a))
    requires Best(rows, tun, p.base.v4).Some?
    ensures var after := Best(SetUp(rows, tun, BypassPrefixes(upstreams, nodes)), 0, a);
            after.Some? && after.value.luid != tun
  {
    WhichAreBypassed(upstreams, nodes, p);
    ClaimedIsNotCaptured(rows, tun, BypassPrefixes(upstreams, nodes), a, p);
  }

  /** And a single address that a node or an upstream asks for keeps its interface and its gateway. */
  lemma NamedHostKeepsItsRoute(
    rows: seq<Route>, tun: nat, upstreams: seq<Target>, nodes: seq<Target>, t: Target, a: U32)
    requires Unresolved !in upstreams && (t in nodes || t in upstreams) && Names(t, Prefix(V4(a), 32))
    requires tun != 0 && CanCapture(rows, tun) && NoTunHost(rows, tun, a) && forall r :: r in rows ==> WellFormed(r)
    requires a / 0x100_0000 != 127 && Best(rows, tun, a).Some?
    ensures var before, after := Best(rows, tun, a), Best(SetUp(rows, tun, BypassPrefixes(upstreams, nodes)), 0, a);
            after.Some? && after.value.luid == before.value.luid && after.value.nextHop == before.value.nextHop
  {
    WhichAreBypassed(upstreams, nodes, Prefix(V4(a), 32));
    UpstreamKeepsItsRoute(rows, tun, BypassPrefixes(upstreams, nodes), a);
  }

  lemma FirstByte(ip: seq<Byte>)
    requires |ip| == 4
    ensures Get32(ip, 0) / 0x100_0000 == ip[0]
  {
    assert Get32(ip, 0) == ip[0] as int * 0x100_0000 + (ip[1] as int * 0x1_0000 + ip[2] as int * 0x100 + ip[3]);
  }

  lemma {:induction false} BestEither(rows: seq<Route>, more: seq<Route>, avoid: nat, a: U32)
    ensures var after := Best(rows + more, avoid, a);
            after == Best(rows, avoid, a) || (after.Some? && after.value in more)
  {
    if more == [] {
      assert rows + more == rows;
    } else {
      var n := |more| - 1;
      assert (rows + more)[..|rows + more| - 1] == rows + more[..n];
      BestEither(rows, more[..n], avoid, a);
    }
  }

  /** The adapter's /1 row wins over the physical table exactly when that has nothing better. */
  lemma CapturedLookup(rows: seq<Route>, tun: nat, a: U32)
    requires tun != 0 && CanCapture(rows, tun) && TunAvoids(rows, tun, a)
    ensures var t := if a < 0x8000_0000 then CaptureRow(tun, 0) else CaptureRow(tun, 0x8000_0000);
            var physical := Best(rows, tun, a);
            Best(Captured(rows, tun), 0, a) == if physical.None? || Better(t, physical.value) then Some(t) else physical
  {
    CapturedRows(rows, tun);
    SameWithoutAvoided(rows, tun, a);
    LookupWithCaptures(rows, tun, a);
  }

  lemma LookupWithCaptures(rows: seq<Route>, tun: nat, a: U32)
    ensures var t := if a < 0x8000_0000 then CaptureRow(tun, 0) else CaptureRow(tun, 0x8000_0000);
            var best := Best(rows, 0, a);
            Best(rows + CaptureRows(tun), 0, a) == if best.None? || Better(t, best.value) then Some(t) else best
  {
    CaptureCovers(tun, a);
    var t0, t1 := CaptureRow(tun, 0), CaptureRow(tun, 0x8000_0000);
    BestSnoc(rows, t0, 0, a);
    BestSnoc(rows + [t0], t1, 0, a);
    assert rows + CaptureRows(tun) == rows + [t0] + [t1];
  }

  lemma BestSnoc(rows: seq<Route>, r: Route, avoid: nat, a: U32)
    ensures var best := Best(rows, avoid, a);
            Best(rows + [r], avoid, a) ==
              if Candidate(r, avoid, a) && (best.None? || Better(r, best.value)) then Some(r) else best
  {
    assert (rows + [r])[..|rows|] == rows;
  }

  /** A bypass prefix longer than /1 that gets a route claims the address. */
  predicate Claims(rows: seq<Route>, tun: nat, ps: seq<Prefix>, a: U32, p: Prefix) {
    p in ps && Installable(p) && Best(rows, tun, p.base.v4).Some? && p.bits > 1 && Covers(p, V4(a))
  }

  lemma BypassLookup(rows: seq<Route>, tun: nat, p: Prefix)
    requires tun != 0 && CanCapture(rows, tun) && Installable(p)
    ensures match Best(rows, tun, p.base.v4)
            case None => BypassRow(Captured(rows, tun), tun, p).None?
            case Some(r) =>
              BypassRow(Captured(rows, tun), tun, p) == Some(Route(r.luid, p, r.nextHop, 1)) && r.luid != tun
  {
    AvoidedRowsAreInvisible(rows, tun, p.base.v4);
    PhysicalIsNotTun(rows, tun, p.base.v4);
  }

  /** A row longer than /1 that covers the address keeps it off the adapter. */
  lemma LongerBeatsCapture(rows: seq<Route>, tun: nat, a: U32, s: Route)
    requires s in rows && Candidate(s, 0, a) && s.prefix.bits > 1
    requires forall r :: r in rows && r.luid == tun && Covers(r.prefix, V4(a)) ==> r.prefix.bits <= 1
    ensures Best(rows, 0, a).Some? && Best(rows, 0, a).value.luid != tun
  {
    var k := BestIsOptimal(rows, 0, a);
  }

  /** Only the capture rows of the table after set-up take the address to the adapter. */
  lemma OnlyCapturesOnTun(rows: seq<Route>, tun: nat, ps: seq<Prefix>, a: U32) returns (added: seq<Route>)
    requires tun != 0 && CanCapture(rows, tun) && TunAvoids(rows, tun, a)
    ensures SetUp(rows, tun, ps) == Captured(rows, tun) + added
    ensures forall r :: r in SetUp(rows, tun, ps) && r.luid == tun && Covers(r.prefix, V4(a)) ==> r.prefix.bits <= 1
    ensures forall p :: p in ps && Installable(p) && BypassRow(Captured(rows, tun), tun, p).Some? ==>
              exists s :: s in SetUp(rows, tun, ps) && SameKey(s, BypassRow(Captured(rows, tun), tun, p).value)
  {
    var captured := Captured(rows, tun);
    CapturedRows(rows, tun);
    added := BypassedRows(captured, captured, tun, ps, |ps|);
    assert ps[..|ps|] == ps;
    forall r | r in added
      ensures r.luid != tun
    {
      BypassLookup(rows, tun, r.prefix);
    }
  }

  lemma ClaimedIsNotCaptured(rows: seq<Route>, tun: nat, ps: seq<Prefix>, a: U32, p: Prefix)
    requires tun != 0 && CanCapture(rows, tun) && TunAvoids(rows, tun, a) && Claims(rows, tun, ps, a, p)
    ensures var after := Best(SetUp(rows, tun, ps), 0, a); after.Some? && after.value.luid != tun
  {
    var added := OnlyCapturesOnTun(rows, tun, ps, a);
    BypassLookup(rows, tun, p);
    var s :| s in SetUp(rows, tun, ps) && SameKey(s, BypassRow(Captured(rows, tun), tun, p).value);
    LongerBeatsCapture(SetUp(rows, tun, ps), tun, a, s);
  }

  lemma UnclaimedIsUnmoved(rows: seq<Route>, tun: nat, ps: seq<Prefix>, a: U32)
    requires tun != 0 && CanCapture(rows, tun) && TunAvoids(rows, tun, a)
    requires forall p :: !Claims(rows, tun, ps, a, p)
    ensures var captured, after := Best(Captured(rows, tun), 0, a), Best(SetUp(rows, tun, ps), 0, a);
            captured.Some? && after.Some? && (after.value.luid == tun <==> captured.value.luid == tun)
  {
    var captured := Captured(rows, tun);
    CapturedLookup(rows, tun, a);
    var added := BypassedRows(captured, captured, tun, ps, |ps|);
    assert ps[..|ps|] == ps;
    var t := Best(captured, 0, a).value;
    forall q | q in added
      ensures q.luid != tun && q.metric == 1 && (Candidate(q, 0, a) ==> q.prefix.bits <= 1)
    {
      BypassLookup(rows, tun, q.prefix);
      assert !Claims(rows, tun, ps, a, q.prefix);
    }
    if t.luid == tun {
      PhysicalIsNotTun(rows, tun, a);
      BestAppend(captured, added, 0, a);
    } else {
      BestEither(captured, added, 0, a);
      BestImproves(captured, added, 0, a);
    }
  }

  lemma PhysicalIsNotTun(rows: seq<Route>, tun: nat, a: U32)
    requires tun != 0
    ensures Best(rows, tun, a).Some? ==> Best(rows, tun, a).value.luid != tun
  {
    var _ := BestIsOptimal(rows, tun, a);
  }

  /** Nothing physical outranks the capture rows: no row, a default route, or a /1 of higher metric. */
  predicate Outranked(physical: Option<Route>) {
    physical.None? || physical.value.prefix.bits == 0 || (physical.value.prefix.bits == 1 && physical.value.metric > 1)
  }

  lemma UnclaimedTraffic(rows: seq<Route>, tun: nat, ps: seq<Prefix>, a: U32)
    requires tun != 0 && CanCapture(rows, tun) && TunAvoids(rows, tun, a)
    requires forall p :: !Claims(rows, tun, ps, a, p)
    ensures var after := Best(SetUp(rows, tun, ps), 0, a);
            after.Some? && (after.value.luid == tun <==> Outranked(Best(rows, tun, a)))
  {
    UnclaimedIsUnmoved(rows, tun, ps, a);
    CapturedLookup(rows, tun, a);
    PhysicalIsNotTun(rows, tun, a);
  }

  /** Exactly the traffic that nothing physical outranks goes to the adapter: the best physical row is
      missing, or is a default route, or is a /1 of higher metric, and no bypass prefix longer than /1
      claims the address. The adapter may have rows of its own, for other addresses. */
  lemma CapturedTraffic(rows: seq<Route>, tun: nat, ps: seq<Prefix>, a: U32)
    requires tun != 0 && CanCapture(rows, tun) && TunAvoids(rows, tun, a)
    ensures var after := Best(SetUp(rows, tun, ps), 0, a);
            && after.Some?
            && (after.value.luid == tun <==> Outranked(Best(rows, tun, a)) && forall p :: !Claims(rows, tun, ps, a, p))
  {
    if p :| Claims(rows, tun, ps, a, p) {
      ClaimedIsNotCaptured(rows, tun, ps, a, p);
    } else {
      UnclaimedTraffic(rows, tun, ps, a);
    }
  }

  /** And what goes to the adapter goes there on link, by one of the two /1 rows of metric 1. */
  lemma CapturedIsOnLink(rows: seq<Route>, tun: nat, ps: seq<Prefix>, a: U32)
    requires tun != 0 && CanCapture(rows, tun) && TunAvoids(rows, tun, a)
    requires Best(SetUp(rows, tun, ps), 0, a).Some? && Best(SetUp(rows, tun, ps), 0, a).value.luid == tun
    ensures var base := if a < 0x8000_0000 then 0 else 0x8000_0000;
            Best(SetUp(rows, tun, ps), 0, a).value == Route(tun, Prefix(V4(base), 1), 0, 1)
  {
    var captured := Captured(rows, tun);
    CapturedRows(rows, tun);
    var added := BypassedRows(captured, captured, tun, ps, |ps|);
    var k := BestIsOptimal(SetUp(rows, tun, ps), 0, a);
    var r := Best(SetUp(rows, tun, ps), 0, a).value;
    assert r in rows || r in CaptureRows(tun) || r in added;
    if r in added {
      BypassLookup(rows, tun, r.prefix);
    }
    assert r in CaptureRows(tun);
    ShiftValues(0);
    ShiftValues(0x8000_0000);
    ShiftValues(a);
  }

  /** An upstream whose address comes only in sixteen bytes gets no bypass row: with an ordinary default route, the
      proxy's own traffic to it goes into the adapter. */
  lemma SixteenByteUpstreamIsCaptured()
    ensures var rows := [Route(1, Prefix(V4(0), 0), 0x0A00_0001, 25)];
            var ip := [0, 0, 0, 0, 0, 0, 0, 0, 0, 0, 0xFF, 0xFF, 8, 8, 8, 8];
            var table := SetUp(rows, 7, BypassPrefixes([Answers([ip])], []));
            && Best(rows, 7, 0x0808_0808) == Some(rows[0])
            && Best(table, 0, 0x0808_0808).Some? && Best(table, 0, 0x0808_0808).value.luid == 7
  {
    var rows := [Route(1, Prefix(V4(0), 0), 0x0A00_0001, 25)];
    var ip: seq<Byte> := [0, 0, 0, 0, 0, 0, 0, 0, 0, 0, 0xFF, 0xFF, 8, 8, 8, 8];
    LongAnswersGiveNothing([ip]);
    var ts := [Answers([ip])];
    FirstUnresolved(ts, 1);
    assert ts[..1] == ts && ts[..0] == [];
    assert BypassPrefixes(ts, []) == [];
    assert rows[..0] == [];
    CapturedTraffic(rows, 7, [], 0x0808_0808);
  }

  lemma {:induction false} LongAnswersGiveNothing(ips: seq<seq<Byte>>)
    requires forall ip :: ip in ips ==> |ip| != 4
    ensures AnswerPrefixes(ips) == []
  {
    if ips != [] {
      LongAnswersGiveNothing(ips[..|ips| - 1]);
    }
  }

  // ----- taking it all back -----

  lemma DeleteBothCaptures(rows: seq<Route>, tun: nat)
    ensures DeleteAll(rows, CaptureRows(tun)) == Delete(Delete(rows, CaptureRow(tun, 0)), CaptureRow(tun, 0x8000_0000))
  {
    var rs := CaptureRows(tun);
    var once := Delete(rows, CaptureRow(tun, 0));
    assert rs[1..] == [CaptureRow(tun, 0x8000_0000)] && rs[1..][1..] == [];
    assert DeleteAll(once, rs[1..]) == Delete(once, CaptureRow(tun, 0x8000_0000));
  }

  lemma {:induction false} DeleteSkips(base: seq<Route>, x: seq<Route>, r: Route)
    requires forall s :: s in base ==> !SameKey(s, r)
    ensures Delete(base + x, r) == base + Delete(x, r)
  {
    if base == [] {
      assert base + x == x && [] + Delete(x, r) == Delete(x, r);
    } else {
      assert (base + x)[1..] == base[1..] + x;
      DeleteSkips(base[1..], x, r);
    }
  }

  lemma {:induction false} DeleteMembers(x: seq<Route>, r: Route)
    ensures forall q :: q in Delete(x, r) ==> q in x && !SameKey(q, r)
  {
    if x != [] {
      DeleteMembers(x[1..], r);
    }
  }

  lemma {:induction false} DeleteAllAdded(base: seq<Route>, x: seq<Route>, rs: seq<Route>)
    requires forall s, r :: s in base && r in rs ==> !SameKey(s, r)
    requires forall q :: q in x ==> exists r :: r in rs && SameKey(q, r)
    ensures DeleteAll(base + x, rs) == base
    decreases |rs|
  {
    assert x != [] ==> x[0] in x;
    if rs == [] {
      assert base + x == base;
    } else {
      DeleteSkips(base, x, rs[0]);
      DeleteMembers(x, rs[0]);
      var x' := Delete(x, rs[0]);
      forall q | q in x'
        ensures exists r :: r in rs[1..] && SameKey(q, r)
      {
        var r :| r in rs && SameKey(q, r);
        assert r in rs[1..];
      }
      DeleteAllAdded(base, x', rs[1..]);
    }
  }

  lemma DeleteCreated(rows: seq<Route>, r: Route)
    requires forall s :: s in rows ==> !SameKey(s, r)
    ensures Delete(rows + [r], r) == rows
  {
    DeleteSkips(rows, [r], r);
    assert [r][1..] == [] && rows + [] == rows;
  }

  /** Deleting the recorded bypass rows and the two capture rows takes back exactly what set-up added. */
  lemma DeletionsUndoSetup(rows: seq<Route>, tun: nat, ps: seq<Prefix>, added: seq<Route>)
    requires CanCapture(rows, tun) && SetUp(rows, tun, ps) == Captured(rows, tun) + added
    ensures DeleteAll(SetUp(rows, tun, ps), added + CaptureRows(tun)) == rows
  {
    CapturedRows(rows, tun);
    AddedAreNew(rows, tun, ps, added);
    DeleteAround(rows, CaptureRows(tun), added);
    assert rows + CaptureRows(tun) + added == rows + (CaptureRows(tun) + added);
  }

  lemma AddedAreNew(rows: seq<Route>, tun: nat, ps: seq<Prefix>, added: seq<Route>)
    requires CanCapture(rows, tun) && SetUp(rows, tun, ps) == Captured(rows, tun) + added
    ensures forall s, r :: s in rows && (r in CaptureRows(tun) || r in added) ==> !SameKey(s, r)
  {
    var captured := Captured(rows, tun);
    var created := BypassedRows(captured, captured, tun, ps, |ps|);
    SameTail(captured, created, added);
    CapturedRows(rows, tun);
  }

  lemma SameTail(a: seq<Route>, b: seq<Route>, c: seq<Route>)
    requires a + b == a + c
    ensures b == c
  {
    assert b == (a + b)[|a|..] && c == (a + c)[|a|..];
  }

  lemma DeleteAround(rows: seq<Route>, x: seq<Route>, y: seq<Route>)
    requires forall s, r :: s in rows && (r in x || r in y) ==> !SameKey(s, r)
    ensures DeleteAll(rows + (x + y), y + x) == rows
  {
    forall q | q in x + y
      ensures exists r :: r in y + x && SameKey(q, r)
    {
      assert q in y + x && SameKey(q, q);
    }
    DeleteAllAdded(rows, x + y, y + x);
  }

  lemma CapturesTakenBack(rows: seq<Route>, tun: nat, ps: seq<Prefix>, added: seq<Route>)
    requires CanCapture(rows, tun) && SetUp(rows, tun, ps) == Captured(rows, tun) + added
    ensures Delete(Delete(Captured(rows, tun) + added, CaptureRow(tun, 0)), CaptureRow(tun, 0x8000_0000)) ==
      rows + added
  {
    CapturedRows(rows, tun);
    AddedAreNotCaptures(rows, tun, ps, added);
    AddedAreNew(rows, tun, ps, added);
    DeleteTwo(rows, CaptureRow(tun, 0), CaptureRow(tun, 0x8000_0000), added);
  }

  lemma AddedAreNotCaptures(rows: seq<Route>, tun: nat, ps: seq<Prefix>, added: seq<Route>)
    requires CanCapture(rows, tun) && SetUp(rows, tun, ps) == Captured(rows, tun) + added
    ensures forall s, r :: s in CaptureRows(tun) && r in added ==> !SameKey(r, s)
  {
    var captured := Captured(rows, tun);
    var created := BypassedRows(captured, captured, tun, ps, |ps|);
    SameTail(captured, created, added);
    CapturedRows(rows, tun);
  }

  lemma DeleteTwo(a: seq<Route>, t0: Route, t1: Route, b: seq<Route>)
    requires !SameKey(t1, t0) && forall s :: s in a || s in b ==> !SameKey(s, t0) && !SameKey(s, t1)
    ensures Delete(Delete(a + [t0, t1] + b, t0), t1) == a + b
  {
    assert a + [t0, t1] + b == a + [t0] + ([t1] + b) && a + ([t1] + b) == a + [t1] + b;
    DeleteMiddle(a, t0, [t1] + b);
    DeleteMiddle(a, t1, b);
  }

  lemma DeleteMiddle(a: seq<Route>, r: Route, b: seq<Route>)
    requires forall s :: s in a || s in b ==> !SameKey(s, r)
    ensures Delete(a + [r] + b, r) == a + b
  {
    assert a + [r] + b == a + ([r] + b) && ([r] + b)[1..] == b;
    DeleteSkips(a, [r] + b, r);
    DeleteSkips(b, [], r);
    assert b + [] == b;
  }

  lemma {:induction false} DropConcat(a: seq<Route>, b: seq<Route>, p: Prefix)
    ensures DropPrefix(a + b, p) == DropPrefix(a, p) + DropPrefix(b, p)
  {
    if a == [] {
      assert a + b == b;
    } else {
      assert (a + b)[1..] == a[1..] + b;
      DropConcat(a[1..], b, p);
    }
  }

  /** Dropping a prefix keeps the table exactly when no row has it. */
  lemma {:induction false} DropKeeps(rows: seq<Route>, p: Prefix)
    ensures |DropPrefix(rows, p)| <= |rows|
    ensures DropPrefix(rows, p) == rows <==> forall r :: r in rows ==> r.prefix != p
    ensures (exists r :: r in rows && r.prefix == p) ==> |DropPrefix(rows, p)| < |rows|
  {
    if rows != [] {
      DropKeeps(rows[1..], p);
      assert rows == [rows[0]] + rows[1..];
      assert rows[0] in rows;
    }
  }

  predicate HasHalf(rows: seq<Route>) {
    exists i | 0 <= i < |rows| :: rows[i].prefix == LOW_HALF || rows[i].prefix == HIGH_HALF
  }

  lemma DropHalvesKeeps(rows: seq<Route>)
    ensures DropHalves(rows) == rows <==> !HasHalf(rows)
  {
    DropKeeps(rows, LOW_HALF);
    DropKeeps(DropPrefix(rows, LOW_HALF), HIGH_HALF);
    if DropHalves(rows) == rows {
      assert DropPrefix(rows, LOW_HALF) == rows;
      assert forall i :: 0 <= i < |rows| ==> rows[i] in rows;
    }
  }

  /** After set-up and clean-up the table is what it was less its own /1 rows, whichever interface they belong to;
      so it is restored if and only if it had none. */
  lemma CleanupRestoresTable(rows: seq<Route>, tun: nat, ps: seq<Prefix>, added: seq<Route>)
    requires tun != 0 && CanCapture(rows, tun) && SetUp(rows, tun, ps) == Captured(rows, tun) + added
    ensures CleanedUp(SetUp(rows, tun, ps), added, tun) == DropHalves(rows)
    ensures CleanedUp(SetUp(rows, tun, ps), added, tun) == rows <==> !HasHalf(rows)
  {
    DeletionsUndoSetup(rows, tun, ps, added);
    DropHalvesKeeps(rows);
  }

  /** A second tunnel that splits the default route the same way loses its routes. */
  lemma OtherTunnelLosesRoutes()
    ensures var rows := [Route(1, Prefix(V4(0), 0), 0x0A00_0001, 25),
                         Route(9, LOW_HALF, 0, 5), Route(9, HIGH_HALF, 0, 5)];
            && CanCapture(rows, 7) && SetUp(rows, 7, []) == Captured(rows, 7) + []
            && CleanedUp(SetUp(rows, 7, []), [], 7) == [rows[0]]
  {
    var rows := [Route(1, Prefix(V4(0), 0), 0x0A00_0001, 25), Route(9, LOW_HALF, 0, 5), Route(9, HIGH_HALF, 0, 5)];
    assert SetUp(rows, 7, []) == Captured(rows, 7) == Captured(rows, 7) + [];
    CleanupRestoresTable(rows, 7, [], []);
    assert rows == [rows[0]] + ([rows[1]] + [rows[2]]);
    DropOne(rows[0], [rows[1]] + [rows[2]], LOW_HALF);
    DropOne(rows[1], [rows[2]], LOW_HALF);
    DropOne(rows[2], [], LOW_HALF);
    assert [rows[2]] == [rows[2]] + [];
    DropOne(rows[0], [rows[2]], HIGH_HALF);
    DropOne(rows[2], [], HIGH_HALF);
  }

  lemma DropOne(r: Route, rest: seq<Route>, p: Prefix)
    ensures DropPrefix([r] + rest, p) == if r.prefix == p then DropPrefix(rest, p) else [r] + DropPrefix(rest, p)
  {
    assert ([r] + rest)[1..] == rest;
  }

  /** A clean-up in a process that did not do the set-up removes the /1 rows and leaves the bypass rows. */
  lemma CleanupElsewhere(rows: seq<Route>, tun: nat, ps: seq<Prefix>, added: seq<Route>)
    requires CanCapture(rows, tun) && SetUp(rows, tun, ps) == Captured(rows, tun) + added
    ensures CleanedUp(SetUp(rows, tun, ps), [], 0) == DropHalves(rows) + DropHalves(added)
  {
    CapturedRows(rows, tun);
    DropAround(rows, tun, added);
    var none: seq<Route> := [];
    assert none + none == none;
  }

  lemma DropAround(rows: seq<Route>, tun: nat, added: seq<Route>)
    ensures DropHalves(rows + CaptureRows(tun) + added) == DropHalves(rows) + DropHalves(added)
  {
    DropHalvesConcat(rows + CaptureRows(tun), added);
    DropHalvesConcat(rows, CaptureRows(tun));
    DropCaptures(tun);
    assert DropHalves(rows) + [] == DropHalves(rows);
  }

  lemma DropHalvesConcat(a: seq<Route>, b: seq<Route>)
    ensures DropHalves(a + b) == DropHalves(a) + DropHalves(b)
  {
    DropConcat(a, b, LOW_HALF);
    DropConcat(DropPrefix(a, LOW_HALF), DropPrefix(b, LOW_HALF), HIGH_HALF);
  }

  lemma DropCaptures(tun: nat)
    ensures DropHalves(CaptureRows(tun)) == []
  {
    var t0, t1 := CaptureRow(tun, 0), CaptureRow(tun, 0x8000_0000);
    assert CaptureRows(tun) == [t0] + [t1] && [t1] == [t1] + [];
    DropOne(t0, [t1], LOW_HALF);
    DropOne(t1, [], LOW_HALF);
    DropOne(t1, [], HIGH_HALF);
  }
}
