/** Upstream selection: probes, list updates and reports race on the server manager while dialers
    retry through whatever it names. */
module Upstreams {
  import opened Bytes

  // ----- self detection -----

  /** A parsed upstream URL; `port` is what strconv.Atoi makes of an explicit port. */
  datatype Url = Url(scheme: string, loopback: bool, port: Option<int>)

  type Parser = string -> Option<Url>

  function EffectivePort(u: Url): int {
    match u.port
    case Some(p) => p
    case None =>
      if u.scheme == "http" then 80
      else if u.scheme == "socks5" then 1080 else if u.scheme == "tproxy" then 10080 else 0
  }

  /** An upstream is vproxy itself: loopback, on one of the ports vproxy listens on. */
  predicate IsSelf(selfPorts: seq<int>, parse: Parser, addr: string) {
    var u := parse(addr);
    u.Some? && u.value.loopback && EffectivePort(u.value) > 0 && EffectivePort(u.value) in selfPorts
  }

  // ----- the interleaved system -----

  /** Which upstreams are vproxy itself, how often a dial is tried, how long a success stays fresh. */
  datatype Setting = Setting(self: string -> bool, retries: int, interval: int)

  function Retries(cfg: Setting): nat {
    if cfg.retries <= 0 then 3 else cfg.retries
  }

  /** A testServers call between its two critical sections. */
  datatype Probe = Probe(snapshot: seq<string>, next: nat, found: string)

  datatype Action = Tried(url: string, ok: bool) | Reported(url: string, ok: bool)

  /** Why a dial is over. */
  datatype Stop = Connected | Exhausted | Refused | NoUpstream

  datatype DialPhase =
    | Choosing | FallingBack | Chosen(url: string) | Dialed(url: string, ok: bool) | Finished(why: Stop)

  /** A dialTarget call: its position in the retry loop and what it has done so far. */
  datatype Dialer = Dialer(phase: DialPhase, attempt: nat, log: seq<Action>)

  datatype State = State(
    servers: seq<string>, active: string, lastSuccess: Option<int>, probes: map<nat, Probe>, dialers: map<nat, Dialer>)

  datatype Event =
    | UpdateServers(list: seq<string>)
    | Report(url: string, ok: bool, now: int)   // by anyone else who dialled, such as a UDP relay
    | ProbeStart(t: nat, now: int)
    | ProbeNext(t: nat, reachable: bool)
    | ProbeCommit(t: nat)
    | DialStart(d: nat)
    | DialBest(d: nat)
    | DialFallback(d: nat)
    | DialRefuse(d: nat)               // the chosen URL does not parse or has another scheme
    | DialTry(d: nat, ok: bool)
    | DialReport(d: nat, now: int)

  function Initial(servers: seq<string>): State {
    State(servers, "", None, map[], map[])
  }

  predicate Enabled(cfg: Setting, s: State, e: Event) {
    match e
    case UpdateServers(_) => true
    case Report(_, _, _) => true
    case ProbeStart(t, _) => t !in s.probes
    case ProbeNext(t, _) => t in s.probes && s.probes[t].found == "" && s.probes[t].next < |s.probes[t].snapshot|
    case ProbeCommit(t) => t in s.probes && (s.probes[t].found != "" || s.probes[t].next == |s.probes[t].snapshot|)
    case DialStart(d) => d !in s.dialers
    case DialBest(d) => d in s.dialers && s.dialers[d].phase == Choosing
    case DialFallback(d) => d in s.dialers && s.dialers[d].phase == FallingBack
    case DialRefuse(d) => d in s.dialers && s.dialers[d].phase.Chosen?
    case DialTry(d, _) => d in s.dialers && s.dialers[d].phase.Chosen?
    case DialReport(d, _) => d in s.dialers && s.dialers[d].phase.Dialed?
  }

  /** The snapshot section of testServers; None when there is nothing to probe. */
  function StartedProbe(cfg: Setting, s: State, now: int): Option<Probe> {
    if s.active != "" && s.lastSuccess.Some? && now - s.lastSuccess.value < cfg.interval then None
    else if s.servers == [] then None
    else Some(Probe(s.servers, 0, ""))
  }

  /** One round of the probe loop. */
  function Probed(cfg: Setting, p: Probe, reachable: bool): Probe
    requires p.next < |p.snapshot|
  {
    if !cfg.self(p.snapshot[p.next]) && reachable then p.(found := p.snapshot[p.next], next := p.next + 1)
    else p.(next := p.next + 1)
  }

  function ReportedFailure(s: State, url: string): State {
    if s.active == url then s.(active := "", lastSuccess := None) else s
  }

  function ReportedSuccess(s: State, url: string, now: int): State {
    if s.active == url then s.(lastSuccess := Some(now)) else s
  }

  /** The first configured server that is not vproxy itself; "" if there is none. */
  function FirstForeign(cfg: Setting, servers: seq<string>): string {
    if servers == [] then "" else if !cfg.self(servers[0]) then servers[0] else FirstForeign(cfg, servers[1..])
  }

  function Chose(dl: Dialer, url: string): Dialer {
    dl.(phase := if url == "" then Finished(NoUpstream) else Chosen(url))
  }

  /** After its report a dialer stops on success or when its tries are used up. */
  function AfterReport(cfg: Setting, dl: Dialer): Dialer
    requires dl.phase.Dialed?
  {
    var url, ok := dl.phase.url, dl.phase.ok;
    dl.(log := dl.log + [Reported(url, ok)],
        phase := if ok then Finished(Connected)
                 else if dl.attempt >= Retries(cfg) then Finished(Exhausted) else Choosing,
        attempt := if ok || dl.attempt >= Retries(cfg) then dl.attempt else dl.attempt + 1)
  }

  function Apply(cfg: Setting, s: State, e: Event): State
    requires Enabled(cfg, s, e)
  {
    match e
    case UpdateServers(list) => s.(servers := list)
    case Report(url, ok, now) => if ok then ReportedSuccess(s, url, now) else ReportedFailure(s, url)
    case ProbeStart(t, now) =>
      var p := StartedProbe(cfg, s, now);
      if p.Some? then s.(probes := s.probes[t := p.value]) else s
    case ProbeNext(t, reachable) => s.(probes := s.probes[t := Probed(cfg, s.probes[t], reachable)])
    case ProbeCommit(t) => s.(active := s.probes[t].found, probes := s.probes - {t})
    case DialStart(d) => s.(dialers := s.dialers[d := Dialer(Choosing, 1, [])])
    case DialBest(d) =>
      var dl := s.dialers[d];
      s.(dialers := s.dialers[d := if s.active == ""
                                   then dl.(phase := FallingBack) else dl.(phase := Chosen(s.active))])
    case DialFallback(d) => s.(dialers := s.dialers[d := Chose(s.dialers[d], FirstForeign(cfg, s.servers))])
    case DialRefuse(d) => s.(dialers := s.dialers[d := s.dialers[d].(phase := Finished(Refused))])
    case DialTry(d, ok) =>
      var dl := s.dialers[d];
      s.(dialers := s.dialers[d := dl.(phase := Dialed(dl.phase.url, ok), log := dl.log + [Tried(dl.phase.url, ok)])])
    case DialReport(d, now) =>
      var dl := s.dialers[d];
      var url, ok := dl.phase.url, dl.phase.ok;
      var s' := if ok then ReportedSuccess(s, url, now) else ReportedFailure(s, url);
      s'.(dialers := s.dialers[d := AfterReport(cfg, dl)])
  }

  function Run(cfg: Setting, servers: seq<string>, es: seq<Event>): Option<State> {
    if es == [] then Some(Initial(servers))
    else
      match Run(cfg, servers, es[..|es| - 1])
      case None => None
      case Some(s) => if Enabled(cfg, s, es[|es| - 1]) then Some(Apply(cfg, s, es[|es| - 1])) else None
  }

  /** Every upstream any list of the run has held. */
  function EverConfigured(servers: seq<string>, es: seq<Event>): set<string> {
    if es == [] then set u | u in servers
    else
      var e := es[|es| - 1];
      EverConfigured(servers, es[..|es| - 1]) + if e.UpdateServers? then set u | u in e.list else {}
  }

  // ----- safety -----

  predicate Usable(cfg: Setting, ever: set<string>, url: string) {
    url in ever && !cfg.self(url)
  }

  /** Each dial is followed by one report about the same URL with the same outcome; only a dial still
      in progress may lack its report, and a successful dial is the last. */
  predicate Paired(log: seq<Action>) {
    if log == [] then true
    else if |log| == 1 then log[0].Tried?
    else
      && log[0].Tried? && log[1] == Reported(log[0].url, log[0].ok)
      && (log[0].ok ==> |log| == 2)
      && Paired(log[2..])
  }

  predicate AllUsable(cfg: Setting, ever: set<string>, log: seq<Action>) {
    forall i :: 0 <= i < |log| ==> Usable(cfg, ever, log[i].url)
  }

  ghost predicate DialerOk(cfg: Setting, ever: set<string>, dl: Dialer) {
    && 1 <= dl.attempt <= Retries(cfg)
    && Paired(dl.log) && AllUsable(cfg, ever, dl.log)
    && match dl.phase
       case Choosing => |dl.log| == 2 * (dl.attempt - 1) && NoSuccess(dl.log)
       case FallingBack => |dl.log| == 2 * (dl.attempt - 1) && NoSuccess(dl.log)
       case Chosen(url) => |dl.log| == 2 * (dl.attempt - 1) && NoSuccess(dl.log) && Usable(cfg, ever, url)
       case Dialed(url, ok) =>
         |dl.log| == 2 * dl.attempt - 1 && dl.log[|dl.log| - 1] == Tried(url, ok) && NoSuccess(dl.log[..|dl.log| - 1])
       case Finished(Connected) => |dl.log| == 2 * dl.attempt && dl.log[|dl.log| - 1].ok
       case Finished(Exhausted) => |dl.log| == 2 * Retries(cfg) && NoSuccess(dl.log)
       case Finished(_) => |dl.log| == 2 * (dl.attempt - 1) && NoSuccess(dl.log)
  }

  predicate NoSuccess(log: seq<Action>) {
    forall i :: 0 <= i < |log| ==> !log[i].ok
  }

  ghost predicate ProbeOk(cfg: Setting, ever: set<string>, p: Probe) {
    && p.next <= |p.snapshot|
    && (forall u :: u in p.snapshot ==> u in ever)
    && (p.found == "" || Usable(cfg, ever, p.found))
  }

  ghost predicate ProbesOk(cfg: Setting, ever: set<string>, probes: map<nat, Probe>) {
    forall t :: t in probes ==> ProbeOk(cfg, ever, probes[t])
  }

  ghost predicate DialersOk(cfg: Setting, ever: set<string>, dialers: map<nat, Dialer>) {
    forall d :: d in dialers ==> DialerOk(cfg, ever, dialers[d])
  }

  ghost predicate Inv(cfg: Setting, ever: set<string>, s: State) {
    && (forall u :: u in s.servers ==> u in ever)
    && (s.active == "" || Usable(cfg, ever, s.active))
    && ProbesOk(cfg, ever, s.probes) && DialersOk(cfg, ever, s.dialers)
  }

  /** A complete log without success takes one more try. */
  lemma {:induction false} PairedTry(log: seq<Action>, rounds: nat, url: string, ok: bool)
    requires Paired(log) && NoSuccess(log) && |log| == 2 * rounds
    ensures Paired(log + [Tried(url, ok)])
    decreases rounds
  {
    if rounds > 0 {
      assert (log + [Tried(url, ok)])[2..] == log[2..] + [Tried(url, ok)];
      PairedTry(log[2..], rounds - 1, url, ok);
    }
  }

  /** A log that ends in a try takes the report of that try. */
  lemma {:induction false} PairedReport(log: seq<Action>, rounds: nat)
    requires Paired(log) && |log| == 2 * rounds + 1
    ensures Paired(log + [Reported(log[2 * rounds].url, log[2 * rounds].ok)])
    decreases rounds
  {
    var a := Reported(log[2 * rounds].url, log[2 * rounds].ok);
    if rounds > 0 {
      assert (log + [a])[2..] == log[2..] + [a];
      PairedReport(log[2..], rounds - 1);
    }
  }

  lemma PairedRound(log: seq<Action>, rounds: nat, url: string, ok: bool)
    requires Paired(log) && NoSuccess(log) && |log| == 2 * rounds
    ensures Paired(log + [Tried(url, ok), Reported(url, ok)])
    ensures !ok ==> NoSuccess(log + [Tried(url, ok), Reported(url, ok)])
  {
    PairedTry(log, rounds, url, ok);
    PairedReport(log + [Tried(url, ok)], rounds);
    assert log + [Tried(url, ok)] + [Reported(url, ok)] == log + [Tried(url, ok), Reported(url, ok)];
  }

  lemma {:induction false} FirstForeignUsable(cfg: Setting, ever: set<string>, servers: seq<string>)
    requires forall u :: u in servers ==> u in ever
    ensures var url := FirstForeign(cfg, servers); url == "" || Usable(cfg, ever, url)
  {
    if servers != [] {
      FirstForeignUsable(cfg, ever, servers[1..]);
    }
  }

  lemma InvGrows(cfg: Setting, ever: set<string>, more: set<string>, s: State)
    requires Inv(cfg, ever, s) && ever <= more
    ensures Inv(cfg, more, s)
  {
    forall d | d in s.dialers
      ensures DialerOk(cfg, more, s.dialers[d])
    {
      assert DialerOk(cfg, ever, s.dialers[d]);
    }
  }

  lemma TryKeepsDialer(cfg: Setting, ever: set<string>, dl: Dialer, ok: bool)
    requires DialerOk(cfg, ever, dl) && dl.phase.Chosen?
    ensures DialerOk(cfg, ever, dl.(phase := Dialed(dl.phase.url, ok), log := dl.log + [Tried(dl.phase.url, ok)]))
  {
    PairedTry(dl.log, dl.attempt - 1, dl.phase.url, ok);
    assert (dl.log + [Tried(dl.phase.url, ok)])[..|dl.log|] == dl.log;
  }

  lemma ReportKeepsDialer(cfg: Setting, ever: set<string>, dl: Dialer)
    requires DialerOk(cfg, ever, dl) && dl.phase.Dialed?
    ensures DialerOk(cfg, ever, AfterReport(cfg, dl))
  {
    var n := |dl.log| - 1;
    PairedReport(dl.log, dl.attempt - 1);
    assert dl.log == dl.log[..n] + [dl.log[n]];
  }

  predicate IsDialStep(e: Event) {
    e.DialStart? || e.DialBest? || e.DialFallback? || e.DialRefuse? || e.DialTry? || e.DialReport?
  }

  lemma DialStepKeepsDialer(cfg: Setting, ever: set<string>, s: State, e: Event)
    requires Inv(cfg, ever, s) && Enabled(cfg, s, e) && IsDialStep(e)
    ensures DialerOk(cfg, ever, Apply(cfg, s, e).dialers[e.d])
  {
    if !e.DialStart? {
      var dl := s.dialers[e.d];
      assert DialerOk(cfg, ever, dl);
      match e
      case DialFallback(d) => FirstForeignUsable(cfg, ever, s.servers);
      case DialTry(d, ok) => TryKeepsDialer(cfg, ever, dl, ok);
      case DialReport(d, _) => ReportKeepsDialer(cfg, ever, dl);
      case _ =>
    }
  }

  lemma UpdatedDialers(cfg: Setting, ever: set<string>, dialers: map<nat, Dialer>, d: nat, dl: Dialer)
    requires DialersOk(cfg, ever, dialers) && DialerOk(cfg, ever, dl)
    ensures DialersOk(cfg, ever, dialers[d := dl])
  {
  }

  lemma DialStepFrame(cfg: Setting, s: State, e: Event)
    requires Enabled(cfg, s, e) && IsDialStep(e)
    ensures var s' := Apply(cfg, s, e);
            && e.d in s'.dialers && s'.dialers == s.dialers[e.d := s'.dialers[e.d]]
            && s'.servers == s.servers && s'.probes == s.probes && s'.active in {s.active, ""}
  {
  }

  lemma DialStepKeeps(cfg: Setting, ever: set<string>, s: State, e: Event)
    requires Inv(cfg, ever, s) && Enabled(cfg, s, e) && IsDialStep(e)
    ensures Inv(cfg, ever, Apply(cfg, s, e))
  {
    var s' := Apply(cfg, s, e);
    DialStepFrame(cfg, s, e);
    DialStepKeepsDialer(cfg, ever, s, e);
    UpdatedDialers(cfg, ever, s.dialers, e.d, s'.dialers[e.d]);
  }

  lemma ProbeStepKeeps(cfg: Setting, ever: set<string>, s: State, e: Event)
    requires Inv(cfg, ever, s) && Enabled(cfg, s, e) && (e.ProbeStart? || e.ProbeNext? || e.ProbeCommit?)
    ensures Inv(cfg, ever, Apply(cfg, s, e))
  {
  }

  lemma InvStep(cfg: Setting, ever: set<string>, s: State, e: Event)
    requires Inv(cfg, ever, s) && Enabled(cfg, s, e) && (e.UpdateServers? ==> forall u :: u in e.list ==> u in ever)
    ensures Inv(cfg, ever, Apply(cfg, s, e))
  {
    if IsDialStep(e) {
      DialStepKeeps(cfg, ever, s, e);
    } else if !e.UpdateServers? && !e.Report? {
      ProbeStepKeeps(cfg, ever, s, e);
    }
  }

  lemma {:induction false} InvAlways(cfg: Setting, servers: seq<string>, es: seq<Event>)
    requires Run(cfg, servers, es).Some?
    ensures Inv(cfg, EverConfigured(servers, es), Run(cfg, servers, es).value)
  {
    if es != [] {
      var before := es[..|es| - 1];
      InvAlways(cfg, servers, before);
      InvGrows(cfg, EverConfigured(servers, before), EverConfigured(servers, es), Run(cfg, servers, before).value);
      InvStep(cfg, EverConfigured(servers, es), Run(cfg, servers, before).value, es[|es| - 1]);
    }
  }

  /** In every interleaving, the active server is empty or an upstream that some list of the run held
      and that is not vproxy itself. */
  lemma ActiveIsNeverSelf(cfg: Setting, servers: seq<string>, es: seq<Event>)
    requires Run(cfg, servers, es).Some?
    ensures var active := Run(cfg, servers, es).value.active;
            active == "" || (active in EverConfigured(servers, es) && !cfg.self(active))
  {
    InvAlways(cfg, servers, es);
  }

  function Tries(log: seq<Action>): nat {
    if log == [] then 0 else (if log[0].Tried? then 1 else 0) + Tries(log[1..])
  }

  lemma {:induction false} PairedTries(log: seq<Action>)
    requires Paired(log)
    ensures Tries(log) == (|log| + 1) / 2
  {
    if |log| >= 2 {
      assert log[1..][1..] == log[2..];
      PairedTries(log[2..]);
    }
  }

  /** In every interleaving, every dialer tries at most its retry count of upstreams, none of them
      vproxy itself, and follows each try by exactly one report about the same URL. */
  lemma DialsAreBoundedAndReported(cfg: Setting, servers: seq<string>, es: seq<Event>, d: nat)
    requires Run(cfg, servers, es).Some? && d in Run(cfg, servers, es).value.dialers
    ensures var dl := Run(cfg, servers, es).value.dialers[d];
            && Tries(dl.log) <= (if cfg.retries <= 0 then 3 else cfg.retries)
            && Paired(dl.log) && (dl.phase.Finished? ==> |dl.log| % 2 == 0)
            && forall i :: 0 <= i < |dl.log| ==>
                 dl.log[i].url in EverConfigured(servers, es) && !cfg.self(dl.log[i].url)
  {
    InvAlways(cfg, servers, es);
    DialerFacts(cfg, EverConfigured(servers, es), Run(cfg, servers, es).value.dialers[d]);
  }

  lemma DialerFacts(cfg: Setting, ever: set<string>, dl: Dialer)
    requires DialerOk(cfg, ever, dl)
    ensures Tries(dl.log) <= Retries(cfg) && Paired(dl.log) && (dl.phase.Finished? ==> |dl.log| % 2 == 0)
    ensures forall i :: 0 <= i < |dl.log| ==> dl.log[i].url in ever && !cfg.self(dl.log[i].url)
  {
    PairedTries(dl.log);
  }

  /** In every interleaving, a dialer stops for one of four reasons, and each means what it says: connected exactly
      if its last try succeeded; without success it is exhausted only after all its tries, and otherwise was refused
      or found no upstream with tries to spare. A dialer that has not stopped can go on. */
  lemma DialersStopForAReason(cfg: Setting, servers: seq<string>, es: seq<Event>, d: nat)
    requires Run(cfg, servers, es).Some? && d in Run(cfg, servers, es).value.dialers
    ensures var s := Run(cfg, servers, es).value;
            var dl := s.dialers[d];
            match dl.phase
            case Finished(Connected) => dl.log != [] && dl.log[|dl.log| - 1].ok
            case Finished(Exhausted) =>
              NoSuccess(dl.log) && Tries(dl.log) == if cfg.retries <= 0 then 3 else cfg.retries
            case Finished(_) => NoSuccess(dl.log) && Tries(dl.log) < if cfg.retries <= 0 then 3 else cfg.retries
            case _ => exists e :: MovesOn(e, d) && Enabled(cfg, s, e)
  {
    InvAlways(cfg, servers, es);
    var s := Run(cfg, servers, es).value;
    var dl := s.dialers[d];
    assert DialerOk(cfg, EverConfigured(servers, es), dl);
    PairedTries(dl.log);
    match dl.phase
    case Choosing => assert MovesOn(DialBest(d), d) && Enabled(cfg, s, DialBest(d));
    case FallingBack => assert MovesOn(DialFallback(d), d) && Enabled(cfg, s, DialFallback(d));
    case Chosen(_) => assert MovesOn(DialTry(d, true), d) && Enabled(cfg, s, DialTry(d, true));
    case Dialed(_, _) => assert MovesOn(DialReport(d, 0), d) && Enabled(cfg, s, DialReport(d, 0));
    case Finished(_) =>
  }

  /** A step of this dialer's. */
  predicate MovesOn(e: Event, d: nat) {
    IsDialStep(e) && !e.DialStart? && e.d == d
  }

  lemma RunSnoc(cfg: Setting, servers: seq<string>, es: seq<Event>, e: Event)
    requires Run(cfg, servers, es + [e]).Some?
    ensures Run(cfg, servers, es).Some? && Enabled(cfg, Run(cfg, servers, es).value, e)
    ensures Run(cfg, servers, es + [e]).value == Apply(cfg, Run(cfg, servers, es).value, e)
  {
    assert (es + [e])[..|es + [e]| - 1] == es;
  }

  /** In every run, what a dialer is about to dial is the server active when it looked, and if there was none, the
      first listed server that is not vproxy itself when it looked again; if there was none either, it stops. */
  lemma DialsWhatIsActive(cfg: Setting, servers: seq<string>, es: seq<Event>, d: nat)
    ensures Run(cfg, servers, es + [DialBest(d)]).Some? ==>
              && Run(cfg, servers, es).Some? && d in Run(cfg, servers, es + [DialBest(d)]).value.dialers
              && var active := Run(cfg, servers, es).value.active;
                 Run(cfg, servers, es + [DialBest(d)]).value.dialers[d].phase ==
                   if active == "" then FallingBack else Chosen(active)
    ensures Run(cfg, servers, es + [DialFallback(d)]).Some? ==>
              && Run(cfg, servers, es).Some? && d in Run(cfg, servers, es + [DialFallback(d)]).value.dialers
              && var url := FirstForeign(cfg, Run(cfg, servers, es).value.servers);
                 Run(cfg, servers, es + [DialFallback(d)]).value.dialers[d].phase ==
                   if url == "" then Finished(NoUpstream) else Chosen(url)
  {
    if Run(cfg, servers, es + [DialBest(d)]).Some? {
      RunSnoc(cfg, servers, es, DialBest(d));
    }
    if Run(cfg, servers, es + [DialFallback(d)]).Some? {
      RunSnoc(cfg, servers, es, DialFallback(d));
    }
  }

  /** In every run, a new dialer has done nothing yet and looks for the active server first; after a failed try it does
      so again, as `DialersReport` says. */
  lemma DialersStart(cfg: Setting, servers: seq<string>, es: seq<Event>, d: nat)
    requires Run(cfg, servers, es + [DialStart(d)]).Some?
    ensures var s := Run(cfg, servers, es + [DialStart(d)]).value;
            d in s.dialers && s.dialers[d].log == [] && Enabled(cfg, s, DialBest(d))
  {
    RunSnoc(cfg, servers, es, DialStart(d));
  }

  lemma {:induction false} FirstForeignIsFirst(cfg: Setting, servers: seq<string>) returns (k: nat)
    ensures k <= |servers| && forall i :: 0 <= i < k ==> cfg.self(servers[i])
    ensures if k < |servers| then !cfg.self(servers[k]) && FirstForeign(cfg, servers) == servers[k]
            else FirstForeign(cfg, servers) == ""
  {
    k := 0;
    if servers != [] && cfg.self(servers[0]) {
      var j := FirstForeignIsFirst(cfg, servers[1..]);
      k := j + 1;
      assert forall i :: 0 < i < k ==> servers[i] == servers[1..][i - 1];
    }
  }

  // ----- what makes and unmakes the active server -----

  /** In every run, a report of failure about the active server clears it and forgets its success; one of success
      makes it fresh; a report about any other server changes nothing. */
  lemma ReportsAreAboutActive(cfg: Setting, servers: seq<string>, es: seq<Event>, url: string, ok: bool, now: int)
    requires Run(cfg, servers, es + [Report(url, ok, now)]).Some?
    ensures Run(cfg, servers, es).Some?
    ensures var s, s' := Run(cfg, servers, es).value, Run(cfg, servers, es + [Report(url, ok, now)]).value;
            && (s.active == url && !ok ==> s'.active == "" && s'.lastSuccess == None)
            && (s.active == url && ok ==> s'.active == url && s'.lastSuccess == Some(now))
            && (s.active != url ==> s' == s)
            && s' == s.(active := s'.active, lastSuccess := s'.lastSuccess)
  {
    RunSnoc(cfg, servers, es, Report(url, ok, now));
  }

  /** And so does the report a dialer makes of its own try, after which it looks for the active server again unless it
      has stopped. */
  lemma DialersReport(cfg: Setting, servers: seq<string>, es: seq<Event>, d: nat, now: int)
    requires Run(cfg, servers, es + [DialReport(d, now)]).Some?
    ensures Run(cfg, servers, es).Some?
    ensures var s, s' := Run(cfg, servers, es).value, Run(cfg, servers, es + [DialReport(d, now)]).value;
            && d in s.dialers && s.dialers[d].phase.Dialed?
            && var (url, ok) := (s.dialers[d].phase.url, s.dialers[d].phase.ok);
               && (s.active == url && !ok ==> s'.active == "" && s'.lastSuccess == None)
               && (s.active == url && ok ==> s'.active == url && s'.lastSuccess == Some(now))
               && (s.active != url ==> s'.active == s.active && s'.lastSuccess == s.lastSuccess)
               && s'.servers == s.servers && s'.probes == s.probes
               && d in s'.dialers && (s'.dialers[d].phase.Finished? || Enabled(cfg, s', DialBest(d)))
  {
    RunSnoc(cfg, servers, es, DialReport(d, now));
  }

  /** A fresh success of the active server saves the probe; otherwise a probe of the current list starts. */
  lemma WhenProbesStart(cfg: Setting, servers: seq<string>, es: seq<Event>, t: nat, now: int)
    requires Run(cfg, servers, es + [ProbeStart(t, now)]).Some?
    ensures Run(cfg, servers, es).Some?
    ensures var s, s' := Run(cfg, servers, es).value, Run(cfg, servers, es + [ProbeStart(t, now)]).value;
            var reused := s.active != "" && s.lastSuccess.Some? && now - s.lastSuccess.value < cfg.interval;
            && t !in s.probes
            && (reused || s.servers == [] ==> s' == s)
            && (!reused && s.servers != [] ==>
                  t in s'.probes && s'.probes[t].snapshot == s.servers && s'.probes[t].next == 0)
  {
    RunSnoc(cfg, servers, es, ProbeStart(t, now));
  }

  /** The rounds of a probe, with what dialling each server yields. */
  function ProbeRounds(cfg: Setting, p: Probe, reachable: seq<bool>): Probe
    requires p.next <= |p.snapshot| == |reachable|
    decreases |p.snapshot| - p.next
  {
    if p.found != "" || p.next == |p.snapshot| then p
    else ProbeRounds(cfg, Probed(cfg, p, reachable[p.next]), reachable)
  }

  /** The rounds find the first server that is reachable and not vproxy itself, as the probe loop does. */
  lemma {:induction false} ProbeFindsFirst(cfg: Setting, p: Probe, reachable: seq<bool>) returns (k: nat)
    requires p.next <= |p.snapshot| == |reachable| && p.found == "" && "" !in p.snapshot
    ensures p.next <= k <= |p.snapshot|
    ensures forall i :: p.next <= i < k ==> !reachable[i] || cfg.self(p.snapshot[i])
    ensures if k < |p.snapshot|
            then reachable[k] && !cfg.self(p.snapshot[k]) && ProbeRounds(cfg, p, reachable).found == p.snapshot[k]
            else ProbeRounds(cfg, p, reachable).found == ""
    decreases |p.snapshot| - p.next
  {
    k := p.next;
    if p.next < |p.snapshot| && (!reachable[p.next] || cfg.self(p.snapshot[p.next])) {
      k := ProbeFindsFirst(cfg, Probed(cfg, p, reachable[p.next]), reachable);
    }
  }

  /** Event i of the run found this server reachable. */
  ghost predicate FoundAt(cfg: Setting, servers: seq<string>, es: seq<Event>, i: nat, url: string) {
    && i < |es| && es[i].ProbeNext? && es[i].reachable && Run(cfg, servers, es[..i]).Some?
    && var s := Run(cfg, servers, es[..i]).value;
       es[i].t in s.probes && s.probes[es[i].t].next < |s.probes[es[i].t].snapshot|
       && s.probes[es[i].t].snapshot[s.probes[es[i].t].next] == url
  }

  ghost predicate WasReachable(cfg: Setting, servers: seq<string>, es: seq<Event>, url: string) {
    url == "" || exists i: nat :: FoundAt(cfg, servers, es, i, url)
  }

  ghost predicate AllReachable(cfg: Setting, servers: seq<string>, es: seq<Event>, s: State) {
    && WasReachable(cfg, servers, es, s.active)
    && forall t :: t in s.probes ==> WasReachable(cfg, servers, es, s.probes[t].found)
  }

  lemma ReachableSnoc(cfg: Setting, servers: seq<string>, es: seq<Event>, e: Event, url: string)
    requires WasReachable(cfg, servers, es, url)
    ensures WasReachable(cfg, servers, es + [e], url)
  {
    if url != "" {
      var i: nat :| FoundAt(cfg, servers, es, i, url);
      assert (es + [e])[..i] == es[..i];
      assert FoundAt(cfg, servers, es + [e], i, url);
    }
  }

  /** One more event: what was reachable still is, and what a probe reaches now is. */
  lemma ReachableStep(cfg: Setting, servers: seq<string>, es: seq<Event>, e: Event)
    requires Run(cfg, servers, es).Some? && Enabled(cfg, Run(cfg, servers, es).value, e)
    requires AllReachable(cfg, servers, es, Run(cfg, servers, es).value)
    ensures AllReachable(cfg, servers, es + [e], Apply(cfg, Run(cfg, servers, es).value, e))
  {
    var s := Run(cfg, servers, es).value;
    ReachableSnoc(cfg, servers, es, e, s.active);
    forall t | t in s.probes
      ensures WasReachable(cfg, servers, es + [e], s.probes[t].found)
    {
      ReachableSnoc(cfg, servers, es, e, s.probes[t].found);
    }
    if e.ProbeNext? {
      ProbeReaches(cfg, servers, es, e);
    }
    ReachableMoves(cfg, servers, es + [e], s, e);
  }

  lemma ReachableMoves(cfg: Setting, servers: seq<string>, all: seq<Event>, s: State, e: Event)
    requires Enabled(cfg, s, e) && AllReachable(cfg, servers, all, s)
    requires e.ProbeNext? ==> WasReachable(cfg, servers, all, Probed(cfg, s.probes[e.t], e.reachable).found)
    ensures AllReachable(cfg, servers, all, Apply(cfg, s, e))
  {
  }

  lemma ProbeReaches(cfg: Setting, servers: seq<string>, es: seq<Event>, e: Event)
    requires Run(cfg, servers, es).Some? && e.ProbeNext? && Enabled(cfg, Run(cfg, servers, es).value, e)
    ensures var p := Run(cfg, servers, es).value.probes[e.t];
            WasReachable(cfg, servers, es + [e], Probed(cfg, p, e.reachable).found)
  {
    var p := Run(cfg, servers, es).value.probes[e.t];
    assert (es + [e])[..|es|] == es;
    assert e.reachable ==> FoundAt(cfg, servers, es + [e], |es|, p.snapshot[p.next]);
  }

  /** In every interleaving, only a server that a probe of the run found reachable is ever active. */
  lemma {:induction false} ActiveWasReachable(cfg: Setting, servers: seq<string>, es: seq<Event>)
    requires Run(cfg, servers, es).Some?
    ensures AllReachable(cfg, servers, es, Run(cfg, servers, es).value)
  {
    if es != [] {
      var before, e := es[..|es| - 1], es[|es| - 1];
      ActiveWasReachable(cfg, servers, before);
      ReachableStep(cfg, servers, before, e);
      assert before + [e] == es;
    }
  }

  /** And what a probe found is active once it commits, or nothing is. */
  lemma ProbeCommits(cfg: Setting, servers: seq<string>, es: seq<Event>, t: nat)
    requires Run(cfg, servers, es + [ProbeCommit(t)]).Some?
    ensures Run(cfg, servers, es).Some? && t in Run(cfg, servers, es).value.probes
    ensures Run(cfg, servers, es + [ProbeCommit(t)]).value.active == Run(cfg, servers, es).value.probes[t].found
  {
    RunSnoc(cfg, servers, es, ProbeCommit(t));
  }

  // ----- self detection by scheme -----

  /** A loopback upstream without a port is vproxy itself exactly if vproxy listens on its scheme's port; of an
      unknown scheme it never is, and neither is one that is not loopback or does not parse. */
  lemma SelfByScheme(selfPorts: seq<int>, parse: Parser, addr: string)
    ensures parse(addr) == Some(Url("http", true, None)) ==> (IsSelf(selfPorts, parse, addr) <==> 80 in selfPorts)
    ensures parse(addr) == Some(Url("socks5", true, None)) ==> (IsSelf(selfPorts, parse, addr) <==> 1080 in selfPorts)
    ensures parse(addr) == Some(Url("tproxy", true, None)) ==> (IsSelf(selfPorts, parse, addr) <==> 10080 in selfPorts)
    ensures forall scheme, p :: parse(addr) == Some(Url(scheme, true, Some(p))) ==>
              (IsSelf(selfPorts, parse, addr) <==> p > 0 && p in selfPorts)
    ensures forall scheme :: scheme !in {"http", "socks5", "tproxy"} && parse(addr) == Some(Url(scheme, true, None)) ==>
              !IsSelf(selfPorts, parse, addr)
    ensures parse(addr).None? || !parse(addr).value.loopback ==> !IsSelf(selfPorts, parse, addr)
  {
    assert |"http"| == 4 && |"socks5"| == 6 && |"tproxy"| == 6 && "socks5"[0] != "tproxy"[0];
  }

  // ----- the critical sections and loops as code -----

  /** What a thread may rely on between its critical sections: every listed server is on record, and the active one
      is on record and not vproxy itself. */
  predicate SoundState(selfPorts: seq<int>, parse: Parser, ever: set<string>, servers: seq<string>, active: string) {
    && (forall i :: 0 <= i < |servers| ==> servers[i] in ever)
    && (active == "" || (active in ever && !IsSelf(selfPorts, parse, active)))
  }

  /** What a dialer saw when it chose: the active server and, if there was none, the list. */
  datatype Seen = Seen(active: string, servers: seq<string>)

  function FirstNotSelf(selfPorts: seq<int>, parse: Parser, servers: seq<string>): string {
    if servers == [] then ""
    else if !IsSelf(selfPorts, parse, servers[0]) then servers[0]
    else FirstNotSelf(selfPorts, parse, servers[1..])
  }

  function Choice(selfPorts: seq<int>, parse: Parser, seen: Seen): string {
    if seen.active != "" then seen.active else FirstNotSelf(selfPorts, parse, seen.servers)
  }

  /** There is nothing to choose exactly when no server was active and the first listed server that is not vproxy
      itself is missing or blank. */
  lemma {:induction false} FirstNotSelfIs(selfPorts: seq<int>, parse: Parser, servers: seq<string>, k: nat)
    requires k <= |servers| && forall i :: 0 <= i < k ==> IsSelf(selfPorts, parse, servers[i])
    requires k < |servers| ==> !IsSelf(selfPorts, parse, servers[k])
    ensures FirstNotSelf(selfPorts, parse, servers) == if k < |servers| then servers[k] else ""
    decreases k
  {
    if k > 0 {
      FirstNotSelfIs(selfPorts, parse, servers[1..], k - 1);
    }
  }

  /** What is chosen: the active server if there is one, and otherwise the first listed one that is not vproxy itself;
      nothing if every listed one is. */
  lemma ChoiceIsActiveOrFirst(selfPorts: seq<int>, parse: Parser, seen: Seen, k: nat)
    ensures seen.active != "" ==> Choice(selfPorts, parse, seen) == seen.active
    ensures seen.active == "" && k < |seen.servers| && !IsSelf(selfPorts, parse, seen.servers[k]) &&
            (forall i :: 0 <= i < k ==> IsSelf(selfPorts, parse, seen.servers[i])) ==>
              Choice(selfPorts, parse, seen) == seen.servers[k]
    ensures seen.active == "" && (forall i :: 0 <= i < |seen.servers| ==> IsSelf(selfPorts, parse, seen.servers[i])) ==>
              Choice(selfPorts, parse, seen) == ""
  {
    if k < |seen.servers| && !IsSelf(selfPorts, parse, seen.servers[k]) &&
       (forall i :: 0 <= i < k ==> IsSelf(selfPorts, parse, seen.servers[i])) {
      FirstNotSelfIs(selfPorts, parse, seen.servers, k);
    }
    if forall i :: 0 <= i < |seen.servers| ==> IsSelf(selfPorts, parse, seen.servers[i]) {
      FirstNotSelfIs(selfPorts, parse, seen.servers, |seen.servers|);
    }
  }

  lemma {:induction false} ChosenFromList(selfPorts: seq<int>, parse: Parser, servers: seq<string>)
    ensures var url := FirstNotSelf(selfPorts, parse, servers);
            url == "" || (url in servers && !IsSelf(selfPorts, parse, url))
  {
    if servers != [] {
      ChosenFromList(selfPorts, parse, servers[1..]);
    }
  }

  /** Round i dialled what was chosen, and ended as dialling it ends. */
  predicate RoundOk(
    selfPorts: seq<int>, parse: Parser, log: seq<Action>, outcomes: seq<Option<bool>>, seen: seq<Seen>, i: nat) {
    && 2 * i < |log| && i < |outcomes| && i < |seen| && outcomes[i].Some?
    && log[2 * i] == Tried(Choice(selfPorts, parse, seen[i]), outcomes[i].value)
  }

  predicate RoundsOk(
    selfPorts: seq<int>, parse: Parser, log: seq<Action>, outcomes: seq<Option<bool>>, seen: seq<Seen>, rounds: nat) {
    forall i :: 0 <= i < rounds ==> RoundOk(selfPorts, parse, log, outcomes, seen, i)
  }

  /** Every action is about a server that was configured and is not vproxy itself. */
  predicate NeverSelf(selfPorts: seq<int>, parse: Parser, ever: set<string>, log: seq<Action>) {
    forall i :: 0 <= i < |log| ==> log[i].url in ever && !IsSelf(selfPorts, parse, log[i].url)
  }

  lemma NeverSelfGrows(
    selfPorts: seq<int>, parse: Parser, ever: set<string>, log: seq<Action>, url: string, ok: bool)
    requires NeverSelf(selfPorts, parse, ever, log) && url in ever && !IsSelf(selfPorts, parse, url)
    ensures NeverSelf(selfPorts, parse, ever, log + [Tried(url, ok), Reported(url, ok)])
  {
  }

  lemma RoundsGrow(
    selfPorts: seq<int>, parse: Parser, log: seq<Action>, outcomes: seq<Option<bool>>, seen: seq<Seen>,
    rounds: nat, sight: Seen, ok: bool)
    requires RoundsOk(selfPorts, parse, log, outcomes, seen, rounds) && rounds < |outcomes|
    requires |log| == 2 * rounds && |seen| == rounds && outcomes[rounds] == Some(ok)
    ensures var url := Choice(selfPorts, parse, sight);
            RoundsOk(selfPorts, parse, log + [Tried(url, ok), Reported(url, ok)], outcomes, seen + [sight], rounds + 1)
  {
    var url := Choice(selfPorts, parse, sight);
    forall i | 0 <= i < rounds + 1
      ensures RoundOk(selfPorts, parse, log + [Tried(url, ok), Reported(url, ok)], outcomes, seen + [sight], i)
    {
      assert i < rounds ==> RoundOk(selfPorts, parse, log, outcomes, seen, i);
    }
  }

  /** What the retry loop has done so far. */
  predicate DialsOk(
    selfPorts: seq<int>, parse: Parser, ever: set<string>, log: seq<Action>, outcomes: seq<Option<bool>>,
    seen: seq<Seen>, rounds: nat) {
    && Paired(log) && NeverSelf(selfPorts, parse, ever, log)
    && RoundsOk(selfPorts, parse, log, outcomes, seen, rounds)
  }

  lemma DialsGrow(
    selfPorts: seq<int>, parse: Parser, ever: set<string>, log: seq<Action>, outcomes: seq<Option<bool>>,
    seen: seq<Seen>, rounds: nat, sight: Seen, ok: bool)
    requires DialsOk(selfPorts, parse, ever, log, outcomes, seen, rounds) && NoSuccess(log) && rounds < |outcomes|
    requires |log| == 2 * rounds && |seen| == rounds && outcomes[rounds] == Some(ok)
    requires var url := Choice(selfPorts, parse, sight); url in ever && !IsSelf(selfPorts, parse, url)
    ensures var url := Choice(selfPorts, parse, sight);
            var more := log + [Tried(url, ok), Reported(url, ok)];
            && DialsOk(selfPorts, parse, ever, more, outcomes, seen + [sight], rounds + 1) && (!ok ==> NoSuccess(more))
  {
    var url := Choice(selfPorts, parse, sight);
    PairedRound(log, rounds, url, ok);
    RoundsGrow(selfPorts, parse, log, outcomes, seen, rounds, sight, ok);
    NeverSelfGrows(selfPorts, parse, ever, log, url, ok);
  }

  lemma MoreSeen(
    selfPorts: seq<int>, parse: Parser, log: seq<Action>, outcomes: seq<Option<bool>>, seen: seq<Seen>,
    rounds: nat, sight: Seen)
    requires RoundsOk(selfPorts, parse, log, outcomes, seen, rounds)
    ensures RoundsOk(selfPorts, parse, log, outcomes, seen + [sight], rounds)
  {
    forall i | 0 <= i < rounds
      ensures RoundOk(selfPorts, parse, log, outcomes, seen + [sight], i)
    {
      assert RoundOk(selfPorts, parse, log, outcomes, seen, i);
    }
  }

  lemma {:induction false} EverGrows(servers: seq<string>, es: seq<Event>, more: seq<Event>)
    ensures EverConfigured(servers, es) <= EverConfigured(servers, es + more)
    decreases |more|
  {
    if more == [] {
      assert es + more == es;
    } else {
      var n := |more| - 1;
      assert (es + more)[..|es + more| - 1] == es + more[..n];
      EverGrows(servers, es, more[..n]);
    }
  }

  /** The rely condition is what the interleaved system guarantees: whatever events other threads contribute, the
      state stays sound and what was on record stays so. */
  lemma OthersKeepSound(
    cfg: Setting, selfPorts: seq<int>, parse: Parser, servers: seq<string>, es: seq<Event>,
    more: seq<Event>)
    requires forall u :: cfg.self(u) == IsSelf(selfPorts, parse, u)
    requires Run(cfg, servers, es + more).Some?
    ensures var s := Run(cfg, servers, es + more).value;
            SoundState(selfPorts, parse, EverConfigured(servers, es + more), s.servers, s.active)
    ensures EverConfigured(servers, es) <= EverConfigured(servers, es + more)
  {
    InvAlways(cfg, servers, es + more);
    EverGrows(servers, es, more);
  }

  class ServerManager {
    const parse: Parser
    var servers: seq<string>
    var selfPorts: seq<int>
    var activeServer: string
    var lastSuccess: Option<int>
    ghost var ever: set<string>

    constructor (servers: seq<string>, parse: Parser)
      ensures this.servers == servers && this.parse == parse && selfPorts == [] && Sound()
    {
      this.servers, this.parse, this.selfPorts := servers, parse, [];
      activeServer, lastSuccess := "", None;
      ever := set u | u in servers;
    }

    ghost predicate Sound()
      reads this
    {
      SoundState(selfPorts, parse, ever, servers, activeServer)
    }

    /** The shared part of the interleaved system's state. */
    ghost function View(): State
      reads this
    {
      State(servers, activeServer, lastSuccess, map[], map[])
    }

    method IsSelfUpstream(addr: string) returns (self: bool)
      ensures self == IsSelf(selfPorts, parse, addr)
    {
      if |selfPorts| == 0 { return false; }
      var u := parse(addr);
      if u.None? || !u.value.loopback { return false; }
      var port := EffectivePort(u.value);
      for i := 0 to |selfPorts|
        invariant port > 0 ==> port !in selfPorts[..i]
      {
        if selfPorts[i] > 0 && selfPorts[i] == port { return true; }
        assert selfPorts[..i + 1] == selfPorts[..i] + [selfPorts[i]];
      }
      assert selfPorts[..|selfPorts|] == selfPorts;
      self := false;
    }

    method SetServers(newServers: seq<string>)
      requires Sound()
      modifies this
      ensures View() == old(View()).(servers := newServers) && Sound()
      ensures ever == old(ever) + (set u | u in newServers) && selfPorts == old(selfPorts)
    {
      servers := newServers;
      ever := ever + set u | u in newServers;
    }

    method ReportFailure(addr: string)
      requires Sound()
      modifies this`activeServer, this`lastSuccess
      ensures View() == ReportedFailure(old(View()), addr) && Sound()
    {
      if activeServer == addr {
        activeServer := "";
        lastSuccess := None;
      }
    }

    method ReportSuccess(addr: string, now: int)
      requires Sound()
      modifies this`lastSuccess
      ensures View() == ReportedSuccess(old(View()), addr, now) && Sound()
    {
      if activeServer == addr {
        lastSuccess := Some(now);
      }
    }

    /** The probe loop over a snapshot; reachable[i] is what dialling the i-th server would yield. */
    method FindReachable(snapshot: seq<string>, reachable: seq<bool>) returns (found: Option<nat>)
      requires |reachable| == |snapshot|
      ensures match found
              case Some(k) =>
                && k < |snapshot| && reachable[k] && !IsSelf(selfPorts, parse, snapshot[k])
                && forall i :: 0 <= i < k ==> !reachable[i] || IsSelf(selfPorts, parse, snapshot[i])
              case None => forall i :: 0 <= i < |snapshot| ==> !reachable[i] || IsSelf(selfPorts, parse, snapshot[i])
    {
      for i := 0 to |snapshot|
        invariant forall j :: 0 <= j < i ==> !reachable[j] || IsSelf(selfPorts, parse, snapshot[j])
      {
        var self := IsSelfUpstream(snapshot[i]);
        if self { continue; }
        if reachable[i] { return Some(i); }
      }
      found := None;
    }

    /** What other threads may do to the manager between two of a dialer's critical sections: anything
        the interleaved system allows, which by OthersKeepSound keeps the manager sound and its past lists on
        record. */
    method OtherThreads()
      requires Sound()
      modifies this
      ensures Sound() && selfPorts == old(selfPorts) && old(ever) <= ever
    {
    }

    /** The active server, or else the first configured one that is not vproxy itself; "" if there is none. `seen` is
        what the choice was made from. */
    method ChooseUpstream() returns (upstream: string, ghost seen: Seen)
      requires Sound()
      modifies this
      ensures Sound() && selfPorts == old(selfPorts) && old(ever) <= ever
      ensures upstream == Choice(selfPorts, parse, seen) && (seen.active == "" || seen.active == activeServer)
      ensures seen.servers == servers && (upstream == "" || (upstream in ever && !IsSelf(selfPorts, parse, upstream)))
    {
      OtherThreads();
      upstream := activeServer;
      seen := Seen(activeServer, servers);
      if upstream == "" {
        OtherThreads();
        seen := Seen("", servers);
        var k := FirstOther(servers);
        FirstNotSelfIs(selfPorts, parse, servers, k);
        ChosenFromList(selfPorts, parse, servers);
        if k < |servers| {
          upstream := servers[k];
        }
      }
    }

    /** The retry loop of dialTarget; outcomes[i] is how the i-th dial ends, None if its URL is refused. Dials go on
        until one succeeds, the tries are used up, a URL is refused, or there is nothing to dial. */
    method DialTarget(retryCount: int, outcomes: seq<Option<bool>>, now: int)
      returns (log: seq<Action>, rounds: nat, why: Stop, ghost seen: seq<Seen>)
      requires Sound() && |outcomes| >= (if retryCount <= 0 then 3 else retryCount)
      modifies this
      ensures Sound() && selfPorts == old(selfPorts)
      ensures Paired(log) && |log| == 2 * rounds && rounds <= (if retryCount <= 0 then 3 else retryCount)
      ensures NeverSelf(selfPorts, parse, ever, log)
      ensures RoundsOk(selfPorts, parse, log, outcomes, seen, rounds)
      ensures if why == Connected then rounds > 0 && log[2 * rounds - 1].ok else NoSuccess(log)
      ensures why == Exhausted <==> NoSuccess(log) && rounds == if retryCount <= 0 then 3 else retryCount
      ensures why == Refused || why == NoUpstream ==> |seen| == rounds + 1 && rounds < |outcomes|
      ensures why == Refused ==> Choice(selfPorts, parse, seen[rounds]) != "" && outcomes[rounds] == None
      ensures why == NoUpstream ==> Choice(selfPorts, parse, seen[rounds]) == ""
    {
      var retries := if retryCount <= 0 then 3 else retryCount;
      log, rounds, seen := [], 0, [];
      var attempt := 1;
      while attempt <= retries
        invariant 1 <= attempt <= retries + 1 && rounds == attempt - 1 && |log| == 2 * rounds && |seen| == rounds
        invariant Sound() && selfPorts == old(selfPorts)
        invariant NoSuccess(log) && DialsOk(selfPorts, parse, ever, log, outcomes, seen, rounds)
      {
        var upstream;
        ghost var sight;
        upstream, sight := ChooseUpstream();
        MoreSeen(selfPorts, parse, log, outcomes, seen, rounds, sight);
        if upstream == "" {
          seen := seen + [sight];
          why := NoUpstream;
          return;
        }
        OtherThreads();
        match outcomes[attempt - 1] {
          case None =>
            seen := seen + [sight];
            why := Refused;
            return;
          case Some(ok) =>
            DialsGrow(selfPorts, parse, ever, log, outcomes, seen, rounds, sight, ok);
            log, seen := log + [Tried(upstream, ok), Reported(upstream, ok)], seen + [sight];
            rounds := rounds + 1;
            if ok {
              ReportSuccess(upstream, now);
              why := Connected;
              return;
            }
            ReportFailure(upstream);
        }
        attempt := attempt + 1;
      }
      why := Exhausted;
    }

    /** The first server that is not vproxy itself; |list| if there is none. */
    method FirstOther(list: seq<string>) returns (k: nat)
      ensures k <= |list| && (forall i :: 0 <= i < k ==> IsSelf(selfPorts, parse, list[i]))
      ensures k < |list| ==> !IsSelf(selfPorts, parse, list[k])
    {
      for i := 0 to |list|
        invariant forall j :: 0 <= j < i ==> IsSelf(selfPorts, parse, list[j])
      {
        var self := IsSelfUpstream(list[i]);
        if !self { return i; }
      }
      k := |list|;
    }
  }
}
