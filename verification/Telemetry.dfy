/** The telemetry provider swap: writers replace the global provider under a lock, publish a snapshot
    that readers load without it, and tear the old provider down after releasing the lock. */
module Telemetry {
  import opened Bytes
  import opened Text

  // ----- configurations -----

  datatype OtelConfig = OtelConfig(
    enabled: bool, endpoint: string, protocol: string, insecure: bool, serviceName: string, sampleRate: real)

  predicate IsEnabled(cfg: Option<OtelConfig>) {
    cfg.Some? && cfg.value.enabled
  }

  function OrElse(s: string, default: string): string {
    if s == "" then default else s
  }

  function RateOrOne(rate: real): real {
    if rate <= 0.0 then 1.0 else rate
  }

  /** otelConfigEqual; `lower` is strings.ToLower. */
  predicate ConfigEqual(lower: string -> string, a: Option<OtelConfig>, b: Option<OtelConfig>) {
    if !IsEnabled(a) && !IsEnabled(b) then true
    else if IsEnabled(a) != IsEnabled(b) then false
    else
      && OrElse(a.value.endpoint, "localhost:4317") == OrElse(b.value.endpoint, "localhost:4317")
      && OrElse(lower(a.value.protocol), "grpc") == OrElse(lower(b.value.protocol), "grpc")
      && a.value.insecure == b.value.insecure
      && OrElse(a.value.serviceName, "vproxy") == OrElse(b.value.serviceName, "vproxy")
      && RateOrOne(a.value.sampleRate) == RateOrOne(b.value.sampleRate)
  }

  datatype Sampler = AlwaysSample | TraceIdRatio(rate: real)

  /** What a provider is built from. */
  datatype Blueprint = Blueprint(endpoint: string, http: bool, insecure: bool, serviceName: string, sampler: Sampler)

  /** buildOtelProvider up to its foreign calls; None is the no-op provider. */
  function Plan(lower: string -> string, cfg: Option<OtelConfig>): Option<Blueprint> {
    if !IsEnabled(cfg) then None
    else
      var rate := RateOrOne(cfg.value.sampleRate);
      Some(Blueprint(
        OrElse(cfg.value.endpoint, "localhost:4317"),
        lower(cfg.value.protocol) == "http",
        cfg.value.insecure,
        OrElse(cfg.value.serviceName, "vproxy"),
        if rate >= 1.0 then AlwaysSample else TraceIdRatio(rate)))
  }

  /** What a configuration asks for: nothing unless it is enabled; blank fields mean localhost:4317 and vproxy; only
      the protocol http, in any case, avoids gRPC; and a rate outside 0 to 1, 0 included, samples everything. */
  lemma PlanFollowsConfig(lower: string -> string, cfg: Option<OtelConfig>)
    ensures Plan(lower, cfg).None? <==> cfg == None || !cfg.value.enabled
    ensures Plan(lower, cfg).Some? ==>
              var c, b := cfg.value, Plan(lower, cfg).value;
              && b.endpoint == (if c.endpoint == "" then "localhost:4317" else c.endpoint)
              && b.serviceName == (if c.serviceName == "" then "vproxy" else c.serviceName)
              && (b.http <==> lower(c.protocol) == "http") && b.insecure == c.insecure
              && b.sampler == if 0.0 < c.sampleRate < 1.0 then TraceIdRatio(c.sampleRate) else AlwaysSample
  {
  }

  /** So two enabled configurations build alike exactly if they differ at most in how they spell a default, in the
      name of a protocol that is not http, and in rates that both sample everything. */
  lemma BuildAlike(lower: string -> string, a: OtelConfig, b: OtelConfig)
    requires a.enabled && b.enabled
    ensures Plan(lower, Some(a)) == Plan(lower, Some(b)) <==>
              && (a.endpoint == b.endpoint || {a.endpoint, b.endpoint} == {"", "localhost:4317"})
              && (a.serviceName == b.serviceName || {a.serviceName, b.serviceName} == {"", "vproxy"})
              && (lower(a.protocol) == "http" <==> lower(b.protocol) == "http") && a.insecure == b.insecure
              && (a.sampleRate == b.sampleRate || (!(0.0 < a.sampleRate < 1.0) && !(0.0 < b.sampleRate < 1.0)))
  {
    PlanFollowsConfig(lower, Some(a));
    PlanFollowsConfig(lower, Some(b));
    SameUpToDefault(a.endpoint, b.endpoint, "localhost:4317");
    SameUpToDefault(a.serviceName, b.serviceName, "vproxy");
  }

  lemma SameUpToDefault(x: string, y: string, default: string)
    requires default != ""
    ensures OrElse(x, default) == OrElse(y, default) <==> x == y || {x, y} == {"", default}
  {
    assert x in {x, y} && y in {x, y} && "" in {"", default} && default in {"", default};
  }

  /** Writing the defaults out, or the protocol in another case, is no change of the configuration. */
  lemma SpellingIsNoChange(lower: string -> string, c: OtelConfig, protocol: string)
    requires lower("") == "" && lower("grpc") == "grpc"
    requires lower(protocol) == lower(c.protocol) || (c.protocol == "" && protocol == "grpc")
    ensures ConfigEqual(lower, Some(c), Some(OtelConfig(
              c.enabled, if c.endpoint == "" then "localhost:4317" else c.endpoint, protocol, c.insecure,
              if c.serviceName == "" then "vproxy" else c.serviceName,
              if c.sampleRate <= 0.0 then 1.0 else c.sampleRate)))
  {
  }

  /** Skipping the rebuild is right: configurations judged equal would build the same provider. */
  lemma EqualConfigsBuildAlike(lower: string -> string, a: Option<OtelConfig>, b: Option<OtelConfig>)
    requires ConfigEqual(lower, a, b)
    ensures Plan(lower, a) == Plan(lower, b)
  {
  }

  function Protocol(lower: string -> string, cfg: OtelConfig): string {
    OrElse(lower(cfg.protocol), "grpc")
  }

  /** Different names for a protocol that is not http, which all mean gRPC. */
  predicate BothGrpc(lower: string -> string, a: OtelConfig, b: OtelConfig) {
    Protocol(lower, a) != "http" && Protocol(lower, b) != "http"
  }

  /** Rates that all mean sampling everything. */
  predicate BothFull(a: OtelConfig, b: OtelConfig) {
    RateOrOne(a.sampleRate) >= 1.0 && RateOrOne(b.sampleRate) >= 1.0
  }

  /** The converse fails exactly where the comparison does not normalise: two configurations would build the same
      provider and are yet judged different if and only if both are enabled and agree on endpoint, security and
      service, and their protocols differ though neither is http, or their rates differ though both sample
      everything, while in the other respect they agree or differ as harmlessly. */
  lemma AlikeButJudgedDifferent(lower: string -> string, a: Option<OtelConfig>, b: Option<OtelConfig>)
    ensures Plan(lower, a) == Plan(lower, b) && !ConfigEqual(lower, a, b) <==>
              && IsEnabled(a) && IsEnabled(b)
              && OrElse(a.value.endpoint, "localhost:4317") == OrElse(b.value.endpoint, "localhost:4317")
              && a.value.insecure == b.value.insecure
              && OrElse(a.value.serviceName, "vproxy") == OrElse(b.value.serviceName, "vproxy")
              && var sameProtocol, sameRate := Protocol(lower, a.value) == Protocol(lower, b.value),
                                               RateOrOne(a.value.sampleRate) == RateOrOne(b.value.sampleRate);
                 || (!sameProtocol && BothGrpc(lower, a.value, b.value) && (sameRate || BothFull(a.value, b.value)))
                 || (!sameRate && BothFull(a.value, b.value) && (sameProtocol || BothGrpc(lower, a.value, b.value)))
  {
    if IsEnabled(a) && IsEnabled(b) {
      HttpIsHttp(lower, a.value);
      HttpIsHttp(lower, b.value);
    }
  }

  lemma HttpIsHttp(lower: string -> string, cfg: OtelConfig)
    ensures Protocol(lower, cfg) == "http" <==> lower(cfg.protocol) == "http"
  {
    assert "grpc"[0] != "http"[0];
  }

  /** A rate of 2 in place of 1, or a misspelt gRPC: the provider is torn down and built again as it was. */
  lemma RebuiltForNothing()
    ensures var cfg := OtelConfig(true, "", "grpc", true, "", 1.0);
            var faster, misspelt := cfg.(sampleRate := 2.0), cfg.(protocol := "grcp");
            && Plan(Lower, Some(cfg)) == Plan(Lower, Some(faster)) && !ConfigEqual(Lower, Some(cfg), Some(faster))
            && Plan(Lower, Some(cfg)) == Plan(Lower, Some(misspelt)) && !ConfigEqual(Lower, Some(cfg), Some(misspelt))
  {
    assert Lower("grpc") == "grpc" && Lower("grcp") == "grcp";
    assert "grpc"[2] != "grcp"[2] && "grpc"[0] != "http"[0] && "grcp"[0] != "http"[0];
  }

  // ----- the interleaved system -----

  type Provider = nat

  /** An immutable snapshot: the tracer's provider (None is the no-op tracer) and the active flag. */
  datatype Snapshot = Snapshot(tracer: Option<Provider>, active: bool)

  const NOOP := Snapshot(None, false)

  datatype Request = Init(cfg: Option<OtelConfig>) | Shutdown

  datatype Phase =
    | Waiting(req: Request)
    | Locked(req: Request)
    | Built(cfg: Option<OtelConfig>, newer: Option<Provider>)     // ready to swap in the newer provider
    | Swapped(cfg: Option<OtelConfig>, newer: Option<Provider>, prev: Option<Provider>)
    | Configured(newer: Option<Provider>, prev: Option<Provider>)
    | Published(prev: Option<Provider>)
    | TearingDown(prev: Option<Provider>)
    | Done

  datatype State = State(
    provider: Option<Provider>, config: Option<OtelConfig>, published: Option<Snapshot>,
    lock: Option<nat>, threads: map<nat, Phase>, built: set<Provider>, down: seq<Provider>)

  const INITIAL := State(None, None, None, None, map[], {}, [])

  /** currentState: a no-op snapshot before the first publication. */
  function Current(s: State): Snapshot {
    if s.published.Some? then s.published.value else NOOP
  }

  datatype Event =
    | Call(t: nat, req: Request)
    | Acquire(t: nat)
    | Decide(t: nat, result: Option<Provider>)    // equal config, failed build, or a new provider
    | SwapProvider(t: nat)
    | SetConfig(t: nat)
    | Publish(t: nat)
    | Release(t: nat)
    | TearDown(t: nat)

  predicate At(s: State, t: nat) {
    t in s.threads && s.lock == Some(t)
  }

  predicate Enabled(s: State, e: Event) {
    match e
    case Call(t, _) => t !in s.threads
    case Acquire(t) => t in s.threads && s.threads[t].Waiting? && s.lock == None
    case Decide(t, result) => At(s, t) && s.threads[t].Locked? && (result.Some? ==> result.value !in s.built)
    case SwapProvider(t) => At(s, t) && s.threads[t].Built?
    case SetConfig(t) => At(s, t) && s.threads[t].Swapped?
    case Publish(t) => At(s, t) && s.threads[t].Configured?
    case Release(t) => At(s, t) && s.threads[t].Published?
    case TearDown(t) => t in s.threads && s.threads[t].TearingDown?
  }

  function Goto(s: State, t: nat, ph: Phase): State {
    s.(threads := s.threads[t := ph])
  }

  function Apply(lower: string -> string, s: State, e: Event): State
    requires Enabled(s, e)
  {
    match e
    case Call(t, req) => Goto(s, t, Waiting(req))
    case Acquire(t) => Goto(s, t, Locked(s.threads[t].req)).(lock := Some(t))
    case Decide(t, result) =>
      (match s.threads[t].req
       case Shutdown => Goto(s, t, Built(None, None))
       case Init(cfg) =>
         if ConfigEqual(lower, s.config, cfg) then Goto(s, t, Done).(lock := None)
         else if !IsEnabled(cfg) then Goto(s, t, Built(cfg, None))
         else if result.None? then Goto(s, t, Done).(lock := None)      // the build failed
         else Goto(s, t, Built(cfg, result)).(built := s.built + {result.value}))
    case SwapProvider(t) =>
      var ph := s.threads[t];
      Goto(s, t, Swapped(ph.cfg, ph.newer, s.provider)).(provider := ph.newer)
    case SetConfig(t) =>
      var ph := s.threads[t];
      Goto(s, t, Configured(ph.newer, ph.prev)).(config := ph.cfg)
    case Publish(t) =>
      var ph := s.threads[t];
      Goto(s, t, Published(ph.prev)).(published := Some(Snapshot(ph.newer, ph.newer.Some?)))
    case Release(t) => Goto(s, t, TearingDown(s.threads[t].prev)).(lock := None)
    case TearDown(t) =>
      var prev := s.threads[t].prev;
      Goto(s, t, Done).(down := if prev.Some? then s.down + [prev.value] else s.down)
  }

  function Run(lower: string -> string, es: seq<Event>): Option<State> {
    if es == [] then Some(INITIAL)
    else
      match Run(lower, es[..|es| - 1])
      case None => None
      case Some(s) => if Enabled(s, es[|es| - 1]) then Some(Apply(lower, s, es[|es| - 1])) else None
  }

  // ----- invariant -----

  /** The globals describe one and the same provider. */
  predicate Consistent(s: State) {
    && Current(s) == Snapshot(s.provider, s.provider.Some?)
    && (s.provider.Some? <==> IsEnabled(s.config))
  }

  /** The provider a thread alone is answerable for: one not yet installed, or one it must shut down. */
  function Holds(ph: Phase): Option<Provider> {
    match ph
    case Built(_, newer) => newer
    case Swapped(_, _, prev) => prev
    case Configured(_, prev) => prev
    case Published(prev) => prev
    case TearingDown(prev) => prev
    case _ => None
  }

  predicate NeedsLock(ph: Phase) {
    ph.Locked? || ph.Built? || ph.Swapped? || ph.Configured? || ph.Published?
  }

  ghost predicate LockInv(s: State) {
    && (s.lock.None? ==> Consistent(s))
    && (s.lock.Some? ==> s.lock.value in s.threads && NeedsLock(s.threads[s.lock.value]))
    && (forall t :: t in s.threads && NeedsLock(s.threads[t]) ==> s.lock == Some(t))
    && (s.lock.Some? ==>
          match s.threads[s.lock.value]
          case Locked(_) => Consistent(s)
          case Built(cfg, newer) => Consistent(s) && (newer.Some? <==> IsEnabled(cfg))
          case Swapped(cfg, newer, prev) =>
            s.provider == newer && (newer.Some? <==> IsEnabled(cfg)) && Current(s) == Snapshot(prev, prev.Some?)
          case Configured(newer, prev) =>
            s.provider == newer && (newer.Some? <==> IsEnabled(s.config)) && Current(s) == Snapshot(prev, prev.Some?)
          case Published(_) => Consistent(s)
          case _ => false)
  }

  function HoldOf(s: State, t: nat): Option<Provider> {
    if t in s.threads then Holds(s.threads[t]) else None
  }

  ghost predicate OwnershipInv(s: State) {
    && (s.provider.Some? ==> s.provider.value in s.built && s.provider.value !in s.down)
    && (forall t :: HoldOf(s, t).Some? ==>
          HoldOf(s, t).value in s.built && HoldOf(s, t) != s.provider && HoldOf(s, t).value !in s.down)
    && (forall t, u :: t != u && HoldOf(s, t).Some? ==> HoldOf(s, t) != HoldOf(s, u))
    && (forall p :: p in s.down ==> p in s.built)
    && (forall i, j :: 0 <= i < j < |s.down| ==> s.down[i] != s.down[j])
  }

  /** No built provider is lost sight of. */
  ghost predicate CoverageInv(s: State) {
    forall p :: p in s.built ==> Some(p) == s.provider || p in s.down || HeldBySome(s, p)
  }

  ghost predicate HeldBySome(s: State, p: Provider) {
    exists t :: HoldOf(s, t) == Some(p)
  }

  lemma LockInvStep(lower: string -> string, s: State, e: Event)
    requires LockInv(s) && Enabled(s, e)
    ensures LockInv(Apply(lower, s, e))
  {
  }

  /** One step moves at most one provider between the acting thread's hands and the globals. */
  lemma StepMoves(lower: string -> string, s: State, e: Event)
    requires Enabled(s, e)
    ensures var s' := Apply(lower, s, e);
            && (forall u :: u != e.t ==> HoldOf(s', u) == HoldOf(s, u))
            && (match e
                case Decide(t, result) =>
                  && s'.provider == s.provider && s'.down == s.down && HoldOf(s, t).None?
                  && ((HoldOf(s', t).None? && s'.built == s.built) ||
                      (HoldOf(s', t) == result && result.Some? && s'.built == s.built + {result.value}))
                case SwapProvider(t) =>
                  s'.built == s.built && s'.down == s.down && s'.provider == HoldOf(s, t) && HoldOf(s', t) == s.provider
                case TearDown(t) =>
                  && s'.built == s.built && s'.provider == s.provider && HoldOf(s', t).None?
                  && s'.down == if HoldOf(s, t).Some? then s.down + [HoldOf(s, t).value] else s.down
                case _ =>
                  s'.built == s.built && s'.down == s.down &&
                  s'.provider == s.provider && HoldOf(s', e.t) == HoldOf(s, e.t))
  {
  }

  lemma OwnershipInvStep(lower: string -> string, s: State, e: Event)
    requires OwnershipInv(s) && Enabled(s, e)
    ensures OwnershipInv(Apply(lower, s, e))
  {
    StepMoves(lower, s, e);
    var s' := Apply(lower, s, e);
    assert forall u :: u == e.t || HoldOf(s', u) == HoldOf(s, u);
  }

  lemma CoverageInvStep(lower: string -> string, s: State, e: Event)
    requires CoverageInv(s) && Enabled(s, e)
    ensures CoverageInv(Apply(lower, s, e))
  {
    StepMoves(lower, s, e);
    var s' := Apply(lower, s, e);
    forall p | p in s'.built
      ensures Some(p) == s'.provider || p in s'.down || HeldBySome(s', p)
    {
      if p in s.built && HeldBySome(s, p) {
        var t :| HoldOf(s, t) == Some(p);
        assert t != e.t || (!e.SwapProvider? && !e.TearDown? && !e.Decide?) ==> HoldOf(s', t) == Some(p);
      } else if p !in s.built || (Some(p) == s.provider && e.SwapProvider?) {
        assert HoldOf(s', e.t) == Some(p);
      }
    }
  }

  lemma {:induction false} InvAlways(lower: string -> string, es: seq<Event>)
    requires Run(lower, es).Some?
    ensures LockInv(Run(lower, es).value) && OwnershipInv(Run(lower, es).value) && CoverageInv(Run(lower, es).value)
  {
    if es != [] {
      var s, e := Run(lower, es[..|es| - 1]).value, es[|es| - 1];
      InvAlways(lower, es[..|es| - 1]);
      LockInvStep(lower, s, e);
      OwnershipInvStep(lower, s, e);
      CoverageInvStep(lower, s, e);
    }
  }

  // ----- what every interleaving guarantees -----

  /** Whenever the lock is free, the published flag is active exactly when a provider is installed, and
      the published tracer is that provider's. */
  lemma FlagMatchesProvider(lower: string -> string, es: seq<Event>)
    requires Run(lower, es).Some? && Run(lower, es).value.lock == None
    ensures var s := Run(lower, es).value; Current(s).active == s.provider.Some? && Current(s).tracer == s.provider
  {
    InvAlways(lower, es);
  }

  /** At every moment, also in the middle of a swap, a reader gets an untorn snapshot whose provider has
      not been shut down. */
  lemma ReadersSeeLiveProviders(lower: string -> string, es: seq<Event>)
    requires Run(lower, es).Some?
    ensures var s := Run(lower, es).value;
            && Current(s).active == Current(s).tracer.Some?
            && (Current(s).tracer.Some? ==> Current(s).tracer.value in s.built && Current(s).tracer.value !in s.down)
  {
    InvAlways(lower, es);
    var s := Run(lower, es).value;
    if s.lock.Some? {
      assert HoldOf(s, s.lock.value).Some? ==> HoldOf(s, s.lock.value).value !in s.down;
    }
  }

  /** Every provider ever built is the installed one, or is held by exactly one thread that has yet to
      install it or shut it down, or has been shut down exactly once; never two of these. */
  lemma ProvidersAreConserved(lower: string -> string, es: seq<Event>, p: Provider)
    requires Run(lower, es).Some? && p in Run(lower, es).value.built
    ensures var s := Run(lower, es).value;
            && (Some(p) == s.provider || p in s.down || HeldBySome(s, p))
            && (Some(p) == s.provider ==> p !in s.down && !HeldBySome(s, p))
            && (p in s.down ==> !HeldBySome(s, p) && multiset(s.down)[p] == 1)
            && (forall t, u :: HoldOf(s, t) == HoldOf(s, u) == Some(p) ==> t == u)
  {
    InvAlways(lower, es);
    var s := Run(lower, es).value;
    if p in s.down {
      OnceInMultiset(s.down, p);
    }
  }

  lemma {:induction false} OnceInMultiset(s: seq<Provider>, p: Provider)
    requires p in s && forall i, j :: 0 <= i < j < |s| ==> s[i] != s[j]
    ensures multiset(s)[p] == 1
  {
    assert s == [s[0]] + s[1..];
    if s[0] == p {
      assert p !in s[1..];
    } else {
      OnceInMultiset(s[1..], p);
    }
  }

  /** When all calls have returned, everything built is installed or shut down. */
  lemma NothingLeaks(lower: string -> string, es: seq<Event>)
    requires Run(lower, es).Some?
    requires forall t :: t in Run(lower, es).value.threads ==> Run(lower, es).value.threads[t].Done?
    ensures var s := Run(lower, es).value;
            s.built == (set p | p in s.down) + if s.provider.Some? then {s.provider.value} else {}
  {
    InvAlways(lower, es);
    var s := Run(lower, es).value;
    forall p | p in s.built
      ensures p in s.down || Some(p) == s.provider
    {
      assert !HeldBySome(s, p);
    }
  }

  /** In every run, a failed build leaves every global, every provider and what readers see as they were, frees the
      lock, and leaves nothing in the thread's hands. */
  lemma FailedBuildChangesNothing(lower: string -> string, es: seq<Event>, t: nat)
    requires Run(lower, es + [Decide(t, None)]).Some? && Run(lower, es).Some? && t in Run(lower, es).value.threads
    requires Run(lower, es).value.threads[t].Locked? && Run(lower, es).value.threads[t].req.Init?
    requires IsEnabled(Run(lower, es).value.threads[t].req.cfg)
    ensures var s, s' := Run(lower, es).value, Run(lower, es + [Decide(t, None)]).value;
            && GlobalsOf(s') == GlobalsOf(s) && s'.built == s.built && s'.down == s.down && s'.lock == None
            && Current(s') == Current(s) == Snapshot(s.provider, s.provider.Some?)
            && (forall u :: HoldOf(s', u) == HoldOf(s, u)) && HoldOf(s', t).None?
  {
    assert (es + [Decide(t, None)])[..|es|] == es;
    InvAlways(lower, es);
  }

  // ----- the critical sections as code -----

  /** The three globals the lock protects. */
  datatype Globals = Globals(provider: Option<Provider>, config: Option<OtelConfig>, published: Option<Snapshot>)

  function GlobalsOf(s: State): Globals {
    Globals(s.provider, s.config, s.published)
  }

  function Replaced(cfg: Option<OtelConfig>, newer: Option<Provider>): Globals {
    Globals(newer, cfg, Some(Snapshot(newer, newer.Some?)))
  }

  class Tracing {
    var provider: Option<Provider>
    var config: Option<OtelConfig>
    var published: Option<Snapshot>

    constructor ()
      ensures View() == GlobalsOf(INITIAL)
    {
      provider, config, published := None, None, None;
    }

    ghost function View(): Globals
      reads this
    {
      Globals(provider, config, published)
    }

    /** InitOtelTracer; `build` is what building the provider yields, None on failure. `toTearDown` is
        shut down once the lock is released. */
    method InitOtelTracer(
      lower: string -> string, cfg: Option<OtelConfig>, build: Option<Provider>)
      returns (ok: bool, toTearDown: Option<Provider>)
      modifies this
      ensures var equal, failed := ConfigEqual(lower, old(config), cfg), IsEnabled(cfg) && build.None?;
              if equal || failed then View() == old(View()) && toTearDown == None && ok == equal
              else View() == Replaced(cfg, if IsEnabled(cfg) then build else None) && toTearDown == old(provider) && ok
    {
      if ConfigEqual(lower, config, cfg) { return true, None; }
      var tp: Option<Provider> := None;
      if IsEnabled(cfg) {
        if build.None? { return false, None; }
        tp := build;
      }
      toTearDown := provider;
      provider := tp;
      config := cfg;
      published := Some(Snapshot(tp, tp.Some?));
      ok := true;
    }

    /** The closure makeShutdown returns. */
    method Shutdown() returns (toTearDown: Option<Provider>)
      modifies this
      ensures View() == Replaced(None, None) && toTearDown == old(provider)
    {
      toTearDown := provider;
      provider := None;
      config := None;
      published := Some(NOOP);
    }
  }

  /** The fine-grained steps of a swapping thread amount to the code's critical section. */
  lemma SwapIsTheCriticalSection(lower: string -> string, s: State, t: nat)
    requires At(s, t) && s.threads[t].Built?
    ensures var s1 := Apply(lower, s, SwapProvider(t));
            var s2 := Apply(lower, s1, SetConfig(t));
            var s3 := Apply(lower, s2, Publish(t));
            var s4 := Apply(lower, s3, Release(t));
            && GlobalsOf(s4) == Replaced(s.threads[t].cfg, s.threads[t].newer)
            && HoldOf(s4, t) == s.provider && s4.lock == None
  {
  }

  /** And a whole InitOtelTracer call, from taking the lock on, amounts to the method: an equal configuration or a
      failed build only frees the lock, and otherwise the new provider is installed and the old one is in the
      thread's hands, to be torn down. */
  lemma InitIsTheCriticalSection(lower: string -> string, s: State, t: nat, build: Option<Provider>)
    requires At(s, t) && s.threads[t].Locked? && s.threads[t].req.Init? && (build.Some? ==> build.value !in s.built)
    ensures var cfg, s1 := s.threads[t].req.cfg, Apply(lower, s, Decide(t, build));
            if ConfigEqual(lower, s.config, cfg) || (IsEnabled(cfg) && build.None?)
            then GlobalsOf(s1) == GlobalsOf(s) && s1.built == s.built && s1.lock == None && HoldOf(s1, t).None?
            else
              && At(s1, t) && s1.threads[t] == Built(cfg, if IsEnabled(cfg) then build else None)
              && var s5 := Apply(lower, Apply(lower, Apply(lower, Apply(
                             lower, s1, SwapProvider(t)), SetConfig(t)), Publish(t)), Release(t));
                 && GlobalsOf(s5) == Replaced(cfg, if IsEnabled(cfg) then build else None)
                 && HoldOf(s5, t) == s.provider && s5.lock == None
  {
    var s1 := Apply(lower, s, Decide(t, build));
    if s1.threads[t].Built? {
      SwapIsTheCriticalSection(lower, s1, t);
    }
  }
}
