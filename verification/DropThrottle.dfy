/** The drop-diagnostic throttle: any number of callers taking the load, check and compare-and-swap steps of
    `allow` one at a time, with one interval for all. */
module DropThrottle {
  import opened Bytes

  /** Where a caller stands: about to load, or about to swap the value it loaded. */
  datatype Step = Loading | Swapping(prev: int)

  datatype Phase = Idle | Calling(now: int, step: Step)

  /** The shared word, the callers, and the timestamps allowed so far in order. */
  datatype State = State(last: int, callers: map<nat, Phase>, allowed: seq<int>)

  /** A caller enters with its clock reading, loads and checks, or swaps. */
  datatype Event = Enter(t: nat, now: int) | Load(t: nat) | Swap(t: nat)

  const START := State(0, map[], [])

  function PhaseOf(s: State, t: nat): Phase {
    if t in s.callers then s.callers[t] else Idle
  }

  predicate Enabled(s: State, e: Event) {
    match e
    case Enter(t, now) => PhaseOf(s, t) == Idle
    case Load(t) => PhaseOf(s, t).Calling? && PhaseOf(s, t).step.Loading?
    case Swap(t) => PhaseOf(s, t).Calling? && PhaseOf(s, t).step.Swapping?
  }

  function Apply(s: State, e: Event, interval: int): State
    requires Enabled(s, e)
  {
    match e
    case Enter(t, now) => s.(callers := s.callers[t := Calling(now, Loading)])
    case Load(t) =>
      var now := PhaseOf(s, t).now;
      s.(callers := s.callers[t := if now - s.last < interval then Idle else Calling(now, Swapping(s.last))])
    case Swap(t) =>
      var p := PhaseOf(s, t);
      if s.last == p.step.prev then State(p.now, s.callers[t := Idle], s.allowed + [p.now])
      else s.(callers := s.callers[t := Calling(p.now, Loading)])
  }

  function Run(es: seq<Event>, interval: int): Option<State> {
    if es == [] then Some(START)
    else
      match Run(es[..|es| - 1], interval)
      case None => None
      case Some(s) => if Enabled(s, es[|es| - 1]) then Some(Apply(s, es[|es| - 1], interval)) else None
  }

  /** The last allowed timestamp is the shared word, and a caller about to swap passed the check. */
  ghost predicate Inv(s: State, interval: int) {
    && s.last == (if s.allowed == [] then 0 else s.allowed[|s.allowed| - 1])
    && (forall t :: PhaseReady(PhaseOf(s, t), interval))
    && Spaced(s.allowed, interval)
  }

  predicate PhaseReady(p: Phase, interval: int) {
    p.Calling? && p.step.Swapping? ==> p.now - p.step.prev >= interval
  }

  predicate Spaced(ts: seq<int>, interval: int) {
    forall i :: 0 < i < |ts| ==> Apart(ts, i, interval)
  }

  predicate Apart(ts: seq<int>, i: int, interval: int)
    requires 0 < i < |ts|
  {
    ts[i] - ts[i - 1] >= interval
  }

  lemma SpacedSnoc(ts: seq<int>, x: int, interval: int)
    requires Spaced(ts, interval) && (ts != [] ==> x - ts[|ts| - 1] >= interval)
    ensures Spaced(ts + [x], interval)
  {
    var more := ts + [x];
    forall i | 0 < i < |more|
      ensures Apart(more, i, interval)
    {
      assert i < |ts| ==> Apart(ts, i, interval);
    }
  }

  lemma InvStep(s: State, e: Event, interval: int)
    requires Inv(s, interval) && Enabled(s, e)
    ensures Inv(Apply(s, e, interval), interval)
  {
    var s' := Apply(s, e, interval);
    assert PhaseReady(PhaseOf(s, e.t), interval);
    forall t
      ensures PhaseReady(PhaseOf(s', t), interval)
    {
      assert t != e.t ==> PhaseOf(s', t) == PhaseOf(s, t);
      assert PhaseReady(PhaseOf(s, t), interval);
    }
    if e.Swap? && s.last == PhaseOf(s, e.t).step.prev {
      SpacedSnoc(s.allowed, PhaseOf(s, e.t).now, interval);
    }
  }

  lemma {:induction false} InvAlways(es: seq<Event>, interval: int)
    requires Run(es, interval).Some?
    ensures Inv(Run(es, interval).value, interval)
  {
    if es != [] {
      InvAlways(es[..|es| - 1], interval);
      InvStep(Run(es[..|es| - 1], interval).value, es[|es| - 1], interval);
    }
  }

  lemma {:induction false} SpacedFromTo(ts: seq<int>, i: nat, j: nat, interval: int)
    requires i < j < |ts| && Spaced(ts, interval) && interval >= 0
    ensures ts[j] - ts[i] >= interval
    decreases j
  {
    assert Apart(ts, j, interval);
    if i < j - 1 {
      SpacedFromTo(ts, i, j - 1, interval);
    }
  }

  /** In every interleaving, any two allowed diagnostics are at least the interval apart. */
  lemma AllowedAreSpaced(es: seq<Event>, interval: int, i: nat, j: nat)
    requires Run(es, interval).Some? && interval >= 0
    requires i < j < |Run(es, interval).value.allowed|
    ensures Run(es, interval).value.allowed[j] - Run(es, interval).value.allowed[i] >= interval
  {
    InvAlways(es, interval);
    SpacedFromTo(Run(es, interval).value.allowed, i, j, interval);
  }

  /** The last allowed timestamp, 0 before the first. */
  function LastAllowed(s: State): int {
    if s.allowed == [] then 0 else s.allowed[|s.allowed| - 1]
  }

  lemma RunSnoc(es: seq<Event>, e: Event, interval: int)
    requires Run(es, interval).Some? && Enabled(Run(es, interval).value, e)
    ensures Run(es + [e], interval) == Some(Apply(Run(es, interval).value, e, interval))
  {
    assert (es + [e])[..|es|] == es;
  }

  /** In every interleaving, a load refuses exactly if the clock reading is less than the interval after the last
      allowed one. */
  lemma RefusedExactlyWithin(es: seq<Event>, t: nat, interval: int)
    requires Run(es, interval).Some? && Enabled(Run(es, interval).value, Load(t))
    ensures Run(es + [Load(t)], interval).Some?
    ensures var s, s' := Run(es, interval).value, Run(es + [Load(t)], interval).value;
            && s'.allowed == s.allowed
            && (PhaseOf(s', t) == Idle <==> PhaseOf(s, t).now - LastAllowed(s) < interval)
  {
    InvAlways(es, interval);
    RunSnoc(es, Load(t), interval);
  }

  /** A call that no other caller interrupts is allowed exactly if its clock reading is at least the interval after
      the last allowed one. */
  lemma LoneCall(es: seq<Event>, t: nat, now: int, interval: int)
    requires Run(es, interval).Some? && PhaseOf(Run(es, interval).value, t) == Idle
    ensures var s := Run(es, interval).value;
            if now - LastAllowed(s) < interval then
              var end := Run(es + [Enter(t, now)] + [Load(t)], interval);
              end.Some? && PhaseOf(end.value, t) == Idle && end.value.allowed == s.allowed
            else
              var end := Run(es + [Enter(t, now)] + [Load(t)] + [Swap(t)], interval);
              end.Some? && PhaseOf(end.value, t) == Idle && end.value.allowed == s.allowed + [now]
  {
    InvAlways(es, interval);
    RunSnoc(es, Enter(t, now), interval);
    RunSnoc(es + [Enter(t, now)], Load(t), interval);
    if now - LastAllowed(Run(es, interval).value) >= interval {
      RunSnoc(es + [Enter(t, now)] + [Load(t)], Swap(t), interval);
    }
  }

  // ----- a failed swap is another caller's success -----

  lemma {:induction false} RunPrefix(es: seq<Event>, i: nat, interval: int)
    requires i <= |es| && Run(es, interval).Some?
    ensures Run(es[..i], interval).Some?
    ensures i < |es| ==> Enabled(Run(es[..i], interval).value, es[i])
    ensures i < |es| ==> Run(es[..i + 1], interval) == Some(Apply(Run(es[..i], interval).value, es[i], interval))
    decreases |es|
  {
    if i == |es| {
      assert es[..i] == es;
    } else {
      var n := |es| - 1;
      RunPrefix(es[..n], i, interval);
      assert es[..n][..i] == es[..i];
      if i < n {
        assert es[..n][..i + 1] == es[..i + 1];
      } else {
        assert es[..i + 1] == es;
      }
    }
  }

  /** The state after the first i events. */
  function At(es: seq<Event>, i: nat, interval: int): State
    requires i <= |es| && Run(es, interval).Some?
  {
    RunPrefix(es, i, interval);
    Run(es[..i], interval).value
  }

  /** Event j is a successful swap. */
  predicate Wins(es: seq<Event>, j: nat, interval: int)
    requires j < |es| && Run(es, interval).Some?
  {
    RunPrefix(es, j, interval);
    es[j].Swap? && At(es, j, interval).last == PhaseOf(At(es, j, interval), es[j].t).step.prev
  }

  lemma WinMoves(es: seq<Event>, j: nat, interval: int)
    requires j < |es| && Run(es, interval).Some?
    ensures Wins(es, j, interval) ==>
              && At(es, j + 1, interval).last - At(es, j, interval).last >= interval
              && At(es, j + 1, interval).allowed == At(es, j, interval).allowed + [At(es, j + 1, interval).last]
    ensures !Wins(es, j, interval) ==>
              At(es, j + 1, interval).last == At(es, j, interval).last &&
              At(es, j + 1, interval).allowed == At(es, j, interval).allowed
  {
    RunPrefix(es, j, interval);
    InvAlways(es[..j], interval);
    assert PhaseReady(PhaseOf(At(es, j, interval), es[j].t), interval);
  }

  /** Event i is t's load and t takes no step between it and event m. */
  ghost predicate WaitsSince(es: seq<Event>, t: nat, i: nat, m: nat) {
    i < m <= |es| && es[i] == Load(t) && forall j :: i < j < m ==> es[j].t != t
  }

  ghost predicate WinBetween(es: seq<Event>, i: nat, m: nat, interval: int)
    requires m <= |es| && Run(es, interval).Some?
  {
    exists j :: i < j < m && Wins(es, j, interval)
  }

  lemma {:induction false} PhaseSinceLoad(es: seq<Event>, t: nat, i: nat, m: nat, interval: int)
    requires Run(es, interval).Some? && WaitsSince(es, t, i, m)
    ensures PhaseOf(At(es, m, interval), t) == PhaseOf(At(es, i + 1, interval), t)
    decreases m
  {
    if m > i + 1 {
      PhaseSinceLoad(es, t, i, m - 1, interval);
      RunPrefix(es, m - 1, interval);
    }
  }

  /** The shared word is unchanged while no swap succeeds, and larger as soon as one does. */
  lemma {:induction false} WordSince(es: seq<Event>, i: nat, m: nat, interval: int)
    requires Run(es, interval).Some? && i < m <= |es|
    ensures !WinBetween(es, i, m, interval) ==> At(es, m, interval).last == At(es, i + 1, interval).last
    ensures interval > 0 ==> At(es, m, interval).last >= At(es, i + 1, interval).last
    ensures interval > 0 && WinBetween(es, i, m, interval) ==> At(es, m, interval).last > At(es, i + 1, interval).last
    decreases m
  {
    if m > i + 1 {
      WordSince(es, i, m - 1, interval);
      WinMoves(es, m - 1, interval);
      assert WinBetween(es, i, m, interval) <==> WinBetween(es, i, m - 1, interval) || Wins(es, m - 1, interval);
    }
  }

  /** A load that passes the check makes the caller wait to swap the word it read. */
  lemma LoadThenSwap(es: seq<Event>, t: nat, i: nat, interval: int)
    requires Run(es, interval).Some? && i < |es| && es[i] == Load(t)
    ensures At(es, i + 1, interval).last == At(es, i, interval).last
    ensures var p := PhaseOf(At(es, i + 1, interval), t); p.Calling? ==> p.step == Swapping(At(es, i, interval).last)
  {
    RunPrefix(es, i, interval);
  }

  /** A caller's swap fails only if another caller's swap succeeded since it loaded; and with a positive interval
      it fails whenever one did. */
  lemma FailedSwapMeansAnotherWon(es: seq<Event>, t: nat, i: nat, m: nat, interval: int)
    requires Run(es, interval).Some? && m < |es| && WaitsSince(es, t, i, m) && es[m] == Swap(t)
    ensures !Wins(es, m, interval) ==> exists j :: i < j < m && es[j].t != t && Wins(es, j, interval)
    ensures interval > 0 && WinBetween(es, i, m, interval) ==> !Wins(es, m, interval)
  {
    LoadThenSwap(es, t, i, interval);
    PhaseSinceLoad(es, t, i, m, interval);
    WordSince(es, i, m, interval);
    RunPrefix(es, m, interval);
    if WinBetween(es, i, m, interval) {
      var j :| i < j < m && Wins(es, j, interval);
      assert es[j].t != t;
    }
  }
}
