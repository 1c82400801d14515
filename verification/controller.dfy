/**
 The controller around the tick engine: a clock signal steps the
 simulation only while it is running, and the three external requests
 (toggle, reset, clock signal) drive the state. Wall-clock timing is
 abstracted to a sequence of events.
 */
module Controller {
  import opened GridTypes
  import opened LoadTransfer
  import opened Simulation

  /** `n` consecutive steps, step `k` consuming `drawsList[k]`: the tick
      counter advances by exactly `n` and the topology is kept. */
  function RunTicks(s: SimulationState, drawsList: seq<seq<real>>): (r: SimulationState)
    requires CapacitiesPositive(s.nodes)
    requires forall k :: 0 <= k < |drawsList| ==> |drawsList[k]| == |s.nodes|
    ensures r.tick == s.tick + |drawsList|
    ensures r.connections == s.connections && r.isRunning == s.isRunning
    ensures OnlyDynamicsChanged(s.nodes, r.nodes)
    decreases |drawsList|
  {
    if |drawsList| == 0 then s
    else
      var next := Step(s, drawsList[0]);
      DynamicsKeepCapacities(s.nodes, next.nodes);
      var r := RunTicks(next, drawsList[1..]);
      DynamicsChangedTransitive(s.nodes, next.nodes, r.nodes);
      r
  }

  /** Any number of steps keeps the state invariant. */
  lemma {:induction false} RunTicksPreservesWellFormed(s: SimulationState, drawsList: seq<seq<real>>)
    requires WellFormed(s) && SafeCapacities(s.nodes)
    requires forall k :: 0 <= k < |drawsList| ==> |drawsList[k]| == |s.nodes|
    ensures WellFormed(RunTicks(s, drawsList)) && SafeCapacities(RunTicks(s, drawsList).nodes)
    decreases |drawsList|
  {
    if |drawsList| > 0 {
      StepPreservesWellFormed(s, drawsList[0]);
      RunTicksPreservesWellFormed(Step(s, drawsList[0]), drawsList[1..]);
    }
  }

  /** A clock signal: one step while running, nothing while paused. */
  function OnTimer(s: SimulationState, draws: seq<real>): (r: SimulationState)
    requires |draws| == |s.nodes|
    requires CapacitiesPositive(s.nodes)
    ensures r.isRunning == s.isRunning && r.connections == s.connections
    ensures r.tick == (if s.isRunning then s.tick + 1 else s.tick)
    ensures !s.isRunning ==> r == s
    ensures s.isRunning ==> r == Step(s, draws)
    ensures OnlyDynamicsChanged(s.nodes, r.nodes)
  {
    if s.isRunning then Step(s, draws) else s
  }

  /** The requests the outside world makes: the two controls and a clock
      signal carrying the draws of the tick it may trigger. */
  datatype Event = Toggle | ResetRequest | Timer(draws: seq<real>)

  /** A topology a session can start from and reset to: well formed,
      paused, at tick 0, with capacities of at least 100. */
  predicate ValidStart(init: SimulationState)
  {
    WellFormed(init) && SafeCapacities(init.nodes) && !init.isRunning && init.tick == 0
  }

  /** The hard-coded topology is a valid start. */
  lemma ResetIsValidStart(s: SimulationState)
    ensures ValidStart(Reset(s))
  {
    InitialNodesValid();
    assert Reset(s).nodes == InitialNodes;
  }

  /** The invariant of a session started from `init`: the topology of
      `init` with only loads and stabilities changed, and the state
      invariant. Every state a session publishes has it; so do states no
      sequence of requests can produce. */
  ghost predicate SessionInvariant(init: SimulationState, s: SimulationState)
  {
    && OnlyDynamicsChanged(init.nodes, s.nodes)
    && s.connections == init.connections
    && WellFormed(s)
  }

  /** Every clock signal carries one draw per node. */
  predicate DrawsFit(init: SimulationState, events: seq<Event>)
  {
    forall k :: 0 <= k < |events| && events[k].Timer? ==>
      |events[k].draws| == |init.nodes|
  }

  lemma InvariantIsSafe(init: SimulationState, s: SimulationState)
    requires ValidStart(init) && SessionInvariant(init, s)
    ensures SafeCapacities(s.nodes) && CapacitiesPositive(s.nodes)
  {
    DynamicsKeepCapacities(init.nodes, s.nodes);
  }

  lemma OnTimerKeepsInvariant(init: SimulationState, s: SimulationState, draws: seq<real>)
    requires ValidStart(init) && SessionInvariant(init, s)
    requires |draws| == |s.nodes|
    ensures CapacitiesPositive(s.nodes) && SessionInvariant(init, OnTimer(s, draws))
  {
    InvariantIsSafe(init, s);
    if s.isRunning {
      StepPreservesWellFormed(s, draws);
    }
    DynamicsChangedTransitive(init.nodes, s.nodes, OnTimer(s, draws).nodes);
  }

  lemma StartHasInvariant(init: SimulationState)
    requires ValidStart(init)
    ensures SessionInvariant(init, init)
  {
    assert OnlyDynamicsChanged(init.nodes, init.nodes);
  }

  lemma ToggleKeepsInvariant(init: SimulationState, s: SimulationState)
    requires SessionInvariant(init, s)
    ensures SessionInvariant(init, ToggleRunning(s))
  {
    ToggleRunningInvolution(s);
  }

  /** Handles one request: a toggle flips the flag, a reset returns to the
      start, a clock signal steps while running. The session invariant is
      kept, and the tick counter and running flag move as `ClockEvent` says. */
  function Handle(init: SimulationState, s: SimulationState, e: Event): (r: SimulationState)
    requires ValidStart(init) && SessionInvariant(init, s)
    requires e.Timer? ==> |e.draws| == |init.nodes|
    ensures SessionInvariant(init, r)
    ensures r.tick == ClockEvent(s.tick, s.isRunning, e).0
    ensures r.isRunning == ClockEvent(s.tick, s.isRunning, e).1
    ensures e.Toggle? ==> r.nodes == s.nodes
    ensures e.ResetRequest? ==> r == init
    ensures e.Timer? && !s.isRunning ==> r == s
    ensures e.Timer? && s.isRunning ==>
              CapacitiesPositive(s.nodes) && r == Step(s, e.draws)
  {
    match e
    case Toggle =>
      ToggleKeepsInvariant(init, s);
      ToggleRunning(s)
    case ResetRequest =>
      StartHasInvariant(init);
      init
    case Timer(draws) =>
      OnTimerKeepsInvariant(init, s, draws);
      OnTimer(s, draws)
  }

  /** Reference behaviour of the running flag and the tick counter alone,
      for one request: a toggle flips the flag, a reset pauses at tick 0,
      and a clock signal counts one tick only while running. Loads play no
      part. */
  function ClockEvent(tick: nat, running: bool, e: Event): (nat, bool)
  {
    match e
    case Toggle => (tick, !running)
    case ResetRequest => (0, false)
    case Timer(_) => (if running then tick + 1 else tick, running)
  }

  /** The reference behaviour over a sequence of requests. */
  function Clock(tick: nat, running: bool, events: seq<Event>): (nat, bool)
    decreases |events|
  {
    if |events| == 0 then (tick, running)
    else
      var next := ClockEvent(tick, running, events[0]);
      Clock(next.0, next.1, events[1..])
  }

  /** Handles requests in order. Every state published keeps the session
      invariant, and the tick counter and running flag
      follow the reference `Clock` exactly. */
  function Run(init: SimulationState, s: SimulationState, events: seq<Event>): (r: SimulationState)
    requires ValidStart(init) && SessionInvariant(init, s)
    requires DrawsFit(init, events)
    ensures SessionInvariant(init, r)
    ensures r.tick == Clock(s.tick, s.isRunning, events).0
    ensures r.isRunning == Clock(s.tick, s.isRunning, events).1
    decreases |events|
  {
    if |events| == 0 then s
    else
      var next := Handle(init, s, events[0]);
      assert DrawsFit(init, events[1..]) by {
        forall k | 0 <= k < |events| - 1 && events[1..][k].Timer?
          ensures |events[1..][k].draws| == |init.nodes|
        {
          assert events[1..][k] == events[k + 1];
        }
      }
      Run(init, next, events[1..])
  }

  /** Every state a session publishes, from its start through any sequence
      of requests, satisfies the invariant. */
  lemma SessionKeepsInvariant(init: SimulationState, events: seq<Event>)
    requires ValidStart(init)
    requires DrawsFit(init, events)
    ensures WellFormed(Run(init, init, events))
    ensures SafeCapacities(Run(init, init, events).nodes)
  {
    StartHasInvariant(init);
    InvariantIsSafe(init, Run(init, init, events));
  }

  /** When the start is the hard-coded topology, the controller's reset
      gives exactly what `Reset` gives, from any state of the session. */
  lemma HandleResetIsReset(s: SimulationState, t: SimulationState)
    ensures ValidStart(Reset(t))
    ensures SessionInvariant(Reset(t), s) ==>
              Handle(Reset(t), s, ResetRequest) == Reset(s)
  {
    ResetIsValidStart(t);
    ResetIdempotent(s);
    ResetIdempotent(t);
  }
}
