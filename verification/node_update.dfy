/**
 Phases 1 to 3 of a simulation tick, applied to each node on its own:
 random load drift, the stability update driven by the drifted load, and
 the extra load an unstable node generates.

 The random source is a parameter: `u` is the one uniform draw in [0, 1)
 that the tick takes for the node.
 */
module NodeUpdate {
  import opened GridTypes

  const DriftBias: real := 0.45
  const DriftScale: real := 20.0
  const StabilityLoss: real := 0.05
  const StabilityGain: real := 0.02
  const RecoveryFraction: real := 0.8
  const UnstableBelow: real := 0.5
  const FeedbackScale: real := 15.0

  /** The signed load change a draw produces; biased upwards, since the
      draws average 0.5 but the neutral point is 0.45. */
  function Drift(u: real): (d: real)
    ensures 0.0 <= u < 1.0 ==> -9.0 <= d < 11.0
    ensures d > 0.0 <==> u > DriftBias
    ensures d == 0.0 <==> u == DriftBias
  {
    (u - DriftBias) * DriftScale
  }

  /** Phase 1: the drifted load, floored at zero. */
  function DriftedLoad(load: real, u: real): (r: real)
    ensures r >= 0.0
    ensures r >= load + Drift(u)
    ensures r == 0.0 || r == load + Drift(u)
  {
    if load + Drift(u) > 0.0 then load + Drift(u) else 0.0
  }

  /** Phase 2: the stability after a tick whose drifted load is `load`.
      Exactly one rule applies: overload costs a step (floored at 0), light
      load below 80% of capacity recovers a smaller step (capped at 1), and
      anything in between leaves stability alone. */
  function NextStability(stability: real, load: real, capacity: real): (r: real)
    ensures load > capacity ==>
              r >= 0.0 && r >= stability - StabilityLoss
              && (r == 0.0 || r == stability - StabilityLoss)
    ensures load <= capacity && load < RecoveryFraction * capacity ==>
              r <= 1.0 && r <= stability + StabilityGain
              && (r == 1.0 || r == stability + StabilityGain)
    ensures RecoveryFraction * capacity <= load <= capacity ==> r == stability
    ensures 0.0 <= stability <= 1.0 ==> 0.0 <= r <= 1.0
  {
    if load > capacity then
      if stability - StabilityLoss > 0.0 then stability - StabilityLoss else 0.0
    else if load < capacity * RecoveryFraction then
      if stability + StabilityGain < 1.0 then stability + StabilityGain else 1.0
    else
      stability
  }

  /** Phase 3: an unstable node (stability below 0.5) gains
      `(1 - stability) * 15` load; a stable one keeps its load. */
  function Feedback(load: real, stability: real): (r: real)
    ensures r >= load
    ensures r > load <==> stability < UnstableBelow
    ensures stability < UnstableBelow ==> r - load == (1.0 - stability) * FeedbackScale
  {
    if stability < UnstableBelow then load + (1.0 - stability) * FeedbackScale else load
  }

  /** Phases 1 to 3 for one node: only `load` and `stability` change, the
      new load is never negative, and the stability scale is kept. */
  function UpdateNode(n: GridNode, u: real): (r: GridNode)
    ensures r == n.(load := r.load, stability := r.stability)
    ensures r.stability == NextStability(n.stability, DriftedLoad(n.load, u), n.capacity)
    ensures r.load == Feedback(DriftedLoad(n.load, u), r.stability)
    ensures r.load >= 0.0
    ensures StabilityInRange(n) ==> StabilityInRange(r)
  {
    var load := DriftedLoad(n.load, u);
    var stability := NextStability(n.stability, load, n.capacity);
    n.(load := Feedback(load, stability), stability := stability)
  }

  /** Phases 1 to 3 for every node, node `i` consuming draw `i`. */
  function UpdateNodes(nodes: seq<GridNode>, draws: seq<real>): (r: seq<GridNode>)
    requires |draws| == |nodes|
    ensures |r| == |nodes|
    ensures forall i :: 0 <= i < |r| ==> r[i] == UpdateNode(nodes[i], draws[i])
    ensures OnlyDynamicsChanged(nodes, r)
    ensures LoadsNonNegative(r)
  {
    seq(|nodes|, i requires 0 <= i < |nodes| => UpdateNode(nodes[i], draws[i]))
  }
}
