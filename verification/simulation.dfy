/**
 The simulation core: the fixed initial topology, the per-tick step (phases
 1 to 3 per node, then the transfer fold, then the tick increment), and the
 two controller operations `Reset` and `ToggleRunning`.

 The random source of the step is the parameter `draws`: one uniform draw
 per node, in node order.
 */
module Simulation {
  import opened GridTypes
  import opened NodeUpdate
  import opened LoadTransfer

  const InitialNodes: seq<GridNode> := [
    GridNode("n1", "Central Hub", 450.0, 1000.0, 1.0, 50.0, 50.0),
    GridNode("n2", "North Station", 200.0, 500.0, 1.0, 50.0, 15.0),
    GridNode("n3", "South Station", 200.0, 500.0, 1.0, 50.0, 85.0),
    GridNode("n4", "West Plant", 600.0, 800.0, 1.0, 15.0, 50.0),
    GridNode("n5", "East Plant", 300.0, 600.0, 1.0, 85.0, 50.0),
    GridNode("n6", "Northeast Sub", 150.0, 400.0, 1.0, 80.0, 20.0),
    GridNode("n7", "Northwest Sub", 150.0, 400.0, 1.0, 20.0, 20.0)
  ]

  const InitialConnections: seq<GridConnection> := [
    GridConnection("c1", "n1", "n2", 50.0),
    GridConnection("c2", "n1", "n3", 50.0),
    GridConnection("c3", "n1", "n4", 100.0),
    GridConnection("c4", "n1", "n5", 100.0),
    GridConnection("c5", "n2", "n6", 30.0),
    GridConnection("c6", "n2", "n7", 30.0),
    GridConnection("c7", "n4", "n7", 50.0),
    GridConnection("c8", "n5", "n6", 50.0)
  ]

  /** The state a session starts in: the initial topology, paused, at
      tick 0. It satisfies the state invariant, every node is at full
      stability with its load within capacity, and every capacity is at
      least 400, so the capacity bound of 100 that keeps loads
      non-negative holds from the start. */
  function InitialState(): (s: SimulationState)
    ensures s.nodes == InitialNodes && s.connections == InitialConnections
    ensures !s.isRunning && s.tick == 0
    ensures WellFormed(s) && SafeCapacities(s.nodes)
    ensures forall k :: 0 <= k < |s.nodes| ==>
              s.nodes[k].capacity >= 400.0 && s.nodes[k].stability == 1.0
              && s.nodes[k].load <= s.nodes[k].capacity
  {
    InitialNodesValid();
    InitialNodeIdsUnique();
    InitialConnectionIdsUnique();
    InitialEndpointsResolve();
    InitialRatesPositive();
    SimulationState(InitialNodes, InitialConnections, false, 0)
  }

  lemma InitialNodesValid()
    ensures forall k :: 0 <= k < |InitialNodes| ==>
              ValidNode(InitialNodes[k])
              && InitialNodes[k].capacity >= 400.0 && InitialNodes[k].stability == 1.0
              && InitialNodes[k].load <= InitialNodes[k].capacity
  {
  }

  lemma InitialRatesPositive()
    ensures RatesPositive(InitialConnections)
  {
  }

  lemma InitialNodeIdsUnique()
    ensures UniqueNodeIds(InitialNodes)
  {
  }

  lemma InitialConnectionIdsUnique()
    ensures UniqueConnectionIds(InitialConnections)
  {
  }

  lemma InitialEndpointsResolve()
    ensures EndpointsResolve(InitialNodes, InitialConnections)
  {
    var ids := ["n1", "n2", "n3", "n4", "n5", "n6", "n7"];
    EndpointsResolveByIds(InitialNodes, InitialConnections, ids);
  }

  /** Restores the initial topology, pauses the simulation and zeroes the
      tick counter, whatever the state was. */
  function Reset(s: SimulationState): (r: SimulationState)
    ensures r.nodes == InitialNodes && r.connections == InitialConnections
    ensures !r.isRunning && r.tick == 0
    ensures WellFormed(r) && SafeCapacities(r.nodes)
  {
    InitialState()
  }

  lemma ResetIdempotent(s: SimulationState)
    ensures Reset(Reset(s)) == Reset(s)
    ensures Reset(s) == InitialState()
  {
  }

  /** Flips the running flag and nothing else. */
  function ToggleRunning(s: SimulationState): (r: SimulationState)
    ensures r.isRunning != s.isRunning
    ensures r.nodes == s.nodes && r.connections == s.connections && r.tick == s.tick
  {
    s.(isRunning := !s.isRunning)
  }

  lemma ToggleRunningInvolution(s: SimulationState)
    ensures ToggleRunning(ToggleRunning(s)) == s
    ensures WellFormed(ToggleRunning(s)) == WellFormed(s)
  {
  }

  /** One tick. Phases 1 to 3 update each node with its own draw, the
      transfer phase then runs over those updated loads and redistributes
      load without changing the total, and the tick counter goes up by
      one. Connections, the running flag and every node's id, name,
      capacity and position are kept, and so are the node count and order;
      stabilities are those of phase 2. */
  function Step(s: SimulationState, draws: seq<real>): (r: SimulationState)
    requires |draws| == |s.nodes|
    requires CapacitiesPositive(s.nodes)
    ensures r.tick == s.tick + 1
    ensures r.connections == s.connections && r.isRunning == s.isRunning
    ensures OnlyDynamicsChanged(s.nodes, r.nodes)
    ensures forall k :: 0 <= k < |r.nodes| ==>
              r.nodes[k].stability
                == NextStability(s.nodes[k].stability,
                                 DriftedLoad(s.nodes[k].load, draws[k]),
                                 s.nodes[k].capacity)
    ensures TotalLoad(r.nodes) == TotalLoad(UpdateNodes(s.nodes, draws))
    ensures CapacitiesPositive(UpdateNodes(s.nodes, draws))
    ensures r.nodes == ApplyConnections(UpdateNodes(s.nodes, draws), s.connections)
  {
    var updated := UpdateNodes(s.nodes, draws);
    assert CapacitiesPositive(updated) by {
      forall k | 0 <= k < |updated| ensures updated[k].capacity > 0.0 {
        assert updated[k].capacity == s.nodes[k].capacity;
      }
    }
    s.(nodes := ApplyConnections(updated, s.connections), tick := s.tick + 1)
  }

  /** Stability is a 0..1 scale, and a step keeps it there on its own,
      whatever the capacities and loads. */
  lemma StepKeepsStabilityScale(s: SimulationState, draws: seq<real>)
    requires |draws| == |s.nodes| && CapacitiesPositive(s.nodes)
    requires forall k :: 0 <= k < |s.nodes| ==> StabilityInRange(s.nodes[k])
    ensures forall k :: 0 <= k < |Step(s, draws).nodes| ==> StabilityInRange(Step(s, draws).nodes[k])
  {
    var r := Step(s, draws);
    forall k | 0 <= k < |r.nodes| ensures StabilityInRange(r.nodes[k]) {
      assert StabilityInRange(s.nodes[k]);
    }
  }

  /** Capacity is a fixed property of a node: a step never changes it, so
      load/capacity ratios stay defined for every later step. */
  lemma StepKeepsCapacities(s: SimulationState, draws: seq<real>)
    requires |draws| == |s.nodes| && CapacitiesPositive(s.nodes)
    ensures forall k :: 0 <= k < |s.nodes| ==> Step(s, draws).nodes[k].capacity == s.nodes[k].capacity
    ensures CapacitiesPositive(Step(s, draws).nodes)
  {
    var r := Step(s, draws);
    forall k | 0 <= k < |s.nodes| ensures r.nodes[k].capacity == s.nodes[k].capacity {
      assert r.nodes[k] == s.nodes[k].(load := r.nodes[k].load, stability := r.nodes[k].stability);
    }
  }

  /** Positions are never moved, so positions on the 0..100 map stay there. */
  lemma StepKeepsPositions(s: SimulationState, draws: seq<real>)
    requires |draws| == |s.nodes| && CapacitiesPositive(s.nodes)
    requires forall k :: 0 <= k < |s.nodes| ==> PositionInRange(s.nodes[k])
    ensures forall k :: 0 <= k < |s.nodes| ==>
              Step(s, draws).nodes[k].x == s.nodes[k].x && Step(s, draws).nodes[k].y == s.nodes[k].y
    ensures forall k :: 0 <= k < |s.nodes| ==> PositionInRange(Step(s, draws).nodes[k])
  {
    var r := Step(s, draws);
    forall k | 0 <= k < |s.nodes| ensures r.nodes[k].x == s.nodes[k].x && r.nodes[k].y == s.nodes[k].y {
      assert r.nodes[k] == s.nodes[k].(load := r.nodes[k].load, stability := r.nodes[k].stability);
    }
  }

  /** With capacities of at least 100 and no negative rate, every load is
      non-negative after a step, whatever the loads were before: phases 1
      to 3 leave non-negative loads and the transfer phase keeps them so. */
  lemma StepKeepsLoadsNonNegative(s: SimulationState, draws: seq<real>)
    requires |draws| == |s.nodes| && SafeCapacities(s.nodes)
    requires forall k :: 0 <= k < |s.connections| ==> s.connections[k].transferRate >= 0.0
    ensures LoadsNonNegative(Step(s, draws).nodes)
  {
    var updated := UpdateNodes(s.nodes, draws);
    assert SafeNodes(updated) by {
      forall k | 0 <= k < |updated| ensures updated[k].capacity >= SafeCapacity {
        assert updated[k].capacity == s.nodes[k].capacity;
      }
    }
    ApplyConnectionsKeepsSafe(updated, s.connections);
  }

  /** A step keeps ids, so unique ids stay unique and endpoints keep
      resolving. */
  lemma StepKeepsTopology(s: SimulationState, draws: seq<real>)
    requires |draws| == |s.nodes| && CapacitiesPositive(s.nodes)
    ensures forall k :: 0 <= k < |s.nodes| ==> Step(s, draws).nodes[k].id == s.nodes[k].id
    ensures UniqueNodeIds(s.nodes) ==> UniqueNodeIds(Step(s, draws).nodes)
    ensures EndpointsResolve(s.nodes, s.connections) ==>
              EndpointsResolve(Step(s, draws).nodes, Step(s, draws).connections)
  {
    var r := Step(s, draws);
    forall k | 0 <= k < |s.nodes| ensures r.nodes[k].id == s.nodes[k].id {
      assert r.nodes[k] == s.nodes[k].(load := r.nodes[k].load, stability := r.nodes[k].stability);
    }
    FindNodeSameIds(s.nodes, r.nodes);
  }

  /** A step preserves the state invariant: loads stay non-negative,
      stabilities stay in 0..1, positions stay on the map, and ids and
      connections are untouched. */
  lemma StepPreservesWellFormed(s: SimulationState, draws: seq<real>)
    requires WellFormed(s) && SafeCapacities(s.nodes)
    requires |draws| == |s.nodes|
    ensures WellFormed(Step(s, draws)) && SafeCapacities(Step(s, draws).nodes)
  {
    assert forall k :: 0 <= k < |s.nodes| ==> ValidNode(s.nodes[k]);
    StepKeepsLoadsNonNegative(s, draws);
    StepKeepsStabilityScale(s, draws);
    StepKeepsCapacities(s, draws);
    StepKeepsPositions(s, draws);
    StepKeepsTopology(s, draws);
    var r := Step(s, draws);
    forall k | 0 <= k < |r.nodes| ensures ValidNode(r.nodes[k]) {
      assert r.nodes[k].load >= 0.0 && StabilityInRange(r.nodes[k]);
      assert r.nodes[k].capacity == s.nodes[k].capacity;
      assert PositionInRange(r.nodes[k]);
    }
  }

  /** Two nodes of capacity 10, one full and one empty, joined at rate 50. */
  const SmallFull: GridNode := GridNode("a", "A", 10.0, 10.0, 1.0, 0.0, 0.0)
  const SmallEmpty: GridNode := GridNode("b", "B", 0.0, 10.0, 1.0, 0.0, 0.0)
  const SmallLink: GridConnection := GridConnection("c", "a", "b", 50.0)

  /** A step with loads that go negative shows the capacity bound is
      needed: the transfer is not capped by the sender's load, so a node of
      capacity 10 at full ratio sends 50 MW it does not have. */
  lemma NegativeLoadWithSmallCapacity()
    ensures
      var s := SimulationState([SmallFull, SmallEmpty], [SmallLink], true, 0);
      && WellFormed(s)
      && Step(s, [DriftBias, DriftBias]).nodes[0].load < 0.0
  {
    var s := SimulationState([SmallFull, SmallEmpty], [SmallLink], true, 0);
    assert FindNode(s.nodes, "a") == Some(0);
    assert FindNode(s.nodes, "b") == Some(1);
    var updated := UpdateNodes(s.nodes, [DriftBias, DriftBias]);
    assert updated[0].load == 10.0 && updated[1].load == 0.0;
    assert FindNode(updated, "a") == Some(0);
    assert FindNode(updated, "b") == Some(1);
    assert ApplyConnections(updated, [SmallLink]) == ApplyConnection(updated, SmallLink);
    assert ApplyConnection(updated, SmallLink)[0].load == -40.0;
  }
}
