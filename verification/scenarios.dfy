/**
 Worked single-tick examples of the rules, each with the neutral draw 0.45
 (zero drift) so that only the stability, feedback and transfer rules act.
 */
module Scenarios {
  import opened GridTypes
  import opened NodeUpdate
  import opened LoadTransfer
  import opened Simulation

  /** 1200 MW on 1000 MW capacity at full stability. */
  const Overloaded: GridNode := GridNode("A", "A", 1200.0, 1000.0, 1.0, 0.0, 0.0)

  /** 300 MW on 1000 MW capacity at stability 0.3. */
  const Unstable: GridNode := GridNode("B", "B", 300.0, 1000.0, 0.3, 0.0, 0.0)

  /** Nodes at ratios 0.8, 0.2, 0.78 and 0; NodeY and NodeYBusy are two versions of Y. */
  const NodeX: GridNode := GridNode("X", "X", 800.0, 1000.0, 1.0, 0.0, 0.0)
  const NodeY: GridNode := GridNode("Y", "Y", 100.0, 500.0, 1.0, 0.0, 0.0)
  const NodeYBusy: GridNode := GridNode("Y", "Y", 780.0, 1000.0, 1.0, 0.0, 0.0)
  const NodeZ: GridNode := GridNode("Z", "Z", 0.0, 1000.0, 1.0, 0.0, 0.0)

  const LinkXY: GridConnection := GridConnection("c", "X", "Y", 50.0)
  const LinkFirst: GridConnection := GridConnection("c1", "X", "Y", 50.0)
  const LinkSecond: GridConnection := GridConnection("c2", "Y", "Z", 100.0)
  const LinkDangling: GridConnection := GridConnection("c", "X", "Q", 50.0)

  /** An overloaded node at full stability loses one stability step and,
      still stable, gains no extra load. */
  lemma OverloadedNodeLosesStability()
    ensures
      var r := Step(SimulationState([Overloaded], [], true, 0), [DriftBias]);
      r.nodes[0].stability == 0.95 && r.nodes[0].load == 1200.0 && r.tick == 1
  {
    assert DriftedLoad(Overloaded.load, DriftBias) == 1200.0;
    assert UpdateNode(Overloaded, DriftBias).stability == 0.95;
  }

  /** A lightly loaded unstable node recovers to 0.32 but, still below 0.5,
      gains (1 - 0.32) * 15 = 10.2 MW. */
  lemma UnstableNodeGainsLoad()
    ensures
      var r := Step(SimulationState([Unstable], [], true, 0), [DriftBias]);
      r.nodes[0].stability == 0.32 && r.nodes[0].load == 310.2
  {
    assert DriftedLoad(Unstable.load, DriftBias) == 300.0;
    assert UpdateNode(Unstable, DriftBias).stability == 0.32;
  }

  /** From ratio 0.8 (800 of 1000 MW) to ratio 0.2 (100 of 500 MW) the
      scaled difference is 60 MW, so the 50 MW rate applies. */
  lemma TransferCappedByRate()
    ensures
      var r := ApplyConnection([NodeX, NodeY], LinkXY);
      r[0].load == 750.0 && r[1].load == 150.0
  {
    assert FindNode([NodeX, NodeY], "X") == Some(0);
    assert FindNode([NodeX, NodeY], "Y") == Some(1);
  }

  /** Two connections share node Y. The first moves 2 MW from X to Y; the
      second then sees Y at 782 MW, not the 780 MW Y had when the phase
      began, and moves 78.2 MW to Z where a simultaneous update would have
      moved 78. */
  lemma LaterConnectionSeesEarlierTransfer()
    ensures
      var r := ApplyConnections([NodeX, NodeYBusy, NodeZ], [LinkFirst, LinkSecond]);
      && r[0].load == 798.0 && r[1].load == 703.8 && r[2].load == 78.2
      && r[2].load != TransferAmount(100.0, Ratio(NodeYBusy) - Ratio(NodeZ))
  {
    var nodes := [NodeX, NodeYBusy, NodeZ];
    var first := ApplyConnection(nodes, LinkFirst);
    assert FindNode(nodes, "X") == Some(0);
    assert FindNode(nodes, "Y") == Some(1);
    assert first == [NodeX.(load := 798.0), NodeYBusy.(load := 782.0), NodeZ];
    assert FindNode(first, "Y") == Some(1);
    assert first[1..][1..] == [NodeZ];
    assert FindNode(first[1..], "Z") == Some(1);
    assert FindNode(first, "Z") == Some(2);
    var second := ApplyConnection(first, LinkSecond);
    assert second == [NodeX.(load := 798.0), NodeYBusy.(load := 703.8), NodeZ.(load := 78.2)];
    assert [LinkFirst, LinkSecond][1..] == [LinkSecond];
    assert ApplyConnections(nodes, [LinkFirst, LinkSecond]) == ApplyConnections(first, [LinkSecond]);
    assert ApplyConnections(first, [LinkSecond]) == ApplyConnections(second, []);
  }

  /** A connection whose endpoint names no node is skipped. */
  lemma DanglingConnectionSkipped()
    ensures ApplyConnection([NodeX, NodeY], LinkDangling) == [NodeX, NodeY]
  {
    assert FindNode([NodeX, NodeY], "Q") == None;
  }
}
