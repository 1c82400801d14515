/**
 Phase 4 of a simulation tick: load transfer along connections.

 Each connection compares the load/capacity ratios of its two endpoints and
 moves up to its transfer rate from the higher ratio to the lower.
 Connections are applied one after another in list order, each against the
 loads the previous ones left, so the phase is a left fold over the list.
 A connection with an endpoint id that names no node is skipped.
 */
module LoadTransfer {
  import opened GridTypes

  /** Ratio differences are scaled by this factor to give MW. */
  const TransferScale: real := 100.0

  /** With every capacity at least this large (and loads and rates not
      negative), a transfer never takes more load than its sender has. */
  const SafeCapacity: real := 100.0

  function Ratio(n: GridNode): real
    requires n.capacity > 0.0
  {
    n.load / n.capacity
  }

  /** The amount a connection moves for a ratio difference `diff`: the
      smaller of its rate and the scaled difference. */
  function TransferAmount(rate: real, diff: real): (t: real)
    ensures t <= rate && t <= diff * TransferScale
    ensures t == rate || t == diff * TransferScale
    ensures rate > 0.0 && diff > 0.0 ==> t > 0.0
  {
    if rate <= diff * TransferScale then rate else diff * TransferScale
  }

  /** Moves `t` from node `src` to node `dst`. */
  function Move(nodes: seq<GridNode>, src: nat, dst: nat, t: real): (r: seq<GridNode>)
    requires src < |nodes| && dst < |nodes| && src != dst
    ensures OnlyLoadsChanged(nodes, r)
    ensures r[src].load == nodes[src].load - t
    ensures r[dst].load == nodes[dst].load + t
    ensures forall k :: 0 <= k < |r| && k != src && k != dst ==> r[k] == nodes[k]
    ensures TotalLoad(r) == TotalLoad(nodes)
  {
    var nodes' := nodes[src := nodes[src].(load := nodes[src].load - t)];
    TotalLoadUpdate(nodes, src, nodes'[src]);
    TotalLoadUpdate(nodes', dst, nodes'[dst].(load := nodes'[dst].load + t));
    nodes'[dst := nodes'[dst].(load := nodes'[dst].load + t)]
  }

  datatype Endpoints = Endpoints(src: nat, dst: nat)

  /** The node indices a connection resolves to, if both ids resolve: the
      first node carrying each id, so with repeated ids the earliest wins. */
  function Resolve(nodes: seq<GridNode>, c: GridConnection): (r: Option<Endpoints>)
    ensures r.Some? <==> FindNode(nodes, c.fromId).Some? && FindNode(nodes, c.toId).Some?
    ensures r.Some? ==>
              && r.value.src < |nodes| && nodes[r.value.src].id == c.fromId
              && r.value.dst < |nodes| && nodes[r.value.dst].id == c.toId
    ensures r.Some? ==>
              r.value == Endpoints(FindNode(nodes, c.fromId).value, FindNode(nodes, c.toId).value)
  {
    match (FindNode(nodes, c.fromId), FindNode(nodes, c.toId))
    case (Some(i), Some(j)) => Some(Endpoints(i, j))
    case _ => None
  }

  /** One connection's transfer. Only loads change, total load is
      conserved, an unresolved connection changes nothing, and a resolved one
      changes only its endpoints: the endpoint with the higher ratio loses
      exactly what the other gains, that amount is the smaller of the rate
      and 100 times the ratio difference, and equal ratios move nothing. */
  function ApplyConnection(nodes: seq<GridNode>, c: GridConnection): (r: seq<GridNode>)
    requires CapacitiesPositive(nodes)
    ensures OnlyLoadsChanged(nodes, r)
    ensures TotalLoad(r) == TotalLoad(nodes)
    ensures Resolve(nodes, c).None? ==> r == nodes
    ensures Resolve(nodes, c).Some? ==>
              var e := Resolve(nodes, c).value;
              var a := nodes[e.src];
              var b := nodes[e.dst];
              && (forall k :: 0 <= k < |r| && k != e.src && k != e.dst ==> r[k] == nodes[k])
              && (Ratio(a) == Ratio(b) ==> r == nodes)
              && (Ratio(a) > Ratio(b) ==>
                    var t := TransferAmount(c.transferRate, Ratio(a) - Ratio(b));
                    r[e.src].load == a.load - t && r[e.dst].load == b.load + t)
              && (Ratio(b) > Ratio(a) ==>
                    var t := TransferAmount(c.transferRate, Ratio(b) - Ratio(a));
                    r[e.dst].load == b.load - t && r[e.src].load == a.load + t)
  {
    match Resolve(nodes, c)
    case None => nodes
    case Some(e) =>
      var fromRatio := Ratio(nodes[e.src]);
      var toRatio := Ratio(nodes[e.dst]);
      if fromRatio > toRatio then
        Move(nodes, e.src, e.dst, TransferAmount(c.transferRate, fromRatio - toRatio))
      else if toRatio > fromRatio then
        Move(nodes, e.dst, e.src, TransferAmount(c.transferRate, toRatio - fromRatio))
      else
        nodes
  }

  /** The whole transfer phase: a left fold of `ApplyConnection` over the
      connection list. Only loads change and total load is conserved. */
  function ApplyConnections(nodes: seq<GridNode>, conns: seq<GridConnection>): (r: seq<GridNode>)
    requires CapacitiesPositive(nodes)
    ensures OnlyLoadsChanged(nodes, r)
    ensures TotalLoad(r) == TotalLoad(nodes)
    decreases |conns|
  {
    if |conns| == 0 then nodes
    else ApplyConnections(ApplyConnection(nodes, conns[0]), conns[1..])
  }

  /** Processing `a ++ b` is processing `a`, then `b` against the loads `a`
      left: the phase is sequential, not a simultaneous update. */
  lemma {:induction false} ApplyConnectionsAppend(
    nodes: seq<GridNode>, a: seq<GridConnection>, b: seq<GridConnection>)
    requires CapacitiesPositive(nodes)
    ensures CapacitiesPositive(ApplyConnections(nodes, a))
    ensures ApplyConnections(nodes, a + b) == ApplyConnections(ApplyConnections(nodes, a), b)
    decreases |a|
  {
    if |a| == 0 {
      assert a + b == b;
    } else {
      assert (a + b)[0] == a[0];
      assert (a + b)[1..] == a[1..] + b;
      ApplyConnectionsAppend(ApplyConnection(nodes, a[0]), a[1..], b);
    }
  }

  /** A single connection never moves more than its rate, and with a
      non-negative rate load only flows from the higher ratio to the lower. */
  lemma TransferBoundedAndDownhill(nodes: seq<GridNode>, c: GridConnection)
    requires CapacitiesPositive(nodes)
    requires c.transferRate >= 0.0
    requires Resolve(nodes, c).Some?
    ensures var r := ApplyConnection(nodes, c);
            var e := Resolve(nodes, c).value;
            var a := nodes[e.src];
            var b := nodes[e.dst];
            && -c.transferRate <= r[e.src].load - a.load <= c.transferRate
            && -c.transferRate <= r[e.dst].load - b.load <= c.transferRate
            && (Ratio(a) > Ratio(b) ==> r[e.src].load <= a.load && r[e.dst].load >= b.load)
            && (Ratio(b) > Ratio(a) ==> r[e.dst].load <= b.load && r[e.src].load >= a.load)
  {
  }

  /** 100 times a ratio is at most the load once the capacity is at least
      100. */
  lemma ScaledRatioBound(load: real, capacity: real)
    requires load >= 0.0 && capacity >= SafeCapacity
    ensures 0.0 <= load / capacity
    ensures load / capacity * TransferScale <= load
  {
    var q := load / capacity;
    assert q * capacity == load;
    assert q * TransferScale <= q * capacity;
  }

  /** What the transfer phase needs for every load to stay non-negative:
      capacities of at least 100. All initial capacities are 400 or more and
      capacities never change, so this holds in every reachable state. */
  predicate SafeCapacities(nodes: seq<GridNode>)
  {
    forall k :: 0 <= k < |nodes| ==> nodes[k].capacity >= SafeCapacity
  }

  ghost predicate SafeNodes(nodes: seq<GridNode>)
  {
    LoadsNonNegative(nodes) && SafeCapacities(nodes)
  }

  /** A transfer takes at most 100 times the sender's ratio (the receiver's
      ratio is not negative), which with capacities of at least 100 is at
      most the sender's load: no load goes negative. */
  lemma ApplyConnectionKeepsSafe(nodes: seq<GridNode>, c: GridConnection)
    requires SafeNodes(nodes)
    requires c.transferRate >= 0.0
    ensures SafeNodes(ApplyConnection(nodes, c))
  {
    var r := ApplyConnection(nodes, c);
    if Resolve(nodes, c).Some? {
      var e := Resolve(nodes, c).value;
      var a := nodes[e.src];
      var b := nodes[e.dst];
      ScaledRatioBound(a.load, a.capacity);
      ScaledRatioBound(b.load, b.capacity);
      if Ratio(a) > Ratio(b) {
        assert TransferAmount(c.transferRate, Ratio(a) - Ratio(b)) <= a.load;
      } else if Ratio(b) > Ratio(a) {
        assert TransferAmount(c.transferRate, Ratio(b) - Ratio(a)) <= b.load;
      }
    }
  }

  /** The whole transfer phase keeps every load non-negative when every
      capacity is at least 100 and no rate is negative. */
  lemma {:induction false} ApplyConnectionsKeepsSafe(
    nodes: seq<GridNode>, conns: seq<GridConnection>)
    requires SafeNodes(nodes)
    requires forall k :: 0 <= k < |conns| ==> conns[k].transferRate >= 0.0
    ensures SafeNodes(ApplyConnections(nodes, conns))
    decreases |conns|
  {
    if |conns| > 0 {
      ApplyConnectionKeepsSafe(nodes, conns[0]);
      ApplyConnectionsKeepsSafe(ApplyConnection(nodes, conns[0]), conns[1..]);
    }
  }
}
