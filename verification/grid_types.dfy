/**
 The records a power-grid simulation works on: nodes with a load, a
 capacity, a stability score and a map position; directed connections
 between nodes with a per-tick transfer rate; and the simulation state
 that holds both together with a running flag and a tick counter.

 Numbers are exact reals; the tick counter is a natural number.
 */
module GridTypes {

  datatype Option<T> = None | Some(value: T)

  /** A generation or distribution node. `load` and `capacity` are in MW,
      `stability` is a 0..1 health score, `x` and `y` are map positions
      given as percentages 0..100. */
  datatype GridNode = GridNode(
    id: string,
    name: string,
    load: real,
    capacity: real,
    stability: real,
    x: real,
    y: real)

  /** A directed transmission link; load may flow either way along it, at
      most `transferRate` MW per tick. */
  datatype GridConnection = GridConnection(
    id: string,
    fromId: string,
    toId: string,
    transferRate: real)

  datatype SimulationState = SimulationState(
    nodes: seq<GridNode>,
    connections: seq<GridConnection>,
    isRunning: bool,
    tick: nat)

  /** Index of the FIRST node carrying `id`, as a linear search by id does. */
  function FindNode(nodes: seq<GridNode>, id: string): (r: Option<nat>)
    ensures r.Some? ==>
              && r.value < |nodes|
              && nodes[r.value].id == id
              && forall k :: 0 <= k < r.value ==> nodes[k].id != id
    ensures r.None? ==> forall k :: 0 <= k < |nodes| ==> nodes[k].id != id
  {
    if |nodes| == 0 then None
    else if nodes[0].id == id then Some(0)
    else match FindNode(nodes[1..], id)
      case None => None
      case Some(k) => Some(k + 1)
  }

  /** Lookup by id only depends on the ids. */
  lemma {:induction false} FindNodeSameIds(a: seq<GridNode>, b: seq<GridNode>)
    requires |a| == |b|
    requires forall k :: 0 <= k < |a| ==> a[k].id == b[k].id
    ensures forall id :: FindNode(a, id) == FindNode(b, id)
    decreases |a|
  {
    if |a| > 0 {
      FindNodeSameIds(a[1..], b[1..]);
    }
  }

  /** Sum of the loads of all nodes. */
  function TotalLoad(nodes: seq<GridNode>): real
  {
    if |nodes| == 0 then 0.0 else nodes[0].load + TotalLoad(nodes[1..])
  }

  /** Replacing one node changes the total load by exactly the change in
      that node's load. */
  lemma {:induction false} TotalLoadUpdate(nodes: seq<GridNode>, i: nat, n: GridNode)
    requires i < |nodes|
    ensures TotalLoad(nodes[i := n]) == TotalLoad(nodes) - nodes[i].load + n.load
  {
    if i == 0 {
      assert nodes[i := n][1..] == nodes[1..];
    } else {
      assert nodes[i := n][1..] == nodes[1..][i - 1 := n];
      TotalLoadUpdate(nodes[1..], i - 1, n);
    }
  }

  /** `after` differs from `before` at most in the loads of its nodes. */
  ghost predicate OnlyLoadsChanged(before: seq<GridNode>, after: seq<GridNode>)
  {
    && |after| == |before|
    && forall k :: 0 <= k < |after| ==> after[k] == before[k].(load := after[k].load)
  }

  /** `after` differs from `before` at most in loads and stabilities: ids,
      names, capacities and positions are untouched, and so are count and order. */
  ghost predicate OnlyDynamicsChanged(before: seq<GridNode>, after: seq<GridNode>)
  {
    && |after| == |before|
    && forall k :: 0 <= k < |after| ==>
         after[k] == before[k].(load := after[k].load, stability := after[k].stability)
  }

  /** Changes of load and stability compose. */
  lemma DynamicsChangedTransitive(a: seq<GridNode>, b: seq<GridNode>, c: seq<GridNode>)
    requires OnlyDynamicsChanged(a, b) && OnlyDynamicsChanged(b, c)
    ensures OnlyDynamicsChanged(a, c)
  {
    forall k | 0 <= k < |c|
      ensures c[k] == a[k].(load := c[k].load, stability := c[k].stability)
    {
      assert b[k] == a[k].(load := b[k].load, stability := b[k].stability);
    }
  }

  /** Changes of load and stability leave every capacity as it was. */
  lemma DynamicsKeepCapacities(a: seq<GridNode>, b: seq<GridNode>)
    requires OnlyDynamicsChanged(a, b)
    ensures forall k :: 0 <= k < |b| ==> b[k].capacity == a[k].capacity
  {
    forall k | 0 <= k < |b| ensures b[k].capacity == a[k].capacity {
      assert b[k] == a[k].(load := b[k].load, stability := b[k].stability);
    }
  }

  predicate CapacitiesPositive(nodes: seq<GridNode>)
  {
    forall k :: 0 <= k < |nodes| ==> nodes[k].capacity > 0.0
  }

  predicate LoadsNonNegative(nodes: seq<GridNode>)
  {
    forall k :: 0 <= k < |nodes| ==> nodes[k].load >= 0.0
  }

  predicate StabilityInRange(n: GridNode)
  {
    0.0 <= n.stability <= 1.0
  }

  predicate PositionInRange(n: GridNode)
  {
    0.0 <= n.x <= 100.0 && 0.0 <= n.y <= 100.0
  }

  /** The per-node invariant the simulation keeps: non-negative load,
      positive capacity (so that the load/capacity ratio is defined),
      stability on its 0..1 scale and a position on the 0..100 map. */
  predicate ValidNode(n: GridNode)
  {
    n.load >= 0.0 && n.capacity > 0.0 && StabilityInRange(n) && PositionInRange(n)
  }

  predicate UniqueNodeIds(nodes: seq<GridNode>)
  {
    forall i, j :: 0 <= i < j < |nodes| ==> nodes[i].id != nodes[j].id
  }

  predicate UniqueConnectionIds(conns: seq<GridConnection>)
  {
    forall i, j :: 0 <= i < j < |conns| ==> conns[i].id != conns[j].id
  }

  /** Every connection's endpoints name existing nodes. */
  predicate EndpointsResolve(nodes: seq<GridNode>, conns: seq<GridConnection>)
  {
    forall c :: c in conns ==>
      FindNode(nodes, c.fromId).Some? && FindNode(nodes, c.toId).Some?
  }

  /** Connections resolve when `ids` lists the node ids in order and every
      endpoint is one of them. */
  lemma EndpointsResolveByIds(nodes: seq<GridNode>, conns: seq<GridConnection>, ids: seq<string>)
    requires |ids| == |nodes|
    requires forall k :: 0 <= k < |nodes| ==> nodes[k].id == ids[k]
    requires forall c :: c in conns ==> c.fromId in ids && c.toId in ids
    ensures EndpointsResolve(nodes, conns)
  {
    forall c | c in conns
      ensures FindNode(nodes, c.fromId).Some? && FindNode(nodes, c.toId).Some?
    {
      var i :| 0 <= i < |ids| && ids[i] == c.fromId;
      var j :| 0 <= j < |ids| && ids[j] == c.toId;
      assert nodes[i].id == c.fromId && nodes[j].id == c.toId;
    }
  }

  predicate RatesPositive(conns: seq<GridConnection>)
  {
    forall k :: 0 <= k < |conns| ==> conns[k].transferRate > 0.0
  }

  /** The state invariant: every node valid, node and connection ids
      unique, every connection endpoint naming a node, every rate positive.
      The initial topology has it and a step keeps it. */
  predicate WellFormed(s: SimulationState)
  {
    && (forall k :: 0 <= k < |s.nodes| ==> ValidNode(s.nodes[k]))
    && UniqueNodeIds(s.nodes)
    && UniqueConnectionIds(s.connections)
    && EndpointsResolve(s.nodes, s.connections)
    && RatesPositive(s.connections)
  }
}
