# GridSim tick engine in Dafny

GridSim simulates a small power grid in discrete ticks. The grid has nodes, each with a load, a capacity, a 0..1 stability score and a map position. It also has directed connections with a transfer rate. While the simulation runs, a timer fires once a second and applies one tick. A tick has four phases, always in this order:

1. **Drift.** Each node takes one uniform draw `u` and its load becomes `max(0, load + (u − 0.45)·20)`.
2. **Stability.** Exactly one rule applies to each node. A load over capacity costs 0.05 stability, floored at 0. A load under 80% of capacity recovers 0.02, capped at 1. Anything in between leaves stability alone.
3. **Feedback.** A node whose new stability is below 0.5 gains `(1 − stability)·15` load.
4. **Transfer.** Connections are processed in list order. Each one moves `min(rate, 100·|ratio difference|)` from the endpoint with the higher load/capacity ratio to the one with the lower ratio. Each connection sees the loads left by the connections before it. A connection with an endpoint that does not resolve is skipped.

The tick counter then goes up by one. The controller has two other operations: `reset` restores the fixed seven-node, eight-connection topology, and `toggleRunning` flips the running flag.

The model is purely functional. All quantities are `real`s, and the random source is a parameter.

- `GridTypes` (`grid_types.dfy`) holds the records, the first-match lookup by id, total load and the state invariant `WellFormed`. The field comments of the source give the 0..1 stability scale and the 0..100 map positions (src/lib/simulation-types.ts:8-10). The computation itself needs only positive capacities, so that ratios are defined: phase 1 floors loads at 0, a lookup takes the first node with an id, and a connection with an unresolved endpoint is skipped. The rest of the invariant (non-negative loads, unique ids, endpoints that name nodes, positive rates) holds of the initial topology and describes the states the stated properties are proved for.
- `NodeUpdate` (`node_update.dfy`) holds phases 1–3, applied to each node.
- `LoadTransfer` (`load_transfer.dfy`) holds phase 4 as a left fold of `ApplyConnection` over the connection list.
- `Simulation` (`simulation.dfy`) holds the initial topology, `Step`, `Reset` and `ToggleRunning`.
- `Controller` (`controller.dfy`) abstracts the timer as events. A clock signal applies `Step` only while the simulation is running. The controller takes its start state as a parameter `init`, which must be a valid start (`ValidStart`). A reset returns `init`. `ResetIsValidStart` shows that the hard-coded topology is a valid start, and `HandleResetIsReset` shows that for it the controller's reset is `Reset`. `SessionInvariant` is what every published state satisfies; it also holds for states no request sequence produces.
- `Scenarios` (`scenarios.dfy`) holds worked examples with zero drift (`u = 0.45`).

The main results:

- Total load is conserved by the transfer phase.
- A tick keeps every node's id, name, capacity and position, and it keeps the node order.
- Stability stays on its 0..1 scale.
- When every capacity is at least 100 and no rate is negative, loads stay non-negative. Every state reachable from a reset satisfies this: all initial capacities are 400 or more and all initial rates are positive (src/hooks/use-simulation.ts:6-25), and a step changes neither capacities nor connections.
- `NegativeLoadWithSmallCapacity` shows that this capacity bound is needed.

A transfer is not capped at the sender's load (src/hooks/use-simulation.ts:84-85), and the feedback phase does not floor the load at 0 again (src/hooks/use-simulation.ts:65-68). The model does the same. The missing floor after feedback makes no difference, because feedback only ever adds load. The missing cap matters only when some capacity is below 100 or some rate is negative.

## Model

| member | source | states |
|---|---|---|
| GridTypes.FindNode | src/hooks/use-simulation.ts:75-76 | the result is the first index whose node has the id; None exactly when no node has it |
| NodeUpdate.Drift | src/hooks/use-simulation.ts:54 | a draw in [0,1) gives a drift in [−9, 11); the drift is positive exactly when u > 0.45 and zero exactly when u = 0.45 |
| NodeUpdate.DriftedLoad | src/hooks/use-simulation.ts:55 | the drifted load is never negative; it is the larger of 0 and load + drift |
| NodeUpdate.NextStability | src/hooks/use-simulation.ts:57-63 | exactly one rule applies. Over capacity gives the larger of 0 and s − 0.05. At most capacity and under 80% of it gives the smaller of 1 and s + 0.02. From 80% to 100% of capacity, s is unchanged. An s in [0,1] stays in [0,1] |
| NodeUpdate.Feedback | src/hooks/use-simulation.ts:65-68 | load never decreases; it increases iff stability < 0.5, and then by exactly (1 − s)·15 |
| NodeUpdate.UpdateNode | src/hooks/use-simulation.ts:52-71 | only load and stability change; stability is the phase-2 result on the drifted load; load is that drifted load plus feedback; load is non-negative; the 0..1 stability scale is kept |
| NodeUpdate.UpdateNodes | src/hooks/use-simulation.ts:52 | node i is updated with draw i; count and order are kept; only load and stability change; every load is non-negative |
| LoadTransfer.TransferAmount | src/hooks/use-simulation.ts:84 | the amount is at most the rate and at most 100·diff, equals one of the two, and is positive when both are positive |
| LoadTransfer.Move | src/hooks/use-simulation.ts:85-86 | the sender loses exactly what the receiver gains; all other nodes and all other fields are untouched; total load is unchanged |
| LoadTransfer.Resolve | src/hooks/use-simulation.ts:75-78 | gives a result iff both endpoint ids resolve; the indices are those of the first node carrying each id, as `find` returns |
| LoadTransfer.ApplyConnection | src/hooks/use-simulation.ts:75-92 | only loads change and total load is conserved. An unresolved connection changes nothing. Otherwise only the two endpoints change. The higher-ratio endpoint loses min(rate, 100·diff) and the other gains it. Equal ratios move nothing |
| LoadTransfer.ApplyConnections | src/hooks/use-simulation.ts:74-93 | the whole transfer phase changes only loads and conserves total load |
| LoadTransfer.ApplyConnectionsAppend | src/hooks/use-simulation.ts:74 | processing a ++ b is processing b against the loads a left: a sequential left fold, not a simultaneous update |
| LoadTransfer.TransferBoundedAndDownhill | src/hooks/use-simulation.ts:80-91 | with a non-negative rate, no endpoint's load moves by more than the rate, and load flows only from the higher ratio to the lower |
| LoadTransfer.ApplyConnectionKeepsSafe | src/hooks/use-simulation.ts:83-91 | with capacities ≥ 100, non-negative loads and a non-negative rate, no load goes negative, because the transfer is at most the sender's load |
| LoadTransfer.ApplyConnectionsKeepsSafe | src/hooks/use-simulation.ts:74-93 | the same for the whole transfer phase |
| Simulation.InitialState | src/hooks/use-simulation.ts:6-33 | a session starts from a state that satisfies the state invariant, paused at tick 0; every node is at full stability with its load within capacity, and every capacity is at least 400 (so at least the 100 that keeps loads non-negative) |
| Simulation.InitialNodesValid | src/hooks/use-simulation.ts:6-14 | every initial node has a non-negative load, positive capacity, stability in 0..1 and a position on the map |
| Simulation.InitialNodeIdsUnique | src/hooks/use-simulation.ts:7-13 | the seven node ids are distinct |
| Simulation.InitialConnectionIdsUnique | src/hooks/use-simulation.ts:17-24 | the eight connection ids are distinct |
| Simulation.InitialEndpointsResolve | src/hooks/use-simulation.ts:16-25 | every initial connection endpoint names an initial node |
| Simulation.InitialRatesPositive | src/hooks/use-simulation.ts:16 | every initial transfer rate is positive |
| Simulation.Reset | src/hooks/use-simulation.ts:37-44 | whatever the state, the result has the initial nodes and connections, is paused, has tick 0, is well formed and has capacities ≥ 100 |
| Simulation.ResetIdempotent | src/hooks/use-simulation.ts:38-43 | resetting twice is resetting once, and a reset state equals the start state |
| Simulation.ToggleRunning | src/hooks/use-simulation.ts:46-48 | the running flag flips; nodes, connections and tick are kept |
| Simulation.ToggleRunningInvolution | src/hooks/use-simulation.ts:47 | toggling twice gives back the original state, and toggling does not affect well-formedness |
| Simulation.Step | src/hooks/use-simulation.ts:50-101 | the nodes after a step are the in-order transfer fold over the connections, applied to the nodes as phases 1–3 leave them; tick + 1; connections and running flag kept; count, order, ids, names, capacities and positions kept; stability is the phase-2 result; total load after transfer equals total load after phases 1–3 |
| Simulation.StepKeepsStabilityScale | src/lib/simulation-types.ts:8 | stabilities in 0..1 stay in 0..1 after a step |
| Simulation.StepKeepsCapacities | src/lib/simulation-types.ts:7 | a step never changes a capacity, so capacities stay positive |
| Simulation.StepKeepsPositions | src/lib/simulation-types.ts:9-10 | a step never moves a node, so positions on the 0..100 map stay there |
| Simulation.StepKeepsLoadsNonNegative | src/hooks/use-simulation.ts:55-91 | with capacities ≥ 100 and no negative rate, every load is non-negative after a step, whatever it was before |
| Simulation.StepKeepsTopology | src/hooks/use-simulation.ts:70 | a step keeps every node id, so unique ids stay unique and resolving endpoints keep resolving |
| Simulation.StepPreservesWellFormed | src/hooks/use-simulation.ts:51-99 | with capacities ≥ 100, a step keeps the invariant: loads non-negative, stability in 0..1, positions on the map, ids unique, endpoints resolving, rates positive |
| Simulation.NegativeLoadWithSmallCapacity | src/hooks/use-simulation.ts:84-85 | a well-formed state with capacity 10 whose step drives a load to −40: the transfer is not capped by the sender's load |
| Controller.RunTicks | src/hooks/use-simulation.ts:98 | n consecutive steps advance the tick by exactly n and change only loads and stabilities |
| Controller.RunTicksPreservesWellFormed | src/hooks/use-simulation.ts:95-99 | any number of steps keeps the invariant, given capacities ≥ 100 |
| Controller.OnTimer | src/hooks/use-simulation.ts:103-112 | a clock signal applies one `Step` while running and leaves the state unchanged while paused |
| Controller.OnTimerKeepsInvariant | src/hooks/use-simulation.ts:104-105 | a clock signal keeps the session invariant of a valid start |
| Controller.Handle | src/hooks/use-simulation.ts:114-118 | each request keeps the session invariant; tick and running flag move as the reference `ClockEvent` says (toggle flips the flag, reset pauses at tick 0, a clock signal counts a tick only while running); toggle keeps the nodes; reset returns the start state; a clock signal applies `Step` while running and changes nothing while paused |
| Controller.Run | src/hooks/use-simulation.ts:27-48 | any request sequence keeps the session invariant, and the tick counter and running flag after it are exactly those of the reference `Clock` over the same requests |
| Controller.SessionKeepsInvariant | src/hooks/use-simulation.ts:28-44 | from a valid start, every state published after any sequence of requests is well formed and keeps capacities ≥ 100 |
| Controller.HandleResetIsReset | src/hooks/use-simulation.ts:37-44 | for the hard-coded start, the controller's reset request gives exactly what `Reset` gives |
| Controller.ResetIsValidStart | src/hooks/use-simulation.ts:37-44 | the hard-coded topology a reset restores is a valid start: well formed, paused, tick 0, capacities ≥ 100 |
| Scenarios.OverloadedNodeLosesStability | src/hooks/use-simulation.ts:59-60 | 1200 MW on 1000 MW at stability 1 gives stability 0.95 and no extra load |
| Scenarios.UnstableNodeGainsLoad | src/hooks/use-simulation.ts:61-67 | 300 MW on 1000 MW at stability 0.3 gives stability 0.32 and load 310.2 |
| Scenarios.TransferCappedByRate | src/hooks/use-simulation.ts:83-86 | 800/1000 to 100/500 at rate 50 leaves 750 and 150 |
| Scenarios.LaterConnectionSeesEarlierTransfer | src/hooks/use-simulation.ts:74-93 | a second connection through a shared node moves 78.2, computed from the load the first connection left; the pre-phase load would give 78 |
| Scenarios.DanglingConnectionSkipped | src/hooks/use-simulation.ts:78 | a connection to a missing id leaves the nodes unchanged |

## Left out

- React state, `useCallback`, `useEffect` and the `setInterval`/`clearInterval` timer: these are framework plumbing and wall-clock timing. They are abstracted to `Controller.OnTimer` and the event sequence of `Controller.Run`.
- `Math.random()`: replaced by the `draws` parameter, with one draw per node in node order. The [0,1) range of a draw is not required by the step, because no property of the step depends on it.
- IEEE-754 doubles: every quantity is an exact `real`. Rounding and the 2^53 limit of the tick counter are not modelled.
- Division by zero: a ratio needs a positive capacity. `Step`, `ApplyConnection` and `ApplyConnections` therefore require positive capacities. JavaScript would produce Infinity or NaN here, and those values are not modelled.
- Rendering is not modelled: the page, the map and the control panel, and the display values they compute (average stability, rounded percentages, status labels).
- Page metadata, fonts and the mobile-packaging configuration contain no logic.
- The unused `NodeStatus` union type.
