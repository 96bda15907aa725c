/** The bus graph of a processed case and its bounded breadth-first neighbourhood. */
module Network {
  import opened Prelude

  type Edges = map<int, set<int>>

  datatype Branch = Branch(fromBus: Option<int>, toBus: Option<int>, loading: Option<real>)

  datatype BusRow = BusRow(bus: Option<int>, voltage: Option<real>)

  datatype Winding3 = Winding3(bus1: Option<int>, bus2: Option<int>, bus3: Option<int>)

  datatype Inventory = Inventory(
    buses: seq<BusRow>,
    branches: seq<Branch>,
    transformers2w: seq<Branch>,
    transformers3w: seq<Winding3>)

  function Neighbours(edges: Edges, bus: int): set<int> {
    if bus in edges then edges[bus] else {}
  }

  predicate Adjacent(edges: Edges, a: int, b: int) {
    b in Neighbours(edges, a)
  }

  // ---- which buses the equipment tables join ----

  predicate JoinedBy(left: Option<int>, right: Option<int>, a: int, b: int) {
    left.Some? && right.Some? &&
    ((a == left.value && b == right.value) || (a == right.value && b == left.value))
  }

  predicate RowJoins(row: Branch, a: int, b: int) {
    JoinedBy(row.fromBus, row.toBus, a, b)
  }

  predicate WindingJoins(row: Winding3, a: int, b: int) {
    a != b
    && Some(a) in [row.bus1, row.bus2, row.bus3]
    && Some(b) in [row.bus1, row.bus2, row.bus3]
  }

  predicate AnyRowJoins(rows: seq<Branch>, a: int, b: int) {
    exists row | row in rows :: RowJoins(row, a, b)
  }

  predicate AnyWindingJoins(rows: seq<Winding3>, a: int, b: int) {
    exists row | row in rows :: WindingJoins(row, a, b)
  }

  predicate Linked(inventory: Inventory, a: int, b: int) {
    || AnyRowJoins(inventory.branches, a, b)
    || AnyRowJoins(inventory.transformers2w, a, b)
    || AnyWindingJoins(inventory.transformers3w, a, b)
  }

  /** The adjacency dictionary under construction. */
  class Graph {
    var edges: Edges

    constructor ()
      ensures edges == map[]
    {
      edges := map[];
    }

    method AddEdge(left: Option<int>, right: Option<int>)
      modifies this
      ensures forall a, b :: Adjacent(edges, a, b) <==> Adjacent(old(edges), a, b) || JoinedBy(left, right, a, b)
    {
      if left.None? || right.None? {
        return;
      }
      edges := edges[left.value := Neighbours(edges, left.value) + {right.value}];
      edges := edges[right.value := Neighbours(edges, right.value) + {left.value}];
    }

    method AddRows(rows: seq<Branch>)
      modifies this
      ensures forall a, b :: Adjacent(edges, a, b) <==> Adjacent(old(edges), a, b) || AnyRowJoins(rows, a, b)
    {
      for k := 0 to |rows|
        invariant forall a, b :: Adjacent(edges, a, b) <==> Adjacent(old(edges), a, b) || AnyRowJoins(rows[..k], a, b)
      {
        AddEdge(rows[k].fromBus, rows[k].toBus);
        assert rows[..k + 1] == rows[..k] + [rows[k]];
        assert forall a, b :: AnyRowJoins(rows[..k + 1], a, b) <==> AnyRowJoins(rows[..k], a, b) || RowJoins(rows[k], a, b);
      }
      assert rows[..|rows|] == rows;
    }

    /** The inner loop: joins one bus of the transformer to all of its buses. */
    method AddSpokes(hub: int, buses: seq<int>)
      modifies this
      ensures forall a, b :: Adjacent(edges, a, b) <==>
        Adjacent(old(edges), a, b) || (a != b && ((a == hub && b in buses) || (b == hub && a in buses)))
    {
      for j := 0 to |buses|
        invariant forall a, b :: Adjacent(edges, a, b) <==>
          Adjacent(old(edges), a, b) || (a != b && ((a == hub && b in buses[..j]) || (b == hub && a in buses[..j])))
      {
        if hub != buses[j] {
          AddEdge(Some(hub), Some(buses[j]));
        }
        assert buses[..j + 1] == buses[..j] + [buses[j]];
      }
      assert buses[..|buses|] == buses;
    }

    method AddWinding(row: Winding3)
      modifies this
      ensures forall a, b :: Adjacent(edges, a, b) <==> Adjacent(old(edges), a, b) || WindingJoins(row, a, b)
    {
      var buses := PresentBuses(row);
      for i := 0 to |buses|
        invariant forall a, b :: Adjacent(edges, a, b) <==>
          Adjacent(old(edges), a, b) || (a != b && a in buses && b in buses && (a in buses[..i] || b in buses[..i]))
      {
        AddSpokes(buses[i], buses);
        assert buses[..i + 1] == buses[..i] + [buses[i]];
      }
      assert buses[..|buses|] == buses;
    }

    method AddWindings(rows: seq<Winding3>)
      modifies this
      ensures forall a, b :: Adjacent(edges, a, b) <==> Adjacent(old(edges), a, b) || AnyWindingJoins(rows, a, b)
    {
      for k := 0 to |rows|
        invariant forall a, b :: Adjacent(edges, a, b) <==> Adjacent(old(edges), a, b) || AnyWindingJoins(rows[..k], a, b)
      {
        AddWinding(rows[k]);
        assert rows[..k + 1] == rows[..k] + [rows[k]];
        assert forall a, b :: AnyWindingJoins(rows[..k + 1], a, b) <==> AnyWindingJoins(rows[..k], a, b) || WindingJoins(rows[k], a, b);
      }
      assert rows[..|rows|] == rows;
    }
  }

  function PresentBuses(row: Winding3): (r: seq<int>)
    ensures forall b :: b in r <==> Some(b) in [row.bus1, row.bus2, row.bus3]
  {
    (if row.bus1.Some? then [row.bus1.value] else []) +
    (if row.bus2.Some? then [row.bus2.value] else []) +
    (if row.bus3.Some? then [row.bus3.value] else [])
  }

  method NetworkEdges(inventory: Inventory) returns (edges: Edges)
    ensures forall a, b :: Adjacent(edges, a, b) <==> Linked(inventory, a, b)
  {
    var graph := new Graph();
    graph.AddRows(inventory.branches);
    graph.AddRows(inventory.transformers2w);
    graph.AddWindings(inventory.transformers3w);
    edges := graph.edges;
  }

  // ---- distance ----

  /** Buses joined to `start` by walks of at most `n` edges, layer by layer. */
  ghost function Ball(edges: Edges, start: int, n: nat): (r: set<int>)
    ensures start in r
  {
    if n == 0 then {start}
    else
      var inner := Ball(edges, start, n - 1);
      inner + (set w, u | w in inner && u in Neighbours(edges, w) :: u)
  }

  lemma {:induction false} BallMonotone(edges: Edges, start: int, m: nat, n: nat)
    requires m <= n
    ensures Ball(edges, start, m) <= Ball(edges, start, n)
    decreases n
  {
    if m < n {
      BallMonotone(edges, start, m, n - 1);
    }
  }

  ghost predicate IsPath(edges: Edges, p: seq<int>, a: int, b: int) {
    && p != [] && p[0] == a && p[|p| - 1] == b
    && forall i | 0 <= i < |p| - 1 :: Adjacent(edges, p[i], p[i + 1])
  }

  ghost predicate JoinedWithin(edges: Edges, a: int, b: int, n: nat) {
    exists p :: IsPath(edges, p, a, b) && |p| - 1 <= n
  }

  lemma {:induction false} PathInBall(edges: Edges, p: seq<int>, a: int, b: int)
    requires IsPath(edges, p, a, b)
    ensures b in Ball(edges, a, |p| - 1)
  {
    if |p| > 1 {
      var front := p[..|p| - 1];
      PathInBall(edges, front, a, front[|front| - 1]);
      assert Adjacent(edges, p[|p| - 2], p[|p| - 1]);
    }
  }

  lemma {:induction false} BallHasPath(edges: Edges, a: int, n: nat, b: int) returns (p: seq<int>)
    requires b in Ball(edges, a, n)
    ensures IsPath(edges, p, a, b) && |p| - 1 <= n
  {
    if n == 0 {
      p := [a];
    } else if b in Ball(edges, a, n - 1) {
      p := BallHasPath(edges, a, n - 1, b);
    } else {
      var w :| w in Ball(edges, a, n - 1) && b in Neighbours(edges, w);
      var q := BallHasPath(edges, a, n - 1, w);
      p := q + [b];
    }
  }

  /** A ball holds exactly the ends of the paths no longer than its radius. */
  lemma BallIsJoinedWithin(edges: Edges, a: int, b: int, n: nat)
    ensures b in Ball(edges, a, n) <==> JoinedWithin(edges, a, b, n)
  {
    if b in Ball(edges, a, n) {
      var p := BallHasPath(edges, a, n, b);
    }
    if JoinedWithin(edges, a, b, n) {
      var p :| IsPath(edges, p, a, b) && |p| - 1 <= n;
      PathInBall(edges, p, a, b);
      BallMonotone(edges, a, |p| - 1, n);
    }
  }

  ghost function Reverse(p: seq<int>): seq<int> {
    seq(|p|, i requires 0 <= i < |p| => p[|p| - 1 - i])
  }

  /** On a symmetric graph, being within reach is mutual. */
  lemma JoinedWithinSymmetric(edges: Edges, a: int, b: int, n: nat)
    requires forall x, y :: Adjacent(edges, x, y) ==> Adjacent(edges, y, x)
    ensures JoinedWithin(edges, a, b, n) <==> JoinedWithin(edges, b, a, n)
  {
    forall x, y | JoinedWithin(edges, x, y, n) ensures JoinedWithin(edges, y, x, n) {
      var p :| IsPath(edges, p, x, y) && |p| - 1 <= n;
      var q := Reverse(p);
      forall i | 0 <= i < |q| - 1 ensures Adjacent(edges, q[i], q[i + 1]) {
        var k := |p| - 2 - i;
        assert Adjacent(edges, p[k], p[k + 1]);
      }
      assert IsPath(edges, q, y, x);
    }
  }

  // ---- the queue ----

  // Every visited bus is queued, or on the rim, or has had all its neighbours visited one step further at most.
  ghost predicate Expanded(edges: Edges, dist: map<int, int>, depth: int, v: int)
    requires v in dist
  {
    dist[v] >= depth || forall u | u in Neighbours(edges, v) :: u in dist && dist[u] <= dist[v] + 1
  }

  lemma {:induction false} ExpandedCoversBall(edges: Edges, start: int, dist: map<int, int>, depth: int, n: nat)
    requires start in dist && dist[start] == 0
    requires forall v | v in dist :: Expanded(edges, dist, depth, v)
    requires n <= Max(depth, 0)
    ensures Ball(edges, start, n) <= dist.Keys
    ensures forall v | v in Ball(edges, start, n) :: dist[v] <= n
  {
    if n > 0 {
      ExpandedCoversBall(edges, start, dist, depth, n - 1);
      forall v | v in Ball(edges, start, n) ensures v in dist && dist[v] <= n {
        if v !in Ball(edges, start, n - 1) {
          var w :| w in Ball(edges, start, n - 1) && v in Neighbours(edges, w);
          assert Expanded(edges, dist, depth, w);
        }
      }
    }
  }

  // The first-in first-out order: distances in the queue never decrease and span at most one step.
  ghost predicate QueueOrdered(queue: seq<(int, int)>, dist: map<int, int>) {
    && (forall i | 0 <= i < |queue| :: queue[i].0 in dist && dist[queue[i].0] == queue[i].1)
    && (forall i, j | 0 <= i < j < |queue| :: queue[i].1 <= queue[j].1)
    && (queue != [] ==> forall v | v in dist :: dist[v] <= queue[0].1 + 1)
  }

  lemma QueuePop(queue: seq<(int, int)>, dist: map<int, int>)
    requires queue != [] && QueueOrdered(queue, dist)
    ensures QueueOrdered(queue[1..], dist)
  {
  }

  ghost predicate Sound(edges: Edges, start: int, depth: int, dist: map<int, int>) {
    forall v | v in dist :: 0 <= dist[v] <= Max(depth, 0) && v in Ball(edges, start, dist[v])
  }

  lemma AllExpanded(edges: Edges, start: int, depth: int, dist: map<int, int>)
    requires Searching(edges, start, depth, [], dist) && Pending(edges, depth, [], dist)
    ensures dist.Keys == Ball(edges, start, Max(depth, 0))
  {
    var radius: nat := Max(depth, 0);
    ExpandedCoversBall(edges, start, dist, depth, radius);
    forall v | v in dist ensures v in Ball(edges, start, radius) {
      assert v in Ball(edges, start, dist[v]);
      BallMonotone(edges, start, dist[v], radius);
    }
  }

  ghost function Universe(edges: Edges, start: int): (r: set<int>)
    ensures start in r
    ensures forall a, b | Adjacent(edges, a, b) :: b in r
  {
    {start} + (set a, b | a in edges && b in edges[a] :: b)
  }

  ghost predicate Searching(edges: Edges, start: int, depth: int, queue: seq<(int, int)>, dist: map<int, int>) {
    && start in dist && dist[start] == 0
    && dist.Keys <= Universe(edges, start)
    && QueueOrdered(queue, dist)
    && Sound(edges, start, depth, dist)
  }

  // Buses other than those queued have been expanded.
  ghost predicate Pending(edges: Edges, depth: int, queue: seq<(int, int)>, dist: map<int, int>) {
    forall v | v in dist :: (v, dist[v]) in queue || Expanded(edges, dist, depth, v)
  }

  // The queue entries appended for the unseen neighbours of the bus at its head.
  ghost predicate Appended(added: seq<(int, int)>, unseen: set<int>, distance: int) {
    && (forall i | 0 <= i < |added| :: added[i].0 in unseen && added[i].1 == distance)
    && (forall u | u in unseen :: (u, distance) in added)
  }

  ghost function Extended(dist: map<int, int>, unseen: set<int>, distance: int): map<int, int> {
    map v | v in dist.Keys + unseen :: if v in dist then dist[v] else distance
  }

  lemma ExpandOrdered(queue: seq<(int, int)>, dist: map<int, int>, added: seq<(int, int)>, unseen: set<int>)
    requires queue != [] && QueueOrdered(queue, dist)
    requires unseen !! dist.Keys && Appended(added, unseen, queue[0].1 + 1)
    ensures QueueOrdered(queue + added, Extended(dist, unseen, queue[0].1 + 1))
  {
    forall i | 0 <= i < |queue| ensures queue[i].1 <= queue[0].1 + 1 {
      var v := queue[i].0;
      assert v in dist && dist[v] == queue[i].1;
      assert dist[v] <= queue[0].1 + 1;
    }
  }

  lemma ExpandSound(edges: Edges, start: int, depth: int, dist: map<int, int>, bus: int, unseen: set<int>)
    requires Sound(edges, start, depth, dist) && bus in dist && dist[bus] < depth
    requires unseen == Neighbours(edges, bus) - dist.Keys
    ensures Sound(edges, start, depth, Extended(dist, unseen, dist[bus] + 1))
  {
  }

  lemma NeighboursInUniverse(edges: Edges, start: int, bus: int)
    ensures Neighbours(edges, bus) <= Universe(edges, start)
  {
    forall u | u in Neighbours(edges, bus) ensures u in Universe(edges, start) {
      assert Adjacent(edges, bus, u);
    }
  }

  lemma ExpandOrderedTail(queue: seq<(int, int)>, dist: map<int, int>, unseen: set<int>, added: seq<(int, int)>)
    requires queue != [] && QueueOrdered(queue, dist)
    requires unseen !! dist.Keys && Appended(added, unseen, queue[0].1 + 1)
    ensures QueueOrdered(queue[1..] + added, Extended(dist, unseen, queue[0].1 + 1))
    ensures queue[0].0 in dist && dist[queue[0].0] == queue[0].1
  {
    ExpandOrdered(queue, dist, added, unseen);
    QueuePop(queue + added, Extended(dist, unseen, queue[0].1 + 1));
    assert (queue + added)[1..] == queue[1..] + added;
  }

  lemma ExpandSearching(edges: Edges, start: int, depth: int, queue: seq<(int, int)>,
                        dist: map<int, int>, unseen: set<int>, added: seq<(int, int)>)
    requires queue != [] && Searching(edges, start, depth, queue, dist) && queue[0].1 < depth
    requires unseen == Neighbours(edges, queue[0].0) - dist.Keys && Appended(added, unseen, queue[0].1 + 1)
    ensures Searching(edges, start, depth, queue[1..] + added, Extended(dist, unseen, queue[0].1 + 1))
  {
    ExpandOrderedTail(queue, dist, unseen, added);
    ExpandSound(edges, start, depth, dist, queue[0].0, unseen);
    NeighboursInUniverse(edges, start, queue[0].0);
    assert Extended(dist, unseen, queue[0].1 + 1).Keys == dist.Keys + unseen;
  }

  lemma ExpandPending(edges: Edges, depth: int, queue: seq<(int, int)>, dist: map<int, int>, unseen: set<int>, added: seq<(int, int)>)
    requires queue != [] && QueueOrdered(queue, dist) && Pending(edges, depth, queue, dist)
    requires unseen == Neighbours(edges, queue[0].0) - dist.Keys && Appended(added, unseen, queue[0].1 + 1)
    ensures Pending(edges, depth, queue[1..] + added, Extended(dist, unseen, queue[0].1 + 1))
  {
  }

  lemma ExpandTurn(edges: Edges, start: int, depth: int, queue: seq<(int, int)>, dist: map<int, int>, unseen: set<int>, added: seq<(int, int)>,
                   queue': seq<(int, int)>, dist': map<int, int>)
    requires queue != [] && queue[0].1 < depth
    requires true == Searching(edges, start, depth, queue, dist) && true == Pending(edges, depth, queue, dist)
    requires unseen == Neighbours(edges, queue[0].0) - dist.Keys && true == Appended(added, unseen, queue[0].1 + 1)
    requires queue' == queue[1..] + added && dist' == Extended(dist, unseen, queue[0].1 + 1)
    ensures true == Searching(edges, start, depth, queue', dist') && true == Pending(edges, depth, queue', dist')
    ensures dist'.Keys == dist.Keys + unseen
  {
    ExpandSearching(edges, start, depth, queue, dist, unseen, added);
    ExpandPending(edges, depth, queue, dist, unseen, added);
  }

  /** A turn makes progress: more buses are visited, or the queue is shorter. */
  lemma ExpandProgress(edges: Edges, start: int, visited: set<int>, queue: seq<(int, int)>, unseen: set<int>, added: seq<(int, int)>)
    requires queue != [] && unseen == Neighbours(edges, queue[0].0) - visited
    requires true == Appended(added, unseen, queue[0].1 + 1)
    ensures true == Progress(edges, start, visited, queue, visited + unseen, queue[1..] + added)
  {
    assert |added| > 0 ==> added[0].0 in unseen;
    if unseen != {} {
      NonEmpty(unseen);
      var u :| u in unseen;
      assert Adjacent(edges, queue[0].0, u);
      Shrinks(Universe(edges, start), visited, visited + unseen, u);
    } else {
      assert visited + unseen == visited;
    }
  }

  ghost predicate Progress(edges: Edges, start: int, visited: set<int>, queue: seq<(int, int)>, visited': set<int>, queue': seq<(int, int)>) {
    (visited' == visited && |queue'| < |queue|) || |Universe(edges, start) - visited'| < |Universe(edges, start) - visited|
  }

  method VisitNeighbours(edges: Edges, bus: int, distance: int, visited: set<int>, queue: seq<(int, int)>, ghost unseen: set<int>)
    returns (visited': set<int>, queue': seq<(int, int)>, ghost added: seq<(int, int)>)
    requires unseen == Neighbours(edges, bus) - visited
    ensures visited' == visited + unseen
    ensures queue' == queue + added && true == Appended(added, unseen, distance + 1)
  {
    visited', queue', added := visited, queue, [];
    var rest := Neighbours(edges, bus);
    while rest != {}
      invariant rest <= Neighbours(edges, bus)
      invariant visited' == visited + (unseen - rest)
      invariant queue' == queue + added
      invariant Appended(added, unseen - rest, distance + 1)
      decreases |rest|
    {
      NonEmpty(rest);
      var next :| next in rest;
      rest := rest - {next};
      if next !in visited' {
        visited' := visited' + {next};
        queue' := queue' + [(next, distance + 1)];
        added := added + [(next, distance + 1)];
      }
    }
  }

  /** One turn of the queue loop. (Equations keep each invariant one fact for the verifier.) */
  method ProcessFirst(edges: Edges, ghost start: int, depth: int, visited: set<int>, queue: seq<(int, int)>, ghost dist: map<int, int>)
    returns (visited': set<int>, queue': seq<(int, int)>, ghost dist': map<int, int>)
    requires queue != [] && visited == dist.Keys
    requires true == Searching(edges, start, depth, queue, dist) && true == Pending(edges, depth, queue, dist)
    ensures visited' == dist'.Keys
    ensures true == Searching(edges, start, depth, queue', dist') && true == Pending(edges, depth, queue', dist')
    ensures true == Progress(edges, start, visited, queue, visited', queue')
  {
    var (bus, distance) := queue[0];
    visited', queue', dist' := visited, queue[1..], dist;
    if distance >= depth {
      PopAtRim(edges, start, depth, queue, dist);
      return;
    }
    ghost var unseen := Neighbours(edges, bus) - visited;
    ghost var added;
    visited', queue', added := VisitNeighbours(edges, bus, distance, visited, queue[1..], unseen);
    dist' := Extended(dist, unseen, queue[0].1 + 1);
    ExpandTurn(edges, start, depth, queue, dist, unseen, added, queue', dist');
    ExpandProgress(edges, start, visited, queue, unseen, added);
  }

  /** `_bfs_buses`. Neighbours are taken in any order, which covers the ascending one. */
  method BfsBuses(edges: Edges, start: int, depth: int) returns (visited: set<int>)
    ensures visited == Ball(edges, start, Max(depth, 0))
  {
    visited := {start};
    var queue := [(start, 0)];
    ghost var dist := map[start := 0];
    FirstStep(edges, start, depth);
    while queue != []
      invariant visited == dist.Keys
      invariant true == Searching(edges, start, depth, queue, dist) && true == Pending(edges, depth, queue, dist)
      decreases |Universe(edges, start) - visited|, |queue|
    {
      visited, queue, dist := ProcessFirst(edges, start, depth, visited, queue, dist);
    }
    AllExpanded(edges, start, depth, dist);
  }

  lemma FirstStep(edges: Edges, start: int, depth: int)
    ensures Searching(edges, start, depth, [(start, 0)], map[start := 0])
    ensures Pending(edges, depth, [(start, 0)], map[start := 0])
  {
    assert (start, 0) in [(start, 0)];
  }

  lemma PopAtRim(edges: Edges, start: int, depth: int, queue: seq<(int, int)>, dist: map<int, int>)
    requires queue != [] && queue[0].1 >= depth
    requires true == Searching(edges, start, depth, queue, dist) && true == Pending(edges, depth, queue, dist)
    ensures true == Searching(edges, start, depth, queue[1..], dist) && true == Pending(edges, depth, queue[1..], dist)
  {
  }

  lemma NonEmpty(s: set<int>)
    requires s != {}
    ensures exists u :: u in s
  {
    assert (forall u :: u !in s) ==> s == {};
  }

  lemma Shrinks(all: set<int>, a: set<int>, b: set<int>, x: int)
    requires a <= b && x in b && x !in a && x in all
    ensures |all - b| < |all - a|
  {
    SubsetSize(all - b, all - a - {x});
  }

  // ---- the dossier view ----

  ghost predicate LinkedPath(inventory: Inventory, p: seq<int>, a: int, b: int) {
    && p != [] && p[0] == a && p[|p| - 1] == b
    && forall i | 0 <= i < |p| - 1 :: Linked(inventory, p[i], p[i + 1])
  }

  /** The equipment tables lead from `a` to `b` over at most `n` pieces of equipment. */
  ghost predicate LinkedWithin(inventory: Inventory, a: int, b: int, n: nat) {
    exists p :: LinkedPath(inventory, p, a, b) && |p| - 1 <= n
  }

  lemma LinkedIsJoined(inventory: Inventory, edges: Edges, a: int, b: int, n: nat)
    requires forall x, y :: Adjacent(edges, x, y) <==> Linked(inventory, x, y)
    ensures LinkedWithin(inventory, a, b, n) <==> JoinedWithin(edges, a, b, n)
    ensures JoinedWithin(edges, a, b, n) <==> JoinedWithin(edges, b, a, n)
  {
    assert forall p :: LinkedPath(inventory, p, a, b) <==> IsPath(edges, p, a, b);
    assert forall x, y :: Linked(inventory, x, y) ==> Linked(inventory, y, x);
    JoinedWithinSymmetric(edges, a, b, n);
  }

  predicate RowTouches(row: Branch, buses: set<int>) {
    (row.fromBus.Some? && row.fromBus.value in buses) || (row.toBus.Some? && row.toBus.value in buses)
  }

  predicate WindingTouches(row: Winding3, buses: set<int>) {
    exists b | b in PresentBuses(row) :: b in buses
  }

  datatype Neighbourhood = Neighbourhood(
    depth: nat,
    visited: set<int>,
    buses: seq<BusRow>,
    branches: seq<Branch>,
    transformers2w: seq<Branch>,
    transformers3w: seq<Winding3>,
    topLoading: Option<real>)

  function BusAmong(buses: set<int>): BusRow -> bool { (row: BusRow) => row.bus.Some? && row.bus.value in buses }

  /** The greatest loading of the rows that have one. */
  function MaxLoading(rows: seq<Branch>): (r: Option<real>)
    ensures r.None? <==> forall row | row in rows :: row.loading.None?
    ensures r.Some? ==> exists row | row in rows :: row.loading == r
    ensures r.Some? ==> forall row | row in rows && row.loading.Some? :: row.loading.value <= r.value
  {
    if rows == [] then None
    else
      var rest, last := MaxLoading(rows[..|rows| - 1]), rows[|rows| - 1];
      assert rows == rows[..|rows| - 1] + [last];
      if last.loading.Some? && (rest.None? || rest.value < last.loading.value) then last.loading else rest
  }

  function TouchingRow(buses: set<int>): Branch -> bool { (row: Branch) => RowTouches(row, buses) }

  function TouchingWinding(buses: set<int>): Winding3 -> bool { (row: Winding3) => WindingTouches(row, buses) }

  /** A branch or two-winding row touches the buses with either end, a three-winding row with any of its three, and a bus
      row belongs to them by its own number; an end that is missing touches nothing. */
  lemma TouchingMeaning(buses: set<int>, row: Branch, winding: Winding3, busRow: BusRow)
    ensures TouchingRow(buses)(row) <==> exists b | b in buses :: row.fromBus == Some(b) || row.toBus == Some(b)
    ensures TouchingWinding(buses)(winding) <==>
      exists b | b in buses :: winding.bus1 == Some(b) || winding.bus2 == Some(b) || winding.bus3 == Some(b)
    ensures BusAmong(buses)(busRow) <==> exists b | b in buses :: busRow.bus == Some(b)
  {
    forall b ensures Some(b) == row.fromBus <==> row.fromBus.Some? && row.fromBus.value == b
      ensures Some(b) == row.toBus <==> row.toBus.Some? && row.toBus.value == b
      ensures Some(b) == busRow.bus <==> busRow.bus.Some? && busRow.bus.value == b
    {
    }
    assert forall b | b in PresentBuses(winding) :: winding.bus1 == Some(b) || winding.bus2 == Some(b) || winding.bus3 == Some(b);
  }

  /** A list cut to `maxRows` rows holds only selected rows, and short of the cut all of them. */
  lemma CutMeaning<T(!new)>(rows: seq<T>, selects: T -> bool, maxRows: int, row: T)
    requires maxRows >= 1
    ensures var listed := Take(Filter(rows, selects), maxRows);
      && |listed| <= maxRows && (row in listed ==> row in rows && selects(row))
      && (|listed| < maxRows && row in rows && selects(row) ==> row in listed)
  {
    var kept := Filter(rows, selects);
    var listed := Take(kept, maxRows);
    assert row in listed ==> row in kept;
  }

  /** The rows with an end among the buses, in table order, cut to `maxRows`. */
  method RowsTouching(rows: seq<Branch>, buses: set<int>, maxRows: int) returns (r: seq<Branch>)
    ensures r == Take(Filter(rows, TouchingRow(buses)), maxRows)
  {
    ghost var touches := TouchingRow(buses);
    var selected := [];
    for k := 0 to |rows|
      invariant selected == Filter(rows[..k], touches)
    {
      FilterNext(rows, k, touches);
      if RowTouches(rows[k], buses) {
        selected := selected + [rows[k]];
      }
    }
    assert rows[..|rows|] == rows;
    r := Take(selected, maxRows);
  }

  method WindingsTouching(rows: seq<Winding3>, buses: set<int>, maxRows: int) returns (r: seq<Winding3>)
    ensures r == Take(Filter(rows, TouchingWinding(buses)), maxRows)
  {
    ghost var touches := TouchingWinding(buses);
    var selected := [];
    for k := 0 to |rows|
      invariant selected == Filter(rows[..k], touches)
    {
      FilterNext(rows, k, touches);
      if WindingTouches(rows[k], buses) {
        selected := selected + [rows[k]];
      }
    }
    assert rows[..|rows|] == rows;
    r := Take(selected, maxRows);
  }

  /** `inspect_real_network_neighborhood`; an argument that does not parse as an integer is None. */
  method InspectNeighbourhood(inventory: Inventory, bus: Option<int>, depth: Option<int>, maxRows: Option<int>)
    returns (r: Result<Neighbourhood, string>)
    ensures r.Ok? <==> bus.Some? && depth.Some? && depth.value >= 1 && maxRows.Some? && maxRows.value >= 1
    ensures r.Ok? ==> r.value.depth == Min(depth.value, 3)
    ensures r.Ok? ==> forall v ::
      (v in r.value.visited <==> LinkedWithin(inventory, bus.value, v, r.value.depth)) &&
      (v in r.value.visited <==> LinkedWithin(inventory, v, bus.value, r.value.depth))
    ensures r.Ok? ==> r.value.buses == Take(Filter(inventory.buses, BusAmong(r.value.visited)), maxRows.value)
    ensures r.Ok? ==> r.value.topLoading == MaxLoading(r.value.branches + r.value.transformers2w)
    ensures r.Ok? ==> r.value.branches == Take(Filter(inventory.branches, TouchingRow(r.value.visited)), maxRows.value)
    ensures r.Ok? ==> r.value.transformers2w == Take(Filter(inventory.transformers2w, TouchingRow(r.value.visited)), maxRows.value)
    ensures r.Ok? ==> r.value.transformers3w == Take(Filter(inventory.transformers3w, TouchingWinding(r.value.visited)), maxRows.value)
  {
    if bus.None? { return Err("bus must be an integer."); }
    if depth.None? { return Err("depth must be an integer."); }
    if depth.value < 1 { return Err("depth must be positive."); }
    var depthValue := Min(Max(depth.value, 1), 3);
    if maxRows.None? { return Err("max_rows must be an integer."); }
    if maxRows.value < 1 { return Err("max_rows must be positive."); }
    var edges := NetworkEdges(inventory);
    var visited := BfsBuses(edges, bus.value, depthValue);
    forall v ensures
      (v in visited <==> LinkedWithin(inventory, bus.value, v, depthValue)) &&
      (v in visited <==> LinkedWithin(inventory, v, bus.value, depthValue))
    {
      BallIsJoinedWithin(edges, bus.value, v, depthValue);
      LinkedIsJoined(inventory, edges, bus.value, v, depthValue);
      LinkedIsJoined(inventory, edges, v, bus.value, depthValue);
    }
    var branches := RowsTouching(inventory.branches, visited, maxRows.value);
    var transformers2w := RowsTouching(inventory.transformers2w, visited, maxRows.value);
    var transformers3w := WindingsTouching(inventory.transformers3w, visited, maxRows.value);
    r := Ok(Neighbourhood(depthValue, visited, Take(Filter(inventory.buses, BusAmong(visited)), maxRows.value),
      branches, transformers2w, transformers3w, MaxLoading(branches + transformers2w)));
  }
}
