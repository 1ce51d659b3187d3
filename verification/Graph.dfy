/** The task dependency graph (internal/delivery/graph.go): reachability, acyclicity, the runnable frontier.
    An arc (f, t) says that task f depends on task t. */
module Graph {
  import opened Core
  import opened Events
  import opened Reduce

  type Arc = (Id, Id)

  // ---------------------------------------------------------------- paths

  ghost predicate IsPath(arcs: set<Arc>, p: seq<Id>) {
    |p| > 0 && (|p| > 1 ==> (p[0], p[1]) in arcs && IsPath(arcs, p[1..]))
  }

  ghost predicate PathFrom(arcs: set<Arc>, p: seq<Id>, x: Id, y: Id) {
    IsPath(arcs, p) && p[0] == x && p[|p| - 1] == y
  }

  /** y can be reached from x along zero or more arcs. */
  ghost predicate Reach(arcs: set<Arc>, x: Id, y: Id) {
    exists p :: PathFrom(arcs, p, x, y)
  }

  /** y can be reached from x along at least one arc. */
  ghost predicate ReachPlus(arcs: set<Arc>, x: Id, y: Id) {
    exists p :: PathFrom(arcs, p, x, y) && |p| >= 2
  }

  ghost predicate Acyclic(arcs: set<Arc>) {
    forall x :: !ReachPlus(arcs, x, x)
  }

  lemma ReachSelf(arcs: set<Arc>, x: Id)
    ensures Reach(arcs, x, x)
  {
    assert PathFrom(arcs, [x], x, x);
  }

  lemma ReachArc(arcs: set<Arc>, x: Id, y: Id)
    requires (x, y) in arcs
    ensures ReachPlus(arcs, x, y)
  {
    assert PathFrom(arcs, [x, y], x, y);
  }

  lemma {:induction false} PathJoin(arcs: set<Arc>, p: seq<Id>, q: seq<Id>, x: Id, y: Id, z: Id)
    requires PathFrom(arcs, p, x, y) && PathFrom(arcs, q, y, z)
    ensures PathFrom(arcs, p + q[1..], x, z)
    decreases |p|
  {
    if |p| == 1 {
      assert p + q[1..] == q;
    } else {
      PathJoin(arcs, p[1..], q, p[1], y, z);
      assert (p + q[1..])[1..] == p[1..] + q[1..];
    }
  }

  lemma ReachTrans(arcs: set<Arc>, x: Id, y: Id, z: Id)
    requires Reach(arcs, x, y) && Reach(arcs, y, z)
    ensures Reach(arcs, x, z)
    ensures ReachPlus(arcs, x, y) || ReachPlus(arcs, y, z) ==> ReachPlus(arcs, x, z)
  {
    var p :| PathFrom(arcs, p, x, y) && (ReachPlus(arcs, x, y) ==> |p| >= 2);
    var q :| PathFrom(arcs, q, y, z) && (ReachPlus(arcs, y, z) ==> |q| >= 2);
    PathJoin(arcs, p, q, x, y, z);
  }

  /** A nonempty path is one arc followed by a path. */
  lemma ReachPlusFirst(arcs: set<Arc>, x: Id, y: Id) returns (z: Id)
    requires ReachPlus(arcs, x, y)
    ensures (x, z) in arcs && Reach(arcs, z, y)
  {
    var p :| PathFrom(arcs, p, x, y) && |p| >= 2;
    z := p[1];
    assert PathFrom(arcs, p[1..], z, y);
  }

  lemma ReachPlusReach(arcs: set<Arc>, x: Id, y: Id)
    requires ReachPlus(arcs, x, y)
    ensures Reach(arcs, x, y)
  {
  }

  lemma {:induction false} PathMono(arcs: set<Arc>, more: set<Arc>, p: seq<Id>)
    requires arcs <= more && IsPath(arcs, p)
    ensures IsPath(more, p)
  {
    if |p| > 1 {
      PathMono(arcs, more, p[1..]);
    }
  }

  lemma ReachMono(arcs: set<Arc>, more: set<Arc>, x: Id, y: Id)
    requires arcs <= more
    ensures Reach(arcs, x, y) ==> Reach(more, x, y)
    ensures ReachPlus(arcs, x, y) ==> ReachPlus(more, x, y)
  {
    forall p | PathFrom(arcs, p, x, y) ensures PathFrom(more, p, x, y) {
      PathMono(arcs, more, p);
    }
  }

  lemma AcyclicMono(arcs: set<Arc>, more: set<Arc>)
    requires arcs <= more && Acyclic(more)
    ensures Acyclic(arcs)
  {
    forall x ensures !ReachPlus(arcs, x, x) {
      ReachMono(arcs, more, x, x);
    }
  }

  /** A set closed under successors holds everything reachable from its members. */
  lemma {:induction false} ClosedPath(arcs: set<Arc>, s: set<Id>, p: seq<Id>)
    requires IsPath(arcs, p) && p[0] in s
    requires forall x, y :: (x, y) in arcs && x in s ==> y in s
    ensures p[|p| - 1] in s
  {
    if |p| > 1 {
      ClosedPath(arcs, s, p[1..]);
    }
  }

  /** A path that may use the new arc (f, t) either avoids it, or reaches f first and leaves t last without it. */
  lemma {:induction false} PathWithArc(arcs: set<Arc>, f: Id, t: Id, p: seq<Id>)
    requires IsPath(arcs + {(f, t)}, p)
    ensures Reach(arcs, p[0], p[|p| - 1]) || (Reach(arcs, p[0], f) && Reach(arcs, t, p[|p| - 1]))
  {
    if |p| == 1 {
      ReachSelf(arcs, p[0]);
    } else {
      PathWithArc(arcs, f, t, p[1..]);
      if (p[0], p[1]) in arcs {
        ReachArc(arcs, p[0], p[1]);
        if Reach(arcs, p[1], p[|p| - 1]) {
          ReachTrans(arcs, p[0], p[1], p[|p| - 1]);
        } else {
          ReachTrans(arcs, p[0], p[1], f);
        }
      } else {
        ReachSelf(arcs, f);
      }
    }
  }

  /** Adding an arc f -> t keeps the graph acyclic exactly when t does not already reach f. */
  lemma AddArcAcyclic(arcs: set<Arc>, f: Id, t: Id)
    requires Acyclic(arcs)
    ensures Acyclic(arcs + {(f, t)}) <==> !Reach(arcs, t, f)
  {
    var more := arcs + {(f, t)};
    if Reach(arcs, t, f) {
      ReachMono(arcs, more, t, f);
      ReachArc(more, f, t);
      ReachTrans(more, f, t, f);
    } else {
      forall x ensures !ReachPlus(more, x, x) {
        if ReachPlus(more, x, x) {
          var z := ReachPlusFirst(more, x, x);
          var p :| PathFrom(more, p, z, x);
          PathWithArc(arcs, f, t, p);
          if (x, z) in arcs {
            ReachArc(arcs, x, z);
            if Reach(arcs, z, x) {
              ReachTrans(arcs, x, z, x);
            } else {
              ReachTrans(arcs, t, x, z);
              ReachTrans(arcs, t, z, f);
            }
          }
        }
      }
    }
  }

  /** A nonempty finite set has a member with no arc into the set, when the graph is acyclic. */
  lemma {:induction false} HasSink(arcs: set<Arc>, s: set<Id>, x: Id) returns (sink: Id)
    requires Acyclic(arcs) && x in s
    ensures sink in s && forall y :: y in s ==> (sink, y) !in arcs
    ensures Reach(arcs, x, sink)
    decreases set y | y in s && ReachPlus(arcs, x, y)
  {
    ghost var below := set y | y in s && ReachPlus(arcs, x, y);
    if y :| y in s && (x, y) in arcs {
      ReachArc(arcs, x, y);
      assert y in below;
      ghost var below' := set z | z in s && ReachPlus(arcs, y, z);
      forall z | z in below' ensures z in below {
        ReachTrans(arcs, x, y, z);
      }
      assert y !in below';
      sink := HasSink(arcs, s, y);
      ReachTrans(arcs, x, y, sink);
    } else {
      sink := x;
      ReachSelf(arcs, x);
    }
  }

  // ---------------------------------------------------------------- reachable

  /** The arcs of the active edges. */
  function ActiveArcs(edges: map<Id, Edge>): set<Arc> {
    set id | id in edges && edges[id].active :: (edges[id].from, edges[id].to)
  }

  function Neighbours(adj: map<Id, seq<Id>>, x: Id): seq<Id> {
    if x in adj then adj[x] else []
  }

  /** The adjacency lists reachable builds: x's list holds exactly the successors of x. */
  ghost predicate Adjacency(arcs: set<Arc>, adj: map<Id, seq<Id>>) {
    forall x, y :: y in Neighbours(adj, x) <==> (x, y) in arcs
  }

  lemma AdjacencyAdd(arcs: set<Arc>, adj: map<Id, seq<Id>>, f: Id, t: Id)
    requires Adjacency(arcs, adj)
    ensures Adjacency(arcs + {(f, t)}, adj[f := Neighbours(adj, f) + [t]])
  {
    var more := adj[f := Neighbours(adj, f) + [t]];
    forall x, y ensures y in Neighbours(more, x) <==> (x, y) in arcs + {(f, t)} {
      assert Neighbours(more, x) == if x == f then Neighbours(adj, f) + [t] else Neighbours(adj, x);
    }
  }

  lemma ActiveArcsAdd(edges: map<Id, Edge>, id: Id, e: Edge)
    requires id !in edges
    ensures ActiveArcs(edges[id := e]) == ActiveArcs(edges) + if e.active then {(e.from, e.to)} else {}
  {
    var more := edges[id := e];
    forall a | a in ActiveArcs(edges) ensures a in ActiveArcs(more) {
      var k :| k in edges && edges[k].active && (edges[k].from, edges[k].to) == a;
      assert k in more && more[k] == edges[k];
    }
    if e.active {
      assert more[id].active;
    }
  }

  method BuildAdjacency(edges: map<Id, Edge>) returns (adj: map<Id, seq<Id>>)
    ensures Adjacency(ActiveArcs(edges), adj)
  {
    adj := map[];
    var todo := edges.Keys;
    ghost var done: map<Id, Edge> := map[];
    while todo != {}
      invariant todo <= edges.Keys
      invariant done == map id | id in edges && id !in todo :: edges[id]
      invariant Adjacency(ActiveArcs(done), adj)
      decreases |todo|
    {
      var id :| id in todo;
      var e := edges[id];
      ActiveArcsAdd(done, id, e);
      if e.active {
        AdjacencyAdd(ActiveArcs(done), adj, e.from, e.to);
        adj := adj[e.from := Neighbours(adj, e.from) + [e.to]];
      }
      done := done[id := e];
      todo := todo - {id};
    }
    assert done == edges;
  }

  /** The inner loop of reachable: marks and enqueues the neighbours not seen before. */
  method EnqueueNew(next: seq<Id>, visited: set<Id>, queue: seq<Id>) returns (visited': set<Id>, queue': seq<Id>)
    ensures visited' == visited + Elems(next)
    ensures Elems(queue') == Elems(queue) + (Elems(next) - visited)
    ensures visited' == visited ==> queue' == queue
  {
    visited', queue' := visited, queue;
    for k := 0 to |next|
      invariant visited' == visited + Elems(next[..k])
      invariant Elems(queue') == Elems(queue) + (Elems(next[..k]) - visited)
      invariant visited' == visited ==> queue' == queue
    {
      assert next[..k + 1] == next[..k] + [next[k]];
      ElemsSnoc(next[..k], next[k]);
      if next[k] !in visited' {
        ElemsSnoc(queue', next[k]);
        visited' := visited' + {next[k]};
        queue' := queue' + [next[k]];
      }
    }
    assert next[..|next|] == next;
  }

  /** Between two rounds of the search: what is visited is reachable, and everything visited but no longer pending
      has been expanded and is not the target. */
  ghost predicate SearchState(arcs: set<Arc>, from: Id, to: Id, visited: set<Id>, pending: set<Id>) {
    && from in visited
    && pending <= visited
    && (forall x :: x in visited ==> Reach(arcs, from, x))
    && (forall x, y :: x in visited - pending && (x, y) in arcs ==> y in visited)
    && to !in visited - pending
  }

  lemma SearchStep(arcs: set<Arc>, from: Id, to: Id, visited: set<Id>, rest: set<Id>, cur: Id, next: set<Id>)
    requires SearchState(arcs, from, to, visited, {cur} + rest)
    requires cur != to && forall y :: y in next <==> (cur, y) in arcs
    ensures SearchState(arcs, from, to, visited + next, rest + (next - visited))
  {
    forall y | y in next ensures Reach(arcs, from, y) {
      ReachArc(arcs, cur, y);
      ReachTrans(arcs, from, cur, y);
    }
  }

  lemma SearchExhausted(arcs: set<Arc>, from: Id, to: Id, visited: set<Id>)
    requires SearchState(arcs, from, to, visited, {})
    ensures !Reach(arcs, from, to)
  {
    forall p | PathFrom(arcs, p, from, to) ensures false {
      ClosedPath(arcs, visited, p);
    }
  }

  ghost function Nodes(arcs: set<Arc>, from: Id): set<Id> {
    {from} + set a | a in arcs :: a.1
  }

  lemma NeighboursAreNodes(arcs: set<Arc>, from: Id, adj: map<Id, seq<Id>>, cur: Id)
    requires Adjacency(arcs, adj)
    ensures Elems(Neighbours(adj, cur)) <= Nodes(arcs, from)
    ensures forall y :: y in Elems(Neighbours(adj, cur)) <==> (cur, y) in arcs
  {
    forall y | y in Neighbours(adj, cur) ensures y in Nodes(arcs, from) {
      assert (cur, y).1 in Nodes(arcs, from);
    }
  }

  /** One dequeued node that is not the target: mark and enqueue its unseen neighbours. */
  method Expand(ghost arcs: set<Arc>, ghost from: Id, ghost to: Id, adj: map<Id, seq<Id>>, cur: Id,
                visited: set<Id>, queue: seq<Id>)
    returns (visited': set<Id>, queue': seq<Id>)
    requires Adjacency(arcs, adj) && cur != to
    requires SearchState(arcs, from, to, visited, {cur} + Elems(queue)) && visited <= Nodes(arcs, from)
    ensures SearchState(arcs, from, to, visited', Elems(queue')) && visited' <= Nodes(arcs, from)
    ensures |Nodes(arcs, from) - visited'| <= |Nodes(arcs, from) - visited|
    ensures |Nodes(arcs, from) - visited'| == |Nodes(arcs, from) - visited| ==> queue' == queue
  {
    var next := Neighbours(adj, cur);
    NeighboursAreNodes(arcs, from, adj, cur);
    SearchStep(arcs, from, to, visited, Elems(queue), cur, Elems(next));
    visited', queue' := EnqueueNew(next, visited, queue);
    RemainderShrinks(Nodes(arcs, from), visited, visited');
  }

  /** reachable: breadth-first search with a queue and a visited set. It terminates, on any graph, and answers
      exactly whether a path exists. */
  method Reachable(edges: map<Id, Edge>, from: Id, to: Id) returns (found: bool)
    ensures found <==> Reach(ActiveArcs(edges), from, to)
  {
    ghost var arcs := ActiveArcs(edges);
    var adj := BuildAdjacency(edges);
    var visited := {from};
    var queue := [from];
    ReachSelf(arcs, from);
    while |queue| > 0
      invariant visited <= Nodes(arcs, from)
      invariant SearchState(arcs, from, to, visited, Elems(queue))
      decreases |Nodes(arcs, from) - visited|, |queue|
    {
      var cur := queue[0];
      ElemsHead(queue);
      queue := queue[1..];
      if cur == to {
        return true;
      }
      visited, queue := Expand(arcs, from, to, adj, cur, visited, queue);
    }
    SearchExhausted(arcs, from, to, visited);
    return false;
  }

  // ---------------------------------------------------------------- Frontier

  datatype TaskNode = TaskNode(id: Id, cancelled: bool)

  predicate Blocking(t: EdgeType) {
    t == Requires || t == ProducesInputFor
  }

  /** The targets of the blocking edges out of task `t`, in edge order. */
  function Predecessors(t: Id, edges: seq<Edge>): seq<Id> {
    if edges == [] then []
    else
      var n := |edges| - 1;
      if Blocking(edges[n].edgeType) && edges[n].from == t then Predecessors(t, edges[..n]) + [edges[n].to]
      else Predecessors(t, edges[..n])
  }

  function Unresolved(s: seq<Id>, resolved: set<Id>): seq<Id> {
    if s == [] then []
    else
      var n := |s| - 1;
      if s[n] in resolved then Unresolved(s[..n], resolved) else Unresolved(s[..n], resolved) + [s[n]]
  }

  /** What still keeps `t` blocked. */
  function Blockers(t: Id, edges: seq<Edge>, resolved: set<Id>): seq<Id> {
    Unresolved(Predecessors(t, edges), resolved)
  }

  function BlockingArcs(edges: seq<Edge>): set<Arc> {
    set i | 0 <= i < |edges| && Blocking(edges[i].edgeType) :: (edges[i].from, edges[i].to)
  }

  lemma {:induction false} PredecessorsAre(t: Id, edges: seq<Edge>, x: Id)
    ensures x in Predecessors(t, edges) <==> (t, x) in BlockingArcs(edges)
  {
    if edges != [] {
      var n := |edges| - 1;
      PredecessorsAre(t, edges[..n], x);
      assert forall i :: 0 <= i < n ==> edges[..n][i] == edges[i];
    }
  }

  lemma {:induction false} UnresolvedAre(s: seq<Id>, resolved: set<Id>, x: Id)
    ensures x in Unresolved(s, resolved) <==> x in s && x !in resolved
  {
    if s != [] {
      var n := |s| - 1;
      UnresolvedAre(s[..n], resolved, x);
      assert s == s[..n] + [s[n]];
    }
  }

  /** The blockers of a task are exactly the unresolved ends of its blocking arcs. */
  lemma BlockersAre(t: Id, edges: seq<Edge>, resolved: set<Id>, x: Id)
    ensures x in Blockers(t, edges, resolved) <==> (t, x) in BlockingArcs(edges) && x !in resolved
  {
    PredecessorsAre(t, edges, x);
    UnresolvedAre(Predecessors(t, edges), resolved, x);
  }

  /** A task the frontier computation still has to place. */
  ghost predicate Open(tasks: seq<TaskNode>, resolved: set<Id>, id: Id) {
    id !in resolved && exists i :: 0 <= i < |tasks| && tasks[i].id == id && !tasks[i].cancelled
  }

  method PredecessorLists(edges: seq<Edge>) returns (preds: map<Id, seq<Id>>)
    ensures forall t :: (if t in preds then preds[t] else []) == Predecessors(t, edges)
  {
    preds := map[];
    for i := 0 to |edges|
      invariant forall t :: (if t in preds then preds[t] else []) == Predecessors(t, edges[..i])
    {
      assert edges[..i + 1][..i] == edges[..i];
      var e := edges[i];
      if Blocking(e.edgeType) {
        preds := preds[e.from := (if e.from in preds then preds[e.from] else []) + [e.to]];
      }
    }
    assert edges[..|edges|] == edges;
  }

  method StillUnresolved(own: seq<Id>, resolved: set<Id>) returns (unresolved: seq<Id>)
    ensures unresolved == Unresolved(own, resolved)
  {
    unresolved := [];
    for k := 0 to |own|
      invariant unresolved == Unresolved(own[..k], resolved)
    {
      assert own[..k + 1][..k] == own[..k];
      if own[k] !in resolved {
        unresolved := unresolved + [own[k]];
      }
    }
    assert own[..|own|] == own;
  }

  /** The open tasks of `tasks` are placed: without blockers on the frontier, with their exact blockers otherwise. */
  ghost predicate Placed(tasks: seq<TaskNode>, edges: seq<Edge>, resolved: set<Id>, frontier: seq<Id>,
                         blocked: map<Id, seq<Id>>) {
    && (forall id :: id in frontier <==> Open(tasks, resolved, id) && Blockers(id, edges, resolved) == [])
    && (forall id :: id in blocked <==> Open(tasks, resolved, id) && Blockers(id, edges, resolved) != [])
    && (forall id :: id in blocked ==> blocked[id] == Blockers(id, edges, resolved))
  }

  lemma PlacedSnoc(tasks: seq<TaskNode>, edges: seq<Edge>, resolved: set<Id>, i: nat, frontier: seq<Id>,
                   blocked: map<Id, seq<Id>>)
    requires i < |tasks| && Placed(tasks[..i], edges, resolved, frontier, blocked)
    ensures var t := tasks[i];
            var own := Blockers(t.id, edges, resolved);
            if t.cancelled || t.id in resolved then Placed(tasks[..i + 1], edges, resolved, frontier, blocked)
            else if own == [] then Placed(tasks[..i + 1], edges, resolved, frontier + [t.id], blocked)
            else Placed(tasks[..i + 1], edges, resolved, frontier, blocked[t.id := own])
  {
    OpenSnoc(tasks, resolved, i);
  }

  /** Frontier: predecessor lists first, then one pass over the tasks. */
  method Frontier(tasks: seq<TaskNode>, edges: seq<Edge>, resolved: set<Id>)
    returns (frontier: seq<Id>, blocked: map<Id, seq<Id>>)
    ensures forall id :: id in frontier <==> Open(tasks, resolved, id) && Blockers(id, edges, resolved) == []
    ensures forall id :: id in blocked <==> Open(tasks, resolved, id) && Blockers(id, edges, resolved) != []
    ensures forall id :: id in blocked ==> blocked[id] == Blockers(id, edges, resolved)
  {
    var preds := PredecessorLists(edges);
    frontier, blocked := [], map[];
    for i := 0 to |tasks|
      invariant Placed(tasks[..i], edges, resolved, frontier, blocked)
    {
      var t := tasks[i];
      PlacedSnoc(tasks, edges, resolved, i, frontier, blocked);
      if !(t.cancelled || t.id in resolved) {
        var own := if t.id in preds then preds[t.id] else [];
        var unresolved := StillUnresolved(own, resolved);
        if |unresolved| == 0 {
          frontier := frontier + [t.id];
        } else {
          blocked := blocked[t.id := unresolved];
        }
      }
    }
    assert tasks[..|tasks|] == tasks;
  }

  lemma OpenSnoc(tasks: seq<TaskNode>, resolved: set<Id>, i: nat)
    requires i < |tasks|
    ensures forall id :: Open(tasks[..i + 1], resolved, id) <==>
              Open(tasks[..i], resolved, id) || (id == tasks[i].id && !tasks[i].cancelled && id !in resolved)
  {
    var a, b := tasks[..i], tasks[..i + 1];
    assert b[i] == tasks[i];
    forall id ensures Open(b, resolved, id) <==>
        Open(a, resolved, id) || (id == tasks[i].id && !tasks[i].cancelled && id !in resolved)
    {
      if Open(a, resolved, id) {
        var k :| 0 <= k < |a| && a[k].id == id && !a[k].cancelled;
        assert b[k] == a[k];
      }
      if Open(b, resolved, id) {
        var k :| 0 <= k < |b| && b[k].id == id && !b[k].cancelled;
        assert k < i ==> a[k] == b[k];
      }
    }
  }

  // ---------------------------------------------------------------- progress

  /** The ids still open. */
  ghost function OpenIds(tasks: seq<TaskNode>, resolved: set<Id>): (s: set<Id>)
    ensures forall id :: id in s <==> Open(tasks, resolved, id)
  {
    var all := set i | 0 <= i < |tasks| && !tasks[i].cancelled :: tasks[i].id;
    all - resolved
  }

  /** Every blocking edge points to a task that is known and not cancelled. */
  ghost predicate KnownTargets(tasks: seq<TaskNode>, edges: seq<Edge>) {
    forall a :: a in BlockingArcs(edges) ==> Open(tasks, {}, a.1)
  }

  ghost predicate InFrontier(tasks: seq<TaskNode>, edges: seq<Edge>, resolved: set<Id>, id: Id) {
    Open(tasks, resolved, id) && Blockers(id, edges, resolved) == []
  }

  /** Progress: below any open task lies a frontier task. */
  lemma FrontierNonempty(tasks: seq<TaskNode>, edges: seq<Edge>, resolved: set<Id>, x: Id) returns (next: Id)
    requires Acyclic(BlockingArcs(edges)) && KnownTargets(tasks, edges)
    requires Open(tasks, resolved, x)
    ensures InFrontier(tasks, edges, resolved, next)
    ensures Reach(BlockingArcs(edges), x, next)
  {
    var open := OpenIds(tasks, resolved);
    next := HasSink(BlockingArcs(edges), open, x);
    forall y | (next, y) in BlockingArcs(edges) ensures y in resolved {
      assert Open(tasks, {}, (next, y).1);
      assert y in resolved || y in open;
    }
    forall y ensures y !in Blockers(next, edges, resolved) {
      BlockersAre(next, edges, resolved, y);
    }
    NonemptyHas(Blockers(next, edges, resolved));
  }

  /** `order` resolves, one by one, tasks that are on the frontier at that moment. */
  ghost predicate ResolvesInOrder(tasks: seq<TaskNode>, edges: seq<Edge>, resolved: set<Id>, order: seq<Id>) {
    forall i :: 0 <= i < |order| ==> InFrontier(tasks, edges, resolved + Elems(order[..i]), order[i])
  }

  /** Draining: a resolution order never repeats a task, resolves only open tasks, and is stuck (no frontier left)
      exactly when it is as long as the number of tasks that were open, that is, when everything is resolved. */
  lemma DrainsExactly(tasks: seq<TaskNode>, edges: seq<Edge>, resolved: set<Id>, order: seq<Id>)
    requires Acyclic(BlockingArcs(edges)) && KnownTargets(tasks, edges)
    requires ResolvesInOrder(tasks, edges, resolved, order)
    ensures NoDup(order) && Elems(order) <= OpenIds(tasks, resolved)
    ensures |order| <= |OpenIds(tasks, resolved)|
    ensures |order| == |OpenIds(tasks, resolved)| <==>
              forall id :: !InFrontier(tasks, edges, resolved + Elems(order), id)
  {
    forall i, j | 0 <= i < j < |order| ensures order[i] != order[j] {
      assert order[i] == order[..j][i];
    }
    var open := OpenIds(tasks, resolved);
    forall x | x in Elems(order) ensures x in open {
      var i :| 0 <= i < |order| && order[i] == x;
      assert InFrontier(tasks, edges, resolved + Elems(order[..i]), order[i]);
      assert Open(tasks, resolved, x);
    }
    NoDupCard(order);
    SubsetCard(Elems(order), open);
    assert forall id :: Open(tasks, resolved + Elems(order), id) ==> id in open && id !in Elems(order);
    if |order| < |open| {
      assert |open - Elems(order)| > 0;
      var x :| x in open - Elems(order);
      assert Open(tasks, resolved + Elems(order), x);
      var next := FrontierNonempty(tasks, edges, resolved + Elems(order), x);
    }
  }
}
