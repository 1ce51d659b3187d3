/** Lane ranking (internal/delivery/priority.go): longest downstream chain first, then most unlocked tasks, then
    oldest, then smallest id. Here an arc (t, d) says that task d directly depends on task t. */
module Priority {
  import opened Core
  import opened Events
  import opened Reduce
  import opened Graph

  /** dependents' relation: the active blocking edges, reversed. */
  function DependentArcs(edges: seq<Edge>): set<Arc> {
    set i | 0 <= i < |edges| && edges[i].active && Blocking(edges[i].edgeType) :: (edges[i].to, edges[i].from)
  }

  lemma DependentArcsSnoc(edges: seq<Edge>, i: nat)
    requires i < |edges|
    ensures DependentArcs(edges[..i + 1]) == DependentArcs(edges[..i]) +
              if edges[i].active && Blocking(edges[i].edgeType) then {(edges[i].to, edges[i].from)} else {}
  {
    var a, b := edges[..i], edges[..i + 1];
    assert forall k :: 0 <= k < i ==> a[k] == b[k];
    assert b[i] == edges[i];
    forall x | x in DependentArcs(a) ensures x in DependentArcs(b) {
      var k :| 0 <= k < i && a[k].active && Blocking(a[k].edgeType) && (a[k].to, a[k].from) == x;
      assert b[k] == a[k];
    }
  }

  /** A path walked backwards along reversed arcs. */
  lemma {:induction false} ReversedPath(arcs: set<Arc>, back: set<Arc>, p: seq<Id>)
    requires IsPath(back, p) && |p| >= 2
    requires forall a :: a in back ==> (a.1, a.0) in arcs
    ensures ReachPlus(arcs, p[|p| - 1], p[0])
  {
    assert (p[0], p[1]) in back;
    ReachArc(arcs, p[1], p[0]);
    if |p| > 2 {
      ReversedPath(arcs, back, p[1..]);
      ReachPlusReach(arcs, p[1], p[0]);
      ReachTrans(arcs, p[|p| - 1], p[1], p[0]);
    }
  }

  /** Dependency edges that form no cycle form none seen from the dependents. */
  lemma DependentsAcyclic(edges: seq<Edge>, arcs: set<Arc>)
    requires Acyclic(arcs) && forall i :: 0 <= i < |edges| ==> (edges[i].from, edges[i].to) in arcs
    ensures Acyclic(DependentArcs(edges))
  {
    var back := DependentArcs(edges);
    forall a | a in back ensures (a.1, a.0) in arcs {
      var i :| 0 <= i < |edges| && edges[i].active && Blocking(edges[i].edgeType) && (edges[i].to, edges[i].from) == a;
      assert (edges[i].from, edges[i].to) in arcs;
    }
    forall x ensures !ReachPlus(back, x, x) {
      if ReachPlus(back, x, x) {
        var p :| PathFrom(back, p, x, x) && |p| >= 2;
        ReversedPath(arcs, back, p);
      }
    }
  }

  method Dependents(edges: seq<Edge>) returns (deps: map<Id, seq<Id>>)
    ensures Adjacency(DependentArcs(edges), deps)
    ensures forall t :: t in deps ==> deps[t] != []
  {
    deps := map[];
    for i := 0 to |edges|
      invariant Adjacency(DependentArcs(edges[..i]), deps)
      invariant forall t :: t in deps ==> deps[t] != []
    {
      var e := edges[i];
      DependentArcsSnoc(edges, i);
      if e.active && Blocking(e.edgeType) {
        AdjacencyAdd(DependentArcs(edges[..i]), deps, e.to, e.from);
        deps := deps[e.to := Neighbours(deps, e.to) + [e.from]];
      }
    }
    assert edges[..|edges|] == edges;
  }

  // ---------------------------------------------------------------- longest chains

  /** n is the length of the longest chain of dependents below t. */
  ghost predicate Longest(arcs: set<Arc>, t: Id, n: nat) {
    && (exists p :: IsPath(arcs, p) && p[0] == t && |p| == n + 1)
    && (forall p :: IsPath(arcs, p) && p[0] == t ==> |p| <= n + 1)
  }

  ghost function Downstream(arcs: set<Arc>, t: Id): set<Id> {
    set a | a in arcs && ReachPlus(arcs, t, a.1) :: a.1
  }

  lemma DownstreamAre(arcs: set<Arc>, t: Id, x: Id)
    ensures x in Downstream(arcs, t) <==> ReachPlus(arcs, t, x)
  {
    if ReachPlus(arcs, t, x) {
      var p :| PathFrom(arcs, p, t, x) && |p| >= 2;
      LastArc(arcs, p);
      assert (p[|p| - 2], p[|p| - 1]).1 == x;
    }
  }

  lemma {:induction false} LastArc(arcs: set<Arc>, p: seq<Id>)
    requires IsPath(arcs, p) && |p| >= 2
    ensures (p[|p| - 2], p[|p| - 1]) in arcs
  {
    if |p| > 2 {
      LastArc(arcs, p[1..]);
    }
  }

  lemma DownstreamShrinks(arcs: set<Arc>, t: Id, d: Id)
    requires Acyclic(arcs) && (t, d) in arcs
    ensures |Downstream(arcs, d)| < |Downstream(arcs, t)|
  {
    ReachArc(arcs, t, d);
    DownstreamAre(arcs, t, d);
    DownstreamAre(arcs, d, d);
    forall x | x in Downstream(arcs, d) ensures x in Downstream(arcs, t) {
      DownstreamAre(arcs, d, x);
      ReachTrans(arcs, t, d, x);
      DownstreamAre(arcs, t, x);
    }
    SubsetCard(Downstream(arcs, d), Downstream(arcs, t));
  }

  /** `best` is 1 + the largest chain length among the tasks `next`, or 0 when there is none. */
  ghost predicate BestOf(arcs: set<Arc>, next: set<Id>, best: nat) {
    && (forall d :: d in next ==> exists n: nat :: Longest(arcs, d, n) && n + 1 <= best)
    && (best == 0 || exists d :: d in next && Longest(arcs, d, best - 1))
  }

  lemma LongestStep(arcs: set<Arc>, t: Id, next: set<Id>, best: nat)
    requires forall d :: d in next <==> (t, d) in arcs
    requires BestOf(arcs, next, best)
    ensures Longest(arcs, t, best)
  {
    if best == 0 {
      assert IsPath(arcs, [t]);
    } else {
      var d :| d in next && Longest(arcs, d, best - 1);
      var p :| IsPath(arcs, p) && p[0] == d && |p| == best;
      assert IsPath(arcs, [t] + p);
    }
    forall p | IsPath(arcs, p) && p[0] == t ensures |p| <= best + 1 {
      if |p| > 1 {
        assert (p[0], p[1]) in arcs && p[1] in next;
        assert IsPath(arcs, p[1..]) && p[1..][0] == p[1];
      }
    }
  }

  lemma LongestUnique(arcs: set<Arc>, t: Id, m: nat, n: nat)
    requires Longest(arcs, t, m) && Longest(arcs, t, n)
    ensures m == n
  {
  }

  lemma {:induction false} LongestExists(arcs: set<Arc>, t: Id) returns (best: nat)
    requires Acyclic(arcs)
    ensures Longest(arcs, t, best)
    decreases |Downstream(arcs, t)|, 1
  {
    var next := set a | a in arcs && a.0 == t :: a.1;
    forall d | (t, d) in arcs ensures d in next {
      assert (t, d).1 in next;
    }
    best := BestExists(arcs, t, next);
    LongestStep(arcs, t, next, best);
  }

  lemma {:induction false} BestExists(arcs: set<Arc>, t: Id, next: set<Id>) returns (best: nat)
    requires Acyclic(arcs) && forall d :: d in next ==> (t, d) in arcs
    ensures BestOf(arcs, next, best)
    decreases |Downstream(arcs, t)|, 0, next
  {
    if next == {} {
      best := 0;
    } else {
      var d :| d in next;
      best := BestExists(arcs, t, next - {d});
      DownstreamShrinks(arcs, t, d);
      var n := LongestExists(arcs, d);
      assert next == next - {d} + {d};
      BestOfAdd(arcs, next - {d}, d, best, n);
      best := if n + 1 > best then n + 1 else best;
    }
  }

  lemma BestOfAdd(arcs: set<Arc>, done: set<Id>, d: Id, best: nat, n: nat)
    requires BestOf(arcs, done, best) && Longest(arcs, d, n)
    ensures BestOf(arcs, done + {d}, if n + 1 > best then n + 1 else best)
  {
    var better := if n + 1 > best then n + 1 else best;
    forall x | x in done + {d} ensures exists m: nat :: Longest(arcs, x, m) && m + 1 <= better {
      if x in done {
        var m: nat :| Longest(arcs, x, m) && m + 1 <= best;
      }
    }
  }

  /** The length of the longest chain of dependents below t. */
  ghost function ChainLength(arcs: set<Arc>, t: Id): (n: nat)
    requires Acyclic(arcs)
    ensures Longest(arcs, t, n)
  {
    assert exists m: nat :: Longest(arcs, t, m) by {
      var m := LongestExists(arcs, t);
    }
    var m: nat :| Longest(arcs, t, m);
    m
  }

  ghost predicate MemoOk(arcs: set<Arc>, memo: map<Id, nat>)
    requires Acyclic(arcs)
  {
    forall k :: k in memo ==> memo[k] == ChainLength(arcs, k)
  }

  /** The recursive closure `length` with its memo table. It terminates because the graph is acyclic. */
  method Length(ghost arcs: set<Arc>, deps: map<Id, seq<Id>>, t: Id, memo: map<Id, nat>)
    returns (v: nat, memo': map<Id, nat>)
    requires Acyclic(arcs) && Adjacency(arcs, deps) && MemoOk(arcs, memo)
    ensures v == ChainLength(arcs, t) && MemoOk(arcs, memo')
    decreases |Downstream(arcs, t)|, 1
  {
    if t in memo {
      return memo[t], memo;
    }
    memo' := memo;
    var best := 0;
    var own := Neighbours(deps, t);
    for i := 0 to |own|
      invariant MemoOk(arcs, memo')
      invariant BestOf(arcs, Elems(own[..i]), best)
    {
      best, memo' := Improve(arcs, deps, t, own[i], Elems(own[..i]), best, memo');
      TakeSnoc(own, i);
    }
    TakeAll(own);
    LongestStep(arcs, t, Elems(own), best);
    LongestUnique(arcs, t, best, ChainLength(arcs, t));
    memo' := memo'[t := best];
    v := best;
  }

  /** One dependent inside length's loop. */
  method Improve(ghost arcs: set<Arc>, deps: map<Id, seq<Id>>, ghost t: Id, d: Id, ghost done: set<Id>,
                 best: nat, memo: map<Id, nat>)
    returns (best': nat, memo': map<Id, nat>)
    requires Acyclic(arcs) && Adjacency(arcs, deps) && MemoOk(arcs, memo)
    requires (t, d) in arcs && BestOf(arcs, done, best)
    ensures BestOf(arcs, done + {d}, best') && MemoOk(arcs, memo')
    decreases |Downstream(arcs, t)|, 0
  {
    DownstreamShrinks(arcs, t, d);
    var l;
    l, memo' := Length(arcs, deps, d, memo);
    BestOfAdd(arcs, done, d, best, l);
    best' := if 1 + l > best then 1 + l else best;
  }

  /** criticalPathLengths, on any acyclic edge set. */
  method CriticalPathLengths(edges: seq<Edge>) returns (out: map<Id, nat>)
    requires Acyclic(DependentArcs(edges))
    ensures forall t :: (if t in out then out[t] else 0) == ChainLength(DependentArcs(edges), t)
  {
    ghost var arcs := DependentArcs(edges);
    var deps := Dependents(edges);
    var memo: map<Id, nat> := map[];
    out := map[];
    var todo := deps.Keys;
    while todo != {}
      invariant todo <= deps.Keys && out.Keys == deps.Keys - todo
      invariant MemoOk(arcs, memo)
      invariant forall k :: k in out ==> out[k] == ChainLength(arcs, k)
      decreases |todo|
    {
      var task :| task in todo;
      var n;
      n, memo := Length(arcs, deps, task, memo);
      out := out[task := n];
      todo := todo - {task};
    }
    forall t | t !in out ensures ChainLength(arcs, t) == 0 {
      NoDependentsNoChain(arcs, deps, t);
    }
  }

  lemma NoDependentsNoChain(arcs: set<Arc>, deps: map<Id, seq<Id>>, t: Id)
    requires Acyclic(arcs) && Adjacency(arcs, deps) && t !in deps
    ensures ChainLength(arcs, t) == 0
  {
    assert Neighbours(deps, t) == [];
    LongestStep(arcs, t, {}, 0);
    LongestUnique(arcs, t, 0, ChainLength(arcs, t));
  }

  lemma NoDependentsNothingDownstream(arcs: set<Arc>, deps: map<Id, seq<Id>>, t: Id)
    requires Adjacency(arcs, deps) && t !in deps
    ensures Downstream(arcs, t) == {}
  {
    assert Neighbours(deps, t) == [];
    forall x ensures x !in Downstream(arcs, t) {
      DownstreamAre(arcs, t, x);
      if ReachPlus(arcs, t, x) {
        var z := ReachPlusFirst(arcs, t, x);
      }
    }
  }

  // ---------------------------------------------------------------- transitive dependents

  ghost predicate Grown(arcs: set<Arc>, t: Id, seen: set<Id>, seen': set<Id>) {
    && seen <= seen'
    && (forall x :: x in seen' - seen ==> ReachPlus(arcs, t, x))
    && (forall x, y :: x in seen' - seen && (x, y) in arcs ==> y in seen')
  }

  ghost function Targets(arcs: set<Arc>): set<Id> {
    set a | a in arcs :: a.1
  }

  /** The recursive closure `walk`: depth-first marking. It terminates on any graph, since marks only grow. */
  method Walk(ghost arcs: set<Arc>, deps: map<Id, seq<Id>>, t: Id, seen: set<Id>) returns (seen': set<Id>)
    requires Adjacency(arcs, deps) && seen <= Targets(arcs)
    ensures Grown(arcs, t, seen, seen') && seen' <= Targets(arcs)
    ensures forall y :: (t, y) in arcs ==> y in seen'
    decreases |Targets(arcs) - seen|, 1
  {
    seen' := seen;
    var own := Neighbours(deps, t);
    for i := 0 to |own|
      invariant Grown(arcs, t, seen, seen') && seen' <= Targets(arcs)
      invariant Elems(own[..i]) <= seen'
    {
      ghost var before := seen';
      RemainderShrinks(Targets(arcs), seen, before);
      seen' := Visit(arcs, deps, t, own[i], seen');
      GrownTrans(arcs, t, seen, before, seen');
      TakeSnoc(own, i);
    }
    TakeAll(own);
  }

  /** One neighbour of t inside walk's loop. */
  method Visit(ghost arcs: set<Arc>, deps: map<Id, seq<Id>>, ghost t: Id, d: Id, seen: set<Id>) returns (seen': set<Id>)
    requires Adjacency(arcs, deps) && seen <= Targets(arcs) && (t, d) in arcs
    ensures Grown(arcs, t, seen, seen') && seen' <= Targets(arcs)
    ensures d in seen'
    decreases |Targets(arcs) - seen|, 0
  {
    if d in seen {
      return seen;
    }
    assert (t, d).1 in Targets(arcs);
    RemainderShrinks(Targets(arcs), seen, seen + {d});
    seen' := Walk(arcs, deps, d, seen + {d});
    GrownCompose(arcs, t, d, seen, seen');
  }

  lemma GrownTrans(arcs: set<Arc>, t: Id, a: set<Id>, b: set<Id>, c: set<Id>)
    requires Grown(arcs, t, a, b) && Grown(arcs, t, b, c)
    ensures Grown(arcs, t, a, c)
  {
  }

  lemma GrownCompose(arcs: set<Arc>, t: Id, d: Id, seen: set<Id>, after: set<Id>)
    requires (t, d) in arcs && Grown(arcs, d, seen + {d}, after)
    requires forall y :: (d, y) in arcs ==> y in after
    ensures Grown(arcs, t, seen, after)
  {
    ReachArc(arcs, t, d);
    forall x | x in after - seen ensures ReachPlus(arcs, t, x) {
      if x != d {
        ReachPlusReach(arcs, d, x);
        ReachTrans(arcs, t, d, x);
      }
    }
  }

  lemma WalkFindsDownstream(arcs: set<Arc>, t: Id, seen: set<Id>)
    requires Grown(arcs, t, {}, seen) && forall y :: (t, y) in arcs ==> y in seen
    ensures seen == Downstream(arcs, t)
  {
    forall x ensures x in seen <==> x in Downstream(arcs, t) {
      DownstreamAre(arcs, t, x);
      if ReachPlus(arcs, t, x) {
        var z := ReachPlusFirst(arcs, t, x);
        var p :| PathFrom(arcs, p, z, x);
        ClosedPath(arcs, seen, p);
      }
    }
  }

  /** unlockCounts: how many distinct tasks depend, directly or transitively, on each task. */
  method UnlockCounts(edges: seq<Edge>) returns (counts: map<Id, nat>)
    ensures forall t :: (if t in counts then counts[t] else 0) == |Downstream(DependentArcs(edges), t)|
  {
    ghost var arcs := DependentArcs(edges);
    var deps := Dependents(edges);
    counts := map[];
    var todo := deps.Keys;
    while todo != {}
      invariant todo <= deps.Keys && counts.Keys == deps.Keys - todo
      invariant forall t :: t in counts ==> counts[t] == |Downstream(arcs, t)|
      decreases |todo|
    {
      var task :| task in todo;
      var seen := Walk(arcs, deps, task, {});
      WalkFindsDownstream(arcs, task, seen);
      counts := counts[task := |seen|];
      todo := todo - {task};
    }
    forall t | t !in counts ensures Downstream(arcs, t) == {} {
      NoDependentsNothingDownstream(arcs, deps, t);
    }
  }

  // ---------------------------------------------------------------- ranking

  datatype Candidate = Candidate(id: Id, lane: Lane)

  /** A lane's rank in the order of priority.go: chain length, unlock count, age, id. */
  datatype Rank = Rank(chain: nat, unlocks: nat, createdAt: Time, id: Id)

  predicate Before(a: Rank, b: Rank) {
    if a.chain != b.chain then a.chain > b.chain
    else if a.unlocks != b.unlocks then a.unlocks > b.unlocks
    else if a.createdAt != b.createdAt then a.createdAt < b.createdAt
    else StrLess(a.id, b.id)
  }

  lemma BeforeTotal(a: Rank, b: Rank)
    ensures a.id != b.id ==> Before(a, b) || Before(b, a)
    ensures !(Before(a, b) && Before(b, a))
  {
    StrLessTotal(a.id, b.id);
  }

  lemma BeforeTrans(a: Rank, b: Rank, c: Rank)
    requires !Before(b, a) && !Before(c, b)
    ensures !Before(c, a)
  {
    StrLessTotal(a.id, b.id);
    StrLessTotal(b.id, c.id);
    StrLessTotal(a.id, c.id);
    if StrLess(a.id, b.id) && StrLess(b.id, c.id) {
      StrLessTrans(a.id, b.id, c.id);
    }
  }

  /** The rank an acyclic edge set gives a lane; a lane without a task ranks like the task "". */
  ghost function RankOf(edges: seq<Edge>, c: Candidate): Rank
    requires Acyclic(DependentArcs(edges))
  {
    var arcs := DependentArcs(edges);
    Rank(ChainLength(arcs, c.lane.parentTask), |Downstream(arcs, c.lane.parentTask)|, c.lane.createdAt, c.id)
  }

  /** A chain below a dependent extends to a longer chain below what it depends on. */
  lemma UpstreamRanksFirst(edges: seq<Edge>, a: Candidate, b: Candidate)
    requires Acyclic(DependentArcs(edges))
    requires ReachPlus(DependentArcs(edges), a.lane.parentTask, b.lane.parentTask)
    ensures Before(RankOf(edges, a), RankOf(edges, b))
  {
    var arcs := DependentArcs(edges);
    var t, u := a.lane.parentTask, b.lane.parentTask;
    var p :| PathFrom(arcs, p, t, u) && |p| >= 2;
    assert Longest(arcs, u, ChainLength(arcs, u)) && Longest(arcs, t, ChainLength(arcs, t));
    var q :| IsPath(arcs, q) && q[0] == u && |q| == ChainLength(arcs, u) + 1;
    assert PathFrom(arcs, q, u, q[|q| - 1]);
    PathJoin(arcs, p, q, t, u, q[|q| - 1]);
    assert IsPath(arcs, p + q[1..]) && (p + q[1..])[0] == t;
  }

  method RankNow(lengths: map<Id, nat>, unlocks: map<Id, nat>, c: Candidate) returns (r: Rank)
    ensures r == Rank(if c.lane.parentTask in lengths then lengths[c.lane.parentTask] else 0,
                      if c.lane.parentTask in unlocks then unlocks[c.lane.parentTask] else 0, c.lane.createdAt, c.id)
  {
    var task := c.lane.parentTask;
    r := Rank(if task in lengths then lengths[task] else 0, if task in unlocks then unlocks[task] else 0,
              c.lane.createdAt, c.id);
  }

  ghost predicate InOrder(edges: seq<Edge>, a: Candidate, b: Candidate)
    requires Acyclic(DependentArcs(edges))
  {
    !Before(RankOf(edges, b), RankOf(edges, a))
  }

  lemma InOrderTrans(edges: seq<Edge>, a: Candidate, b: Candidate, c: Candidate)
    requires Acyclic(DependentArcs(edges))
    requires InOrder(edges, a, b) && InOrder(edges, b, c)
    ensures InOrder(edges, a, c)
  {
    BeforeTrans(RankOf(edges, a), RankOf(edges, b), RankOf(edges, c));
  }

  method SwapBack(lanes: array<Candidate>, j: nat)
    requires 0 < j < lanes.Length
    modifies lanes
    ensures lanes[j] == old(lanes[j - 1]) && lanes[j - 1] == old(lanes[j])
    ensures forall p :: 0 <= p < lanes.Length && p != j && p != j - 1 ==> lanes[p] == old(lanes[p])
    ensures multiset(lanes[..]) == multiset(old(lanes[..]))
  {
    lanes[j - 1], lanes[j] := lanes[j], lanes[j - 1];
  }

  /** Once the left neighbour is in order, everything further left is. */
  lemma SunkEnough(lanes: seq<Candidate>, edges: seq<Edge>, j: nat)
    requires Acyclic(DependentArcs(edges)) && 0 < j < |lanes| && InOrder(edges, lanes[j - 1], lanes[j])
    requires forall p :: 0 <= p < j - 1 ==> InOrder(edges, lanes[p], lanes[j - 1])
    ensures forall p :: 0 <= p < j ==> InOrder(edges, lanes[p], lanes[j])
  {
    forall p | 0 <= p < j - 1 ensures InOrder(edges, lanes[p], lanes[j]) {
      InOrderTrans(edges, lanes[p], lanes[j - 1], lanes[j]);
    }
  }

  /** Moves the last lane of a ranked prefix to its place. */
  method SinkLast(lanes: array<Candidate>, edges: seq<Edge>, lengths: map<Id, nat>, unlocks: map<Id, nat>, n: nat)
    requires Acyclic(DependentArcs(edges)) && n < lanes.Length
    requires forall t :: (if t in lengths then lengths[t] else 0) == ChainLength(DependentArcs(edges), t)
    requires forall t :: (if t in unlocks then unlocks[t] else 0) == |Downstream(DependentArcs(edges), t)|
    requires forall p, q :: 0 <= p < q < n ==> InOrder(edges, lanes[p], lanes[q])
    modifies lanes
    ensures multiset(lanes[..]) == multiset(old(lanes[..]))
    ensures forall p, q :: 0 <= p < q <= n ==> InOrder(edges, lanes[p], lanes[q])
  {
    var j := n;
    while j > 0
      invariant 0 <= j <= n
      invariant multiset(lanes[..]) == multiset(old(lanes[..]))
      invariant forall p, q :: 0 <= p < q <= n && q != j ==> InOrder(edges, lanes[p], lanes[q])
    {
      var here := RankNow(lengths, unlocks, lanes[j]);
      var left := RankNow(lengths, unlocks, lanes[j - 1]);
      if !Before(here, left) {
        SunkEnough(lanes[..], edges, j);
        return;
      }
      BeforeTotal(here, left);
      SwapBack(lanes, j);
      j := j - 1;
    }
  }

  /** RankLanes: sorts in place. The ranks of distinct ids never tie, so the sorted order is the only one. A lane
      always comes before every lane whose task depends, however indirectly, on its own. */
  method RankLanes(lanes: array<Candidate>, edges: seq<Edge>)
    requires Acyclic(DependentArcs(edges))
    modifies lanes
    ensures multiset(lanes[..]) == multiset(old(lanes[..]))
    ensures forall i, j :: 0 <= i < j < lanes.Length ==> InOrder(edges, lanes[i], lanes[j])
    ensures forall i, j :: 0 <= i < lanes.Length && 0 <= j < lanes.Length &&
              ReachPlus(DependentArcs(edges), lanes[i].lane.parentTask, lanes[j].lane.parentTask)
              ==> i < j
  {
    var lengths := CriticalPathLengths(edges);
    var unlocks := UnlockCounts(edges);
    for n := 0 to lanes.Length
      invariant multiset(lanes[..]) == multiset(old(lanes[..]))
      invariant forall i, j :: 0 <= i < j < n ==> InOrder(edges, lanes[i], lanes[j])
    {
      SinkLast(lanes, edges, lengths, unlocks, n);
    }
    forall i, j | 0 <= i < lanes.Length && 0 <= j < lanes.Length &&
      ReachPlus(DependentArcs(edges), lanes[i].lane.parentTask, lanes[j].lane.parentTask)
      ensures i < j
    {
      UpstreamRanksFirst(edges, lanes[i], lanes[j]);
      BeforeTotal(RankOf(edges, lanes[i]), RankOf(edges, lanes[j]));
    }
  }

  /** ChooseLane: filter the runnable lanes, rank them, take the first. */
  method ChooseLane(lanes: seq<Candidate>, edges: seq<Edge>) returns (best: Option<Candidate>)
    requires Acyclic(DependentArcs(edges))
    ensures best.None? <==> forall c :: c in lanes ==> c.lane.status != Runnable
    ensures best.Some? ==> best.value in lanes && best.value.lane.status == Runnable
    ensures best.Some? ==> forall c :: c in lanes && c.lane.status == Runnable ==>
              !Before(RankOf(edges, c), RankOf(edges, best.value))
  {
    var runnable: seq<Candidate> := [];
    for i := 0 to |lanes|
      invariant forall c :: c in runnable <==> c in lanes[..i] && c.lane.status == Runnable
    {
      assert lanes[..i + 1] == lanes[..i] + [lanes[i]];
      if lanes[i].lane.status == Runnable {
        runnable := runnable + [lanes[i]];
      }
    }
    assert lanes[..|lanes|] == lanes;
    if |runnable| == 0 {
      return None;
    }
    var ranked := new Candidate[|runnable|](i requires 0 <= i < |runnable| => runnable[i]);
    assert ranked[..] == runnable;
    RankLanes(ranked, edges);
    best := Some(ranked[0]);
    assert ranked[0] in multiset(ranked[..]);
    forall c | c in lanes && c.lane.status == Runnable
      ensures !Before(RankOf(edges, c), RankOf(edges, ranked[0]))
    {
      assert c in multiset(ranked[..]);
      var k :| 0 <= k < |ranked[..]| && ranked[..][k] == c;
      BeforeTotal(RankOf(edges, c), RankOf(edges, c));
      assert ranked[..][0] == ranked[0];
    }
  }
}
