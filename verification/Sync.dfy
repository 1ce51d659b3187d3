/** SyncFrontier's effect on a log (internal/delivery/scheduler.go:44-161).
    Go iterates maps in any order, so the order of tasks, of edges, and which of several lanes of one task is kept
    are parameters here, and everything is proved for all of them. */
module Sync {
  import opened Core
  import opened Events
  import opened Reduce
  import opened Graph
  import opened LaneRules

  // ---------------------------------------------------------------- sameBlockers

  /** Same length, and every element of b occurs in a. */
  predicate SameBlockers(a: seq<Id>, b: seq<Id>) {
    |a| == |b| && forall x :: x in b ==> x in a
  }

  /** sameBlockers: collect a, then look up every element of b. */
  method CompareBlockers(a: seq<Id>, b: seq<Id>) returns (same: bool)
    ensures same <==> SameBlockers(a, b)
  {
    if |a| != |b| {
      return false;
    }
    var seen: set<Id> := {};
    for i := 0 to |a|
      invariant seen == Elems(a[..i])
    {
      TakeSnoc(a, i);
      seen := seen + {a[i]};
    }
    TakeAll(a);
    for i := 0 to |b|
      invariant forall k :: 0 <= k < i ==> b[k] in a
    {
      if b[i] !in seen {
        return false;
      }
    }
    return true;
  }

  /** Some id longer than, hence different from, all of `b`. */
  lemma {:induction false} OtherId(b: seq<Id>) returns (x: Id)
    ensures x !in b && forall y :: y in b ==> |y| < |x|
  {
    if b == [] {
      x := "";
    } else {
      x := OtherId(b[1..]);
      assert b == [b[0]] + b[1..];
      x := x + b[0] + "x";
    }
  }

  /** What the comparison misses: it accepts `a` although `a` names something `b` does not. */
  ghost predicate Hides(a: seq<Id>, b: seq<Id>) {
    SameBlockers(a, b) && exists x :: x in a && x !in b
  }

  /** The comparison is one-sided: no list whatever hides a change from it exactly when the list it checks against
      repeats nothing. */
  lemma SameBlockersExact(b: seq<Id>)
    ensures (forall a :: !Hides(a, b)) <==> NoDup(b)
  {
    if NoDup(b) {
      forall a | SameBlockers(a, b) ensures Elems(a) == Elems(b) {
        NoDupSameBlockers(a, b);
      }
      assert forall a, x :: SameBlockers(a, b) && x in a ==> x in Elems(a);
    } else {
      var i, j :| 0 <= i < j < |b| && b[i] == b[j];
      var a := HidingList(b, i, j);
    }
  }

  /** A list that hides a change from a list with a repetition. */
  lemma HidingList(b: seq<Id>, i: nat, j: nat) returns (a: seq<Id>)
    requires i < j < |b| && b[i] == b[j]
    ensures Hides(a, b)
  {
    var x := OtherId(b);
    a := b[j := x];
    forall y | y in b ensures y in a {
      var k :| 0 <= k < |b| && b[k] == y;
      assert a[if k == j then i else k] == y;
    }
    assert a[j] == x;
  }

  lemma NoDupSameBlockers(a: seq<Id>, b: seq<Id>)
    requires NoDup(b) && SameBlockers(a, b)
    ensures Elems(a) == Elems(b)
  {
    NoDupCard(b);
    ElemsCard(a);
    SubsetCard(Elems(b), Elems(a));
  }

  // ---------------------------------------------------------------- the batch

  type LaneTable = map<Id, Lane>

  /** laneByTask: for every task some lane names, one lane that names it. */
  ghost predicate PickOk(lanes: LaneTable, pick: map<Id, Id>) {
    && (forall t :: t in pick ==> t != "" && pick[t] in lanes && lanes[pick[t]].parentTask == t)
    && (forall id :: id in lanes && lanes[id].parentTask != "" ==> lanes[id].parentTask in pick)
  }

  /** The tasks whose lane is accepted. */
  function ResolvedTasks(lanes: LaneTable, pick: map<Id, Id>): set<Id> {
    set t | t in pick && pick[t] in lanes && lanes[pick[t]].status == Accepted
  }

  /** What one lane is told, given its task's blockers. */
  function Told(lane: Lane, blockers: seq<Id>): seq<Body> {
    if !Unleased(lane.status) then []
    else if blockers == [] then (if lane.status == Runnable then [] else [LaneUnblocked])
    else if SameBlockers(lane.blockedBy, blockers) then []
    else [LaneBlocked(blockers)]
  }

  function SyncStep(lanes: LaneTable, tasks: set<Id>, pick: map<Id, Id>, edges: seq<Edge>, t: Id): seq<Body>
    requires t in pick && pick[t] in lanes
  {
    if t !in tasks then [] else Told(lanes[pick[t]], Blockers(t, edges, ResolvedTasks(lanes, pick)))
  }

  function Scoped(id: Id, bodies: seq<Body>): seq<Event> {
    seq(|bodies|, i requires 0 <= i < |bodies| => Event(Some(id), bodies[i]))
  }

  /** All the events of one call, tasks taken in the given order. */
  function SyncBatch(lanes: LaneTable, tasks: set<Id>, pick: map<Id, Id>, edges: seq<Edge>, order: seq<Id>): seq<Event>
    requires forall t :: t in order ==> t in pick && pick[t] in lanes
  {
    if order == [] then []
    else
      var n := |order| - 1;
      assert order[n] in order;
      SyncBatch(lanes, tasks, pick, edges, order[..n]) +
      Scoped(pick[order[n]], SyncStep(lanes, tasks, pick, edges, order[n]))
  }

  lemma OwnScoped(id: Id, other: Id, bodies: seq<Body>)
    requires |bodies| <= 1
    ensures Own(id, Scoped(other, bodies)) == if id == other then bodies else []
  {
    if bodies != [] {
      var s := Scoped(other, bodies);
      assert s == [] + [Event(Some(other), bodies[0])];
      OwnAppend(id, [], Event(Some(other), bodies[0]));
    }
  }

  /** In one batch a picked lane sees exactly its own task's step, and any other entity sees nothing. */
  lemma {:induction false} OwnSyncBatch(lanes: LaneTable, tasks: set<Id>, pick: map<Id, Id>, edges: seq<Edge>,
                                        order: seq<Id>, id: Id)
    requires PickOk(lanes, pick) && NoDup(order) && forall t :: t in order ==> t in pick
    ensures Own(id, SyncBatch(lanes, tasks, pick, edges, order)) ==
              if id in lanes && lanes[id].parentTask in order && pick[lanes[id].parentTask] == id
              then SyncStep(lanes, tasks, pick, edges, lanes[id].parentTask)
              else []
  {
    if order != [] {
      var n := |order| - 1;
      var t := order[n];
      TakeSnoc(order, n);
      TakeAll(order);
      OwnSyncBatch(lanes, tasks, pick, edges, order[..n], id);
      var step := SyncStep(lanes, tasks, pick, edges, t);
      OwnConcat(id, SyncBatch(lanes, tasks, pick, edges, order[..n]), Scoped(pick[t], step));
      OwnScoped(id, pick[t], step);
      assert t !in order[..n];
      assert forall u :: u in order <==> u in order[..n] || u == t;
    }
  }

  // ---------------------------------------------------------------- blockers, edge by edge

  /** Edge e keeps task t waiting. */
  predicate Holds(e: Edge, t: Id, resolved: set<Id>) {
    Blocking(e.edgeType) && e.from == t && e.to !in resolved
  }

  /** Two of the edges keep t waiting for one and the same task. */
  ghost predicate HeldTwice(t: Id, edges: seq<Edge>, resolved: set<Id>) {
    exists i, j :: 0 <= i < j < |edges| && Holds(edges[i], t, resolved) && Holds(edges[j], t, resolved) &&
      edges[i].to == edges[j].to
  }

  lemma BlockersSnoc(t: Id, edges: seq<Edge>, e: Edge, resolved: set<Id>)
    ensures Blockers(t, edges + [e], resolved) == Blockers(t, edges, resolved) + if Holds(e, t, resolved) then [e.to] else []
  {
    assert (edges + [e])[..|edges|] == edges;
    var own := Predecessors(t, edges);
    assert (own + [e.to])[..|own|] == own;
  }

  lemma {:induction false} BlockersConcat(t: Id, a: seq<Edge>, b: seq<Edge>, resolved: set<Id>)
    ensures Blockers(t, a + b, resolved) == Blockers(t, a, resolved) + Blockers(t, b, resolved)
  {
    if b == [] {
      assert a + b == a;
    } else {
      var n := |b| - 1;
      BlockersConcat(t, a, b[..n], resolved);
      assert a + b == a + b[..n] + [b[n]] && b == b[..n] + [b[n]];
      BlockersSnoc(t, a + b[..n], b[n], resolved);
      BlockersSnoc(t, b[..n], b[n], resolved);
    }
  }

  /** The list of blockers repeats an id exactly when two edges keep the task waiting for it. */
  lemma {:induction false} BlockersRepeat(t: Id, edges: seq<Edge>, resolved: set<Id>)
    ensures NoDup(Blockers(t, edges, resolved)) <==> !HeldTwice(t, edges, resolved)
  {
    if edges != [] {
      var n := |edges| - 1;
      var init, e := edges[..n], edges[n];
      BlockersRepeat(t, init, resolved);
      assert edges == init + [e];
      BlockersSnoc(t, init, e, resolved);
      HolderIs(t, init, resolved, e.to);
      var before := Blockers(t, init, resolved);
      assert NoDup(before + [e.to]) <==> NoDup(before) && e.to !in before by {
        NoDupSnoc(before, e.to);
      }
      HeldTwiceSnoc(t, init, e, resolved);
    }
  }

  lemma NoDupSnoc(s: seq<Id>, x: Id)
    ensures NoDup(s + [x]) <==> NoDup(s) && x !in s
  {
    var all := s + [x];
    assert all[|s|] == x && forall i :: 0 <= i < |s| ==> all[i] == s[i];
    if NoDup(all) {
      assert forall i :: 0 <= i < |s| ==> s[i] != all[|s|];
    }
  }

  lemma HolderIs(t: Id, edges: seq<Edge>, resolved: set<Id>, x: Id)
    ensures x in Blockers(t, edges, resolved) <==>
            exists i :: 0 <= i < |edges| && Holds(edges[i], t, resolved) && edges[i].to == x
  {
    BlockersAre(t, edges, resolved, x);
  }

  lemma HeldTwiceSnoc(t: Id, edges: seq<Edge>, e: Edge, resolved: set<Id>)
    ensures HeldTwice(t, edges + [e], resolved) <==>
            || HeldTwice(t, edges, resolved)
            || (Holds(e, t, resolved) && exists i :: 0 <= i < |edges| && Holds(edges[i], t, resolved) && edges[i].to == e.to)
  {
    var all := edges + [e];
    assert all[|edges|] == e && forall i :: 0 <= i < |edges| ==> all[i] == edges[i];
    if HeldTwice(t, edges, resolved) {
      var i, j :| 0 <= i < j < |edges| && Holds(edges[i], t, resolved) && Holds(edges[j], t, resolved) && edges[i].to == edges[j].to;
      assert Holds(all[i], t, resolved) && Holds(all[j], t, resolved);
    }
    if i :| 0 <= i < |edges| && Holds(edges[i], t, resolved) && edges[i].to == e.to && Holds(e, t, resolved) {
      assert Holds(all[i], t, resolved) && Holds(all[|edges|], t, resolved);
    }
  }

  lemma BlockersWithout(t: Id, front: seq<Edge>, e: Edge, back: seq<Edge>, resolved: set<Id>)
    ensures multiset(Blockers(t, front + [e] + back, resolved)) ==
            multiset(Blockers(t, front + back, resolved)) + if Holds(e, t, resolved) then multiset{e.to} else multiset{}
  {
    BlockersConcat(t, front, back, resolved);
    BlockersConcat(t, front + [e], back, resolved);
    BlockersSnoc(t, front, e, resolved);
  }

  /** The same edges in another order give the same blockers in another order. */
  lemma {:induction false} BlockersPermute(t: Id, edges: seq<Edge>, again: seq<Edge>, resolved: set<Id>)
    requires multiset(edges) == multiset(again)
    ensures multiset(Blockers(t, edges, resolved)) == multiset(Blockers(t, again, resolved))
    decreases |edges|
  {
    if edges == [] {
      assert |multiset(again)| == 0;
    } else {
      var init, e := edges[..|edges| - 1], edges[|edges| - 1];
      assert edges == init + [e];
      assert e in multiset(again);
      var front, back := CutOut(again, e);
      assert multiset(init) == multiset(edges) - multiset{e} == multiset(front + back);
      BlockersPermute(t, init, front + back, resolved);
      BlockersSnoc(t, init, e, resolved);
      BlockersWithout(t, front, e, back, resolved);
    }
  }

  // ---------------------------------------------------------------- what a call achieves

  /** The lane's status says what the task graph says, runnable exactly when no blocker is left, and sameBlockers has
      nothing to object to what is recorded on it. */
  ghost predicate Settled(l: Lane, blockers: seq<Id>) {
    if blockers == [] then l.status == Runnable && l.blockedBy == []
    else l.status == Blocked && SameBlockers(l.blockedBy, blockers)
  }

  /** blockedBy is only left over on blocked or terminal lanes. */
  ghost predicate BlockersOnlyWhenBlocked(l: Lane) {
    l.blockedBy != [] ==> l.status == Blocked || IsLaneTerminal(l.status)
  }

  /** A lane that was told is settled, with its blockers listed exactly unless the comparison hid a change. */
  lemma ToldAchieves(l: Lane, blockers: seq<Id>)
    requires BlockersOnlyWhenBlocked(l)
    ensures FoldLane(l, Told(l, blockers)).Ok?
    ensures var after := FoldLane(l, Told(l, blockers)).value;
            if Unleased(l.status)
            then Settled(after, blockers) && (Elems(after.blockedBy) == Elems(blockers) <==> !Hides(l.blockedBy, blockers))
            else after == l
  {
    var told := Told(l, blockers);
    if told != [] {
      assert told[..0] == [];
      assert FoldLane(l, told) == StepLane(l, told[0]);
    } else if Unleased(l.status) {
      HidingIs(l.blockedBy, blockers);
    }
  }

  lemma HidingIs(a: seq<Id>, b: seq<Id>)
    ensures SameBlockers(a, b) ==> (Hides(a, b) <==> Elems(a) != Elems(b))
  {
    assert forall x :: (x in a <==> x in Elems(a)) && (x in b <==> x in Elems(b));
    if SameBlockers(a, b) && Elems(a) != Elems(b) {
      assert Elems(b) <= Elems(a);
      var x :| x in Elems(a) && x !in Elems(b);
    }
  }

  ghost predicate Enumerates(order: seq<Id>, s: set<Id>) {
    NoDup(order) && Elems(order) == s
  }

  ghost predicate Shows(log: seq<Event>, lanes: LaneTable) {
    && lanes.Keys == LaneIds(log)
    && forall id :: id in lanes ==> LaneOf(id, log) == Ok(lanes[id])
  }

  ghost predicate Picked(lanes: LaneTable, tasks: set<Id>, pick: map<Id, Id>, id: Id) {
    id in lanes && lanes[id].parentTask in tasks && lanes[id].parentTask in pick && pick[lanes[id].parentTask] == id
  }

  /** After one call every picked lane that was waiting, blocked or runnable is settled, and every other lane is exactly as
      before; on any edges, parallel ones too. */
  lemma SyncAchieves(log: seq<Event>, lanes: LaneTable, tasks: set<Id>, pick: map<Id, Id>, edges: seq<Edge>,
                     order: seq<Id>, id: Id)
    requires Shows(log, lanes) && PickOk(lanes, pick) && Enumerates(order, pick.Keys)
    requires id in lanes && BlockersOnlyWhenBlocked(lanes[id])
    ensures var after := LaneOf(id, log + SyncBatch(lanes, tasks, pick, edges, order));
            && after.Ok?
            && if Picked(lanes, tasks, pick, id) && Unleased(lanes[id].status)
               then Settled(after.value, Blockers(lanes[id].parentTask, edges, ResolvedTasks(lanes, pick)))
               else after.value == lanes[id]
  {
    SyncTells(log, lanes, tasks, pick, edges, order, id);
    ToldAchieves(lanes[id], Blockers(lanes[id].parentTask, edges, ResolvedTasks(lanes, pick)));
  }

  /** What one call tells one lane. */
  lemma SyncTells(log: seq<Event>, lanes: LaneTable, tasks: set<Id>, pick: map<Id, Id>, edges: seq<Edge>, order: seq<Id>,
                  id: Id)
    requires Shows(log, lanes) && PickOk(lanes, pick) && Enumerates(order, pick.Keys) && id in lanes
    ensures LaneOf(id, log + SyncBatch(lanes, tasks, pick, edges, order)) ==
            if Picked(lanes, tasks, pick, id)
            then FoldLane(lanes[id], Told(lanes[id], Blockers(lanes[id].parentTask, edges, ResolvedTasks(lanes, pick))))
            else Ok(lanes[id])
  {
    LaneOfBatch(id, log, SyncBatch(lanes, tasks, pick, edges, order));
    OwnSyncBatch(lanes, tasks, pick, edges, order, id);
    assert lanes[id].parentTask in pick ==> lanes[id].parentTask in Elems(order);
  }

  /** The blockers recorded after a call are exactly the task's unresolved predecessors if and only if the comparison hid
      nothing on the lane as it was, which it cannot do unless two edges keep the task waiting for one and the same task. */
  lemma SyncExactly(log: seq<Event>, lanes: LaneTable, tasks: set<Id>, pick: map<Id, Id>, edges: seq<Edge>,
                    order: seq<Id>, id: Id)
    requires Shows(log, lanes) && PickOk(lanes, pick) && Enumerates(order, pick.Keys)
    requires id in lanes && BlockersOnlyWhenBlocked(lanes[id])
    requires Picked(lanes, tasks, pick, id) && Unleased(lanes[id].status)
    ensures LaneOf(id, log + SyncBatch(lanes, tasks, pick, edges, order)).Ok?
    ensures var after := LaneOf(id, log + SyncBatch(lanes, tasks, pick, edges, order)).value;
            var t, resolved := lanes[id].parentTask, ResolvedTasks(lanes, pick);
      && (Elems(after.blockedBy) == Elems(Blockers(t, edges, resolved)) <==>
            !Hides(lanes[id].blockedBy, Blockers(t, edges, resolved)))
      && (!HeldTwice(t, edges, resolved) <==> forall was :: !Hides(was, Blockers(t, edges, resolved)))
  {
    var blockers := Blockers(lanes[id].parentTask, edges, ResolvedTasks(lanes, pick));
    SyncTells(log, lanes, tasks, pick, edges, order, id);
    ToldAchieves(lanes[id], blockers);
    BlockersRepeat(lanes[id].parentTask, edges, ResolvedTasks(lanes, pick));
    SameBlockersExact(blockers);
  }

  lemma SyncKeepsAccepted(log: seq<Event>, lanes: LaneTable, after: LaneTable, tasks: set<Id>, pick: map<Id, Id>,
                          edges: seq<Edge>, order: seq<Id>, t: Id)
    requires Shows(log, lanes) && PickOk(lanes, pick) && Enumerates(order, pick.Keys)
    requires t in pick && BlockersOnlyWhenBlocked(lanes[pick[t]])
    requires Shows(log + SyncBatch(lanes, tasks, pick, edges, order), after) && pick[t] in after
    ensures after[pick[t]].status == Accepted <==> lanes[pick[t]].status == Accepted
  {
    SyncAchieves(log, lanes, tasks, pick, edges, order, pick[t]);
  }

  /** Which lanes are accepted does not change, so neither do the blockers. */
  lemma SyncKeepsResolved(log: seq<Event>, lanes: LaneTable, after: LaneTable, tasks: set<Id>, pick: map<Id, Id>,
                          edges: seq<Edge>, order: seq<Id>)
    requires Shows(log, lanes) && PickOk(lanes, pick) && Enumerates(order, pick.Keys)
    requires forall id :: id in lanes ==> BlockersOnlyWhenBlocked(lanes[id])
    requires Shows(log + SyncBatch(lanes, tasks, pick, edges, order), after) && after.Keys == lanes.Keys
    ensures ResolvedTasks(after, pick) == ResolvedTasks(lanes, pick)
  {
    forall t | t in pick ensures after[pick[t]].status == Accepted <==> lanes[pick[t]].status == Accepted {
      SyncKeepsAccepted(log, lanes, after, tasks, pick, edges, order, t);
    }
  }

  /** A settled lane is told nothing, in whatever order its blockers are listed this time. */
  lemma SettledIsQuiet(lane: Lane, was: seq<Id>, now: seq<Id>)
    requires Settled(lane, was) && multiset(was) == multiset(now)
    ensures Told(lane, now) == []
  {
    assert |was| == |multiset(was)| == |multiset(now)| == |now|;
    forall x | x in now ensures x in lane.blockedBy {
      assert x in multiset(now);
      assert x in multiset(was);
    }
  }

  lemma {:induction false} QuietBatch(lanes: LaneTable, tasks: set<Id>, pick: map<Id, Id>, edges: seq<Edge>,
                                      order: seq<Id>)
    requires forall t :: t in order ==> t in pick && pick[t] in lanes && SyncStep(lanes, tasks, pick, edges, t) == []
    ensures SyncBatch(lanes, tasks, pick, edges, order) == []
  {
    if order != [] {
      QuietBatch(lanes, tasks, pick, edges, order[..|order| - 1]);
      assert order[|order| - 1] in order;
    }
  }

  /** A second call on an unchanged graph appends nothing, in any order of tasks and edges. */
  lemma SecondSyncIsQuiet(log: seq<Event>, lanes: LaneTable, after: LaneTable, tasks: set<Id>, pick: map<Id, Id>,
                          edges: seq<Edge>, order: seq<Id>, edges': seq<Edge>, order': seq<Id>)
    requires Shows(log, lanes) && PickOk(lanes, pick) && Enumerates(order, pick.Keys) && Enumerates(order', pick.Keys)
    requires forall id :: id in lanes ==> BlockersOnlyWhenBlocked(lanes[id])
    requires multiset(edges) == multiset(edges')
    requires Shows(log + SyncBatch(lanes, tasks, pick, edges, order), after) && after.Keys == lanes.Keys
    ensures (forall t :: t in order' ==> t in pick && pick[t] in after)
    ensures SyncBatch(after, tasks, pick, edges', order') == []
  {
    var resolved := ResolvedTasks(lanes, pick);
    SyncKeepsResolved(log, lanes, after, tasks, pick, edges, order);
    forall t | t in order' ensures t in pick && pick[t] in after && SyncStep(after, tasks, pick, edges', t) == [] {
      assert t in Elems(order');
      SyncAchieves(log, lanes, tasks, pick, edges, order, pick[t]);
      if t in tasks && Unleased(lanes[pick[t]].status) {
        BlockersPermute(t, edges, edges', resolved);
        SettledIsQuiet(after[pick[t]], Blockers(t, edges, resolved), Blockers(t, edges', resolved));
      }
    }
    QuietBatch(after, tasks, pick, edges', order');
  }
}
