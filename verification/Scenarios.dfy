/** Concrete runs from the empty control plane in which something fails that its users would expect to hold. */
module Scenarios {
  import opened Core
  import opened Events
  import opened Reduce
  import Graph
  import opened LaneRules
  import opened World
  import opened Operations
  import opened Lifetime
  import opened Machine
  import opened Guarantees
  import opened Workflow
  import Sync

  // ---------------------------------------------------------------- runs on one log

  /** A reachable state with one orchestration, "o", and one registered project, "p". */
  ghost predicate At(w: State, defs: map<Id, Required>) {
    Reachable(w) && w.logs.Keys == {"o"} && w.projects == map["p" := true] && w.definitions == defs
  }

  lemma ReachableNext(w: State, s: Step)
    requires Reachable(w) && DisciplinedStep(w, s)
    ensures Reachable(Next(w, s))
  {
    var steps :| DisciplinedRun(Init(w.definitions), steps) && Run(Init(w.definitions), steps) == w;
    RunSnoc(Init(w.definitions), steps, s);
    DefinitionsStay(w, s);
  }

  function Created(workflow: Id): Event {
    Event(None, OrchestrationCreated([], workflow))
  }

  lemma Registered(defs: map<Id, Required>) returns (w: State)
    ensures Reachable(w) && w.logs == map[] && w.projects == map["p" := true] && w.definitions == defs
  {
    var w0 := Init(defs);
    assert DisciplinedRun(w0, []) && Run(w0, []) == w0;
    w := Next(w0, Step.Global("register", Register("p", true)));
    ReachableNext(w0, Step.Global("register", Register("p", true)));
  }

  lemma Begin(defs: map<Id, Required>, workflow: Id) returns (w: State)
    ensures At(w, defs) && w.logs["o"] == [Created(workflow)]
  {
    var w0 := Registered(defs);
    var key := FreshKey(w0.audit);
    var s := Step.Global(key, NewOrchestration("o", [], workflow));
    w := Next(w0, s);
    ReachableNext(w0, s);
  }

  /** A call that appends one event. */
  lemma Does(w: State, defs: map<Id, Required>, call: Call, ev: Event) returns (w': State)
    requires At(w, defs) && Disciplined(w, "o", call) && Decide(w, "o", call) == Ok([ev])
    ensures At(w', defs) && w'.logs["o"] == w.logs["o"] + [ev]
  {
    var key := FreshKey(w.audit);
    AppendAllFrame(w, "o", [ev]);
    w' := Next(w, OnLog(key, "o", call));
    ReachableNext(w, OnLog(key, "o", call));
  }

  // ---------------------------------------------------------------- what a log shows

  /** Ends of a "requires" edge, and whether it is active. */
  datatype Link = Link(from: Id, to: Id, active: bool)

  datatype Facts = Facts(workflow: Id, sources: set<Id>, tasks: set<Id>, links: map<Id, Link>, lane: Option<Lane>)

  ghost predicate LinksAre(log: seq<Event>, links: map<Id, Link>) {
    forall id :: if id in links then EdgeOf(id, log).Ok? && LinkIs(EdgeOf(id, log).value, links[id])
                 else EdgeOf(id, log) == Err(NotFound)
  }

  /** The tasks were created and not routed. */
  ghost predicate Unrouted(log: seq<Event>, tasks: set<Id>) {
    forall t :: if t in tasks then |OwnTask(t, log)| == 1 && OwnTask(t, log)[0].TaskCreated? else OwnTask(t, log) == []
  }

  predicate LinkIs(e: Edge, link: Link) {
    e.from == link.from && e.to == link.to && e.edgeType == Requires && e.active == link.active
  }

  /** The log of an open orchestration with these sources, tasks and edges, and at most one lane, "l". */
  ghost predicate Has(log: seq<Event>, f: Facts) {
    && OrchOf(log).Ok? && !IsTerminal(OrchOf(log).value.status) && OrchOf(log).value.workflow == f.workflow
    && CapturedSources(log) == f.sources
    && TaskIds(log) == f.tasks && Unrouted(log, f.tasks)
    && LinksAre(log, f.links)
    && LaneIds(log) == (if f.lane.Some? then {"l"} else {})
    && (if f.lane.Some? then LaneOf("l", log) == Ok(f.lane.value) else Own("l", log) == [])
  }

  lemma SourcesAppend(log: seq<Event>, ev: Event)
    ensures CapturedSources(log + [ev]) ==
            CapturedSources(log) + if ev.body.RequirementCaptured? && ev.entity.Some? then {ev.entity.value} else {}
  {
    var more := log + [ev];
    assert more[|log|] == ev && forall i :: 0 <= i < |log| ==> more[i] == log[i];
    forall id | id in CapturedSources(log) ensures id in CapturedSources(more) {
      var i :| 0 <= i < |log| && log[i].body.RequirementCaptured? && log[i].entity == Some(id);
      assert more[i] == log[i];
    }
  }

  /** Views that an event of another kind leaves alone. */
  lemma OtherKind(log: seq<Event>, ev: Event, f: Facts)
    requires Has(log, f) && ev.entity.Some?
    ensures OrchOf(log + [ev]) == OrchOf(log)
    ensures !ev.body.RequirementCaptured? ==> CapturedSources(log + [ev]) == f.sources
    ensures !ev.body.TaskCreated? ==> TaskIds(log + [ev]) == f.tasks
    ensures !IsTaskBody(ev.body) ==> Unrouted(log + [ev], f.tasks)
    ensures !IsEdgeBody(ev.body) ==> LinksAre(log + [ev], f.links)
    ensures !ev.body.LaneCreated? ==> LaneIds(log + [ev]) == LaneIds(log)
    ensures ev.entity != Some("l") ==> LaneOf("l", log + [ev]) == LaneOf("l", log) && Own("l", log + [ev]) == Own("l", log)
  {
    OrchOfAppend(log, ev);
    SourcesAppend(log, ev);
    TaskIdsAppend(log, ev);
    assert (log + [ev])[..|log|] == log;
    if !IsTaskBody(ev.body) {
      assert forall t :: OwnTask(t, log + [ev]) == OwnTask(t, log);
    }
    if !IsEdgeBody(ev.body) {
      assert forall id :: OwnEdge(id, log + [ev]) == OwnEdge(id, log);
    }
    LaneIdsAppend(log, ev);
    OwnAppend("l", log, ev);
  }

  lemma HasBegun(workflow: Id)
    ensures Has([Created(workflow)], Facts(workflow, {}, {}, map[], None))
  {
    var log := [Created(workflow)];
    assert log[..0] == [];
    assert FoldOrch([]) == Ok(NEW_ORCHESTRATION);
    CreatedLogInv(log[0], map[], 0);
    assert LaneIds(log) == {} && TaskIds(log) == {} && CapturedSources(log) == {};
    assert forall id :: OwnEdge(id, log) == OwnEdge(id, []) == [];
    assert forall id :: OwnTask(id, log) == OwnTask(id, []) == [];
    assert Own("l", log) == Own("l", []) == [];
  }

  lemma HasSource(log: seq<Event>, f: Facts, ev: Event)
    requires Has(log, f) && ev.body.RequirementCaptured? && ev.entity.Some? && ev.entity != Some("l")
    ensures Has(log + [ev], f.(sources := f.sources + {ev.entity.value}))
  {
    OtherKind(log, ev, f);
    SourcesAppend(log, ev);
  }

  lemma HasTask(log: seq<Event>, f: Facts, ev: Event)
    requires Has(log, f) && ev.body.TaskCreated? && ev.entity.Some? && ev.entity != Some("l") && ev.entity.value !in f.tasks
    ensures Has(log + [ev], f.(tasks := f.tasks + {ev.entity.value}))
  {
    OtherKind(log, ev, f);
    TaskIdsAppend(log, ev);
    assert (log + [ev])[..|log|] == log;
    assert OwnTask(ev.entity.value, log + [ev]) == [ev.body];
    assert forall t :: t != ev.entity.value ==> OwnTask(t, log + [ev]) == OwnTask(t, log);
  }

  lemma HasLane(log: seq<Event>, f: Facts, created: Body)
    requires Has(log, f) && f.lane.None? && created.LaneCreated? && created.project != ""
    ensures Has(log + [Event(Some("l"), created)], f.(lane := Some(NewLane(created).(revision := 1))))
  {
    var ev := Event(Some("l"), created);
    OtherKind(log, ev, f);
    FirstOfLane(log, created);
  }

  lemma FirstOfLane(log: seq<Event>, created: Body)
    requires Own("l", log) == [] && LaneIds(log) == {} && created.LaneCreated? && created.project != ""
    ensures LaneOf("l", log + [Event(Some("l"), created)]) == Ok(NewLane(created).(revision := 1))
    ensures LaneIds(log + [Event(Some("l"), created)]) == {"l"}
  {
    var ev := Event(Some("l"), created);
    LaneAfter("l", log, ev);
    LaneIdsAppend(log, ev);
  }

  lemma HasNews(log: seq<Event>, f: Facts, b: Body)
    requires Has(log, f) && f.lane.Some? && IsLaneBody(b) && !b.LaneCreated? && StepLane(f.lane.value, b).Ok?
    ensures Has(log + [Event(Some("l"), b)], f.(lane := Some(StepLane(f.lane.value, b).value)))
  {
    OtherKind(log, Event(Some("l"), b), f);
    LaneAfter("l", log, Event(Some("l"), b));
  }

  lemma HasLink(log: seq<Event>, f: Facts, id: Id, from: Id, to: Id)
    requires Has(log, f) && id !in f.links && id != "l"
    ensures Has(log + [Event(Some(id), EdgeAdded(from, to, Requires, User))], f.(links := f.links[id := Link(from, to, true)]))
  {
    var ev := Event(Some(id), EdgeAdded(from, to, Requires, User));
    OtherKind(log, ev, f);
    assert (log + [ev])[..|log|] == log;
    assert OwnEdge(id, log + [ev]) == [ev.body];
    assert forall other :: other != id ==> OwnEdge(other, log + [ev]) == OwnEdge(other, log);
  }

  lemma HasCut(log: seq<Event>, f: Facts, id: Id, evidence: string)
    requires Has(log, f) && id in f.links && id != "l"
    ensures Has(log + [Event(Some(id), EdgeRemoved(evidence))], f.(links := f.links[id := f.links[id].(active := false)]))
  {
    var ev := Event(Some(id), EdgeRemoved(evidence));
    OtherKind(log, ev, f);
    EdgeAfter(id, log, ev);
    assert (log + [ev])[..|log|] == log;
    assert forall other :: other != id ==> OwnEdge(other, log + [ev]) == OwnEdge(other, log);
  }

  // ---------------------------------------------------------------- steps of a scenario

  ghost predicate Stands(w: State, defs: map<Id, Required>, f: Facts) {
    At(w, defs) && Has(w.logs["o"], f)
  }

  lemma Captures(w: State, defs: map<Id, Required>, f: Facts, id: Id) returns (w': State)
    requires Stands(w, defs, f) && id != "l"
    ensures Stands(w', defs, f.(sources := f.sources + {id}))
  {
    var ev := Event(Some(id), RequirementCaptured("key", "hash"));
    w' := Does(w, defs, Tasks(Capture(id, "key", "hash")), ev);
    HasSource(w.logs["o"], f, ev);
  }

  lemma NewTask(w: State, defs: map<Id, Required>, f: Facts, id: Id, source: Id) returns (w': State)
    requires Stands(w, defs, f) && id != "l" && id !in f.tasks && source in f.sources
    ensures Stands(w', defs, f.(tasks := f.tasks + {id}))
  {
    var ev := Event(Some(id), TaskCreated([source]));
    w' := Does(w, defs, Tasks(CreateTask(id, [source])), ev);
    HasTask(w.logs["o"], f, ev);
  }

  lemma TaskStands(log: seq<Event>, f: Facts, t: Id)
    requires Has(log, f) && t in f.tasks
    ensures TaskOf(t, log) == Ok(Task(false, None, 1))
  {
    var own := OwnTask(t, log);
    assert own[..0] == [];
    assert FoldTask(own) == FoldTask([]).(revision := 1);
  }

  lemma NewLaneFor(w: State, defs: map<Id, Required>, f: Facts, task: Id) returns (w': State, l: Lane)
    requires Stands(w, defs, f) && f.lane.None? && task in f.tasks && task != ""
    ensures Stands(w', defs, f.(lane := Some(l))) && l == NewLane(LaneCreated("p", task, 0)).(revision := 1)
  {
    var created := LaneCreated("p", task, 0);
    l := NewLane(created).(revision := 1);
    TaskStands(w.logs["o"], f, task);
    w' := Does(w, defs, Call.CreateLane("l", "p", task, 0), Event(Some("l"), created));
    HasLane(w.logs["o"], f, created);
  }

  lemma NoWayOut(arcs: set<Graph.Arc>, x: Id, y: Id)
    requires x != y && forall z :: (x, z) !in arcs
    ensures !Graph.Reach(arcs, x, y)
  {
    forall p ensures !Graph.PathFrom(arcs, p, x, y) {
      if |p| > 1 && p[0] == x {
        assert (x, p[1]) !in arcs;
      }
    }
  }

  lemma NoArcsFrom(log: seq<Event>, f: Facts, x: Id)
    requires Has(log, f) && forall e :: e in f.links ==> f.links[e].from != x
    ensures forall z :: (x, z) !in LogArcs(log)
  {
    forall z ensures (x, z) !in LogArcs(log) {
      LogArcsAre(log, (x, z));
      assert forall e :: Spans(log, e, (x, z)) ==> e in f.links;
    }
  }

  /** An edge to a task that depends on nothing. */
  lemma Links(w: State, defs: map<Id, Required>, f: Facts, id: Id, from: Id, to: Id) returns (w': State)
    requires Stands(w, defs, f) && id !in f.links && id != "l" && from in f.tasks && to in f.tasks && from != to
    requires forall e :: e in f.links ==> f.links[e].from != to
    ensures Stands(w', defs, f.(links := f.links[id := Link(from, to, true)]))
  {
    var log := w.logs["o"];
    NoArcsFrom(log, f, to);
    NoWayOut(LogArcs(log), to, from);
    TaskStands(log, f, from);
    TaskStands(log, f, to);
    var ev := Event(Some(id), EdgeAdded(from, to, Requires, User));
    assert AddEdgeDecision(log, id, from, to, Requires, User) == Ok([ev]);
    w' := Does(w, defs, Call.Edge(AddEdge(id, from, to, Requires, User)), ev);
    HasLink(log, f, id, from, to);
  }

  lemma Cuts(w: State, defs: map<Id, Required>, f: Facts, id: Id) returns (w': State)
    requires Stands(w, defs, f) && id in f.links && id != "l" && f.links[id].active && f.links[id].from in f.tasks
    ensures Stands(w', defs, f.(links := f.links[id := f.links[id].(active := false)]))
  {
    var log, ev := w.logs["o"], Event(Some(id), EdgeRemoved("evidence"));
    TaskStands(log, f, f.links[id].from);
    assert RemoveEdgeDecision(log, id, "evidence") == Ok([ev]);
    w' := Does(w, defs, Call.Edge(RemoveEdge(id, "evidence")), ev);
    HasCut(log, f, id, "evidence");
  }

  lemma FirstTask(workflow: Id, defs: map<Id, Required>) returns (w: State, f: Facts)
    ensures Stands(w, defs, f) && f == Facts(workflow, {"s"}, {"t"}, map[], None)
  {
    var w0 := Begin(defs, workflow);
    HasBegun(workflow);
    var f0 := Facts(workflow, {}, {}, map[], None);
    var w1 := Captures(w0, defs, f0, "s");
    var f1 := f0.(sources := f0.sources + {"s"});
    w := NewTask(w1, defs, f1, "t", "s");
    f := f1.(tasks := f1.tasks + {"t"});
    assert f.sources == {"s"} && f.tasks == {"t"};
  }

  /** Three tasks and a lane for the first of them, waiting. */
  lemma WaitingLane(workflow: Id, defs: map<Id, Required>) returns (w: State, f: Facts, l: Lane)
    ensures Stands(w, defs, f) && f == Facts(workflow, {"s"}, {"t", "a", "b"}, map[], Some(l))
    ensures l == NewLane(LaneCreated("p", "t", 0)).(revision := 1)
  {
    var w0, f0 := FirstTask(workflow, defs);
    var w1 := NewTask(w0, defs, f0, "a", "s");
    var f1 := f0.(tasks := f0.tasks + {"a"});
    var w2 := NewTask(w1, defs, f1, "b", "s");
    var f2 := f1.(tasks := f1.tasks + {"b"});
    assert f2.tasks == {"t", "a", "b"};
    w, l := NewLaneFor(w2, defs, f2, "t");
    f := f2.(lane := Some(l));
  }

  // ---------------------------------------------------------------- syncs

  const PICK := map["t" := "l"]

  ghost function ActiveLinks(links: map<Id, Link>): set<Id> {
    set id | id in links && links[id].active
  }

  lemma ActiveAre(log: seq<Event>, f: Facts)
    requires Has(log, f)
    ensures (set id | id in Edges(log) && Edges(log)[id].active) == ActiveLinks(f.links)
  {
    forall id ensures id in Edges(log) && Edges(log)[id].active <==> id in ActiveLinks(f.links) {
      if id in f.links {
        EdgeOkIsEdge(id, log);
      }
    }
  }

  lemma TableIs(log: seq<Event>, f: Facts, l: Lane)
    requires Has(log, f) && f.lane == Some(l) && l.parentTask == "t" && l.status != Accepted
    ensures LaneTable(log) == map["l" := l] && Sync.PickOk(LaneTable(log), PICK)
    ensures Sync.ResolvedTasks(LaneTable(log), PICK) == {}
  {
    assert LaneTable(log).Keys == {"l"};
  }

  lemma BatchIs(lanes: map<Id, Lane>, tasks: set<Id>, edges: seq<Edge>, l: Lane, order: seq<Id>)
    requires order == ["t"] && lanes == map["l" := l] && "t" in tasks && Sync.ResolvedTasks(lanes, PICK) == {}
    ensures Sync.SyncBatch(lanes, tasks, PICK, edges, order) ==
            Sync.Scoped("l", Sync.Told(l, Graph.Blockers("t", edges, {})))
  {
    assert order[..0] == [];
    assert Sync.SyncBatch(lanes, tasks, PICK, edges, order[..0]) == [];
  }

  /** What a sync tells the lane of task "t". */
  lemma SyncIs(log: seq<Event>, f: Facts, l: Lane, edgeOrder: seq<Id>, order: seq<Id>)
    requires Has(log, f) && f.lane == Some(l) && l.parentTask == "t" && "t" in f.tasks && l.status != Accepted
    requires Sync.Enumerates(edgeOrder, ActiveLinks(f.links)) && order == ["t"]
    ensures SweepOrders(log, SyncFrontier(PICK, edgeOrder, order))
    ensures DecideSweep(log, SyncFrontier(PICK, edgeOrder, order)) ==
            Ok(Sync.Scoped("l", Sync.Told(l, Graph.Blockers("t", EdgeList(log, edgeOrder), {}))))
  {
    ActiveAre(log, f);
    TableIs(log, f, l);
    assert Elems(order) == {"t"} == PICK.Keys;
    BatchIs(LaneTable(log), f.tasks, EdgeList(log, edgeOrder), l, order);
  }

  /** A sync that tells the lane one thing. */
  lemma Syncs(w: State, defs: map<Id, Required>, f: Facts, l: Lane, edgeOrder: seq<Id>, b: Body) returns (w': State, l': Lane)
    requires Stands(w, defs, f) && f.lane == Some(l) && l.parentTask == "t" && "t" in f.tasks && l.status != Accepted
    requires Sync.Enumerates(edgeOrder, ActiveLinks(f.links))
    requires Sync.Told(l, Graph.Blockers("t", EdgeList(w.logs["o"], edgeOrder), {})) == [b]
    requires b.LaneBlocked? || b.LaneUnblocked?
    ensures Stands(w', defs, f.(lane := Some(l'))) && Ok(l') == StepLane(l, b)
  {
    var order := ["t"];
    var call := SyncFrontier(PICK, edgeOrder, order);
    SyncIs(w.logs["o"], f, l, edgeOrder, order);
    assert Sync.Scoped("l", [b]) == [Event(Some("l"), b)];
    w' := Does(w, defs, Sweep(call), Event(Some("l"), b));
    l' := StepLane(l, b).value;
    HasNews(w.logs["o"], f, b);
  }

  /** The blockers two edges of task "t" make. */
  lemma TwoBlockers(log: seq<Event>, f: Facts, x: Id, y: Id)
    requires Has(log, f) && x in f.links && y in f.links && f.links[x].from == "t" == f.links[y].from
    ensures Graph.Blockers("t", EdgeList(log, [x, y]), {}) == [f.links[x].to, f.links[y].to]
  {
    var a, b := EdgeOf(x, log).value, EdgeOf(y, log).value;
    assert [x, y][..1] == [x] && [x][..0] == [];
    assert EdgeList(log, [x]) == [] + [a];
    assert EdgeList(log, [x, y]) == [a] + [b];
    Sync.BlockersSnoc("t", [], a, {});
    Sync.BlockersSnoc("t", [a], b, {});
    assert [] + [a] == [a];
    assert Graph.Blockers("t", [], {}) == [];
  }

  // ---------------------------------------------------------------- a hidden change

  const ONE := Link("t", "a", true)
  const TWO := Link("t", "b", true)
  const CUT := Link("t", "b", false)

  lemma TwoEdges(defs: map<Id, Required>) returns (w: State, f: Facts, l: Lane)
    ensures Stands(w, defs, f) && f == Facts("", {"s"}, {"t", "a", "b"}, map["e1" := ONE, "e2" := TWO], Some(l))
    ensures l.parentTask == "t" && l.status == Waiting && l.blockedBy == []
  {
    var w0, f0, l0 := WaitingLane("", defs);
    var w1 := Links(w0, defs, f0, "e1", "t", "a");
    var f1 := f0.(links := map["e1" := ONE]);
    w := Links(w1, defs, f1, "e2", "t", "b");
    f, l := f1.(links := map["e1" := ONE, "e2" := TWO]), l0;
  }

  /** Two edges and a sync. */
  lemma BlockedOnTwo(defs: map<Id, Required>) returns (w: State, f: Facts, l: Lane)
    ensures Stands(w, defs, f) && f == Facts("", {"s"}, {"t", "a", "b"}, map["e1" := ONE, "e2" := TWO], Some(l))
    ensures l.parentTask == "t" && l.status == Blocked && l.blockedBy == ["a", "b"]
  {
    var w0, f0, l0 := TwoEdges(defs);
    var order, b := ["e1", "e2"], LaneBlocked(["a", "b"]);
    TwoBlockers(w0.logs["o"], f0, "e1", "e2");
    assert Elems(order) == ActiveLinks(f0.links);
    w, l := Syncs(w0, defs, f0, l0, order, b);
    f := f0.(lane := Some(l));
  }

  /** One edge removed, the other doubled. */
  lemma DoubledEdge(defs: map<Id, Required>) returns (w: State, f: Facts, l: Lane)
    ensures Stands(w, defs, f)
    ensures f == Facts("", {"s"}, {"t", "a", "b"}, map["e1" := ONE, "e2" := CUT, "e3" := ONE], Some(l))
    ensures l.parentTask == "t" && l.status == Blocked && l.blockedBy == ["a", "b"]
  {
    var w0, f0, l0 := BlockedOnTwo(defs);
    var w1 := Cuts(w0, defs, f0, "e2");
    var f1 := f0.(links := map["e1" := ONE, "e2" := CUT]);
    w := Links(w1, defs, f1, "e3", "t", "a");
    f, l := f1.(links := map["e1" := ONE, "e2" := CUT, "e3" := ONE]), l0;
  }

  lemma DoubledIsQuiet(log: seq<Event>, f: Facts, l: Lane, edgeOrder: seq<Id>, order: seq<Id>)
    requires Has(log, f) && f.lane == Some(l) && l.parentTask == "t" && "t" in f.tasks
    requires f.links == map["e1" := ONE, "e2" := CUT, "e3" := ONE] && edgeOrder == ["e1", "e3"] && order == ["t"]
    requires l.status == Blocked && l.blockedBy == ["a", "b"]
    ensures SweepOrders(log, SyncFrontier(PICK, edgeOrder, order))
    ensures DecideSweep(log, SyncFrontier(PICK, edgeOrder, order)) == Ok([])
  {
    assert Elems(edgeOrder) == ActiveLinks(f.links);
    TwoBlockers(log, f, "e1", "e3");
    SyncIs(log, f, l, edgeOrder, order);
    assert l.blockedBy[0] == "a";
    assert Sync.Told(l, ["a", "a"]) == [];
    assert Sync.Scoped("l", []) == [];
  }

  lemma DoubledArcs(log: seq<Event>, f: Facts)
    requires Has(log, f) && f.links == map["e1" := ONE, "e2" := CUT, "e3" := ONE]
    ensures LogArcs(log) == {("t", "a")}
  {
    EdgeOkIsEdge("e1", log);
    assert Spans(log, "e1", ("t", "a"));
    forall a ensures a in LogArcs(log) <==> a == ("t", "a") {
      LogArcsAre(log, a);
      assert forall e :: Spans(log, e, a) ==> e in f.links;
    }
  }

  /** Two parallel edges hide a removed blocker: in this reachable state task "t" depends on "a" alone, its lane is listed
      as blocked on "a" and "b", and a sync has nothing to append. */
  lemma HiddenBlocker() returns (w: State, edgeOrder: seq<Id>, order: seq<Id>, l: Lane)
    ensures Reachable(w) && "o" in w.logs && LaneOf("l", w.logs["o"]) == Ok(l)
    ensures SweepOrders(w.logs["o"], SyncFrontier(PICK, edgeOrder, order))
    ensures DecideSweep(w.logs["o"], SyncFrontier(PICK, edgeOrder, order)) == Ok([])
    ensures LogArcs(w.logs["o"]) == {("t", "a")} && l.parentTask == "t" && l.status == Blocked && l.blockedBy == ["a", "b"]
  {
    var f;
    w, f, l := DoubledEdge(map[]);
    edgeOrder, order := ["e1", "e3"], ["t"];
    DoubledIsQuiet(w.logs["o"], f, l, edgeOrder, order);
    DoubledArcs(w.logs["o"], f);
  }

  // ---------------------------------------------------------------- a lane that cannot complete

  /** Semar is optional here and Bagong required. */
  const OPTIONAL_SEMAR: Required := map[Semar := false, Bagong := true]

  /** The lane of a task without predecessors, leased. */
  lemma LeasedLane(workflow: Id, defs: map<Id, Required>) returns (w: State, f: Facts, l: Lane)
    ensures Stands(w, defs, f) && f.lane == Some(l) && f.workflow == workflow
    ensures l.status == Leased && l.token.Some?
  {
    var w0, f0, l0 := WaitingLane(workflow, defs);
    assert EdgeList(w0.logs["o"], []) == [] && Graph.Blockers("t", [], {}) == [];
    assert Elems<Id>([]) == ActiveLinks(f0.links);
    var w1, l1 := Syncs(w0, defs, f0, l0, [], LaneUnblocked);
    var f1 := f0.(lane := Some(l1));
    var b := LeaseGranted("worker", w1.minted, 10, 1);
    GrantsAlone(w1, defs, f1, l1, b);
    w := Does(w1, defs, Lease(Grant("l", l1.revision, "worker", 10)), Event(Some("l"), b));
    l := StepLane(l1, b).value;
    f := f1.(lane := Some(l));
    HasNews(w1.logs["o"], f1, b);
  }

  lemma GrantsAlone(w: State, defs: map<Id, Required>, f: Facts, l: Lane, b: Body)
    requires Stands(w, defs, f) && f.lane == Some(l) && l.status == Runnable && l.attempt.None?
    requires b == LeaseGranted("worker", w.minted, 10, 1)
    ensures GrantDecision(w, "o", "l", l.revision, "worker", 10) == Ok([Event(Some("l"), b)])
  {
    assert BusyIn(w.logs["o"]) == {};
    assert BusyProjects(w.logs) == {};
  }

  /** ... and with Semar recorded. */
  lemma SemarLane(defs: map<Id, Required>) returns (w: State, f: Facts, l: Lane)
    ensures Stands(w, defs, f) && f.lane == Some(l) && f.workflow == "wf" && Active(l) && l.semar == Some("r")
  {
    var w0, f0, l0 := LeasedLane("wf", defs);
    var b := StageSubmitted(Semar, "r");
    assert StageDecision(w0, "o", "l", l0.token.value, Semar, "r", l0.revision) == Ok([Event(Some("l"), b)]);
    w := Does(w0, defs, Lease(RecordStage("l", l0.token.value, Semar, "r", l0.revision)), Event(Some("l"), b));
    HasNews(w0.logs["o"], f0, b);
    l := StepLane(l0, b).value;
    f := f0.(lane := Some(l));
  }

  /** A lane that is stuck: where Semar is optional and Bagong required, the lane of this reachable state has recorded
      Semar, no run records its Bagong, and no run completes its lease. */
  lemma StuckLane() returns (w: State, l: Lane)
    ensures Reachable(w) && "o" in w.logs && LaneOf("l", w.logs["o"]) == Ok(l) && Active(l) && l.semar == Some("r")
    ensures ReqOf(w.definitions, w.logs["o"]) == OPTIONAL_SEMAR
    ensures !CanRecord(w, "o", "l", Bagong) && !CanComplete(w, "o", "l")
  {
    var f;
    w, f, l := SemarLane(map["wf" := OPTIONAL_SEMAR]);
    ReachableInv(w);
    RecordableExactly(w, "o", "l", l, Bagong);
    CompletableExactly(w, "o", "l", l);
  }
}
