/** The whole control plane as a value: one append-only log per orchestration, the idempotency keys already used, and
    the case, execution and session tables. `Legal` says which single events may be appended in which state; every
    invariant is kept by every legal event, and the operations of Operations.dfy append legal events only. */
module World {
  import opened Core
  import opened Events
  import opened Reduce
  import opened Graph
  import opened LaneRules

  type Key = string

  datatype Case = Case(jira: bool, key: Id, tenant: Id, active: bool, createdAt: Time)

  datatype ExecutionStatus = ExecutionActive | ExecutionCompleted | ExecutionCancelled

  datatype Execution = Execution(caseId: Id, orch: Id, ordinal: nat, status: ExecutionStatus, session: Option<Id>)

  datatype SessionStatus = SessionActive | SessionHandedOff | SessionClosed

  datatype Session = Session(execution: Id, resumedFrom: Id, status: SessionStatus)

  datatype SessionCheckpoint = SessionCheckpoint(
    session: Id, caseId: Id, execution: Id, sequence: nat, summary: string, progress: Option<real>, handoffTo: string
  )

  datatype State = State(
    logs: map<Id, seq<Event>>,
    audit: set<Key>,                // audit_log: the idempotency keys of committed transactions
    minted: Token,                  // newID: tokens below this were issued
    projects: map<Id, bool>,        // registered projects, true when active
    definitions: map<Id, Required>, // workflow definitions
    cases: map<Id, Case>,
    executions: map<Id, Execution>,
    sessions: map<Id, Session>,
    checkpoints: map<Id, SessionCheckpoint>
  )

  function LogOf(w: State, o: Id): seq<Event> {
    if o in w.logs then w.logs[o] else []
  }

  /** resolveRequiredStages for the orchestration of `log`. */
  function ReqOf(definitions: map<Id, Required>, log: seq<Event>): Required {
    var r := OrchOf(log);
    if r.Ok? && r.value.workflow != "" && r.value.workflow in definitions then definitions[r.value.workflow] else map[]
  }

  // ---------------------------------------------------------------- mutating work in flight

  const MAX_CONCURRENT_PROJECTS := 4

  predicate ActiveLane(log: seq<Event>, id: Id) {
    id in LaneIds(log) && LaneOf(id, log).Ok? && Active(LaneOf(id, log).value)
  }

  /** The projects with a leased or running lane in one orchestration. */
  function BusyIn(log: seq<Event>): set<Id> {
    set id | id in LaneIds(log) && ActiveLane(log, id) :: LaneOf(id, log).value.project
  }

  /** activeProjectIDs: the projects with a leased or running lane anywhere. */
  function BusyProjects(logs: map<Id, seq<Event>>): set<Id> {
    set o, p | o in logs && p in BusyIn(logs[o]) :: p
  }

  /** One mutating lane per project within an orchestration. */
  ghost predicate Exclusive(log: seq<Event>) {
    forall a, b :: ActiveLane(log, a) && ActiveLane(log, b) && a != b ==>
      LaneOf(a, log).value.project != LaneOf(b, log).value.project
  }

  // ---------------------------------------------------------------- invariants of one log

  ghost predicate LanesOk(log: seq<Event>, req: Required, minted: Token) {
    forall id :: id in LaneIds(log) ==> LaneInv(Own(id, log), req, minted)
  }

  /** Edge and task entities replay too: no removal or routing comes first. */
  ghost predicate EdgesOk(log: seq<Event>) {
    forall id :: EdgeOf(id, log) != Err(Corrupt)
  }

  ghost predicate TasksOk(log: seq<Event>) {
    forall id :: TaskOf(id, log) != Err(Corrupt)
  }

  /** Every recorded edge joins tasks of the same log. */
  ghost predicate EndsKnown(log: seq<Event>) {
    forall id :: EdgeOf(id, log).Ok? ==> EdgeOf(id, log).value.from in TaskIds(log) && EdgeOf(id, log).value.to in TaskIds(log)
  }

  /** The edge table of a log. */
  function Edges(log: seq<Event>): map<Id, Edge> {
    map id | id in EdgeIds(log) && EdgeOf(id, log).Ok? :: EdgeOf(id, log).value
  }

  function LogArcs(log: seq<Event>): set<Arc> {
    ActiveArcs(Edges(log))
  }

  ghost predicate LogInv(log: seq<Event>, definitions: map<Id, Required>, minted: Token) {
    && OrchOf(log).Ok?
    && OrchOf(log).value.workflow == log[0].body.workflow
    && LanesOk(log, ReqOf(definitions, log), minted)
    && EdgesOk(log)
    && TasksOk(log)
    && EndsKnown(log)
    && Acyclic(LogArcs(log))
    && Exclusive(log)
  }

  // ---------------------------------------------------------------- legal events

  /** The orchestration-scoped events an operation may append, and the terminal check before them. */
  predicate LegalOrchEvent(o: Orchestration, b: Body) {
    match b
    case CompletedWithGaps => true
    case DetailsUpdated => !IsTerminal(o.status)
    case ProjectAttached(_) => !IsTerminal(o.status)
    case ProjectDetached(_) => !IsTerminal(o.status)
    case InputRegistered(_) => !IsTerminal(o.status)
    case InputResolved(_) => !IsTerminal(o.status)
    case OrchestrationCancelled => !IsTerminal(o.status)
    case OrchestrationCompleted => !IsTerminal(o.status)
    case _ => false
  }

  /** Entity-scoped events: ids of different kinds of entities never coincide. */
  ghost predicate LegalEntityEvent(log: seq<Event>, req: Required, minted: Token, id: Id, b: Body) {
    if IsLaneBody(b) then
      if Own(id, log) == [] then b.LaneCreated? && b.project != ""
      else LaneOf(id, log).Ok? && Allowed(LaneOf(id, log).value, b, req, minted)
    else
      && id !in LaneIds(log)
      && match b
         case TaskCreated(_) => true
         case TaskRouted(_) => TaskOf(id, log).Ok?
         case EdgeAdded(f, t, _, _) => f in TaskIds(log) && t in TaskIds(log) && Acyclic(LogArcs(log) + {(f, t)})
         case EdgeRemoved(_) => EdgeOf(id, log).Ok?
         case RequirementCaptured(_, _) => true
         case WorklogRecorded => true
         case _ => false
  }

  ghost predicate LegalIn(log: seq<Event>, req: Required, minted: Token, ev: Event) {
    && OrchOf(log).Ok?
    && match ev.entity
       case None => LegalOrchEvent(OrchOf(log).value, ev.body)
       case Some(id) => LegalEntityEvent(log, req, minted, id, ev.body)
  }

  function MintedBy(ev: Event): nat {
    if ev.body.LeaseGranted? then 1 else 0
  }

  // ---------------------------------------------------------------- how one event changes the views of a log

  lemma LegalKeepsOrch(log: seq<Event>, definitions: map<Id, Required>, minted: Token, ev: Event)
    requires LogInv(log, definitions, minted) && LegalIn(log, ReqOf(definitions, log), minted, ev)
    ensures OrchOf(log + [ev]).Ok?
    ensures OrchOf(log + [ev]).value.workflow == OrchOf(log).value.workflow
    ensures IsTerminal(OrchOf(log).value.status) ==> OrchOf(log + [ev]).value.status == OrchOf(log).value.status
    ensures ReqOf(definitions, log + [ev]) == ReqOf(definitions, log)
  {
    OrchOfAppend(log, ev);
  }

  lemma LegalKeepsLane(log: seq<Event>, req: Required, minted: Token, ev: Event, id: Id)
    requires id in LaneIds(log) ==> LaneInv(Own(id, log), req, minted)
    requires LegalIn(log, req, minted, ev)
    requires id in LaneIds(log + [ev])
    ensures LaneInv(Own(id, log + [ev]), req, minted + MintedBy(ev))
  {
    LaneIdsAppend(log, ev);
    OwnAppend(id, log, ev);
    if ev.entity == Some(id) {
      if Own(id, log) == [] {
        NewLaneInv(ev.body, req, minted);
        assert [] + [ev.body] == [ev.body];
      } else {
        assert id in LaneIds(log) by {
          if LaneOf(id, log).Ok? {
            LaneOkIsLane(id, log);
          }
        }
        AllowedKeepsLaneInv(Own(id, log), ev.body, req, minted);
      }
    } else {
      LaneInvLater(Own(id, log), req, minted, minted + MintedBy(ev));
    }
  }

  lemma LegalKeepsLanes(log: seq<Event>, req: Required, minted: Token, ev: Event)
    requires LanesOk(log, req, minted) && LegalIn(log, req, minted, ev)
    ensures LanesOk(log + [ev], req, minted + MintedBy(ev))
  {
    forall id | id in LaneIds(log + [ev]) ensures LaneInv(Own(id, log + [ev]), req, minted + MintedBy(ev)) {
      LegalKeepsLane(log, req, minted, ev, id);
    }
  }

  /** Only a grant makes a lane active, and no event changes a lane's project. */
  lemma AllowedActivates(l: Lane, b: Body, req: Required, minted: Token)
    requires Allowed(l, b, req, minted) && StepLane(l, b).Ok?
    ensures Active(StepLane(l, b).value) && !b.LeaseGranted? ==> Active(l)
    ensures StepLane(l, b).value.project == l.project
  {
  }

  lemma LegalActivates(log: seq<Event>, req: Required, minted: Token, ev: Event, id: Id)
    requires LanesReplay(log) && LegalIn(log, req, minted, ev)
    requires ActiveLane(log + [ev], id)
    ensures LaneOf(id, log).Ok? && LaneOf(id, log + [ev]).value.project == LaneOf(id, log).value.project
    ensures ActiveLane(log, id) || (ev.entity == Some(id) && ev.body.LeaseGranted?)
  {
    LaneAfter(id, log, ev);
    LaneIdsAppend(log, ev);
    if ev.entity == Some(id) {
      assert Own(id, log) != [];
      if IsLaneBody(ev.body) {
        LaneOkIsLane(id, log);
        AllowedActivates(LaneOf(id, log).value, ev.body, req, minted);
      }
    }
  }

  lemma LanesOkReplay(log: seq<Event>, req: Required, minted: Token)
    requires LanesOk(log, req, minted)
    ensures LanesReplay(log)
  {
  }

  /** What a grant must find besides a runnable lane: no other mutating lane of the project in this orchestration. */
  ghost predicate ProjectFree(log: seq<Event>, id: Id, project: Id) {
    forall other :: ActiveLane(log, other) && other != id ==> LaneOf(other, log).value.project != project
  }

  lemma LegalKeepsExclusive(log: seq<Event>, req: Required, minted: Token, ev: Event)
    requires LanesReplay(log) && LegalIn(log, req, minted, ev) && Exclusive(log)
    requires ev.body.LeaseGranted? && ev.entity.Some? && LaneOf(ev.entity.value, log).Ok? ==>
               ProjectFree(log, ev.entity.value, LaneOf(ev.entity.value, log).value.project)
    ensures Exclusive(log + [ev])
  {
    forall a, b | ActiveLane(log + [ev], a) && ActiveLane(log + [ev], b) && a != b
      ensures LaneOf(a, log + [ev]).value.project != LaneOf(b, log + [ev]).value.project
    {
      LegalActivates(log, req, minted, ev, a);
      LegalActivates(log, req, minted, ev, b);
    }
  }

  lemma LegalBusy(log: seq<Event>, req: Required, minted: Token, ev: Event)
    requires LanesReplay(log) && LegalIn(log, req, minted, ev)
    ensures BusyIn(log + [ev]) <= BusyIn(log) +
              if ev.body.LeaseGranted? && ev.entity.Some? && LaneOf(ev.entity.value, log).Ok?
              then {LaneOf(ev.entity.value, log).value.project} else {}
  {
    forall p | p in BusyIn(log + [ev])
      ensures p in BusyIn(log) || (ev.body.LeaseGranted? && ev.entity.Some? && LaneOf(ev.entity.value, log).Ok? &&
                                   p == LaneOf(ev.entity.value, log).value.project)
    {
      var id :| id in LaneIds(log + [ev]) && ActiveLane(log + [ev], id) && LaneOf(id, log + [ev]).value.project == p;
      LegalActivates(log, req, minted, ev, id);
    }
  }

  lemma LegalKeepsEdges(log: seq<Event>, req: Required, minted: Token, ev: Event)
    requires EdgesOk(log) && TasksOk(log) && LanesReplay(log) && LegalIn(log, req, minted, ev)
    ensures EdgesOk(log + [ev]) && TasksOk(log + [ev])
  {
    forall id ensures EdgeOf(id, log + [ev]) != Err(Corrupt) && TaskOf(id, log + [ev]) != Err(Corrupt) {
      EdgeAfter(id, log, ev);
      TaskAfter(id, log, ev);
    }
  }

  lemma TaskIdsAppend(log: seq<Event>, ev: Event)
    ensures TaskIds(log + [ev]) == TaskIds(log) + if ev.body.TaskCreated? && ev.entity.Some? then {ev.entity.value} else {}
  {
    var more := log + [ev];
    assert more[|log|] == ev && forall i :: 0 <= i < |log| ==> more[i] == log[i];
    forall id | id in TaskIds(log) ensures id in TaskIds(more) {
      var i :| 0 <= i < |log| && log[i].body.TaskCreated? && log[i].entity == Some(id);
      assert more[i] == log[i];
    }
  }

  lemma LegalKeepsEnds(log: seq<Event>, req: Required, minted: Token, ev: Event)
    requires EdgesOk(log) && EndsKnown(log) && LegalIn(log, req, minted, ev)
    ensures EndsKnown(log + [ev])
  {
    TaskIdsAppend(log, ev);
    forall id | EdgeOf(id, log + [ev]).Ok?
      ensures EdgeOf(id, log + [ev]).value.from in TaskIds(log) && EdgeOf(id, log + [ev]).value.to in TaskIds(log)
    {
      EdgeAfter(id, log, ev);
    }
  }

  ghost predicate Spans(log: seq<Event>, id: Id, a: Arc) {
    && id in EdgeIds(log) && EdgeOf(id, log).Ok?
    && EdgeOf(id, log).value.active && (EdgeOf(id, log).value.from, EdgeOf(id, log).value.to) == a
  }

  /** An arc is in the graph exactly when some active edge entity spans it. */
  lemma LogArcsAre(log: seq<Event>, a: Arc)
    ensures a in LogArcs(log) <==> exists id :: Spans(log, id, a)
  {
    if a in LogArcs(log) {
      var id :| id in Edges(log) && Edges(log)[id].active && (Edges(log)[id].from, Edges(log)[id].to) == a;
      assert Spans(log, id, a);
    }
    if id :| Spans(log, id, a) {
      assert Edges(log)[id].active;
    }
  }

  /** Replay keeps the first endpoints of a reused edge id, so an edge.added adds at most its own arc. */
  lemma AppendArcs(log: seq<Event>, ev: Event)
    requires EdgesOk(log)
    ensures LogArcs(log + [ev]) <= LogArcs(log) + if ev.body.EdgeAdded? then {(ev.body.from, ev.body.to)} else {}
  {
    forall a | a in LogArcs(log + [ev])
      ensures a in LogArcs(log) || (ev.body.EdgeAdded? && a == (ev.body.from, ev.body.to))
    {
      LogArcsAre(log + [ev], a);
      LogArcsAre(log, a);
      var id :| Spans(log + [ev], id, a);
      EdgeAfter(id, log, ev);
      if EdgeOf(id, log).Ok? {
        EdgeOkIsEdge(id, log);
        assert Spans(log, id, a);
      }
    }
  }

  lemma {:induction false} EdgeOkIsEdge(id: Id, log: seq<Event>)
    requires EdgeOf(id, log).Ok?
    ensures id in EdgeIds(log)
  {
    var n := |log| - 1;
    TakeSnoc(log, n);
    TakeAll(log);
    EdgeAfter(id, log[..n], log[n]);
    if EdgeOf(id, log[..n]).Ok? {
      EdgeOkIsEdge(id, log[..n]);
      var i :| 0 <= i < n && log[..n][i].body.EdgeAdded? && log[..n][i].entity == Some(id);
      assert log[i] == log[..n][i];
    } else {
      assert OwnEdge(id, log[..n]) == [];
      assert log[n].body.EdgeAdded? && log[n].entity == Some(id);
    }
  }

  lemma LegalKeepsAcyclic(log: seq<Event>, req: Required, minted: Token, ev: Event)
    requires EdgesOk(log) && Acyclic(LogArcs(log)) && LegalIn(log, req, minted, ev)
    ensures Acyclic(LogArcs(log + [ev]))
  {
    AppendArcs(log, ev);
    if ev.body.EdgeAdded? {
      AcyclicMono(LogArcs(log + [ev]), LogArcs(log) + {(ev.body.from, ev.body.to)});
    } else {
      AcyclicMono(LogArcs(log + [ev]), LogArcs(log));
    }
  }

  /** Every legal event keeps every invariant of its log. */
  lemma LegalKeepsLog(log: seq<Event>, definitions: map<Id, Required>, minted: Token, ev: Event)
    requires LogInv(log, definitions, minted) && LegalIn(log, ReqOf(definitions, log), minted, ev)
    requires ev.body.LeaseGranted? && ev.entity.Some? && LaneOf(ev.entity.value, log).Ok? ==>
               ProjectFree(log, ev.entity.value, LaneOf(ev.entity.value, log).value.project)
    ensures LogInv(log + [ev], definitions, minted + MintedBy(ev))
  {
    var req := ReqOf(definitions, log);
    LegalKeepsOrch(log, definitions, minted, ev);
    LanesOkReplay(log, req, minted);
    LegalKeepsLanes(log, req, minted, ev);
    LegalKeepsEdges(log, req, minted, ev);
    LegalKeepsEnds(log, req, minted, ev);
    LegalKeepsAcyclic(log, req, minted, ev);
    LegalKeepsExclusive(log, req, minted, ev);
  }

  // ---------------------------------------------------------------- the whole state

  /** The invariants over all logs: each log's own, and the cap on projects with mutating work in flight. */
  ghost predicate LogsInv(w: State) {
    && (forall o :: o in w.logs ==> LogInv(w.logs[o], w.definitions, w.minted))
    && |BusyProjects(w.logs)| <= MAX_CONCURRENT_PROJECTS
  }

  /** What GrantLease checks beyond the lane itself. */
  ghost predicate MayActivate(w: State, o: Id, id: Id, project: Id) {
    && ProjectFree(LogOf(w, o), id, project)
    && (project in BusyProjects(w.logs) || |BusyProjects(w.logs)| < MAX_CONCURRENT_PROJECTS)
  }

  ghost predicate Legal(w: State, o: Id, ev: Event) {
    && o in w.logs
    && LegalIn(w.logs[o], ReqOf(w.definitions, w.logs[o]), w.minted, ev)
    && (ev.body.LeaseGranted? && ev.entity.Some? && LaneOf(ev.entity.value, w.logs[o]).Ok? ==>
          MayActivate(w, o, ev.entity.value, LaneOf(ev.entity.value, w.logs[o]).value.project))
  }

  function AppendEvent(w: State, o: Id, ev: Event): State {
    w.(logs := w.logs[o := LogOf(w, o) + [ev]], minted := w.minted + MintedBy(ev))
  }

  lemma LogInvLater(log: seq<Event>, definitions: map<Id, Required>, minted: Token, later: Token)
    requires LogInv(log, definitions, minted) && minted <= later
    ensures LogInv(log, definitions, later)
  {
    forall id | id in LaneIds(log) ensures LaneInv(Own(id, log), ReqOf(definitions, log), later) {
      LaneInvLater(Own(id, log), ReqOf(definitions, log), minted, later);
    }
  }

  lemma BusyAfter(logs: map<Id, seq<Event>>, o: Id, log: seq<Event>, extra: set<Id>)
    requires o in logs && BusyIn(log) <= BusyIn(logs[o]) + extra
    ensures BusyProjects(logs[o := log]) <= BusyProjects(logs) + extra
  {
    forall p | p in BusyProjects(logs[o := log]) ensures p in BusyProjects(logs) + extra {
      var q :| q in logs[o := log] && p in BusyIn(logs[o := log][q]);
      assert q != o ==> p in BusyIn(logs[q]);
      assert q == o && p !in extra ==> p in BusyIn(logs[o]);
    }
  }

  lemma LegalKeepsLogsInv(w: State, o: Id, ev: Event)
    requires LogsInv(w) && Legal(w, o, ev)
    ensures LogsInv(AppendEvent(w, o, ev))
  {
    var w' := AppendEvent(w, o, ev);
    var log := w.logs[o];
    LegalKeepsLog(log, w.definitions, w.minted, ev);
    forall q | q in w'.logs ensures LogInv(w'.logs[q], w'.definitions, w'.minted) {
      if q != o {
        LogInvLater(w.logs[q], w.definitions, w.minted, w'.minted);
      }
    }
    var extra := if ev.body.LeaseGranted? && ev.entity.Some? && LaneOf(ev.entity.value, log).Ok?
                 then {LaneOf(ev.entity.value, log).value.project} else {};
    LanesOkReplay(log, ReqOf(w.definitions, log), w.minted);
    LegalBusy(log, ReqOf(w.definitions, log), w.minted, ev);
    BusyAfter(w.logs, o, log + [ev], extra);
    CapAfter(BusyProjects(w.logs), BusyProjects(w'.logs), extra);
  }

  lemma CapAfter(was: set<Id>, now: set<Id>, extra: set<Id>)
    requires now <= was + extra && |was| <= MAX_CONCURRENT_PROJECTS
    requires extra == {} || exists p :: extra == {p} && (p in was || |was| < MAX_CONCURRENT_PROJECTS)
    ensures |now| <= MAX_CONCURRENT_PROJECTS
  {
    SubsetCard(now, was + extra);
    if p :| extra == {p} {
      if p in was {
        assert was + extra == was;
      }
    }
  }

  // ---------------------------------------------------------------- batches of events

  function AppendAll(w: State, o: Id, batch: seq<Event>): State
    decreases |batch|
  {
    if batch == [] then w else AppendAll(AppendEvent(w, o, batch[0]), o, batch[1..])
  }

  ghost predicate LegalAll(w: State, o: Id, batch: seq<Event>)
    decreases |batch|
  {
    batch == [] || (Legal(w, o, batch[0]) && LegalAll(AppendEvent(w, o, batch[0]), o, batch[1..]))
  }

  lemma {:induction false} LegalAllKeepsLogsInv(w: State, o: Id, batch: seq<Event>)
    requires LogsInv(w) && LegalAll(w, o, batch)
    ensures LogsInv(AppendAll(w, o, batch))
    decreases |batch|
  {
    if batch != [] {
      LegalKeepsLogsInv(w, o, batch[0]);
      LegalAllKeepsLogsInv(AppendEvent(w, o, batch[0]), o, batch[1..]);
    }
  }

  /** A batch extends one log and touches nothing else but the token counter. */
  lemma {:induction false} AppendAllFrame(w: State, o: Id, batch: seq<Event>)
    requires o in w.logs
    ensures AppendAll(w, o, batch).logs == w.logs[o := w.logs[o] + batch]
    ensures w.minted <= AppendAll(w, o, batch).minted
    ensures AppendAll(w, o, batch).(logs := w.logs, minted := w.minted) == w
    decreases |batch|
  {
    if batch == [] {
      assert w.logs[o] + [] == w.logs[o];
    } else {
      var next := AppendEvent(w, o, batch[0]);
      AppendAllFrame(next, o, batch[1..]);
      assert w.logs[o] + [batch[0]] + batch[1..] == w.logs[o] + batch;
    }
  }

  // ---------------------------------------------------------------- what a lane keeps

  /** Lane id has the property, its stages are governed by `req`, and `from` tokens were issued. */
  ghost predicate KeptIn(w: State, o: Id, id: Id, keep: Lane -> bool, req: Required, from: Token) {
    && o in w.logs && LaneOf(id, w.logs[o]).Ok? && keep(LaneOf(id, w.logs[o]).value)
    && ReqOf(w.definitions, w.logs[o]) == req && from <= w.minted
  }

  /** No allowed event takes the property away. */
  ghost predicate Lasting(keep: Lane -> bool, req: Required, from: Token) {
    forall l, b, minted :: keep(l) && from <= minted && Allowed(l, b, req, minted) ==>
      StepLane(l, b).Ok? && keep(StepLane(l, b).value)
  }

  lemma LegalKeepsKept(w: State, q: Id, ev: Event, o: Id, id: Id, keep: Lane -> bool, req: Required, from: Token)
    requires LogsInv(w) && Legal(w, q, ev) && KeptIn(w, o, id, keep, req, from) && Lasting(keep, req, from)
    ensures KeptIn(AppendEvent(w, q, ev), o, id, keep, req, from)
  {
    if q == o {
      var log := w.logs[o];
      LegalKeepsOrch(log, w.definitions, w.minted, ev);
      LaneAfter(id, log, ev);
      if ev.entity == Some(id) {
        LaneOkIsLane(id, log);
        assert IsLaneBody(ev.body);
      }
    }
  }

  lemma {:induction false} LegalAllKeepsKept(w: State, q: Id, batch: seq<Event>, o: Id, id: Id, keep: Lane -> bool,
                                             req: Required, from: Token)
    requires LogsInv(w) && LegalAll(w, q, batch) && KeptIn(w, o, id, keep, req, from) && Lasting(keep, req, from)
    ensures KeptIn(AppendAll(w, q, batch), o, id, keep, req, from)
    decreases |batch|
  {
    if batch != [] {
      LegalKeepsKept(w, q, batch[0], o, id, keep, req, from);
      LegalKeepsLogsInv(w, q, batch[0]);
      LegalAllKeepsKept(AppendEvent(w, q, batch[0]), q, batch[1..], o, id, keep, req, from);
    }
  }

  lemma AllowedSteps(l: Lane, b: Body, req: Required, minted: Token)
    requires Allowed(l, b, req, minted)
    ensures StepLane(l, b).Ok?
  {
  }

  // ---------------------------------------------------------------- fencing

  ghost function FenceOf(t: Token): Lane -> bool {
    l => Fenced(l, t)
  }

  /** Token t cannot act on lane id any more. */
  ghost predicate FencedIn(w: State, o: Id, id: Id, t: Token) {
    o in w.logs && KeptIn(w, o, id, FenceOf(t), ReqOf(w.definitions, w.logs[o]), t + 1)
  }

  /** A fence lasts. */
  lemma FenceLasts(t: Token, req: Required)
    ensures Lasting(FenceOf(t), req, t + 1)
  {
    forall l, b, minted | FenceOf(t)(l) && t + 1 <= minted && Allowed(l, b, req, minted)
      ensures StepLane(l, b).Ok? && FenceOf(t)(StepLane(l, b).value)
    {
      AllowedSteps(l, b, req, minted);
      FencedStays(l, b, req, minted, t);
    }
  }
}
