/** The Store operations on one orchestration's log: what each one decides to append, and what every run keeps.
    storage.DB.Write (internal/storage/tx.go:21-50) makes each an atomic step keyed by an idempotency key. */
module Operations {
  import opened Core
  import opened Events
  import opened Reduce
  import opened Graph
  import opened LaneRules
  import opened World
  import Sync

  /** The lease protocol. */
  datatype LeaseCall =
    | Grant(lane: Id, rev: int, worker: Id, expiresAt: Time)
    | Heartbeat(lane: Id, token: Token, rev: int, expiresAt: Time)
    | Complete(lane: Id, token: Token, rev: int, workLogged: bool)
    | Reject(lane: Id, token: Token, rev: int)
    | RecordStage(lane: Id, token: Token, stage: RoleStage, record: Id, rev: int)

  /** Sweeps over all lanes of an orchestration. */
  datatype SweepCall =
    | Expire(now: Time, order: seq<Id>)
    | SyncFrontier(pick: map<Id, Id>, edgeOrder: seq<Id>, order: seq<Id>)

  /** Calls that read their guards before the transaction: `seen` is the log they were read from. */
  datatype SnapshotCall =
    | Repair(lane: Id, reason: string, rev: int, seen: seq<Event>)
    | Publish(lane: Id, token: Token, rev: int, number: nat, url: string, seen: seq<Event>)
    | Commit(lane: Id, sha: Id, seen: seq<Event>)

  /** Calls that need no lease. */
  datatype EvidenceCall =
    | Verify(lane: Id, dimension: Id, outcome: CheckStatus, rev: int)
    | CiCheck(lane: Id, check: Id, required: bool, checkStatus: CheckStatus, rev: int)
    | Conclude(lane: Id, conclusion: Conclusion, implementer: Id, rev: int)
    | UpdateStatus(lane: Id, rev: int, status: LaneStatus)
    | Worktree(lane: Id, rev: int, change: Body)

  /** Tasks, requirement sources and worklogs. */
  datatype TaskCall =
    | CreateTask(task: Id, sources: seq<Id>)
    | RouteTask(task: Id, project: Id)
    | Capture(source: Id, canonicalKey: Id, contentHash: Id)
    | LogWork(worklog: Id)

  datatype EdgeCall =
    | AddEdge(edge: Id, from: Id, to: Id, edgeType: EdgeType, origin: EdgeOrigin)
    | RemoveEdge(edge: Id, evidence: string)

  /** Orchestration-scoped changes. */
  datatype OrchCall =
    | Change(rev: int, change: Body)
    | Attach(rev: int, project: Id)
    | Detach(rev: int, project: Id)
    | Gaps

  datatype Call =
    | Lease(lease: LeaseCall)
    | Sweep(sweep: SweepCall)
    | Snapshot(snapshot: SnapshotCall)
    | Evidence(evidence: EvidenceCall)
    | CreateLane(lane: Id, project: Id, task: Id, createdAt: Time)
    | Tasks(tasks: TaskCall)
    | Edge(edge: EdgeCall)
    | Orch(orch: OrchCall)

  // ---------------------------------------------------------------- decisions

  /** The lane at the expected revision. */
  function AtRevision(log: seq<Event>, lane: Id, rev: int): Result<Lane> {
    var l :- LaneOf(lane, log);
    if l.revision != rev then Err(RevisionConflict) else Ok(l)
  }

  /** The lane at the expected revision, leased or running under `token`. */
  function Held(log: seq<Event>, lane: Id, token: Token, rev: int): Result<Lane> {
    var l :- AtRevision(log, lane, rev);
    if !Active(l) then Err(LaneNotRunnable)
    else if l.token != Some(token) then Err(LeaseTokenMismatch)
    else Ok(l)
  }

  /** The orchestration, when it still accepts changes. */
  function OpenOrch(log: seq<Event>): Result<Orchestration> {
    var o :- OrchOf(log);
    if IsTerminal(o.status) then Err(InvalidState) else Ok(o)
  }

  function OpenOrchAt(log: seq<Event>, rev: int): Result<Orchestration> {
    var o :- OrchOf(log);
    if o.revision != rev then Err(RevisionConflict) else if IsTerminal(o.status) then Err(InvalidState) else Ok(o)
  }

  function ActiveProject(w: State, project: Id): Result<()> {
    if project !in w.projects then Err(NotFound) else if !w.projects[project] then Err(ProjectInactive) else Ok(())
  }

  function Single(id: Id, b: Body): Result<seq<Event>> {
    Ok([Event(Some(id), b)])
  }

  /** A lease that is past its deadline at `now`. */
  predicate Expired(l: Lane, now: Time) {
    Active(l) && l.expiresAt.Some? && l.expiresAt.value <= now
  }

  function ExpireBatch(log: seq<Event>, now: Time, order: seq<Id>): seq<Event> {
    if order == [] then []
    else
      var n := |order| - 1;
      var l := LaneOf(order[n], log);
      ExpireBatch(log, now, order[..n]) + if l.Ok? && Expired(l.value, now) then [Event(Some(order[n]), LeaseTimedOut)] else []
  }

  predicate CrossesUnsafely(from: Task, to: Task, origin: EdgeOrigin) {
    from.project.Some? && to.project.Some? && from.project != to.project && origin != ExplicitSource && origin != User
  }

  /** The active edges of a log, listed in the given order of edge ids. */
  function EdgeList(log: seq<Event>, edgeOrder: seq<Id>): seq<Edge> {
    if edgeOrder == [] then []
    else
      var n := |edgeOrder| - 1;
      var e := EdgeOf(edgeOrder[n], log);
      EdgeList(log, edgeOrder[..n]) + if e.Ok? then [e.value] else []
  }

  function LaneTable(log: seq<Event>): map<Id, Lane> {
    map id | id in LaneIds(log) && LaneOf(id, log).Ok? :: LaneOf(id, log).value
  }

  function GrantDecision(w: State, o: Id, lane: Id, rev: int, worker: Id, expiresAt: Time): Result<seq<Event>> {
    var log := LogOf(w, o);
    var l :- AtRevision(log, lane, rev);
    if l.status != Runnable then Err(LaneNotRunnable)
    else if exists other :: other in LaneIds(log) && other != lane && ActiveLane(log, other) &&
                            LaneOf(other, log).value.project == l.project then Err(ProjectAtConcurrencyLimit)
    else if l.project !in BusyProjects(w.logs) && |BusyProjects(w.logs)| >= MAX_CONCURRENT_PROJECTS then
      Err(GlobalConcurrencyLimit)
    else Single(lane, LeaseGranted(worker, w.minted, expiresAt, AttemptOf(l) + 1))
  }

  function CompleteDecision(w: State, o: Id, lane: Id, token: Token, rev: int, workLogged: bool): Result<seq<Event>> {
    if !workLogged then Err(WorkLogRequired)
    else
      var log := LogOf(w, o);
      var l :- Held(log, lane, token, rev);
      if !StagesComplete(l, ReqOf(w.definitions, log)) then Err(RoleStagesIncomplete) else Single(lane, LeaseCompleted)
  }

  function StageDecision(w: State, o: Id, lane: Id, token: Token, stage: RoleStage, record: Id,
                         rev: int): Result<seq<Event>> {
    var log := LogOf(w, o);
    var l :- Held(log, lane, token, rev);
    if stage != Semar && PrecedingRecord(l, stage, ReqOf(w.definitions, log)) == "" then Err(RoleStageOutOfOrder)
    else Single(lane, StageSubmitted(stage, record))
  }

  /** `seen` is the log the guards were read from, before the transaction; only the revision is checked again. */
  function RepairDecision(log: seq<Event>, lane: Id, reason: string, rev: int, seen: seq<Event>): Result<seq<Event>> {
    if reason == "" then Err(BadRequest)
    else
      var l :- AtRevision(seen, lane, rev);
      if l.status != Review && l.status != Running then Err(LaneNotRunnable)
      else
        var current :- AtRevision(log, lane, rev);
        Single(lane, if Repairs(l) >= MAX_REPAIR_CYCLES then LaneEscalated(reason) else RepairCycleStarted(reason))
  }

  function PublishDecision(log: seq<Event>, lane: Id, token: Token, rev: int, number: nat, url: string, seen: seq<Event>)
    : Result<seq<Event>>
  {
    var l :- AtRevision(seen, lane, rev);
    if l.pr.Some? then Err(NothingToDo)
    else if l.token != Some(token) then Err(LeaseTokenMismatch)
    else if !Active(l) then Err(LaneNotRunnable)
    else
      var current :- AtRevision(log, lane, rev);
      if current.pr.Some? then Ok([]) else Single(lane, PrPublished(number, url))
  }

  /** Recording evidence or a conclusion needs the revision and a lane short of accepted and failed. */
  function Note(log: seq<Event>, lane: Id, rev: int, b: Body): Result<seq<Event>> {
    var l :- AtRevision(log, lane, rev);
    if IsLaneTerminal(l.status) then Err(LaneTerminal) else Single(lane, b)
  }

  ghost function AddEdgeDecision(log: seq<Event>, edge: Id, from: Id, to: Id, edgeType: EdgeType, origin: EdgeOrigin)
    : Result<seq<Event>>
  {
    if from == to then Err(Cycle)
    else if from !in TaskIds(log) || to !in TaskIds(log) then Err(NotFound)
    else
      var f :- TaskOf(from, log);
      var t :- TaskOf(to, log);
      if CrossesUnsafely(f, t, origin) then Err(UnsafeCrossProjectEdge)
      else if Reach(LogArcs(log), to, from) then Err(Cycle)
      else Single(edge, EdgeAdded(from, to, edgeType, origin))
  }

  function RemoveEdgeDecision(log: seq<Event>, edge: Id, evidence: string): Result<seq<Event>> {
    var e :- EdgeOf(edge, log);
    if !e.active then Err(InvalidState)
    else
      var f :- TaskOf(e.from, log);
      if f.routed && evidence == "" then Err(EvidenceRequired) else Single(edge, EdgeRemoved(evidence))
  }

  function CreateLaneDecision(w: State, o: Id, lane: Id, project: Id, task: Id, createdAt: Time): Result<seq<Event>> {
    var log := LogOf(w, o);
    var orch :- OpenOrch(log);
    var routedTo :- if task == "" then Ok(None) else match TaskOf(task, log) case Err(e) => Err(e) case Ok(t) => Ok(t.project);
    if routedTo.Some? && routedTo.value != project then Err(ScopeMismatch)
    else
      var _ :- ActiveProject(w, project);
      Single(lane, LaneCreated(project, task, createdAt))
  }

  function DetachDecision(log: seq<Event>, rev: int, project: Id): Result<seq<Event>> {
    if project == "" then Err(BadRequest)
    else
      var orch :- OpenOrchAt(log, rev);
      if project !in orch.projects then Err(NotFound)
      else if exists id :: id in LaneIds(log) && LaneOf(id, log).Ok? && LaneOf(id, log).value.project == project &&
                           !IsLaneTerminal(LaneOf(id, log).value.status) then Err(ProjectHasActiveLanes)
      else Ok([Event(None, ProjectDetached(project))])
  }

  function DecideLease(w: State, o: Id, call: LeaseCall): Result<seq<Event>> {
    match call
    case Grant(lane, rev, worker, expiresAt) => GrantDecision(w, o, lane, rev, worker, expiresAt)
    case Heartbeat(lane, token, rev, expiresAt) =>
      var l :- Held(LogOf(w, o), lane, token, rev);
      Single(lane, LeaseHeartbeat(expiresAt))
    case Complete(lane, token, rev, workLogged) => CompleteDecision(w, o, lane, token, rev, workLogged)
    case Reject(lane, token, rev) =>
      var l :- Held(LogOf(w, o), lane, token, rev);
      Single(lane, LeaseRejected)
    case RecordStage(lane, token, stage, record, rev) => StageDecision(w, o, lane, token, stage, record, rev)
  }

  function DecideSweep(log: seq<Event>, call: SweepCall): Result<seq<Event>> {
    match call
    case Expire(now, order) => Ok(ExpireBatch(log, now, order))
    case SyncFrontier(pick, edgeOrder, order) =>
      if forall t :: t in order ==> t in pick && pick[t] in LaneTable(log)
      then Ok(Sync.SyncBatch(LaneTable(log), TaskIds(log), pick, EdgeList(log, edgeOrder), order))
      else Err(Corrupt)
  }

  function DecideSnapshot(log: seq<Event>, call: SnapshotCall): Result<seq<Event>> {
    match call
    case Repair(lane, reason, rev, seen) => RepairDecision(log, lane, reason, rev, seen)
    case Publish(lane, token, rev, number, url, seen) => PublishDecision(log, lane, token, rev, number, url, seen)
    case Commit(lane, sha, seen) =>
      var l :- LaneOf(lane, seen);
      Single(lane, CommitRecorded(sha))
  }

  /** What RecordReviewConclusion checks before its transaction: a reviewer, and independence of the implementer unless a
      reason overrides it. */
  function Refused(c: Conclusion, implementer: Id): Option<Error> {
    if c.worker == "" || c.session == "" then Some(BadRequest)
    else if c.session == implementer && c.overrideReason == "" then Some(IndependenceRequired)
    else None
  }

  function DecideEvidence(log: seq<Event>, call: EvidenceCall): Result<seq<Event>> {
    match call
    case Verify(lane, dimension, outcome, rev) => Note(log, lane, rev, VerificationRecorded(dimension, outcome))
    case CiCheck(lane, check, required, status, rev) => Note(log, lane, rev, CiCheckReported(check, required, status))
    case Conclude(lane, conclusion, implementer, rev) =>
      if Refused(conclusion, implementer).Some? then Err(Refused(conclusion, implementer).value)
      else Note(log, lane, rev, ReviewConclusionRecorded(conclusion))
    case UpdateStatus(lane, rev, status) =>
      var l :- AtRevision(log, lane, rev);
      Single(lane, LaneStatusChanged(status))
    case Worktree(lane, rev, change) =>
      var l :- AtRevision(log, lane, rev);
      Single(lane, change)
  }

  function CapturedSources(log: seq<Event>): set<Id> {
    set i | 0 <= i < |log| && log[i].body.RequirementCaptured? && log[i].entity.Some? :: log[i].entity.value
  }

  function DecideTask(w: State, o: Id, call: TaskCall): Result<seq<Event>> {
    match call
    case CreateTask(task, sources) =>
      if sources == [] then Err(BadRequest)
      else
        var orch :- OpenOrch(LogOf(w, o));
        if exists s :: s in sources && s !in CapturedSources(LogOf(w, o)) then Err(NotFound)
        else Single(task, TaskCreated(sources))
    case RouteTask(task, project) =>
      var t :- TaskOf(task, LogOf(w, o));
      var _ :- ActiveProject(w, project);
      Single(task, TaskRouted(project))
    case Capture(source, key, hash) =>
      var orch :- OpenOrch(LogOf(w, o));
      Single(source, RequirementCaptured(key, hash))
    case LogWork(worklog) =>
      var orch :- OpenOrch(LogOf(w, o));
      Single(worklog, WorklogRecorded)
  }

  ghost function DecideEdge(log: seq<Event>, call: EdgeCall): Result<seq<Event>> {
    match call
    case AddEdge(edge, from, to, edgeType, origin) => AddEdgeDecision(log, edge, from, to, edgeType, origin)
    case RemoveEdge(edge, evidence) => RemoveEdgeDecision(log, edge, evidence)
  }

  function DecideOrch(w: State, o: Id, call: OrchCall): Result<seq<Event>> {
    var log := LogOf(w, o);
    match call
    case Change(rev, change) =>
      var orch :- OpenOrchAt(log, rev);
      Ok([Event(None, change)])
    case Attach(rev, project) =>
      if project == "" then Err(BadRequest)
      else
        var orch :- OpenOrchAt(log, rev);
        if project in orch.projects then Ok([])
        else
          var _ :- ActiveProject(w, project);
          Ok([Event(None, ProjectAttached(project))])
    case Detach(rev, project) => DetachDecision(log, rev, project)
    case Gaps => Ok([Event(None, CompletedWithGaps)])
  }

  /** The events a call appends when its transaction runs in state w, or why it appends none. */
  ghost function Decide(w: State, o: Id, call: Call): Result<seq<Event>> {
    match call
    case Lease(c) => DecideLease(w, o, c)
    case Sweep(c) => DecideSweep(LogOf(w, o), c)
    case Snapshot(c) => DecideSnapshot(LogOf(w, o), c)
    case Evidence(c) => DecideEvidence(LogOf(w, o), c)
    case CreateLane(lane, project, task, at) => CreateLaneDecision(w, o, lane, project, task, at)
    case Tasks(c) => DecideTask(w, o, c)
    case Edge(c) => DecideEdge(LogOf(w, o), c)
    case Orch(c) => DecideOrch(w, o, c)
  }

  // ---------------------------------------------------------------- what is assumed of callers

  /** The iteration orders are orders of the maps that are iterated. */
  ghost predicate SweepOrders(log: seq<Event>, call: SweepCall) {
    match call
    case Expire(_, order) => Sync.Enumerates(order, LaneIds(log))
    case SyncFrontier(pick, edgeOrder, order) =>
      && Sync.PickOk(LaneTable(log), pick)
      && Sync.Enumerates(order, pick.Keys)
      && Sync.Enumerates(edgeOrder, set id | id in Edges(log) && Edges(log)[id].active)
  }

  /** UpdateLaneStatus is used as CompleteLaneWork uses it. */
  predicate TerminalOnly(call: EvidenceCall) {
    match call
    case UpdateStatus(_, _, status) => IsLaneTerminal(status)
    case Worktree(_, _, change) => change.WorktreeCreated? || change.WorktreeRemoved?
    case _ => true
  }

  /** The entity a task call or an edge call appends to. */
  function TaskTarget(call: TaskCall): Id {
    match call
    case CreateTask(task, _) => task
    case RouteTask(task, _) => task
    case Capture(source, _, _) => source
    case LogWork(worklog) => worklog
  }

  function EdgeTarget(call: EdgeCall): Id {
    match call
    case AddEdge(edge, _, _, _, _) => edge
    case RemoveEdge(edge, _) => edge
  }

  /** Everything assumed of a call. Ids of lanes never coincide with ids of tasks, sources, worklogs and edges, project ids
      are not empty, and guards read before a transaction
      were read from an earlier state of the same log. */
  ghost predicate Disciplined(w: State, o: Id, call: Call) {
    match call
    case Lease(_) => true
    case Sweep(c) => SweepOrders(LogOf(w, o), c)
    case Snapshot(c) => c.seen <= LogOf(w, o)
    case Evidence(c) => TerminalOnly(c)
    case CreateLane(lane, project, _, _) => project != "" && (Own(lane, LogOf(w, o)) == [] || lane in LaneIds(LogOf(w, o)))
    case Tasks(c) => TaskTarget(c) !in LaneIds(LogOf(w, o))
    case Edge(c) => EdgeTarget(c) !in LaneIds(LogOf(w, o))
    case Orch(c) =>
      && (c.Gaps? ==> o in w.logs)
      && (c.Change? ==> c.change.DetailsUpdated? || c.change.InputRegistered? || c.change.InputResolved?)
  }

  /** DB.Write: a used key runs nothing, a failing body changes nothing, otherwise events and key commit together. */
  function Write(w: State, key: Key, o: Id, decision: Result<seq<Event>>): State {
    if key in w.audit || decision.Err? then w else AppendAll(w, o, decision.value).(audit := w.audit + {key})
  }

  ghost function Apply(w: State, key: Key, o: Id, call: Call): State {
    Write(w, key, o, Decide(w, o, call))
  }

  // ---------------------------------------------------------------- every decision is legal

  /** Guards read from an earlier state still hold when the revision does. */
  lemma SeenStillHolds(log: seq<Event>, seen: seq<Event>, lane: Id, rev: int)
    requires seen <= log && AtRevision(seen, lane, rev).Ok? && AtRevision(log, lane, rev).Ok?
    ensures AtRevision(seen, lane, rev) == AtRevision(log, lane, rev)
  {
    assert log == seen + log[|seen|..];
    LaneRevisionSound(lane, seen, log[|seen|..]);
  }

  lemma LaneSurvives(w: State, o: Id, seen: seq<Event>, lane: Id)
    requires LogsInv(w) && o in w.logs && seen <= w.logs[o] && LaneOf(lane, seen).Ok?
    ensures LaneOf(lane, w.logs[o]).Ok?
  {
    var log := w.logs[o];
    LaneOkIsLane(lane, seen);
    var i :| 0 <= i < |seen| && seen[i].body.LaneCreated? && seen[i].entity == Some(lane);
    assert log[i] == seen[i];
    assert lane in LaneIds(log);
  }

  /** A call on a lane of an unknown orchestration finds no events. */
  lemma NoLog(w: State, o: Id)
    requires o !in w.logs
    ensures OrchOf(LogOf(w, o)).Err?
    ensures forall id :: LaneOf(id, LogOf(w, o)).Err? && EdgeOf(id, LogOf(w, o)).Err? && TaskOf(id, LogOf(w, o)).Err?
  {
  }

  /** A lane event that its guard allows is legal. */
  lemma AllowedIsLegal(w: State, o: Id, id: Id, b: Body)
    requires LogsInv(w) && o in w.logs && LaneOf(id, w.logs[o]).Ok?
    requires IsLaneBody(b) && Allowed(LaneOf(id, w.logs[o]).value, b, ReqOf(w.definitions, w.logs[o]), w.minted)
    requires b.LeaseGranted? ==> MayActivate(w, o, id, LaneOf(id, w.logs[o]).value.project)
    ensures LegalAll(w, o, [Event(Some(id), b)])
  {
    assert LogInv(w.logs[o], w.definitions, w.minted);
    assert Legal(w, o, Event(Some(id), b));
  }

  lemma OrchEventIsLegal(w: State, o: Id, b: Body)
    requires LogsInv(w) && o in w.logs && LegalOrchEvent(OrchOf(w.logs[o]).value, b)
    ensures LegalAll(w, o, [Event(None, b)])
  {
    assert LogInv(w.logs[o], w.definitions, w.minted);
    assert Legal(w, o, Event(None, b));
  }

  lemma EntityEventIsLegal(w: State, o: Id, id: Id, b: Body)
    requires LogsInv(w) && o in w.logs && !b.LeaseGranted?
    requires LegalEntityEvent(w.logs[o], ReqOf(w.definitions, w.logs[o]), w.minted, id, b)
    ensures LegalAll(w, o, [Event(Some(id), b)])
  {
    assert LogInv(w.logs[o], w.definitions, w.minted);
    assert Legal(w, o, Event(Some(id), b));
  }

  lemma GrantIsLegal(w: State, o: Id, lane: Id, rev: int, worker: Id, expiresAt: Time)
    requires LogsInv(w) && o in w.logs
    requires GrantDecision(w, o, lane, rev, worker, expiresAt).Ok?
    ensures LegalAll(w, o, GrantDecision(w, o, lane, rev, worker, expiresAt).value)
  {
    AllowedIsLegal(w, o, lane, GrantDecision(w, o, lane, rev, worker, expiresAt).value[0].body);
  }

  lemma HeldIsLegal(w: State, o: Id, lane: Id, token: Token, rev: int, b: Body)
    requires LogsInv(w) && o in w.logs && Held(w.logs[o], lane, token, rev).Ok?
    requires b.LeaseHeartbeat? || b.LeaseRejected?
    ensures LegalAll(w, o, [Event(Some(lane), b)])
  {
    AllowedIsLegal(w, o, lane, b);
  }

  lemma CompleteIsLegal(w: State, o: Id, lane: Id, token: Token, rev: int, workLogged: bool)
    requires LogsInv(w) && o in w.logs && CompleteDecision(w, o, lane, token, rev, workLogged).Ok?
    ensures LegalAll(w, o, CompleteDecision(w, o, lane, token, rev, workLogged).value)
  {
    AllowedIsLegal(w, o, lane, LeaseCompleted);
  }

  lemma StageIsLegal(w: State, o: Id, lane: Id, token: Token, stage: RoleStage, record: Id, rev: int)
    requires LogsInv(w) && o in w.logs && StageDecision(w, o, lane, token, stage, record, rev).Ok?
    ensures LegalAll(w, o, StageDecision(w, o, lane, token, stage, record, rev).value)
  {
    AllowedIsLegal(w, o, lane, StageSubmitted(stage, record));
  }

  /** Events the evidence calls append. */
  predicate EvidenceBody(b: Body) {
    b.VerificationRecorded? || b.CiCheckReported? || b.ReviewConclusionRecorded? || b.WorktreeCreated? || b.WorktreeRemoved? ||
    (b.LaneStatusChanged? && IsLaneTerminal(b.status))
  }

  lemma EvidenceAllowed(l: Lane, b: Body, req: Required, minted: Token)
    requires EvidenceBody(b)
    ensures IsLaneBody(b) && !b.LeaseGranted? && Allowed(l, b, req, minted)
  {
  }

  lemma NoteIsLegal(w: State, o: Id, lane: Id, rev: int, b: Body)
    requires LogsInv(w) && o in w.logs && AtRevision(w.logs[o], lane, rev).Ok?
    requires EvidenceBody(b)
    ensures LegalAll(w, o, [Event(Some(lane), b)])
  {
    EvidenceAllowed(LaneOf(lane, w.logs[o]).value, b, ReqOf(w.definitions, w.logs[o]), w.minted);
    AllowedIsLegal(w, o, lane, b);
  }

  lemma CommitIsLegal(w: State, o: Id, lane: Id, sha: Id, seen: seq<Event>)
    requires LogsInv(w) && o in w.logs && seen <= w.logs[o] && LaneOf(lane, seen).Ok?
    ensures LegalAll(w, o, [Event(Some(lane), CommitRecorded(sha))])
  {
    LaneSurvives(w, o, seen, lane);
    AllowedIsLegal(w, o, lane, CommitRecorded(sha));
  }

  lemma RepairIsLegal(w: State, o: Id, lane: Id, reason: string, rev: int, seen: seq<Event>)
    requires LogsInv(w) && o in w.logs && seen <= w.logs[o]
    requires RepairDecision(w.logs[o], lane, reason, rev, seen).Ok?
    ensures LegalAll(w, o, RepairDecision(w.logs[o], lane, reason, rev, seen).value)
  {
    SeenStillHolds(w.logs[o], seen, lane, rev);
    AllowedIsLegal(w, o, lane, RepairDecision(w.logs[o], lane, reason, rev, seen).value[0].body);
  }

  lemma PublishIsLegal(w: State, o: Id, lane: Id, token: Token, rev: int, number: nat, url: string, seen: seq<Event>)
    requires LogsInv(w) && o in w.logs && seen <= w.logs[o]
    requires PublishDecision(w.logs[o], lane, token, rev, number, url, seen).Ok?
    ensures LegalAll(w, o, PublishDecision(w.logs[o], lane, token, rev, number, url, seen).value)
  {
    SeenStillHolds(w.logs[o], seen, lane, rev);
    if PublishDecision(w.logs[o], lane, token, rev, number, url, seen).value != [] {
      AllowedIsLegal(w, o, lane, PrPublished(number, url));
    }
  }

  lemma CreateLaneIsLegal(w: State, o: Id, lane: Id, project: Id, task: Id, createdAt: Time)
    requires LogsInv(w) && o in w.logs && project != ""
    requires Own(lane, w.logs[o]) == [] || lane in LaneIds(w.logs[o])
    requires CreateLaneDecision(w, o, lane, project, task, createdAt).Ok?
    ensures LegalAll(w, o, CreateLaneDecision(w, o, lane, project, task, createdAt).value)
  {
    var log := w.logs[o];
    assert LogInv(log, w.definitions, w.minted);
    if Own(lane, log) == [] {
      EntityEventIsLegal(w, o, lane, LaneCreated(project, task, createdAt));
    } else {
      assert LaneInv(Own(lane, log), ReqOf(w.definitions, log), w.minted);
      AllowedIsLegal(w, o, lane, LaneCreated(project, task, createdAt));
    }
  }

  /** The search before the insert is what keeps the graph acyclic. */
  lemma AddEdgeIsLegal(w: State, o: Id, edge: Id, from: Id, to: Id, edgeType: EdgeType, origin: EdgeOrigin)
    requires LogsInv(w) && o in w.logs && edge !in LaneIds(w.logs[o])
    requires from in TaskIds(w.logs[o]) && to in TaskIds(w.logs[o]) && !Reach(LogArcs(w.logs[o]), to, from)
    ensures LegalAll(w, o, [Event(Some(edge), EdgeAdded(from, to, edgeType, origin))])
  {
    var ev := Event(Some(edge), EdgeAdded(from, to, edgeType, origin));
    assert Acyclic(LogArcs(w.logs[o]) + {(from, to)}) by {
      assert LogInv(w.logs[o], w.definitions, w.minted);
      AddArcAcyclic(LogArcs(w.logs[o]), from, to);
    }
    EntityEventIsLegal(w, o, edge, ev.body);
  }

  lemma AddEdgeChecks(log: seq<Event>, edge: Id, from: Id, to: Id, edgeType: EdgeType, origin: EdgeOrigin)
    requires AddEdgeDecision(log, edge, from, to, edgeType, origin).Ok?
    ensures from in TaskIds(log) && to in TaskIds(log) && !Reach(LogArcs(log), to, from)
    ensures AddEdgeDecision(log, edge, from, to, edgeType, origin).value ==
              [Event(Some(edge), EdgeAdded(from, to, edgeType, origin))]
  {
  }

  // ---------------------------------------------------------------- batches over several lanes

  /** Each event tells a different lane something its own state allows, and none grants a lease. */
  ghost predicate PerLane(w: State, o: Id, batch: seq<Event>) {
    && o in w.logs
    && (forall i :: 0 <= i < |batch| ==> TellsLane(w, o, batch[i]))
    && (forall i, j :: 0 <= i < j < |batch| ==> batch[i].entity != batch[j].entity)
  }

  ghost predicate TellsLane(w: State, o: Id, ev: Event) {
    && o in w.logs && ev.entity.Some? && LaneOf(ev.entity.value, w.logs[o]).Ok?
    && IsLaneBody(ev.body) && !ev.body.LeaseGranted?
    && Allowed(LaneOf(ev.entity.value, w.logs[o]).value, ev.body, ReqOf(w.definitions, w.logs[o]), w.minted)
  }

  lemma TellingOneLeavesOthers(w: State, o: Id, ev: Event, other: Event)
    requires LogsInv(w) && TellsLane(w, o, ev) && TellsLane(w, o, other) && ev.entity != other.entity
    ensures TellsLane(AppendEvent(w, o, ev), o, other)
  {
    assert LogInv(w.logs[o], w.definitions, w.minted);
    LaneAfter(other.entity.value, w.logs[o], ev);
    OrchOfAppend(w.logs[o], ev);
  }

  lemma {:induction false} PerLaneIsLegal(w: State, o: Id, batch: seq<Event>)
    requires LogsInv(w) && PerLane(w, o, batch)
    ensures LegalAll(w, o, batch)
    decreases |batch|
  {
    if batch != [] {
      assert TellsLane(w, o, batch[0]);
      AllowedIsLegal(w, o, batch[0].entity.value, batch[0].body);
      assert batch[0] == Event(Some(batch[0].entity.value), batch[0].body);
      assert Legal(w, o, batch[0]);
      LegalKeepsLogsInv(w, o, batch[0]);
      var next := AppendEvent(w, o, batch[0]);
      forall i | 0 <= i < |batch[1..]| ensures TellsLane(next, o, batch[1..][i]) {
        assert batch[1..][i] == batch[i + 1];
        TellingOneLeavesOthers(w, o, batch[0], batch[i + 1]);
      }
      PerLaneIsLegal(next, o, batch[1..]);
    }
  }

  /** One more event for one more lane. */
  lemma PerLaneSnoc(w: State, o: Id, batch: seq<Event>, ev: Event)
    requires PerLane(w, o, batch) && TellsLane(w, o, ev) && forall other :: other in batch ==> other.entity != ev.entity
    ensures PerLane(w, o, batch + [ev])
  {
    forall i, j | 0 <= i < j < |batch| + 1 ensures (batch + [ev])[i].entity != (batch + [ev])[j].entity {
      assert batch[i] in batch;
    }
  }

  /** The lanes an event list addresses, all drawn from `ids`. */
  ghost predicate Addresses(batch: seq<Event>, ids: set<Id>) {
    forall ev :: ev in batch ==> ev.entity.Some? && ev.entity.value in ids
  }

  lemma {:induction false} ExpirePerLane(w: State, o: Id, now: Time, order: seq<Id>)
    requires o in w.logs && NoDup(order)
    ensures PerLane(w, o, ExpireBatch(w.logs[o], now, order))
    ensures Addresses(ExpireBatch(w.logs[o], now, order), Elems(order))
  {
    if order != [] {
      var n := |order| - 1;
      ExpirePerLane(w, o, now, order[..n]);
      TakeSnoc(order, n);
      TakeAll(order);
      assert order[n] !in Elems(order[..n]);
      var l := LaneOf(order[n], w.logs[o]);
      if l.Ok? && Expired(l.value, now) {
        PerLaneSnoc(w, o, ExpireBatch(w.logs[o], now, order[..n]), Event(Some(order[n]), LeaseTimedOut));
      }
    }
  }

  /** The lanes picked for the given tasks. */
  ghost function PickedFor(pick: map<Id, Id>, order: seq<Id>): set<Id> {
    set t | t in order && t in pick :: pick[t]
  }

  lemma {:induction false} SyncPerLane(w: State, o: Id, lanes: map<Id, Lane>, tasks: set<Id>, pick: map<Id, Id>,
                                       edges: seq<Edge>, order: seq<Id>)
    requires o in w.logs && NoDup(order) && forall t :: t in order ==> t in pick
    requires Sync.PickOk(lanes, pick) && forall id :: id in lanes ==> LaneOf(id, w.logs[o]) == Ok(lanes[id])
    ensures PerLane(w, o, Sync.SyncBatch(lanes, tasks, pick, edges, order))
    ensures Addresses(Sync.SyncBatch(lanes, tasks, pick, edges, order), PickedFor(pick, order))
  {
    if order != [] {
      var n := |order| - 1;
      var t := order[n];
      TakeSnoc(order, n);
      TakeAll(order);
      SyncPerLane(w, o, lanes, tasks, pick, edges, order[..n]);
      SyncTells(w, o, lanes, tasks, pick, edges, t);
      PickedForSnoc(lanes, pick, order, n);
      SyncPerLaneSnoc(w, o, Sync.SyncBatch(lanes, tasks, pick, edges, order[..n]), pick[t],
                      Sync.SyncStep(lanes, tasks, pick, edges, t), PickedFor(pick, order[..n]));
    }
  }

  /** Each task picks another lane. */
  lemma PickedForSnoc(lanes: map<Id, Lane>, pick: map<Id, Id>, order: seq<Id>, n: nat)
    requires n == |order| - 1 && NoDup(order) && Sync.PickOk(lanes, pick) && forall t :: t in order ==> t in pick
    ensures PickedFor(pick, order) == PickedFor(pick, order[..n]) + {pick[order[n]]}
    ensures pick[order[n]] !in PickedFor(pick, order[..n])
  {
    var t := order[n];
    assert forall u :: u in order <==> u in order[..n] || u == t;
    assert t !in order[..n];
    assert forall u :: u in order[..n] ==> lanes[pick[u]].parentTask == u;
  }

  /** What one more lane is told. */
  lemma SyncPerLaneSnoc(w: State, o: Id, batch: seq<Event>, lane: Id, step: seq<Body>, ids: set<Id>)
    requires PerLane(w, o, batch) && Addresses(batch, ids) && lane !in ids
    requires |step| <= 1 && (step != [] ==> TellsLane(w, o, Event(Some(lane), step[0])))
    ensures PerLane(w, o, batch + Sync.Scoped(lane, step)) && Addresses(batch + Sync.Scoped(lane, step), ids + {lane})
  {
    if step == [] {
      assert batch + Sync.Scoped(lane, step) == batch;
    } else {
      var ev := Event(Some(lane), step[0]);
      assert Sync.Scoped(lane, step) == [ev];
      PerLaneSnoc(w, o, batch, ev);
    }
  }

  lemma SyncTells(w: State, o: Id, lanes: map<Id, Lane>, tasks: set<Id>, pick: map<Id, Id>, edges: seq<Edge>, t: Id)
    requires o in w.logs && t in pick && pick[t] in lanes && LaneOf(pick[t], w.logs[o]) == Ok(lanes[pick[t]])
    ensures var step := Sync.SyncStep(lanes, tasks, pick, edges, t);
            |step| <= 1 && (step != [] ==> TellsLane(w, o, Event(Some(pick[t]), step[0])))
  {
  }

  // ---------------------------------------------------------------- all calls

  lemma LeaseCallIsLegal(w: State, o: Id, call: LeaseCall)
    requires LogsInv(w) && o in w.logs && DecideLease(w, o, call).Ok?
    ensures LegalAll(w, o, DecideLease(w, o, call).value)
  {
    match call
    case Grant(lane, rev, worker, expiresAt) => GrantIsLegal(w, o, lane, rev, worker, expiresAt);
    case Heartbeat(lane, token, rev, expiresAt) => HeldIsLegal(w, o, lane, token, rev, LeaseHeartbeat(expiresAt));
    case Complete(lane, token, rev, workLogged) => CompleteIsLegal(w, o, lane, token, rev, workLogged);
    case Reject(lane, token, rev) => HeldIsLegal(w, o, lane, token, rev, LeaseRejected);
    case RecordStage(lane, token, stage, record, rev) => StageIsLegal(w, o, lane, token, stage, record, rev);
  }

  lemma SweepCallIsLegal(w: State, o: Id, call: SweepCall)
    requires LogsInv(w) && o in w.logs && SweepOrders(w.logs[o], call) && DecideSweep(w.logs[o], call).Ok?
    ensures LegalAll(w, o, DecideSweep(w.logs[o], call).value)
  {
    match call {
      case Expire(now, order) =>
        ExpirePerLane(w, o, now, order);
      case SyncFrontier(pick, edgeOrder, order) =>
        SyncPerLane(w, o, LaneTable(w.logs[o]), TaskIds(w.logs[o]), pick, EdgeList(w.logs[o], edgeOrder), order);
    }
    PerLaneIsLegal(w, o, DecideSweep(w.logs[o], call).value);
  }

  lemma SnapshotCallIsLegal(w: State, o: Id, call: SnapshotCall)
    requires LogsInv(w) && o in w.logs && call.seen <= w.logs[o] && DecideSnapshot(w.logs[o], call).Ok?
    ensures LegalAll(w, o, DecideSnapshot(w.logs[o], call).value)
  {
    match call
    case Repair(lane, reason, rev, seen) => RepairIsLegal(w, o, lane, reason, rev, seen);
    case Publish(lane, token, rev, number, url, seen) => PublishIsLegal(w, o, lane, token, rev, number, url, seen);
    case Commit(lane, sha, seen) => CommitIsLegal(w, o, lane, sha, seen);
  }

  lemma EvidenceChecks(log: seq<Event>, call: EvidenceCall) returns (b: Body)
    requires TerminalOnly(call) && DecideEvidence(log, call).Ok?
    ensures DecideEvidence(log, call).value == [Event(Some(call.lane), b)]
    ensures AtRevision(log, call.lane, call.rev).Ok? && EvidenceBody(b)
  {
    b := match call
      case Verify(_, dimension, outcome, _) => VerificationRecorded(dimension, outcome)
      case CiCheck(_, check, required, status, _) => CiCheckReported(check, required, status)
      case Conclude(_, conclusion, _, _) => ReviewConclusionRecorded(conclusion)
      case UpdateStatus(_, _, status) => LaneStatusChanged(status)
      case Worktree(_, _, change) => change;
  }

  lemma EvidenceCallIsLegal(w: State, o: Id, call: EvidenceCall)
    requires LogsInv(w) && o in w.logs && TerminalOnly(call) && DecideEvidence(w.logs[o], call).Ok?
    ensures LegalAll(w, o, DecideEvidence(w.logs[o], call).value)
  {
    var b := EvidenceChecks(w.logs[o], call);
    NoteIsLegal(w, o, call.lane, call.rev, b);
  }

  lemma TaskCallAllowed(w: State, o: Id, call: TaskCall, req: Required)
    requires TaskTarget(call) !in LaneIds(LogOf(w, o)) && DecideTask(w, o, call).Ok?
    ensures exists b :: DecideTask(w, o, call).value == [Event(Some(TaskTarget(call)), b)] && !b.LeaseGranted? &&
              LegalEntityEvent(LogOf(w, o), req, w.minted, TaskTarget(call), b)
  {
    var b := match call
      case CreateTask(_, sources) => TaskCreated(sources)
      case RouteTask(_, project) => TaskRouted(project)
      case Capture(_, key, hash) => RequirementCaptured(key, hash)
      case LogWork(_) => WorklogRecorded;
    assert DecideTask(w, o, call).value == [Event(Some(TaskTarget(call)), b)];
  }

  lemma TaskCallIsLegal(w: State, o: Id, call: TaskCall)
    requires LogsInv(w) && o in w.logs && TaskTarget(call) !in LaneIds(w.logs[o]) && DecideTask(w, o, call).Ok?
    ensures LegalAll(w, o, DecideTask(w, o, call).value)
  {
    TaskCallAllowed(w, o, call, ReqOf(w.definitions, w.logs[o]));
    var b :| DecideTask(w, o, call).value == [Event(Some(TaskTarget(call)), b)] && !b.LeaseGranted? &&
      LegalEntityEvent(LogOf(w, o), ReqOf(w.definitions, w.logs[o]), w.minted, TaskTarget(call), b);
    EntityEventIsLegal(w, o, TaskTarget(call), b);
  }

  lemma RemoveEdgeChecks(log: seq<Event>, edge: Id, evidence: string)
    requires RemoveEdgeDecision(log, edge, evidence).Ok?
    ensures EdgeOf(edge, log).Ok? && RemoveEdgeDecision(log, edge, evidence).value == [Event(Some(edge), EdgeRemoved(evidence))]
  {
  }

  lemma RemoveEdgeIsLegal(w: State, o: Id, edge: Id, evidence: string)
    requires LogsInv(w) && o in w.logs && edge !in LaneIds(w.logs[o]) && EdgeOf(edge, w.logs[o]).Ok?
    ensures LegalAll(w, o, [Event(Some(edge), EdgeRemoved(evidence))])
  {
    EntityEventIsLegal(w, o, edge, EdgeRemoved(evidence));
  }

  lemma EdgeCallIsLegal(w: State, o: Id, call: EdgeCall)
    requires LogsInv(w) && o in w.logs && EdgeTarget(call) !in LaneIds(w.logs[o]) && DecideEdge(w.logs[o], call).Ok?
    ensures LegalAll(w, o, DecideEdge(w.logs[o], call).value)
  {
    match call
    case AddEdge(edge, from, to, edgeType, origin) =>
      AddEdgeChecks(w.logs[o], edge, from, to, edgeType, origin);
      AddEdgeIsLegal(w, o, edge, from, to, edgeType, origin);
    case RemoveEdge(edge, evidence) =>
      RemoveEdgeChecks(w.logs[o], edge, evidence);
      RemoveEdgeIsLegal(w, o, edge, evidence);
  }

  lemma OrchCallAllowed(w: State, o: Id, call: OrchCall)
    requires OrchOf(LogOf(w, o)).Ok? && Disciplined(w, o, Orch(call)) && DecideOrch(w, o, call).Ok?
    ensures DecideOrch(w, o, call).value == [] ||
            exists b :: DecideOrch(w, o, call).value == [Event(None, b)] && LegalOrchEvent(OrchOf(LogOf(w, o)).value, b)
  {
    var b := match call
      case Change(_, change) => change
      case Attach(_, project) => ProjectAttached(project)
      case Detach(_, project) => ProjectDetached(project)
      case Gaps => CompletedWithGaps;
    assert DecideOrch(w, o, call).value == [] || DecideOrch(w, o, call).value == [Event(None, b)];
  }

  lemma OrchCallIsLegal(w: State, o: Id, call: OrchCall)
    requires LogsInv(w) && o in w.logs && Disciplined(w, o, Orch(call)) && DecideOrch(w, o, call).Ok?
    ensures LegalAll(w, o, DecideOrch(w, o, call).value)
  {
    assert OrchOf(w.logs[o]).Ok? by {
      assert LogInv(w.logs[o], w.definitions, w.minted);
    }
    OrchCallAllowed(w, o, call);
    if DecideOrch(w, o, call).value != [] {
      var b :| DecideOrch(w, o, call).value == [Event(None, b)] && LegalOrchEvent(OrchOf(LogOf(w, o)).value, b);
      OrchEventIsLegal(w, o, b);
    }
  }

  lemma UnknownSweep(call: SweepCall)
    requires SweepOrders([], call) && DecideSweep([], call).Ok?
    ensures DecideSweep([], call).value == []
  {
    ElemsEmpty(call.order);
    assert LaneIds([]) == {};
    assert LaneTable([]) == map[];
  }

  lemma UnknownOrch(w: State, o: Id, call: OrchCall)
    requires o !in w.logs && !call.Gaps?
    ensures DecideOrch(w, o, call).Err?
  {
    NoLog(w, o);
  }

  /** Every operation appends legal events only. */
  lemma DecideIsLegal(w: State, o: Id, call: Call)
    requires LogsInv(w) && Disciplined(w, o, call) && Decide(w, o, call).Ok?
    ensures LegalAll(w, o, Decide(w, o, call).value)
  {
    if o !in w.logs {
      NoLog(w, o);
      if call.Sweep? {
        UnknownSweep(call.sweep);
      } else if call.Orch? {
        UnknownOrch(w, o, call.orch);
      }
    } else {
      match call
      case Lease(c) => LeaseCallIsLegal(w, o, c);
      case Sweep(c) => SweepCallIsLegal(w, o, c);
      case Snapshot(c) => SnapshotCallIsLegal(w, o, c);
      case Evidence(c) => EvidenceCallIsLegal(w, o, c);
      case CreateLane(lane, project, task, at) => CreateLaneIsLegal(w, o, lane, project, task, at);
      case Tasks(c) => TaskCallIsLegal(w, o, c);
      case Edge(c) => EdgeCallIsLegal(w, o, c);
      case Orch(c) => OrchCallIsLegal(w, o, c);
    }
  }
}
