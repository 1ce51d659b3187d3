/** Delivery lifetimes: cases, executions and sessions
    (internal/delivery/lifetime.go, store.go:511-548, execution.go:113-290). */
module Lifetime {
  import opened Core
  import opened Events
  import opened Reduce
  import opened LaneRules
  import opened Text
  import opened World

  // ---------------------------------------------------------------- lookups

  /** A row getActiveJiraLifetime may return for an issue at an organisation; "" asks without an organisation. */
  predicate Candidate(c: Case, key: Id, org: Id) {
    c.jira && c.key == key && c.active && (org == "" || c.tenant == org || c.tenant == "")
  }

  /** ORDER BY: with no organisation the unnamed tenant first, otherwise the exact tenant first; then the newest. */
  predicate Ahead(a: Case, b: Case, org: Id) {
    var pa, pb := a.tenant == org, b.tenant == org;
    if pa != pb then pa else a.createdAt > b.createdAt
  }

  /** One of the rows ORDER BY ... LIMIT 1 may return. */
  ghost predicate Found(cases: map<Id, Case>, key: Id, org: Id, found: Option<Id>) {
    match found
    case None => forall c :: c in cases ==> !Candidate(cases[c], key, org)
    case Some(c) =>
      && c in cases && Candidate(cases[c], key, org)
      && forall d :: d in cases && Candidate(cases[d], key, org) ==> !Ahead(cases[d], cases[c], org)
  }

  /** The ordinals a case has used. */
  function Ordinals(executions: map<Id, Execution>, c: Id): set<nat> {
    set e | e in executions && executions[e].caseId == c :: executions[e].ordinal
  }

  /** ORDER BY ordinal DESC LIMIT 1. */
  ghost predicate IsLast(executions: map<Id, Execution>, c: Id, e: Id) {
    && e in executions && executions[e].caseId == c
    && forall d :: d in executions && executions[d].caseId == c ==> executions[d].ordinal <= executions[e].ordinal
  }

  ghost predicate LastIs(executions: map<Id, Execution>, c: Id, last: Option<Id>) {
    match last
    case None => forall e :: e in executions ==> executions[e].caseId != c
    case Some(e) => IsLast(executions, c, e)
  }

  predicate ActiveOn(sessions: map<Id, Session>, s: Id, e: Id) {
    s in sessions && sessions[s].execution == e && sessions[s].status == SessionActive
  }

  // ---------------------------------------------------------------- operations

  datatype Start = Start(
    caseId: Id, executionId: Id, orchId: Id, sourceId: Id, // minted ids
    workflow: Id, now: Time
  )

  /** id is the caller's or a minted one; progress is a percentage. */
  datatype CheckpointInput = CheckpointInput(id: Id, summary: string, progress: Option<real>, handoffTo: string)

  datatype GlobalCall =
    | NewOrchestration(orchId: Id, inputs: seq<Id>, workflow: Id)
    | Register(project: Id, active: bool)
    | StartJira(key: Id, tenant: Id, start: Start, found: Option<Id>, last: Option<Id>)
    | StartAdhoc(start: Start)
    | Cancel(orchId: Id, rev: int)
    | CompleteRun(orchId: Id, rev: int)
    | OpenSession(execution: Id, session: Id, named: bool, participant: string, resumedFrom: Id)
    | Checkpoint(session: Id, input: CheckpointInput)

  /** The rows handed back to the caller, and whether this call created them. */
  datatype Resolved = Resolved(caseId: Id, executionId: Id, createdCase: bool, createdExecution: bool)

  /** A new execution with its own orchestration log. */
  function OpenExecution(w: State, caseId: Id, ordinal: nat, start: Start, first: seq<Event>): State {
    w.(logs := w.logs[start.orchId := first],
       executions := w.executions[start.executionId := Execution(caseId, start.orchId, ordinal, ExecutionActive, None)])
  }

  function FirstEvents(start: Start, jira: bool, key: Id): seq<Event> {
    [Event(None, OrchestrationCreated([], start.workflow))] +
    if jira then [Event(Some(start.sourceId), RequirementCaptured(key, key))] else []
  }

  function ClosedBy(o: OrchStatus): ExecutionStatus {
    if o == OrchCancelled then ExecutionCancelled else ExecutionCompleted
  }

  /** StartOrResolveExecution for a Jira issue, given the rows its two lookups returned. */
  function StartJiraStep(w: State, key: Id, tenant: Id, start: Start, found: Option<Id>,
                         last: Option<Id>): Result<State> {
    if found.None? || found.value !in w.cases then
      var created := Case(true, key, tenant, true, start.now);
      Ok(OpenExecution(w.(cases := w.cases[start.caseId := created]), start.caseId, 1, start, FirstEvents(start, true, key)))
    else
      var c := found.value;
      var adopted := if tenant != "" && w.cases[c].tenant != tenant then w.cases[c].(tenant := tenant) else w.cases[c];
      var w1 := w.(cases := w.cases[c := adopted]);
      if last.None? || last.value !in w.executions then
        Ok(OpenExecution(w1, c, 1, start, FirstEvents(start, true, key)))
      else
        var e := last.value;
        var orch :- OrchOf(LogOf(w, w.executions[e].orch));
        if !IsTerminal(orch.status) then Ok(w1)
        else
          var closed := w.executions[e].(status := ClosedBy(orch.status));
          Ok(OpenExecution(w1.(executions := w.executions[e := closed]), c, w.executions[e].ordinal + 1, start,
                           FirstEvents(start, true, key)))
  }

  function CancelStep(w: State, o: Id, rev: int): Result<State> {
    var orch :- OrchOf(LogOf(w, o));
    if orch.revision != rev then Err(RevisionConflict)
    else if IsTerminal(orch.status) then Err(InvalidState)
    else
      var w1 := w.(logs := w.logs[o := LogOf(w, o) + [Event(None, OrchestrationCancelled)]]);
      Ok(w1.(cases := map c | c in w.cases ::
        if exists e :: e in w.executions && w.executions[e].orch == o && w.executions[e].caseId == c
        then w.cases[c].(active := false) else w.cases[c]))
  }

  function CompleteStep(w: State, o: Id, rev: int): Result<State> {
    var orch :- OrchOf(LogOf(w, o));
    if orch.revision != rev then Err(RevisionConflict)
    else if IsTerminal(orch.status) then Err(InvalidState)
    else if forall e :: e in w.executions ==> w.executions[e].orch != o then Err(NotFound)
    else
      var w1 := w.(logs := w.logs[o := LogOf(w, o) + [Event(None, OrchestrationCompleted)]]);
      Ok(w1.(
        executions := map e | e in w.executions ::
          if w.executions[e].orch == o then w.executions[e].(status := ExecutionCompleted) else w.executions[e],
        sessions := map s | s in w.sessions ::
          if w.sessions[s].status == SessionActive && w.sessions[s].execution in w.executions &&
             w.executions[w.sessions[s].execution].orch == o
          then w.sessions[s].(status := SessionClosed) else w.sessions[s]))
  }

  function OpenSessionStep(w: State, e: Id, id: Id, named: bool, participant: string, resumedFrom: Id): Result<State> {
    if participant == "" then Err(BadRequest)
    else if e !in w.executions then Err(NotFound)
    else if w.executions[e].status != ExecutionActive then Err(InvalidState)
    else if exists s :: s in w.sessions && ActiveOn(w.sessions, s, e) then
      if !named && resumedFrom == "" then Ok(w) else Err(InvalidState)
    else if resumedFrom != "" && !(resumedFrom in w.sessions && w.sessions[resumedFrom].execution == e &&
                                   w.sessions[resumedFrom].status != SessionActive) then Err(ScopeMismatch)
    else if id in w.sessions then Err(UniqueViolation)
    else
      Ok(w.(sessions := w.sessions[id := Session(e, resumedFrom, SessionActive)],
            executions := w.executions[e := w.executions[e].(session := Some(id))]))
  }

  ghost predicate IsLargest(s: set<nat>, m: nat) {
    m in s && forall x :: x in s ==> x <= m
  }

  lemma {:induction false} HasLargest(s: set<nat>) returns (m: nat)
    requires s != {}
    ensures IsLargest(s, m)
  {
    m :| m in s;
    var rest := s - {m};
    assert forall x :: x in s ==> x == m || x in rest;
    if rest != {} {
      var n := HasLargest(rest);
      m := if m <= n then n else m;
    }
  }

  lemma SomeLargest(s: set<nat>)
    requires s != {}
    ensures exists m: nat :: IsLargest(s, m)
  {
    var m := HasLargest(s);
  }

  /** COALESCE(MAX(...), 0). */
  ghost function Largest(s: set<nat>): (m: nat)
    ensures s == {} ==> m == 0
    ensures s != {} ==> m in s && forall x :: x in s ==> x <= m
  {
    if s == {} then 0
    else
      SomeLargest(s);
      var m: nat :| IsLargest(s, m);
      m
  }

  function SequencesOf(checkpoints: map<Id, SessionCheckpoint>, session: Id): set<nat> {
    set c | c in checkpoints && checkpoints[c].session == session :: checkpoints[c].sequence
  }

  predicate Percentage(progress: Option<real>) {
    progress.Some? ==> 0.0 <= progress.value <= 100.0
  }

  function CaseOf(w: State, session: Session): Id {
    if session.execution in w.executions then w.executions[session.execution].caseId else ""
  }

  ghost function CheckpointRow(w: State, id: Id, input: CheckpointInput): SessionCheckpoint
    requires id in w.sessions
  {
    SessionCheckpoint(id, CaseOf(w, w.sessions[id]), w.sessions[id].execution, Largest(SequencesOf(w.checkpoints, id)) + 1,
                      TrimSpace(input.summary), input.progress, TrimSpace(input.handoffTo))
  }

  /** CheckpointSession: the next row of the session; a recipient ends it. */
  ghost function CheckpointStep(w: State, id: Id, input: CheckpointInput): Result<State> {
    if TrimSpace(input.summary) == "" || !Percentage(input.progress) then Err(BadRequest)
    else if id !in w.sessions then Err(NotFound)
    else if w.sessions[id].status != SessionActive then Err(InvalidState)
    else if input.id in w.checkpoints then Err(UniqueViolation)
    else
      var row := CheckpointRow(w, id, input);
      Ok(w.(checkpoints := w.checkpoints[input.id := row],
            sessions := if row.handoffTo == "" then w.sessions
                        else w.sessions[id := w.sessions[id].(status := SessionHandedOff)]))
  }

  ghost function GlobalStep(w: State, call: GlobalCall): Result<State> {
    match call
    case NewOrchestration(o, inputs, workflow) =>
      if o in w.logs then Err(UniqueViolation)
      else Ok(w.(logs := w.logs[o := [Event(None, OrchestrationCreated(inputs, workflow))]]))
    case Register(project, active) => Ok(w.(projects := w.projects[project := active]))
    case StartJira(key, tenant, start, found, last) => StartJiraStep(w, key, tenant, start, found, last)
    case StartAdhoc(start) =>
      var created := Case(false, "", "", true, start.now);
      Ok(OpenExecution(w.(cases := w.cases[start.caseId := created]), start.caseId, 1, start, FirstEvents(start, false, "")))
    case Cancel(o, rev) => CancelStep(w, o, rev)
    case CompleteRun(o, rev) => CompleteStep(w, o, rev)
    case OpenSession(e, id, named, participant, resumedFrom) => OpenSessionStep(w, e, id, named, participant, resumedFrom)
    case Checkpoint(id, input) => CheckpointStep(w, id, input)
  }

  predicate FreshIds(w: State, start: Start) {
    start.caseId !in w.cases && start.executionId !in w.executions && start.orchId !in w.logs
  }

  /** Minted ids are new, and the lookups returned rows their queries may return. */
  ghost predicate GlobalDisciplined(w: State, call: GlobalCall) {
    match call
    case StartJira(key, tenant, start, found, last) =>
      FreshIds(w, start) && Found(w.cases, key, tenant, found) && (found.Some? ==> LastIs(w.executions, found.value, last))
    case StartAdhoc(start) => FreshIds(w, start)
    case _ => true
  }
}
