/** What holds in every reachable state, in plain terms, and what no later step can undo. */
module Guarantees {
  import opened Core
  import opened Events
  import opened Reduce
  import opened Graph
  import opened LaneRules
  import opened World
  import opened Operations
  import opened Lifetime
  import opened Lifetimes
  import opened Machine
  import Priority
  import Sync

  // Everything here is stated for states that satisfy the invariant: every reachable state does, and so does every state
  // a store object is in.

  /** Some disciplined run from the empty control plane ends in w. */
  ghost predicate Reachable(w: State) {
    exists steps :: DisciplinedRun(Init(w.definitions), steps) && Run(Init(w.definitions), steps) == w
  }

  lemma ReachableInv(w: State)
    requires Reachable(w)
    ensures Inv(w)
  {
    var steps :| DisciplinedRun(Init(w.definitions), steps) && Run(Init(w.definitions), steps) == w;
    InitInv(w.definitions);
    RunKeepsInv(Init(w.definitions), steps);
  }

  // ---------------------------------------------------------------- safety

  /** One mutating lane per project in an orchestration, and at most four projects with mutating work anywhere. */
  lemma MutualExclusion(w: State)
    requires Inv(w)
    ensures forall o, a, b :: o in w.logs && ActiveLane(w.logs[o], a) && ActiveLane(w.logs[o], b) && a != b ==>
              LaneOf(a, w.logs[o]).value.project != LaneOf(b, w.logs[o]).value.project
    ensures |set o, id | o in w.logs && id in LaneIds(w.logs[o]) && ActiveLane(w.logs[o], id) ::
               LaneOf(id, w.logs[o]).value.project| <= 4
  {
    forall o, a, b | o in w.logs && ActiveLane(w.logs[o], a) && ActiveLane(w.logs[o], b) && a != b
      ensures LaneOf(a, w.logs[o]).value.project != LaneOf(b, w.logs[o]).value.project
    {
      assert LogInv(w.logs[o], w.definitions, w.minted);
    }
    var busy := set o, id | o in w.logs && id in LaneIds(w.logs[o]) && ActiveLane(w.logs[o], id) ::
                  LaneOf(id, w.logs[o]).value.project;
    forall p | p in busy ensures p in BusyProjects(w.logs) {
      var o, id :| o in w.logs && id in LaneIds(w.logs[o]) && ActiveLane(w.logs[o], id) && LaneOf(id, w.logs[o]).value.project == p;
      assert p in BusyIn(w.logs[o]);
    }
    SubsetCard(busy, BusyProjects(w.logs));
  }

  lemma LaneHolds(w: State, o: Id, id: Id)
    requires LogsInv(w) && o in w.logs && id in LaneIds(w.logs[o])
    ensures LaneInv(Own(id, w.logs[o]), ReqOf(w.definitions, w.logs[o]), w.minted)
  {
    assert LogInv(w.logs[o], w.definitions, w.minted);
  }

  /** Every lane replays, and its counters count its log: the attempt number is the number of grants, repair cycles never
      exceed three, and at most one pull request was ever recorded, whatever keys the retries used. */
  lemma LaneCounters(w: State, o: Id, id: Id)
    requires Inv(w) && o in w.logs && id in LaneIds(w.logs[o])
    ensures LaneOf(id, w.logs[o]).Ok?
    ensures var l, own := LaneOf(id, w.logs[o]).value, Own(id, w.logs[o]);
      && AttemptOf(l) == CountGrants(own)
      && Repairs(l) == CountRepairs(own) <= 3
      && CountPublished(own) <= 1
      && l.revision == |own|
  {
    LaneHolds(w, o, id);
    ReplayLaneRevision(Own(id, w.logs[o]));
  }

  /** A stage recorded after Semar has every earlier required stage recorded, although only the nearest one is checked;
      and a lane in review that ever recorded Semar has its last required stage. */
  lemma StageChain(w: State, o: Id, id: Id, s: RoleStage)
    requires Inv(w) && o in w.logs && id in LaneIds(w.logs[o])
    ensures LaneOf(id, w.logs[o]).Ok?
    ensures var l, req := LaneOf(id, w.logs[o]).value, ReqOf(w.definitions, w.logs[o]);
      && (s != Semar && RecordOf(l, s).Some? ==>
            forall p :: StageIndex(p) < StageIndex(s) && IsRequired(req, p) ==> Recorded(l, p))
      && (l.status == Review && l.semar.Some? && LastRequired(req).Some? ==> Recorded(l, LastRequired(req).value))
  {
    LaneHolds(w, o, id);
  }

  /** The active edges of every orchestration stay acyclic, and every log replays: no reducer ever fails. */
  lemma GraphsAndReplay(w: State, o: Id)
    requires Inv(w) && o in w.logs
    ensures Acyclic(LogArcs(w.logs[o]))
    ensures OrchOf(w.logs[o]).Ok? && LanesReplay(w.logs[o])
    ensures forall id :: EdgeOf(id, w.logs[o]) != Err(Corrupt) && TaskOf(id, w.logs[o]) != Err(Corrupt)
  {
    assert LogInv(w.logs[o], w.definitions, w.minted);
  }

  /** AddDependencyEdge refuses exactly the edges that would close a cycle, besides unknown ends and unsafe crossings. */
  lemma AddEdgeExact(w: State, o: Id, edge: Id, from: Id, to: Id, edgeType: EdgeType, origin: EdgeOrigin)
    requires Inv(w) && o in w.logs
    requires from in TaskIds(w.logs[o]) && to in TaskIds(w.logs[o])
    requires TaskOf(from, w.logs[o]).Ok? && TaskOf(to, w.logs[o]).Ok?
    requires !CrossesUnsafely(TaskOf(from, w.logs[o]).value, TaskOf(to, w.logs[o]).value, origin)
    ensures AddEdgeDecision(w.logs[o], edge, from, to, edgeType, origin) ==
              if Acyclic(LogArcs(w.logs[o]) + {(from, to)}) then Ok([Event(Some(edge), EdgeAdded(from, to, edgeType, origin))])
              else Err(Cycle)
  {
    GraphsAndReplay(w, o);
    AddArcAcyclic(LogArcs(w.logs[o]), from, to);
    if from == to {
      ReachSelf(LogArcs(w.logs[o]), from);
    }
  }

  // ---------------------------------------------------------------- lifetimes

  /** At most one active case per issue and organisation, and one without an organisation is the only one. */
  lemma ActiveCases(w: State, c: Id, d: Id)
    requires Inv(w) && c in w.cases && d in w.cases && c != d
    requires w.cases[c].jira && w.cases[d].jira && w.cases[c].active && w.cases[d].active && w.cases[c].key == w.cases[d].key
    ensures w.cases[c].tenant != w.cases[d].tenant && w.cases[c].tenant != "" && w.cases[d].tenant != ""
  {
    assert !Clash(w.cases[c], w.cases[d]);
  }

  /** The ordinals of a case are exactly 1..n for some positive n. Below the last one every orchestration is completed,
      and the case is cancelled exactly when the last one is. */
  lemma CaseHistory(w: State, c: Id) returns (n: nat, last: Id)
    requires Inv(w) && c in w.cases
    ensures n > 0 && forall k: nat :: k in Ordinals(w.executions, c) <==> 1 <= k <= n
    ensures last in w.executions && w.executions[last].caseId == c && w.executions[last].ordinal == n
    ensures forall e :: e in w.executions ==> w.executions[e].orch in w.logs
    ensures forall e :: e in w.executions && w.executions[e].caseId == c && e != last ==>
              w.executions[e].ordinal < n && StandingOf(w.logs[w.executions[e].orch]) == Completed
    ensures w.cases[c].active <==> StandingOf(w.logs[w.executions[last].orch]) != Cancelled
  {
    assert HasNumbers(w.executions, c);
    n :| n > 0 && Numbered(w.executions, c, n);
    assert Uses(w.executions, c, n);
    last :| BelongsTo(w.executions, last, c) && w.executions[last].ordinal == n;
    OrdinalsAre(w.executions, c, n);
    HistoryOf(w.cases, w.executions, Standings(w.logs), c, n, last);
  }

  lemma OrdinalsAre(executions: map<Id, Execution>, c: Id, n: nat)
    requires Numbered(executions, c, n)
    ensures forall k: nat :: k in Ordinals(executions, c) <==> 1 <= k <= n
  {
    forall k | k in Ordinals(executions, c) ensures 1 <= k <= n {
      var e :| e in executions && executions[e].caseId == c && executions[e].ordinal == k;
      assert BelongsTo(executions, e, c);
    }
    forall k | 1 <= k <= n ensures k in Ordinals(executions, c) {
      assert Uses(executions, c, k);
    }
  }

  lemma HistoryOf(cases: map<Id, Case>, executions: map<Id, Execution>, standing: map<Id, Standing>, c: Id, n: nat,
                  last: Id)
    requires ExecutionsOk(cases, executions, standing) && OnlyLastLives(cases, executions, standing)
    requires Numbered(executions, c, n) && BelongsTo(executions, last, c) && executions[last].ordinal == n && c in cases
    ensures forall e :: BelongsTo(executions, e, c) && e != last ==>
              executions[e].ordinal < n && standing[executions[e].orch] == Completed
    ensures cases[c].active <==> standing[executions[last].orch] != Cancelled
  {
    assert forall d :: d in executions && executions[d].caseId == c ==> BelongsTo(executions, d, c);
    assert IsLast(executions, c, last);
    forall e | BelongsTo(executions, e, c) && e != last
      ensures executions[e].ordinal < n && standing[executions[e].orch] == Completed
    {
      assert !IsLast(executions, c, e);
    }
  }

  /** At most one active session per execution, and none once the execution's orchestration is completed. */
  lemma ActiveSessions(w: State, s: Id)
    requires Inv(w) && s in w.sessions && w.sessions[s].status == SessionActive
    ensures w.sessions[s].execution in w.executions
    ensures w.executions[w.sessions[s].execution].orch in w.logs
    ensures StandingOf(w.logs[w.executions[w.sessions[s].execution].orch]) != Completed
    ensures forall t :: t in w.sessions && t != s && w.sessions[t].execution == w.sessions[s].execution ==>
              w.sessions[t].status != SessionActive
  {
    SessionIsAlone(w.cases, w.executions, w.sessions, Standings(w.logs), s);
  }

  lemma SessionIsAlone(cases: map<Id, Case>, executions: map<Id, Execution>, sessions: map<Id, Session>,
                       standing: map<Id, Standing>, s: Id)
    requires ExecutionsOk(cases, executions, standing) && SessionsOk(executions, sessions)
    requires s in sessions && sessions[s].status == SessionActive
    ensures sessions[s].execution in executions && executions[sessions[s].execution].orch in standing
    ensures standing[executions[sessions[s].execution].orch] != Completed
    ensures forall t :: t in sessions && t != s && sessions[t].execution == sessions[s].execution ==>
              sessions[t].status != SessionActive
  {
    assert ActiveOn(sessions, s, sessions[s].execution);
    forall t | t in sessions && t != s && sessions[t].execution == sessions[s].execution
      ensures sessions[t].status != SessionActive
    {
      assert !ActiveOn(sessions, t, sessions[s].execution);
    }
  }

  /** The case a start or resume settles on: the one its lookup found, or the new one. */
  function Settled(start: Start, found: Option<Id>): Id {
    if found.Some? then found.value else start.caseId
  }

  lemma OneLast(executions: map<Id, Execution>, c: Id, e: Id, d: Id)
    requires HasNumbers(executions, c) && IsLast(executions, c, e) && IsLast(executions, c, d)
    ensures e == d
  {
    var n: nat :| n > 0 && Numbered(executions, c, n);
    assert BelongsTo(executions, e, c) && BelongsTo(executions, d, c);
  }

  lemma AddedIsLast(executions: map<Id, Execution>, id: Id, row: Execution, e: Id)
    requires forall d :: d in executions && d != id && executions[d].caseId == row.caseId ==> executions[d].ordinal < row.ordinal
    requires IsLast(executions[id := row], row.caseId, e)
    ensures e == id
  {
    assert id in executions[id := row];
  }

  lemma StartedCase(w: State, w': State, key: Id, tenant: Id, start: Start)
    requires GlobalDisciplined(w, StartJira(key, tenant, start, None, None)) && StartJiraStep(w, key, tenant, start, None, None) == Ok(w')
    ensures w'.cases == w.cases[start.caseId := Case(true, key, tenant, true, start.now)]
    ensures w'.executions == w.executions[start.executionId := Execution(start.caseId, start.orchId, 1, ExecutionActive, None)]
    ensures start.orchId in w'.logs && StandingOf(w'.logs[start.orchId]) == Open
  {
    FirstEventsAre(start, true, key);
    FirstLogInv(FirstEvents(start, true, key), map[], 0);
  }

  lemma NewCaseIsLive(w: State, w': State, key: Id, tenant: Id, start: Start, e: Id)
    requires Inv(w) && GlobalDisciplined(w, StartJira(key, tenant, start, None, None))
    requires StartJiraStep(w, key, tenant, start, None, None) == Ok(w') && IsLast(w'.executions, start.caseId, e)
    ensures w'.executions[e].orch in w'.logs && StandingOf(w'.logs[w'.executions[e].orch]) == Open
  {
    StartedCase(w, w', key, tenant, start);
    assert ExecutionsOk(w.cases, w.executions, Standings(w.logs));
    AddedIsLast(w.executions, start.executionId, Execution(start.caseId, start.orchId, 1, ExecutionActive, None), e);
  }

  /** What resuming leaves in the execution table. */
  lemma ResumedRows(w: State, w': State, key: Id, tenant: Id, start: Start, c: Id, l: Id)
    requires GlobalDisciplined(w, StartJira(key, tenant, start, Some(c), Some(l))) && w.executions[l].orch in w.logs
    requires StartJiraStep(w, key, tenant, start, Some(c), Some(l)) == Ok(w')
    ensures w'.cases == w.cases[c := Adopted(w.cases[c], tenant)]
    ensures var over := StandingOf(w.logs[w.executions[l].orch]) != Open;
            if over
            then && w'.executions ==
                      w.executions[l := w.executions[l].(status := w'.executions[l].status)]
                        [start.executionId := Execution(c, start.orchId, w.executions[l].ordinal + 1, ExecutionActive, None)]
                 && start.orchId in w'.logs && StandingOf(w'.logs[start.orchId]) == Open
            else w'.executions == w.executions && w'.logs == w.logs
  {
    StartJiraFound(w, key, tenant, start, c, l);
    FirstEventsAre(start, true, key);
    FirstLogInv(FirstEvents(start, true, key), map[], 0);
  }

  lemma ResumedCaseIsLive(w: State, w': State, key: Id, tenant: Id, start: Start, c: Id, l: Id, e: Id)
    requires Inv(w) && GlobalDisciplined(w, StartJira(key, tenant, start, Some(c), Some(l)))
    requires StartJiraStep(w, key, tenant, start, Some(c), Some(l)) == Ok(w') && IsLast(w'.executions, c, e)
    ensures w'.executions[e].orch in w'.logs && StandingOf(w'.logs[w'.executions[e].orch]) == Open
  {
    assert ExecutionsOk(w.cases, w.executions, Standings(w.logs));
    ResumedRows(w, w', key, tenant, start, c, l);
    if StandingOf(w.logs[w.executions[l].orch]) != Open {
      NextIsLast(w.executions, w'.executions, l, w'.executions[l].status, start.executionId,
                 Execution(c, start.orchId, w.executions[l].ordinal + 1, ExecutionActive, None), e);
    } else {
      assert HasNumbers(w.executions, c);
      OneLast(w.executions, c, e, l);
    }
  }

  lemma NextIsLast(executions: map<Id, Execution>, now: map<Id, Execution>, l: Id, status: ExecutionStatus, id: Id,
                   row: Execution, e: Id)
    requires IsLast(executions, row.caseId, l) && row.ordinal == executions[l].ordinal + 1
    requires now == executions[l := executions[l].(status := status)][id := row] && IsLast(now, row.caseId, e)
    ensures e == id
  {
    AddedIsLast(executions[l := executions[l].(status := status)], id, row, e);
  }

  /** StartOrResolveExecution always hands back a live execution: the last one of the case it settled on has an open
      orchestration. */
  lemma ResolvedIsLive(w: State, w': State, key: Id, tenant: Id, start: Start, found: Option<Id>, last: Option<Id>, e: Id)
    requires Inv(w) && GlobalDisciplined(w, StartJira(key, tenant, start, found, last))
    requires StartJiraStep(w, key, tenant, start, found, last) == Ok(w') && IsLast(w'.executions, Settled(start, found), e)
    ensures w'.executions[e].orch in w'.logs && StandingOf(w'.logs[w'.executions[e].orch]) == Open
  {
    if found.None? {
      NewCaseIsLive(w, w', key, tenant, start, e);
    } else {
      CaseHasExecution(w, found.value, last);
      ResumedCaseIsLive(w, w', key, tenant, start, found.value, last.value, e);
    }
  }

  /** ... and for a named organisation a lookup after the step finds that case and no other. */
  lemma ResolvedIsFound(w: State, w': State, key: Id, tenant: Id, start: Start, found: Option<Id>, last: Option<Id>, c: Id)
    requires Inv(w) && GlobalDisciplined(w, StartJira(key, tenant, start, found, last)) && tenant != ""
    requires StartJiraStep(w, key, tenant, start, found, last) == Ok(w') && Found(w'.cases, key, tenant, Some(c))
    ensures c == Settled(start, found)
  {
    StartJiraKeepsInv(w, key, tenant, start, found, last);
    SettledRow(w, w', key, tenant, start, found, last);
    var settled := Settled(start, found);
    assert c != settled ==> Clash(w'.cases[c], w'.cases[settled]);
  }

  lemma SettledRow(w: State, w': State, key: Id, tenant: Id, start: Start, found: Option<Id>, last: Option<Id>)
    requires Inv(w) && GlobalDisciplined(w, StartJira(key, tenant, start, found, last)) && tenant != ""
    requires StartJiraStep(w, key, tenant, start, found, last) == Ok(w')
    ensures Settled(start, found) in w'.cases
    ensures var row := w'.cases[Settled(start, found)]; row.jira && row.active && row.key == key && row.tenant == tenant
  {
    if found.Some? {
      CaseHasExecution(w, found.value, last);
      assert ExecutionsOk(w.cases, w.executions, Standings(w.logs));
      ResumedRows(w, w', key, tenant, start, found.value, last.value);
    }
  }

  // ---------------------------------------------------------------- fencing

  /** Calls that act under a lease token. */
  ghost predicate ActsUnder(call: Call, lane: Id, token: Token) {
    || (call.Lease? && call.lease.lane == lane && !call.lease.Grant? && call.lease.token == token)
    || (call.Snapshot? && call.snapshot.Publish? && call.snapshot.lane == lane && call.snapshot.token == token)
  }

  /** A fenced token's heartbeat, completion, rejection, stage record and publication all fail. */
  lemma FencedCallFails(w: State, o: Id, call: Call, lane: Id, token: Token)
    requires FencedIn(w, o, lane, token) && ActsUnder(call, lane, token) && Disciplined(w, o, call)
    ensures Decide(w, o, call).Err?
  {
    match call
    case Lease(c) =>
      match c {
        case Heartbeat(_, _, _, _) =>
        case Complete(_, _, _, _) =>
        case Reject(_, _, _) =>
        case RecordStage(_, _, _, _, _) =>
      }
    case Snapshot(c) =>
      if AtRevision(c.seen, lane, c.rev).Ok? && AtRevision(w.logs[o], lane, c.rev).Ok? {
        SeenStillHolds(w.logs[o], c.seen, lane, c.rev);
      }
  }

  // What no allowed event takes away from a lane stays through every run.

  lemma ApplyKeepsKept(w: State, key: Key, q: Id, call: Call, o: Id, lane: Id, keep: Lane -> bool, req: Required,
                       from: Token)
    requires LogsInv(w) && Disciplined(w, q, call) && KeptIn(w, o, lane, keep, req, from) && Lasting(keep, req, from)
    ensures KeptIn(Apply(w, key, q, call), o, lane, keep, req, from)
  {
    if key !in w.audit && Decide(w, q, call).Ok? {
      DecideIsLegal(w, q, call);
      LegalAllKeepsKept(w, q, Decide(w, q, call).value, o, lane, keep, req, from);
    }
  }

  /** The lane, the definition that governs it and the tokens issued are the same in both states. */
  ghost predicate SameLane(w: State, w': State, o: Id, lane: Id)
    requires o in w.logs
  {
    && o in w'.logs && LaneOf(lane, w'.logs[o]) == LaneOf(lane, w.logs[o]) && w'.minted == w.minted
    && ReqOf(w'.definitions, w'.logs[o]) == ReqOf(w.definitions, w.logs[o])
  }

  lemma ClosingEventKeepsLane(w: State, w': State, q: Id, b: Body, o: Id, lane: Id)
    requires o in w.logs && OrchOf(w.logs[o]).Ok? && q in w.logs && Closing(b)
    requires w'.logs == w.logs[q := w.logs[q] + [Event(None, b)]] && w'.minted == w.minted && w'.definitions == w.definitions
    ensures SameLane(w, w', o, lane)
  {
    LaneAfter(lane, w.logs[o], Event(None, b));
    OrchOfAppend(w.logs[o], Event(None, b));
  }

  /** Closing an orchestration touches no lane. */
  lemma CancelKeepsLane(w: State, q: Id, rev: int, o: Id, lane: Id)
    requires o in w.logs && OrchOf(w.logs[o]).Ok? && CancelStep(w, q, rev).Ok?
    ensures SameLane(w, CancelStep(w, q, rev).value, o, lane)
  {
    CancelChecks(w, q, rev);
    ClosingEventKeepsLane(w, CancelStep(w, q, rev).value, q, OrchestrationCancelled, o, lane);
  }

  lemma CompleteKeepsLane(w: State, q: Id, rev: int, o: Id, lane: Id)
    requires o in w.logs && OrchOf(w.logs[o]).Ok? && CompleteStep(w, q, rev).Ok?
    ensures SameLane(w, CompleteStep(w, q, rev).value, o, lane)
  {
    CompleteChecks(w, q, rev);
    ClosingEventKeepsLane(w, CompleteStep(w, q, rev).value, q, OrchestrationCompleted, o, lane);
  }

  lemma StartKeepsLane(w: State, key: Id, tenant: Id, start: Start, found: Option<Id>, last: Option<Id>, o: Id, lane: Id)
    requires o in w.logs && start.orchId !in w.logs && StartJiraStep(w, key, tenant, start, found, last).Ok?
    ensures SameLane(w, StartJiraStep(w, key, tenant, start, found, last).value, o, lane)
  {
  }

  /** Operations on orchestrations, cases and sessions touch no lane. */
  lemma GlobalKeepsLane(w: State, call: GlobalCall, o: Id, lane: Id)
    requires o in w.logs && OrchOf(w.logs[o]).Ok? && GlobalDisciplined(w, call) && GlobalStep(w, call).Ok?
    ensures SameLane(w, GlobalStep(w, call).value, o, lane)
  {
    match call
    case NewOrchestration(_, _, _) =>
    case Register(_, _) =>
    case StartJira(key, tenant, start, found, last) => StartKeepsLane(w, key, tenant, start, found, last, o, lane);
    case StartAdhoc(_) =>
    case Cancel(q, rev) => CancelKeepsLane(w, q, rev, o, lane);
    case CompleteRun(q, rev) => CompleteKeepsLane(w, q, rev, o, lane);
    case OpenSession(_, _, _, _, _) =>
    case Checkpoint(_, _) =>
  }

  lemma GlobalKeepsKept(w: State, key: Key, call: GlobalCall, o: Id, lane: Id, keep: Lane -> bool, req: Required,
                        from: Token)
    requires GlobalDisciplined(w, call) && KeptIn(w, o, lane, keep, req, from) && OrchOf(w.logs[o]).Ok?
    ensures KeptIn(GlobalApply(w, key, call), o, lane, keep, req, from)
  {
    if key !in w.audit && GlobalStep(w, call).Ok? {
      GlobalKeepsLane(w, call, o, lane);
    }
  }

  lemma NextKeepsKept(w: State, s: Step, o: Id, lane: Id, keep: Lane -> bool, req: Required, from: Token)
    requires Inv(w) && DisciplinedStep(w, s) && KeptIn(w, o, lane, keep, req, from) && Lasting(keep, req, from)
    ensures KeptIn(Next(w, s), o, lane, keep, req, from)
  {
    match s
    case OnLog(key, q, call) => ApplyKeepsKept(w, key, q, call, o, lane, keep, req, from);
    case Global(key, call) =>
      GraphsAndReplay(w, o);
      GlobalKeepsKept(w, key, call, o, lane, keep, req, from);
  }

  lemma {:induction false} RunKeepsKept(w: State, steps: seq<Step>, o: Id, lane: Id, keep: Lane -> bool, req: Required,
                                        from: Token)
    requires Inv(w) && DisciplinedRun(w, steps) && KeptIn(w, o, lane, keep, req, from) && Lasting(keep, req, from)
    ensures KeptIn(Run(w, steps), o, lane, keep, req, from)
    decreases |steps|
  {
    if steps != [] {
      NextKeepsInv(w, steps[0]);
      NextKeepsKept(w, steps[0], o, lane, keep, req, from);
      RunKeepsKept(Next(w, steps[0]), steps[1..], o, lane, keep, req, from);
    }
  }

  /** Events that end the lease of token t: rejection, time-out, completion, a repair cycle, a terminal status, and a later
      grant. */
  predicate Ends(b: Body, t: Token) {
    b.LeaseRejected? || b.LeaseTimedOut? || b.LeaseCompleted? || b.RepairCycleStarted? ||
    (b.LaneStatusChanged? && IsLaneTerminal(b.status)) || (b.LeaseGranted? && b.token != t)
  }

  lemma {:induction false} EndedIsFenced(w: State, o: Id, batch: seq<Event>, i: nat, lane: Id, token: Token)
    requires LogsInv(w) && LegalAll(w, o, batch)
    requires i < |batch| && batch[i].entity == Some(lane) && Ends(batch[i].body, token) && token < w.minted
    ensures FencedIn(AppendAll(w, o, batch), o, lane, token)
    decreases |batch|
  {
    var next := AppendEvent(w, o, batch[0]);
    LegalKeepsLogsInv(w, o, batch[0]);
    if i == 0 {
      LaneAfter(lane, w.logs[o], batch[0]);
      assert Own(lane, w.logs[o]) != [];
      EndsFence(LaneOf(lane, w.logs[o]).value, batch[0].body, token);
      var req := ReqOf(next.definitions, next.logs[o]);
      FenceLasts(token, req);
      LegalAllKeepsKept(next, o, batch[1..], o, lane, FenceOf(token), req, token + 1);
    } else {
      assert batch[1..][i - 1] == batch[i];
      EndedIsFenced(next, o, batch[1..], i - 1, lane, token);
    }
  }

  /** Fencing: after any committed call that ends the lease of a token, through every later run, no call under that token
      succeeds again. */
  lemma FencedForever(w: State, key: Key, o: Id, ending: Call, i: nat, lane: Id, token: Token, later: seq<Step>,
                      call: Call)
    requires Inv(w) && Disciplined(w, o, ending) && key !in w.audit && Decide(w, o, ending).Ok?
    requires i < |Decide(w, o, ending).value| && token < w.minted
    requires Decide(w, o, ending).value[i].entity == Some(lane) && Ends(Decide(w, o, ending).value[i].body, token)
    requires DisciplinedRun(Apply(w, key, o, ending), later)
    requires ActsUnder(call, lane, token) && Disciplined(Run(Apply(w, key, o, ending), later), o, call)
    ensures Decide(Run(Apply(w, key, o, ending), later), o, call).Err?
  {
    DecideIsLegal(w, o, ending);
    EndedIsFenced(w, o, Decide(w, o, ending).value, i, lane, token);
    var next := Apply(w, key, o, ending);
    assert next == Next(w, OnLog(key, o, ending));
    NextKeepsInv(w, OnLog(key, o, ending));
    assert FencedIn(next, o, lane, token);
    var req := ReqOf(next.definitions, next.logs[o]);
    FenceLasts(token, req);
    RunKeepsKept(next, later, o, lane, FenceOf(token), req, token + 1);
    FencedCallFails(Run(next, later), o, call, lane, token);
  }

  // ---------------------------------------------------------------- retries and bounds

  /** Repeating any step with its key changes nothing more. */
  lemma RetryChangesNothing(w: State, s: Step)
    ensures Next(Next(w, s), s) == Next(w, s)
  {
  }

  /** What a repair request may do to a lane. */
  function Repaired(l: Lane): Lane {
    if Repairs(l) >= MAX_REPAIR_CYCLES then l.(revision := l.revision + 1, escalated := true)
    else l.(revision := l.revision + 1, repairs := Some(Repairs(l) + 1), status := Runnable)
  }

  /** Committing one event on a lane. */
  lemma CommitsOne(w: State, key: Key, o: Id, lane: Id, b: Body, l: Lane)
    requires o in w.logs && key !in w.audit && LaneOf(lane, w.logs[o]) == Ok(l)
    ensures var w' := Write(w, key, o, Ok([Event(Some(lane), b)]));
            o in w'.logs && LaneOf(lane, w'.logs[o]) == StepLane(l, b)
  {
    var ev := Event(Some(lane), b);
    AppendAllFrame(w, o, [ev]);
    LaneAfter(lane, w.logs[o], ev);
  }

  /** A repair request that is not refused. */
  predicate RepairFits(l: Lane, reason: string, rev: int, seen: seq<Event>, lane: Id) {
    reason != "" && l.revision == rev && AtRevision(seen, lane, rev).Ok? && (l.status == Review || l.status == Running)
  }

  lemma RepairDecides(log: seq<Event>, lane: Id, reason: string, rev: int, seen: seq<Event>, l: Lane)
    requires seen <= log && LaneOf(lane, log) == Ok(l)
    ensures var d := RepairDecision(log, lane, reason, rev, seen);
            if RepairFits(l, reason, rev, seen, lane)
            then d == Ok([Event(Some(lane), if Repairs(l) >= MAX_REPAIR_CYCLES then LaneEscalated(reason) else RepairCycleStarted(reason))])
            else d.Err?
  {
    if AtRevision(seen, lane, rev).Ok? && l.revision == rev {
      SeenStillHolds(log, seen, lane, rev);
    }
  }

  /** The repair budget, whatever earlier state of the log the guards were read from: a request on a lane in review or
      running whose revision did not move spends one cycle and sends the lane back to work, or, when three were spent,
      escalates it and changes neither status nor budget. Any other request changes nothing at all. */
  lemma RepairOutcome(w: State, w': State, key: Key, o: Id, lane: Id, reason: string, rev: int, seen: seq<Event>, l: Lane)
    requires Inv(w) && o in w.logs && seen <= w.logs[o] && key !in w.audit && LaneOf(lane, w.logs[o]) == Ok(l)
    requires w' == Apply(w, key, o, Snapshot(Repair(lane, reason, rev, seen)))
    ensures if RepairFits(l, reason, rev, seen, lane)
            then o in w'.logs && LaneOf(lane, w'.logs[o]) == Ok(Repaired(l))
            else w' == w
  {
    RepairDecides(w.logs[o], lane, reason, rev, seen, l);
    RepairWrites(w, w', key, o, lane, reason, rev, seen);
    if RepairFits(l, reason, rev, seen, lane) {
      var b := if Repairs(l) >= MAX_REPAIR_CYCLES then LaneEscalated(reason) else RepairCycleStarted(reason);
      CommitsOne(w, key, o, lane, b, l);
      RepairSteps(l, b);
    }
  }

  lemma RepairWrites(w: State, w': State, key: Key, o: Id, lane: Id, reason: string, rev: int, seen: seq<Event>)
    requires o in w.logs && w' == Apply(w, key, o, Snapshot(Repair(lane, reason, rev, seen)))
    ensures w' == Write(w, key, o, RepairDecision(w.logs[o], lane, reason, rev, seen))
    ensures RepairDecision(w.logs[o], lane, reason, rev, seen).Err? ==> w' == w
  {
  }

  lemma RepairSteps(l: Lane, b: Body)
    requires if Repairs(l) >= MAX_REPAIR_CYCLES then b.LaneEscalated? else b.RepairCycleStarted?
    ensures StepLane(l, b) == Ok(Repaired(l))
  {
  }

  // ---------------------------------------------------------------- expired leases

  lemma {:induction false} OwnExpireBatch(log: seq<Event>, now: Time, order: seq<Id>, id: Id)
    requires NoDup(order)
    ensures Own(id, ExpireBatch(log, now, order)) ==
            if id in order && LaneOf(id, log).Ok? && Operations.Expired(LaneOf(id, log).value, now) then [LeaseTimedOut] else []
  {
    if order != [] {
      var n := |order| - 1;
      OwnExpireBatch(log, now, order[..n], id);
      TakeSnoc(order, n);
      TakeAll(order);
      assert order[n] !in order[..n];
      var l, before := LaneOf(order[n], log), ExpireBatch(log, now, order[..n]);
      if l.Ok? && Operations.Expired(l.value, now) {
        OwnAppend(id, before, Event(Some(order[n]), LeaseTimedOut));
      } else {
        assert before + [] == before;
      }
    }
  }

  /** A lane taken back: runnable, without holder, token and deadline. */
  function Reclaimed(l: Lane): Lane {
    l.(status := Runnable, worker := None, token := None, expiresAt := None, revision := l.revision + 1)
  }

  lemma TimeOutReclaims(l: Lane, own: seq<Body>)
    requires own == [] || own == [LeaseTimedOut]
    ensures FoldLane(l, own) == Ok(if own == [] then l else Reclaimed(l))
  {
    assert own != [] ==> own[..0] == [];
  }

  /** ExpireLeases takes back every lane whose deadline has passed and leaves every other lane alone. */
  lemma ExpireReclaims(log: seq<Event>, now: Time, order: seq<Id>, id: Id, l: Lane)
    requires Sync.Enumerates(order, LaneIds(log)) && LaneOf(id, log) == Ok(l)
    ensures LaneOf(id, log + ExpireBatch(log, now, order)) == Ok(if Operations.Expired(l, now) then Reclaimed(l) else l)
  {
    LaneOkIsLane(id, log);
    assert id in Elems(order);
    var batch := ExpireBatch(log, now, order);
    OwnExpireBatch(log, now, order, id);
    LaneOfBatch(id, log, batch);
    TimeOutReclaims(l, Own(id, batch));
  }

  // ---------------------------------------------------------------- the frontier

  /** What a log shows: its lane table, and the active edges in the given order. */
  lemma TableShows(w: State, o: Id)
    requires LogsInv(w) && o in w.logs
    ensures Sync.Shows(w.logs[o], LaneTable(w.logs[o]))
    ensures forall id :: id in LaneTable(w.logs[o]) ==> Sync.BlockersOnlyWhenBlocked(LaneTable(w.logs[o])[id])
  {
    forall id | id in LaneIds(w.logs[o])
      ensures LaneOf(id, w.logs[o]).Ok? && Sync.BlockersOnlyWhenBlocked(LaneOf(id, w.logs[o]).value)
    {
      LaneHolds(w, o, id);
    }
  }

  /** A sync always has something to append, be it nothing. */
  lemma SyncDecides(log: seq<Event>, pick: map<Id, Id>, edgeOrder: seq<Id>, order: seq<Id>)
    requires SweepOrders(log, SyncFrontier(pick, edgeOrder, order))
    ensures DecideSweep(log, SyncFrontier(pick, edgeOrder, order)).Ok?
    ensures forall t :: t in order ==> t in pick && pick[t] in LaneTable(log)
    ensures DecideSweep(log, SyncFrontier(pick, edgeOrder, order)).value ==
            Sync.SyncBatch(LaneTable(log), TaskIds(log), pick, EdgeList(log, edgeOrder), order)
  {
    assert forall t :: t in order ==> t in Elems(order);
  }

  /** After SyncFrontier every lane of a known task that was waiting, blocked or runnable is runnable exactly when every
      blocking predecessor of its task has an accepted lane, and otherwise blocked, with all the others listed; every other
      lane is untouched. */
  lemma SyncMeetsGraph(w: State, o: Id, pick: map<Id, Id>, edgeOrder: seq<Id>, order: seq<Id>, id: Id)
    requires Inv(w) && o in w.logs && SweepOrders(w.logs[o], SyncFrontier(pick, edgeOrder, order))
    requires id in LaneTable(w.logs[o])
    ensures DecideSweep(w.logs[o], SyncFrontier(pick, edgeOrder, order)).Ok?
    ensures var log, lanes := w.logs[o], LaneTable(w.logs[o]);
            var edges := EdgeList(log, edgeOrder);
            var after := LaneOf(id, log + DecideSweep(log, SyncFrontier(pick, edgeOrder, order)).value);
            var t, resolved := lanes[id].parentTask, Sync.ResolvedTasks(lanes, pick);
            && after.Ok?
            && if Sync.Picked(lanes, TaskIds(log), pick, id) && Unleased(lanes[id].status) then
                 && (after.value.status == Runnable <==> forall p :: (t, p) in BlockingArcs(edges) ==> p in resolved)
                 && (after.value.status == Runnable || after.value.status == Blocked)
                 && (forall p :: (t, p) in BlockingArcs(edges) && p !in resolved ==> p in after.value.blockedBy)
                 && |after.value.blockedBy| == |Blockers(t, edges, resolved)|
               else after.value == lanes[id]
  {
    var log, lanes := w.logs[o], LaneTable(w.logs[o]);
    var edges := EdgeList(log, edgeOrder);
    TableShows(w, o);
    SyncDecides(log, pick, edgeOrder, order);
    Sync.SyncAchieves(log, lanes, TaskIds(log), pick, edges, order, id);
    var t, resolved := lanes[id].parentTask, Sync.ResolvedTasks(lanes, pick);
    var after := LaneOf(id, log + DecideSweep(log, SyncFrontier(pick, edgeOrder, order)).value).value;
    if Sync.Picked(lanes, TaskIds(log), pick, id) && Unleased(lanes[id].status) {
      SettledMeans(after, t, edges, resolved);
    }
  }

  lemma SettledMeans(l: Lane, t: Id, edges: seq<Edge>, resolved: set<Id>)
    requires Sync.Settled(l, Blockers(t, edges, resolved))
    ensures l.status == Runnable <==> forall p :: (t, p) in BlockingArcs(edges) ==> p in resolved
    ensures l.status == Runnable || l.status == Blocked
    ensures forall p :: (t, p) in BlockingArcs(edges) && p !in resolved ==> p in l.blockedBy
    ensures |l.blockedBy| == |Blockers(t, edges, resolved)|
  {
    var blockers := Blockers(t, edges, resolved);
    forall p ensures p in blockers <==> (t, p) in BlockingArcs(edges) && p !in resolved {
      BlockersAre(t, edges, resolved, p);
    }
    if l.status == Runnable {
      forall p | (t, p) in BlockingArcs(edges) ensures p in resolved {
        assert p !in blockers;
      }
    } else {
      assert blockers[0] in blockers;
    }
  }

  /** The ids listed on a synced lane are exactly the unresolved predecessors if and only if the comparison with the old
      list hid no change; and no old list can hide one exactly when no two active edges keep the task waiting for the same
      unresolved predecessor. */
  lemma SyncListsExactly(w: State, o: Id, pick: map<Id, Id>, edgeOrder: seq<Id>, order: seq<Id>, id: Id)
    requires Inv(w) && o in w.logs && SweepOrders(w.logs[o], SyncFrontier(pick, edgeOrder, order))
    requires Sync.Picked(LaneTable(w.logs[o]), TaskIds(w.logs[o]), pick, id) && Unleased(LaneTable(w.logs[o])[id].status)
    ensures DecideSweep(w.logs[o], SyncFrontier(pick, edgeOrder, order)).Ok?
    ensures var log, lanes := w.logs[o], LaneTable(w.logs[o]);
            var edges := EdgeList(log, edgeOrder);
            var after := LaneOf(id, log + DecideSweep(log, SyncFrontier(pick, edgeOrder, order)).value);
            var t, resolved := lanes[id].parentTask, Sync.ResolvedTasks(lanes, pick);
            && after.Ok?
            && ((forall p :: p in after.value.blockedBy <==> (t, p) in BlockingArcs(edges) && p !in resolved) <==>
                  !Sync.Hides(lanes[id].blockedBy, Blockers(t, edges, resolved)))
            && (!Sync.HeldTwice(t, edges, resolved) <==> forall was :: !Sync.Hides(was, Blockers(t, edges, resolved)))
  {
    var log, lanes := w.logs[o], LaneTable(w.logs[o]);
    var edges := EdgeList(log, edgeOrder);
    TableShows(w, o);
    SyncDecides(log, pick, edgeOrder, order);
    Sync.SyncExactly(log, lanes, TaskIds(log), pick, edges, order, id);
    var t, resolved := lanes[id].parentTask, Sync.ResolvedTasks(lanes, pick);
    var after := LaneOf(id, log + DecideSweep(log, SyncFrontier(pick, edgeOrder, order)).value).value;
    ListsBlockers(after.blockedBy, t, edges, resolved);
  }

  lemma ListsBlockers(listed: seq<Id>, t: Id, edges: seq<Edge>, resolved: set<Id>)
    ensures Elems(listed) == Elems(Blockers(t, edges, resolved)) <==>
            forall p :: p in listed <==> (t, p) in BlockingArcs(edges) && p !in resolved
  {
    var blockers := Blockers(t, edges, resolved);
    forall p
      ensures p in blockers <==> (t, p) in BlockingArcs(edges) && p !in resolved
      ensures (p in Elems(blockers) <==> p in blockers) && (p in Elems(listed) <==> p in listed)
    {
      BlockersAre(t, edges, resolved, p);
    }
    if Elems(listed) == Elems(blockers) {
      forall p ensures p in listed <==> p in blockers {
        assert p in Elems(listed) <==> p in Elems(blockers);
      }
    }
  }

  // A second sync.

  /** Events that tell existing lanes something. */
  ghost predicate News(batch: seq<Event>) {
    forall i :: 0 <= i < |batch| ==> IsLaneBody(batch[i].body) && !batch[i].body.LaneCreated?
  }

  /** They change no set of ids and no edge. */
  lemma {:induction false} NewsLeaves(log: seq<Event>, batch: seq<Event>)
    requires News(batch)
    ensures LaneIds(log + batch) == LaneIds(log) && TaskIds(log + batch) == TaskIds(log)
    ensures forall id :: EdgeOf(id, log + batch) == EdgeOf(id, log)
  {
    if batch == [] {
      assert log + batch == log;
    } else {
      var n := |batch| - 1;
      NewsLeaves(log, batch[..n]);
      var before := log + batch[..n];
      assert log + batch == before + [batch[n]] && before == (before + [batch[n]])[..|before|];
      LaneIdsAppend(before, batch[n]);
      TaskIdsAppend(before, batch[n]);
      forall id ensures OwnEdge(id, before + [batch[n]]) == OwnEdge(id, before) {
      }
    }
  }

  lemma {:induction false} SyncIsNews(lanes: map<Id, Lane>, tasks: set<Id>, pick: map<Id, Id>, edges: seq<Edge>,
                                      order: seq<Id>)
    requires forall t :: t in order ==> t in pick && pick[t] in lanes
    ensures News(Sync.SyncBatch(lanes, tasks, pick, edges, order))
  {
    if order != [] {
      assert order[|order| - 1] in order;
      SyncIsNews(lanes, tasks, pick, edges, order[..|order| - 1]);
    }
  }

  lemma {:induction false} EdgeListConcat(log: seq<Event>, a: seq<Id>, b: seq<Id>)
    ensures EdgeList(log, a + b) == EdgeList(log, a) + EdgeList(log, b)
  {
    if b == [] {
      assert a + b == a;
    } else {
      var n := |b| - 1;
      EdgeListConcat(log, a, b[..n]);
      assert (a + b)[..|a + b| - 1] == a + b[..n];
    }
  }

  lemma EdgeListWithout(log: seq<Event>, front: seq<Id>, id: Id, back: seq<Id>)
    ensures multiset(EdgeList(log, front + [id] + back)) ==
            multiset(EdgeList(log, front + back)) + multiset(EdgeList(log, [id]))
  {
    EdgeListConcat(log, front, back);
    EdgeListConcat(log, front + [id], back);
    EdgeListConcat(log, front, [id]);
  }

  /** The same edge ids in another order list the same edges in another order. */
  lemma {:induction false} EdgeListPermute(log: seq<Event>, a: seq<Id>, b: seq<Id>)
    requires multiset(a) == multiset(b)
    ensures multiset(EdgeList(log, a)) == multiset(EdgeList(log, b))
    decreases |a|
  {
    if a == [] {
      assert |multiset(b)| == 0;
    } else {
      var init, id := a[..|a| - 1], a[|a| - 1];
      assert a == init + [id];
      assert id in multiset(b);
      var front, back := CutOut(b, id);
      assert multiset(init) == multiset(a) - multiset{id} == multiset(front + back);
      EdgeListPermute(log, init, front + back);
      EdgeListConcat(log, init, [id]);
      EdgeListWithout(log, front, id, back);
    }
  }

  lemma {:induction false} SameEdgesSameList(log: seq<Event>, later: seq<Event>, ids: seq<Id>)
    requires forall id :: EdgeOf(id, later) == EdgeOf(id, log)
    ensures EdgeList(later, ids) == EdgeList(log, ids)
  {
    if ids != [] {
      SameEdgesSameList(log, later, ids[..|ids| - 1]);
    }
  }

  /** The log after a sync satisfies the same invariants. */
  lemma SyncedInv(w: State, o: Id, call: SweepCall) returns (w': State)
    requires Inv(w) && o in w.logs && SweepOrders(w.logs[o], call) && DecideSweep(w.logs[o], call).Ok?
    ensures LogsInv(w') && o in w'.logs && w'.logs[o] == w.logs[o] + DecideSweep(w.logs[o], call).value
  {
    var batch := DecideSweep(w.logs[o], call).value;
    SweepCallIsLegal(w, o, call);
    LegalAllKeepsLogsInv(w, o, batch);
    AppendAllFrame(w, o, batch);
    w' := AppendAll(w, o, batch);
  }

  /** SyncFrontier is idempotent: called again on the log it left, in whatever order lanes, tasks and edges come up this
      time, it appends nothing. */
  lemma SecondSyncAppendsNothing(w: State, o: Id, pick: map<Id, Id>, edgeOrder: seq<Id>, order: seq<Id>,
                                 edgeOrder': seq<Id>, order': seq<Id>)
    requires Inv(w) && o in w.logs && SweepOrders(w.logs[o], SyncFrontier(pick, edgeOrder, order))
    requires DecideSweep(w.logs[o], SyncFrontier(pick, edgeOrder, order)).Ok?
    requires SweepOrders(w.logs[o] + DecideSweep(w.logs[o], SyncFrontier(pick, edgeOrder, order)).value,
                         SyncFrontier(pick, edgeOrder', order'))
    ensures DecideSweep(w.logs[o] + DecideSweep(w.logs[o], SyncFrontier(pick, edgeOrder, order)).value,
                        SyncFrontier(pick, edgeOrder', order')) == Ok([])
  {
    var log := w.logs[o];
    var w' := SyncedInv(w, o, SyncFrontier(pick, edgeOrder, order));
    TableShows(w, o);
    TableShows(w', o);
    SyncLeaves(log, pick, edgeOrder, order);
    QuietSync(log, w'.logs[o], pick, edgeOrder, order, edgeOrder', order');
  }

  lemma QuietSync(log: seq<Event>, later: seq<Event>, pick: map<Id, Id>, edgeOrder: seq<Id>, order: seq<Id>,
                  edgeOrder': seq<Id>, order': seq<Id>)
    requires SweepOrders(log, SyncFrontier(pick, edgeOrder, order)) && SweepOrders(later, SyncFrontier(pick, edgeOrder', order'))
    requires DecideSweep(log, SyncFrontier(pick, edgeOrder, order)).Ok?
    requires later == log + DecideSweep(log, SyncFrontier(pick, edgeOrder, order)).value
    requires Sync.Shows(log, LaneTable(log)) && Sync.Shows(later, LaneTable(later))
    requires forall id :: id in LaneTable(log) ==> Sync.BlockersOnlyWhenBlocked(LaneTable(log)[id])
    requires LaneIds(later) == LaneIds(log) && TaskIds(later) == TaskIds(log)
    requires forall id :: EdgeOf(id, later) == EdgeOf(id, log)
    ensures DecideSweep(later, SyncFrontier(pick, edgeOrder', order')) == Ok([])
  {
    SyncDecides(log, pick, edgeOrder, order);
    SyncDecides(later, pick, edgeOrder', order');
    EdgesRelisted(log, later, edgeOrder, edgeOrder');
    Sync.SecondSyncIsQuiet(log, LaneTable(log), LaneTable(later), TaskIds(log), pick, EdgeList(log, edgeOrder), order,
                           EdgeList(later, edgeOrder'), order');
  }

  lemma SyncLeaves(log: seq<Event>, pick: map<Id, Id>, edgeOrder: seq<Id>, order: seq<Id>)
    requires DecideSweep(log, SyncFrontier(pick, edgeOrder, order)).Ok?
    ensures var later := log + DecideSweep(log, SyncFrontier(pick, edgeOrder, order)).value;
      && LaneIds(later) == LaneIds(log) && TaskIds(later) == TaskIds(log)
      && forall id :: EdgeOf(id, later) == EdgeOf(id, log)
  {
    SyncIsNews(LaneTable(log), TaskIds(log), pick, EdgeList(log, edgeOrder), order);
    NewsLeaves(log, DecideSweep(log, SyncFrontier(pick, edgeOrder, order)).value);
  }

  /** The active edges listed again. */
  lemma EdgesRelisted(log: seq<Event>, later: seq<Event>, ids: seq<Id>, ids': seq<Id>)
    requires forall id :: EdgeOf(id, later) == EdgeOf(id, log)
    requires Sync.Enumerates(ids, set id | id in Edges(log) && Edges(log)[id].active)
    requires Sync.Enumerates(ids', set id | id in Edges(later) && Edges(later)[id].active)
    ensures multiset(EdgeList(log, ids)) == multiset(EdgeList(later, ids'))
  {
    SameActive(log, later);
    SameElems(ids, ids');
    EdgeListPermute(log, ids, ids');
    SameEdgesSameList(log, later, ids');
  }

  lemma SameActive(log: seq<Event>, later: seq<Event>)
    requires forall id :: EdgeOf(id, later) == EdgeOf(id, log)
    ensures (set id | id in Edges(later) && Edges(later)[id].active) == (set id | id in Edges(log) && Edges(log)[id].active)
  {
    forall id ensures id in Edges(later) <==> id in Edges(log) {
      if EdgeOf(id, log).Ok? {
        EdgeOkIsEdge(id, log);
        EdgeOkIsEdge(id, later);
      }
    }
  }

  // The frontier of a reachable log.

  /** The task nodes the scheduler hands to Frontier: the tasks of the log, none cancelled. */
  ghost predicate NodesOf(nodes: seq<TaskNode>, log: seq<Event>) {
    forall t, resolved :: Graph.Open(nodes, resolved, t) <==> t in TaskIds(log) && t !in resolved
  }

  /** The active edges meet what progress asks of a graph: their blocking arcs are acyclic and end in known tasks. */
  lemma FrontierApplies(w: State, o: Id, edgeOrder: seq<Id>, nodes: seq<TaskNode>)
    requires Inv(w) && o in w.logs && NodesOf(nodes, w.logs[o])
    requires Sync.Enumerates(edgeOrder, set id | id in Edges(w.logs[o]) && Edges(w.logs[o])[id].active)
    ensures Acyclic(BlockingArcs(EdgeList(w.logs[o], edgeOrder))) && KnownTargets(nodes, EdgeList(w.logs[o], edgeOrder))
  {
    var log, edges := w.logs[o], EdgeList(w.logs[o], edgeOrder);
    GraphsAndReplay(w, o);
    assert forall id :: id in edgeOrder ==> id in Elems(edgeOrder);
    ListedArcs(log, edgeOrder);
    AcyclicMono(BlockingArcs(edges), LogArcs(log));
    forall a | a in BlockingArcs(edges) ensures Graph.Open(nodes, {}, a.1) {
      LogArcsAre(log, a);
      var id :| Spans(log, id, a);
      assert LogInv(log, w.definitions, w.minted);
    }
  }

  /** Progress in every reachable state: below every unresolved task lies one on the frontier. */
  lemma FrontierProgress(w: State, o: Id, edgeOrder: seq<Id>, nodes: seq<TaskNode>, resolved: set<Id>, x: Id)
    returns (next: Id)
    requires Inv(w) && o in w.logs && NodesOf(nodes, w.logs[o]) && x in TaskIds(w.logs[o]) && x !in resolved
    requires Sync.Enumerates(edgeOrder, set id | id in Edges(w.logs[o]) && Edges(w.logs[o])[id].active)
    ensures InFrontier(nodes, EdgeList(w.logs[o], edgeOrder), resolved, next)
    ensures Reach(BlockingArcs(EdgeList(w.logs[o], edgeOrder)), x, next)
  {
    FrontierApplies(w, o, edgeOrder, nodes);
    next := FrontierNonempty(nodes, EdgeList(w.logs[o], edgeOrder), resolved, x);
  }

  /** The order repeats no task and stays among the open ones, and nothing is left on the frontier exactly when it is as
      long as there were open tasks; then it resolved them all. */
  ghost predicate DrainsOnce(nodes: seq<TaskNode>, edges: seq<Edge>, resolved: set<Id>, order: seq<Id>, open: set<Id>) {
    && NoDup(order) && Elems(order) <= open
    && ((forall id :: !InFrontier(nodes, edges, resolved + Elems(order), id)) <==> |order| == |open|)
    && (|order| == |open| ==> Elems(order) == open)
  }

  /** ... and resolving frontier tasks one by one goes through every unresolved task exactly once, then stops. */
  lemma FrontierDrains(w: State, o: Id, edgeOrder: seq<Id>, nodes: seq<TaskNode>, resolved: set<Id>, order: seq<Id>)
    requires Inv(w) && o in w.logs && NodesOf(nodes, w.logs[o])
    requires Sync.Enumerates(edgeOrder, set id | id in Edges(w.logs[o]) && Edges(w.logs[o])[id].active)
    requires ResolvesInOrder(nodes, EdgeList(w.logs[o], edgeOrder), resolved, order)
    ensures DrainsOnce(nodes, EdgeList(w.logs[o], edgeOrder), resolved, order, TaskIds(w.logs[o]) - resolved)
  {
    FrontierApplies(w, o, edgeOrder, nodes);
    DrainsAll(nodes, EdgeList(w.logs[o], edgeOrder), resolved, order, TaskIds(w.logs[o]) - resolved);
  }

  lemma DrainsAll(nodes: seq<TaskNode>, edges: seq<Edge>, resolved: set<Id>, order: seq<Id>, open: set<Id>)
    requires Acyclic(BlockingArcs(edges)) && KnownTargets(nodes, edges) && ResolvesInOrder(nodes, edges, resolved, order)
    requires forall t :: Graph.Open(nodes, resolved, t) <==> t in open
    ensures DrainsOnce(nodes, edges, resolved, order, open)
  {
    DrainsExactly(nodes, edges, resolved, order);
    assert OpenIds(nodes, resolved) == open;
    NoDupCard(order);
    SubsetCard(Elems(order), open);
  }

  /** The edges the scheduler ranks by are the log's active ones, so they are acyclic seen from the dependents too: ranking
      and choosing a lane always terminate with a result. */
  lemma RankingApplies(w: State, o: Id, edgeOrder: seq<Id>)
    requires Inv(w) && o in w.logs
    requires Sync.Enumerates(edgeOrder, set id | id in Edges(w.logs[o]) && Edges(w.logs[o])[id].active)
    ensures Acyclic(Priority.DependentArcs(EdgeList(w.logs[o], edgeOrder)))
  {
    GraphsAndReplay(w, o);
    var edges := EdgeList(w.logs[o], edgeOrder);
    assert forall id :: id in edgeOrder ==> id in Elems(edgeOrder);
    ListedArcs(w.logs[o], edgeOrder);
    Priority.DependentsAcyclic(edges, LogArcs(w.logs[o]));
  }

  lemma {:induction false} ListedArcs(log: seq<Event>, edgeOrder: seq<Id>)
    requires forall id :: id in edgeOrder ==> id in Edges(log) && Edges(log)[id].active
    ensures forall i :: 0 <= i < |EdgeList(log, edgeOrder)| ==>
              (EdgeList(log, edgeOrder)[i].from, EdgeList(log, edgeOrder)[i].to) in LogArcs(log)
  {
    if edgeOrder != [] {
      var n := |edgeOrder| - 1;
      assert forall id :: id in edgeOrder[..n] ==> id in edgeOrder;
      ListedArcs(log, edgeOrder[..n]);
      assert edgeOrder[n] in edgeOrder;
      assert Spans(log, edgeOrder[n], (Edges(log)[edgeOrder[n]].from, Edges(log)[edgeOrder[n]].to));
      LogArcsAre(log, (Edges(log)[edgeOrder[n]].from, Edges(log)[edgeOrder[n]].to));
    }
  }

  // ---------------------------------------------------------------- statuses set by hand

  /** UpdateLaneStatus with no restriction on the status. */
  function SetByHand(log: seq<Event>, lane: Id, status: LaneStatus): seq<Event> {
    log + [Event(Some(lane), LaneStatusChanged(status))]
  }

  lemma SetByHandActive(log: seq<Event>, lane: Id, status: LaneStatus, id: Id)
    requires LaneOf(lane, log).Ok?
    ensures LaneOf(lane, SetByHand(log, lane, status)) ==
              Ok(LaneOf(lane, log).value.(revision := LaneOf(lane, log).value.revision + 1, status := status))
    ensures id != lane ==> LaneOf(id, SetByHand(log, lane, status)) == LaneOf(id, log)
    ensures LaneIds(SetByHand(log, lane, status)) == LaneIds(log)
    ensures ActiveLane(SetByHand(log, lane, status), id) <==>
              if id == lane then status == Leased || status == Running else ActiveLane(log, id)
  {
    var ev := Event(Some(lane), LaneStatusChanged(status));
    LaneAfter(lane, log, ev);
    LaneAfter(id, log, ev);
    LaneIdsAppend(log, ev);
    LaneOkIsLane(lane, log);
  }

  /** A status set by hand keeps the exclusion of projects exactly when it activates no lane, the lane was active
      already, or no other lane of its project is active. */
  lemma SetByHandExclusion(log: seq<Event>, lane: Id, status: LaneStatus)
    requires Exclusive(log) && LaneOf(lane, log).Ok?
    ensures Exclusive(SetByHand(log, lane, status)) <==>
              (status != Leased && status != Running) || ActiveLane(log, lane) ||
              ProjectFree(log, lane, LaneOf(lane, log).value.project)
  {
    var after, project := SetByHand(log, lane, status), LaneOf(lane, log).value.project;
    forall id ensures ActiveLane(after, id) <==>
        if id == lane then status == Leased || status == Running else ActiveLane(log, id)
      ensures LaneOf(id, log).Ok? ==> LaneOf(id, after).Ok? && LaneOf(id, after).value.project == LaneOf(id, log).value.project
    {
      SetByHandActive(log, lane, status, id);
    }
    if Exclusive(after) && (status == Leased || status == Running) && !ActiveLane(log, lane) {
      forall other | ActiveLane(log, other) && other != lane ensures LaneOf(other, log).value.project != project {
        assert ActiveLane(after, lane) && ActiveLane(after, other);
      }
    }
  }

  lemma SetByHandBusy(log: seq<Event>, lane: Id, status: LaneStatus)
    requires LaneOf(lane, log).Ok?
    ensures (status == Leased || status == Running) ==>
              BusyIn(SetByHand(log, lane, status)) == BusyIn(log) + {LaneOf(lane, log).value.project}
    ensures BusyIn(SetByHand(log, lane, status)) <= BusyIn(log) + {LaneOf(lane, log).value.project}
    ensures status != Leased && status != Running ==> BusyIn(SetByHand(log, lane, status)) <= BusyIn(log)
  {
    var after, project := SetByHand(log, lane, status), LaneOf(lane, log).value.project;
    LaneOkIsLane(lane, log);
    SetByHandActive(log, lane, status, lane);
    forall p | p in BusyIn(after)
      ensures p in BusyIn(log) || (p == project && (status == Leased || status == Running))
    {
      var id :| id in LaneIds(after) && ActiveLane(after, id) && LaneOf(id, after).value.project == p;
      SetByHandActive(log, lane, status, id);
    }
    if status == Leased || status == Running {
      forall p | p in BusyIn(log) ensures p in BusyIn(after) {
        var id :| id in LaneIds(log) && ActiveLane(log, id) && LaneOf(id, log).value.project == p;
        SetByHandActive(log, lane, status, id);
        assert id in LaneIds(after) && ActiveLane(after, id);
      }
      assert ActiveLane(after, lane) && LaneOf(lane, after).value.project == project;
    }
  }

  /** ... and it keeps the cap exactly when it activates no lane of an idle project while the cap is full: the checks of
      GrantLease, which UpdateLaneStatus does not make, are what both limits rest on. */
  lemma SetByHandCap(logs: map<Id, seq<Event>>, o: Id, lane: Id, status: LaneStatus)
    requires o in logs && LaneOf(lane, logs[o]).Ok? && |BusyProjects(logs)| <= MAX_CONCURRENT_PROJECTS
    ensures |BusyProjects(logs[o := SetByHand(logs[o], lane, status)])| <= MAX_CONCURRENT_PROJECTS <==>
              (status != Leased && status != Running) || LaneOf(lane, logs[o]).value.project in BusyProjects(logs) ||
              |BusyProjects(logs)| < MAX_CONCURRENT_PROJECTS
  {
    var project, after := LaneOf(lane, logs[o]).value.project, logs[o := SetByHand(logs[o], lane, status)];
    SetByHandBusy(logs[o], lane, status);
    if status != Leased && status != Running {
      BusyAfter(logs, o, after[o], {});
      SubsetCard(BusyProjects(after), BusyProjects(logs));
    } else {
      BusyAfter(logs, o, after[o], {project});
      forall p | p in BusyProjects(logs) + {project} ensures p in BusyProjects(after) {
        if p == project {
          assert p in BusyIn(after[o]);
        } else {
          var q :| q in logs && p in BusyIn(logs[q]);
          assert q in after && p in BusyIn(after[q]);
        }
      }
      assert BusyProjects(after) == BusyProjects(logs) + {project};
    }
  }

  function TwoLanes(): seq<Event> {
    [Event(None, OrchestrationCreated([], "")), Event(Some("a"), LaneCreated("p", "", 0)), Event(Some("b"), LaneCreated("p", "", 0))]
  }

  lemma TwoLanesAre(id: Id)
    ensures LaneOf("a", TwoLanes()) == LaneOf("b", TwoLanes()) == Ok(NewLane(LaneCreated("p", "", 0)).(revision := 1))
    ensures id != "a" && id != "b" ==> LaneOf(id, TwoLanes()) == Err(NotFound)
  {
    var e, a, b := TwoLanes()[0], TwoLanes()[1], TwoLanes()[2];
    assert [e] == [] + [e] && TwoLanes() == [e] + [a] + [b];
    OwnAppend("a", [], e);
    OwnAppend("b", [], e);
    OwnAppend(id, [], e);
    OwnAppend("b", [e], a);
    LaneAfter("a", [e], a);
    LaneAfter("a", [e] + [a], b);
    LaneAfter("b", [e] + [a], b);
    OwnAppend(id, [e], a);
    OwnAppend(id, [e] + [a], b);
  }

  /** A concrete failure: two lanes of one project, both set to leased by hand. */
  lemma SetByHandBreaksExclusion()
    ensures Exclusive(TwoLanes())
    ensures !Exclusive(SetByHand(SetByHand(TwoLanes(), "a", Leased), "b", Leased))
  {
    forall id ensures !ActiveLane(TwoLanes(), id) {
      TwoLanesAre(id);
    }
    TwoLanesAre("a");
    var one := SetByHand(TwoLanes(), "a", Leased);
    SetByHandActive(TwoLanes(), "a", Leased, "b");
    SetByHandActive(TwoLanes(), "a", Leased, "a");
    SetByHandExclusion(TwoLanes(), "a", Leased);
    SetByHandExclusion(one, "b", Leased);
  }
}
