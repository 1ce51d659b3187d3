/** Runs of the control plane: any interleaving of the operations over any number of orchestrations. */
module Machine {
  import opened Core
  import opened Events
  import opened Reduce
  import opened Graph
  import opened LaneRules
  import opened World
  import opened Operations
  import opened Lifetime
  import opened Lifetimes

  datatype Step =
    | OnLog(key: Key, orch: Id, call: Call)
    | Global(key: Key, global: GlobalCall)

  function Init(definitions: map<Id, Required>): State {
    State(map[], {}, 0, map[], definitions, map[], map[], map[], map[])
  }

  ghost predicate DisciplinedStep(w: State, s: Step) {
    match s
    case OnLog(_, o, call) => Disciplined(w, o, call)
    case Global(_, call) => GlobalDisciplined(w, call)
  }

  ghost function GlobalApply(w: State, key: Key, call: GlobalCall): State {
    if key in w.audit || GlobalStep(w, call).Err? then w else GlobalStep(w, call).value.(audit := w.audit + {key})
  }

  ghost function Next(w: State, s: Step): State {
    match s
    case OnLog(key, o, call) => Apply(w, key, o, call)
    case Global(key, call) => GlobalApply(w, key, call)
  }

  ghost function Run(w: State, steps: seq<Step>): State
    decreases |steps|
  {
    if steps == [] then w else Run(Next(w, steps[0]), steps[1..])
  }

  ghost predicate DisciplinedRun(w: State, steps: seq<Step>)
    decreases |steps|
  {
    steps == [] || (DisciplinedStep(w, steps[0]) && DisciplinedRun(Next(w, steps[0]), steps[1..]))
  }

  ghost predicate Inv(w: State) {
    LogsInv(w) && TablesInv(w)
  }

  // ---------------------------------------------------------------- calls on one log

  predicate Closing(b: Body) {
    b.OrchestrationCancelled? || b.OrchestrationCompleted?
  }

  ghost predicate NoClosing(batch: seq<Event>) {
    forall i :: 0 <= i < |batch| ==> !(batch[i].entity.None? && Closing(batch[i].body))
  }

  lemma PlainEventKeepsStanding(w: State, o: Id, ev: Event)
    requires LogsInv(w) && Legal(w, o, ev) && !(ev.entity.None? && Closing(ev.body))
    ensures StandingOf(w.logs[o] + [ev]) == StandingOf(w.logs[o])
  {
    assert LogInv(w.logs[o], w.definitions, w.minted);
    OrchOfAppend(w.logs[o], ev);
  }

  lemma StandingsAfter(logs: map<Id, seq<Event>>, o: Id, log: seq<Event>)
    ensures Standings(logs[o := log]) == Standings(logs)[o := StandingOf(log)]
    ensures o in logs && StandingOf(log) == StandingOf(logs[o]) ==> Standings(logs[o := log]) == Standings(logs)
  {
  }

  lemma PlainEventKeeps(w: State, o: Id, ev: Event)
    requires LogsInv(w) && Legal(w, o, ev) && !(ev.entity.None? && Closing(ev.body))
    ensures LogsInv(AppendEvent(w, o, ev)) && Standings(AppendEvent(w, o, ev).logs) == Standings(w.logs)
  {
    PlainEventKeepsStanding(w, o, ev);
    LegalKeepsLogsInv(w, o, ev);
    StandingsAfter(w.logs, o, w.logs[o] + [ev]);
  }

  lemma NoClosingTail(batch: seq<Event>)
    requires batch != [] && NoClosing(batch)
    ensures !(batch[0].entity.None? && Closing(batch[0].body)) && NoClosing(batch[1..])
  {
  }

  lemma {:induction false} PlainBatchKeepsStanding(w: State, o: Id, batch: seq<Event>)
    requires LogsInv(w) && LegalAll(w, o, batch) && NoClosing(batch)
    ensures Standings(AppendAll(w, o, batch).logs) == Standings(w.logs)
    decreases |batch|
  {
    if batch != [] {
      NoClosingTail(batch);
      PlainEventKeeps(w, o, batch[0]);
      PlainBatchKeepsStanding(AppendEvent(w, o, batch[0]), o, batch[1..]);
    }
  }

  lemma SweepIsPlain(w: State, o: Id, call: SweepCall)
    requires o in w.logs && SweepOrders(w.logs[o], call) && DecideSweep(w.logs[o], call).Ok?
    ensures NoClosing(DecideSweep(w.logs[o], call).value)
  {
    var batch := DecideSweep(w.logs[o], call).value;
    match call {
      case Expire(now, order) =>
        ExpirePerLane(w, o, now, order);
      case SyncFrontier(pick, edgeOrder, order) =>
        SyncPerLane(w, o, LaneTable(w.logs[o]), TaskIds(w.logs[o]), pick, EdgeList(w.logs[o], edgeOrder), order);
    }
    assert forall i :: 0 <= i < |batch| ==> TellsLane(w, o, batch[i]);
  }

  /** No call on a log cancels or completes an orchestration. */
  lemma DecideIsPlain(w: State, o: Id, call: Call)
    requires Disciplined(w, o, call) && Decide(w, o, call).Ok?
    ensures NoClosing(Decide(w, o, call).value)
  {
    match call
    case Sweep(c) =>
      if o in w.logs {
        SweepIsPlain(w, o, c);
      } else {
        UnknownSweep(c);
      }
    case Orch(c) =>
      match c {
        case Change(_, _) =>
        case Attach(_, _) =>
        case Detach(_, _) =>
        case Gaps =>
      }
    case _ =>
  }

  /** A legal batch without a closing event keeps everything. */
  lemma BatchKeepsInv(w: State, o: Id, batch: seq<Event>)
    requires Inv(w) && LegalAll(w, o, batch) && NoClosing(batch)
    ensures Inv(AppendAll(w, o, batch))
  {
    LegalAllKeepsLogsInv(w, o, batch);
    PlainBatchKeepsStanding(w, o, batch);
    AppendAllTables(w, o, batch);
  }

  lemma ApplyKeepsInv(w: State, key: Key, o: Id, call: Call)
    requires Inv(w) && Disciplined(w, o, call)
    ensures Inv(Apply(w, key, o, call))
  {
    if key !in w.audit && Decide(w, o, call).Ok? {
      DecideIsLegal(w, o, call);
      DecideIsPlain(w, o, call);
      BatchKeepsInv(w, o, Decide(w, o, call).value);
      AppendAllTables(w, o, Decide(w, o, call).value);
      KeysKeepInv(AppendAll(w, o, Decide(w, o, call).value), w.audit + {key});
    }
  }

  lemma {:induction false} AppendAllTables(w: State, o: Id, batch: seq<Event>)
    ensures AppendAll(w, o, batch).(logs := w.logs, minted := w.minted) == w
    decreases |batch|
  {
    if batch != [] {
      AppendAllTables(AppendEvent(w, o, batch[0]), o, batch[1..]);
    }
  }

  lemma SameLogs(w: State, w': State)
    requires LogsInv(w) && w'.logs == w.logs && w'.definitions == w.definitions && w'.minted == w.minted
    ensures LogsInv(w')
  {
  }

  // ---------------------------------------------------------------- orchestrations, cases and executions

  /** The log a new orchestration starts with. */
  ghost predicate FirstLog(log: seq<Event>) {
    && 1 <= |log| <= 2
    && log[0].entity == None && log[0].body.OrchestrationCreated?
    && (|log| == 2 ==> log[1].entity.Some? && log[1].body.RequirementCaptured?)
  }

  lemma FirstEventsAre(start: Start, jira: bool, key: Id)
    ensures FirstLog(FirstEvents(start, jira, key))
  {
  }

  lemma CreatedLogInv(ev: Event, definitions: map<Id, Required>, minted: Token)
    requires ev.entity == None && ev.body.OrchestrationCreated?
    ensures LogInv([ev], definitions, minted) && StandingOf([ev]) == Open && BusyIn([ev]) == {}
  {
    assert [ev][..0] == [];
    assert FoldOrch([]) == Ok(NEW_ORCHESTRATION);
    assert LaneIds([ev]) == {};
    forall id ensures EdgeOf(id, [ev]) == Err(NotFound) && TaskOf(id, [ev]) == Err(NotFound) {
      assert OwnEdge(id, []) == [] && OwnTask(id, []) == [];
    }
    assert EdgeIds([ev]) == {};
    assert Edges([ev]) == map[];
    assert LogArcs([ev]) == {};
  }

  lemma FirstLogInv(log: seq<Event>, definitions: map<Id, Required>, minted: Token)
    requires FirstLog(log)
    ensures LogInv(log, definitions, minted) && StandingOf(log) == Open && BusyIn(log) == {}
  {
    var created := [log[0]];
    CreatedLogInv(log[0], definitions, minted);
    if |log| == 1 {
      assert log == created;
    } else {
      assert log == created + [log[1]];
      assert LaneIds(created) == {};
      LegalKeepsLog(created, definitions, minted, log[1]);
      OrchOfAppend(created, log[1]);
      LaneIdsAppend(created, log[1]);
    }
  }

  lemma IdleLogAddsNothing(logs: map<Id, seq<Event>>, o: Id, log: seq<Event>)
    requires o !in logs && BusyIn(log) == {}
    ensures |BusyProjects(logs[o := log])| <= |BusyProjects(logs)|
  {
    forall p | p in BusyProjects(logs[o := log]) ensures p in BusyProjects(logs) {
      var q :| q in logs[o := log] && p in BusyIn(logs[o := log][q]);
      assert q in logs && p in BusyIn(logs[q]);
    }
    SubsetCard(BusyProjects(logs[o := log]), BusyProjects(logs));
  }

  lemma NewLogKeepsLogsInv(w: State, w': State, o: Id, log: seq<Event>)
    requires LogsInv(w) && o !in w.logs && FirstLog(log)
    requires w'.logs == w.logs[o := log] && w'.definitions == w.definitions && w'.minted == w.minted
    ensures LogsInv(w') && Standings(w'.logs) == Standings(w.logs)[o := Open]
  {
    FirstLogInv(log, w.definitions, w.minted);
    IdleLogAddsNothing(w.logs, o, log);
    StandingsAfter(w.logs, o, log);
    forall q | q in w'.logs ensures LogInv(w'.logs[q], w'.definitions, w'.minted) {
    }
  }

  lemma ClosingKeepsLogsInv(w: State, w': State, o: Id, b: Body)
    requires LogsInv(w) && o in w.logs && Closing(b)
    requires OrchOf(w.logs[o]).Ok? && !IsTerminal(OrchOf(w.logs[o]).value.status)
    requires w'.logs == w.logs[o := w.logs[o] + [Event(None, b)]] && w'.definitions == w.definitions && w'.minted == w.minted
    ensures LogsInv(w')
    ensures Standings(w.logs)[o] == Open
    ensures Standings(w'.logs) == Standings(w.logs)[o := if b.OrchestrationCancelled? then Cancelled else Completed]
  {
    OrchEventIsLegal(w, o, b);
    LegalKeepsLogsInv(w, o, Event(None, b));
    SameLogs(AppendEvent(w, o, Event(None, b)), w');
    ClosedStanding(w.logs[o], b);
    StandingsAfter(w.logs, o, w.logs[o] + [Event(None, b)]);
  }

  lemma ClosedStanding(log: seq<Event>, b: Body)
    requires Closing(b) && OrchOf(log).Ok? && !IsTerminal(OrchOf(log).value.status)
    ensures StandingOf(log) == Open
    ensures StandingOf(log + [Event(None, b)]) == if b.OrchestrationCancelled? then Cancelled else Completed
  {
    OrchOfAppend(log, Event(None, b));
  }

  lemma StartNewCaseKeepsInv(w: State, w': State, start: Start, row: Case, first: seq<Event>)
    requires Inv(w) && FreshIds(w, start) && row.active && FirstLog(first)
    requires forall d :: d in w.cases ==> !Clash(row, w.cases[d])
    requires w' == OpenExecution(w.(cases := w.cases[start.caseId := row]), start.caseId, 1, start, first)
    ensures Inv(w')
  {
    NewCaseKeepsTables(w, start.caseId, row, start.executionId, start.orchId);
    NewLogKeepsLogsInv(w, w', start.orchId, first);
  }

  /** An active case always has an execution. */
  lemma CaseHasExecution(w: State, c: Id, last: Option<Id>)
    requires TablesInv(w) && c in w.cases && LastIs(w.executions, c, last)
    ensures last.Some?
  {
    assert HasNumbers(w.executions, c);
    var n: nat :| n > 0 && Numbered(w.executions, c, n);
    assert Uses(w.executions, c, 1);
  }

  /** The row of a found case after its organisation was settled. */
  function Adopted(row: Case, tenant: Id): Case {
    if tenant != "" && row.tenant != tenant then row.(tenant := tenant) else row
  }

  /** Adopting the found case keeps the tables. */
  lemma AdoptedKeepsTables(w: State, key: Id, tenant: Id, c: Id)
    requires TablesInv(w) && Found(w.cases, key, tenant, Some(c))
    ensures TablesOk(w.cases[c := Adopted(w.cases[c], tenant)], w.executions, w.sessions, Standings(w.logs))
  {
    FoundKeepsUnique(w.cases, key, tenant, Some(c));
    if tenant != "" {
      AdoptKeepsTables(w, c, tenant);
      assert w.cases[c].tenant == tenant ==> w.cases[c].(tenant := tenant) == w.cases[c];
    } else {
      assert w.cases[c := w.cases[c]] == w.cases;
    }
  }

  /** The next execution of case c after the execution e, whose status is settled first. */
  function Resumed(w: State, cases: map<Id, Case>, c: Id, e: Id, closed: ExecutionStatus, start: Start,
                   first: seq<Event>): State
    requires e in w.executions
  {
    OpenExecution(w.(cases := cases, executions := w.executions[e := w.executions[e].(status := closed)]),
                  c, w.executions[e].ordinal + 1, start, first)
  }

  lemma ResumedShape(w: State, cases: map<Id, Case>, c: Id, e: Id, closed: ExecutionStatus, start: Start,
                     first: seq<Event>)
    requires e in w.executions && w.executions[e].status == closed
    ensures var w' := Resumed(w, cases, c, e, closed, start, first);
      && w'.cases == cases && w'.sessions == w.sessions && w'.logs == w.logs[start.orchId := first]
      && w'.executions == w.executions[start.executionId :=
                            Execution(c, start.orchId, w.executions[e].ordinal + 1, ExecutionActive, None)]
  {
    assert w.executions[e := w.executions[e].(status := closed)] == w.executions;
  }

  lemma ResumedKeepsTables(w: State, cases: map<Id, Case>, c: Id, e: Id, closed: ExecutionStatus, start: Start,
                           first: seq<Event>)
    requires TablesOk(cases, w.executions, w.sessions, Standings(w.logs))
    requires c in cases && cases[c].active && IsLast(w.executions, c, e) && FreshIds(w, start)
    requires Standings(w.logs)[w.executions[e].orch] != Open && closed == ExecutionCompleted && StandingOf(first) == Open
    ensures TablesInv(Resumed(w, cases, c, e, closed, start, first))
  {
    var w' := Resumed(w, cases, c, e, closed, start, first);
    ClosedCaseIsReady(cases, w.executions, Standings(w.logs), c, e);
    ResumedShape(w, cases, c, e, closed, start, first);
    StandingsAfter(w.logs, start.orchId, first);
    NextExecutionKeepsTables(w'.cases, w.executions, w'.executions, w'.sessions, Standings(w.logs), Standings(w'.logs),
                             c, e, start.executionId, start.orchId);
  }

  lemma ResumedKeepsInv(w: State, cases: map<Id, Case>, c: Id, e: Id, closed: ExecutionStatus, start: Start,
                        first: seq<Event>)
    requires LogsInv(w) && TablesOk(cases, w.executions, w.sessions, Standings(w.logs))
    requires c in cases && cases[c].active && IsLast(w.executions, c, e) && FreshIds(w, start) && FirstLog(first)
    requires Standings(w.logs)[w.executions[e].orch] != Open && closed == ExecutionCompleted
    ensures Inv(Resumed(w, cases, c, e, closed, start, first))
  {
    FirstLogInv(first, w.definitions, w.minted);
    ResumedKeepsTables(w, cases, c, e, closed, start, first);
    NewLogKeepsLogsInv(w, Resumed(w, cases, c, e, closed, start, first), start.orchId, first);
  }

  /** What resuming comes to when the lookups found a case and its last execution. */
  lemma StartJiraFound(w: State, key: Id, tenant: Id, start: Start, c: Id, e: Id)
    requires c in w.cases && e in w.executions && w.executions[e].orch in w.logs
    requires StartJiraStep(w, key, tenant, start, Some(c), Some(e)).Ok?
    ensures var cases := w.cases[c := Adopted(w.cases[c], tenant)];
            var orch := OrchOf(w.logs[w.executions[e].orch]);
            && orch.Ok?
            && StartJiraStep(w, key, tenant, start, Some(c), Some(e)).value ==
                 if !IsTerminal(orch.value.status) then w.(cases := cases)
                 else Resumed(w, cases, c, e, ClosedBy(orch.value.status), start, FirstEvents(start, true, key))
  {
  }

  lemma LastOrchestrationOver(cases: map<Id, Case>, executions: map<Id, Execution>, sessions: map<Id, Session>,
                              logs: map<Id, seq<Event>>, c: Id, e: Id)
    requires TablesOk(cases, executions, sessions, Standings(logs)) && c in cases && cases[c].active && IsLast(executions, c, e)
    ensures executions[e].orch in logs
    ensures var orch := OrchOf(logs[executions[e].orch]);
            orch.Ok? && IsTerminal(orch.value.status) ==>
              Standings(logs)[executions[e].orch] != Open && ClosedBy(orch.value.status) == ExecutionCompleted
  {
    assert executions[e].caseId in cases && executions[e].orch in Standings(logs);
  }

  /** The case's last execution either stands, or is over and followed by the next one. */
  ghost predicate Continues(w: State, w': State, cases: map<Id, Case>, c: Id, e: Id, orch: Orchestration, start: Start,
                            first: seq<Event>)
  {
    && e in w.executions && w.executions[e].orch in w.logs
    && if !IsTerminal(orch.status) then w' == w.(cases := cases)
       else
         && StandingOf(w.logs[w.executions[e].orch]) != Open && ClosedBy(orch.status) == ExecutionCompleted
         && w' == Resumed(w, cases, c, e, ClosedBy(orch.status), start, first)
  }

  lemma FoundCaseKeepsInv(w: State, w': State, cases: map<Id, Case>, c: Id, e: Id, orch: Orchestration, start: Start,
                          first: seq<Event>)
    requires LogsInv(w) && TablesOk(cases, w.executions, w.sessions, Standings(w.logs)) && FreshIds(w, start)
    requires c in cases && cases[c].active && IsLast(w.executions, c, e) && FirstLog(first)
    requires Continues(w, w', cases, c, e, orch, start, first)
    ensures Inv(w')
  {
    if IsTerminal(orch.status) {
      ResumedKeepsInv(w, cases, c, e, ClosedBy(orch.status), start, first);
    } else {
      RenamedKeepsInv(w, w');
    }
  }

  /** A found case is resumed only when its last orchestration is over. */
  lemma FoundOutcome(w: State, cases: map<Id, Case>, key: Id, tenant: Id, start: Start, c: Id, e: Id)
    returns (orch: Orchestration)
    requires TablesOk(cases, w.executions, w.sessions, Standings(w.logs)) && c in w.cases
    requires cases == w.cases[c := Adopted(w.cases[c], tenant)] && cases[c].active && IsLast(w.executions, c, e)
    requires StartJiraStep(w, key, tenant, start, Some(c), Some(e)).Ok?
    ensures Continues(w, StartJiraStep(w, key, tenant, start, Some(c), Some(e)).value, cases, c, e, orch, start,
                      FirstEvents(start, true, key))
  {
    LastOrchestrationOver(cases, w.executions, w.sessions, w.logs, c, e);
    StartJiraFound(w, key, tenant, start, c, e);
    orch := OrchOf(w.logs[w.executions[e].orch]).value;
  }

  lemma StartJiraFoundKeepsInv(w: State, cases: map<Id, Case>, key: Id, tenant: Id, start: Start, c: Id, e: Id)
    requires LogsInv(w) && TablesOk(cases, w.executions, w.sessions, Standings(w.logs)) && FreshIds(w, start)
    requires c in w.cases && cases == w.cases[c := Adopted(w.cases[c], tenant)] && cases[c].active
    requires IsLast(w.executions, c, e)
    requires StartJiraStep(w, key, tenant, start, Some(c), Some(e)).Ok?
    ensures Inv(StartJiraStep(w, key, tenant, start, Some(c), Some(e)).value)
  {
    FirstEventsAre(start, true, key);
    var orch := FoundOutcome(w, cases, key, tenant, start, c, e);
    FoundCaseKeepsInv(w, StartJiraStep(w, key, tenant, start, Some(c), Some(e)).value, cases, c, e,
                      orch, start, FirstEvents(start, true, key));
  }

  lemma RenamedKeepsInv(w: State, w': State)
    requires LogsInv(w) && w' == w.(cases := w'.cases)
    requires TablesOk(w'.cases, w.executions, w.sessions, Standings(w.logs))
    ensures Inv(w')
  {
    SameLogs(w, w');
  }

  lemma StartJiraKeepsInv(w: State, key: Id, tenant: Id, start: Start, found: Option<Id>, last: Option<Id>)
    requires Inv(w) && GlobalDisciplined(w, StartJira(key, tenant, start, found, last))
    requires StartJiraStep(w, key, tenant, start, found, last).Ok?
    ensures Inv(StartJiraStep(w, key, tenant, start, found, last).value)
  {
    if found.None? {
      FoundKeepsUnique(w.cases, key, tenant, found);
      StartNewCaseKeepsInv(w, StartJiraStep(w, key, tenant, start, found, last).value, start,
                           Case(true, key, tenant, true, start.now), FirstEvents(start, true, key));
    } else {
      CaseHasExecution(w, found.value, last);
      AdoptedKeepsTables(w, key, tenant, found.value);
      StartJiraFoundKeepsInv(w, w.cases[found.value := Adopted(w.cases[found.value], tenant)], key, tenant, start,
                             found.value, last.value);
    }
  }

  lemma CancelChecks(w: State, o: Id, rev: int)
    requires CancelStep(w, o, rev).Ok? && o in w.logs
    ensures var w' := CancelStep(w, o, rev).value;
      && OrchOf(w.logs[o]).Ok? && !IsTerminal(OrchOf(w.logs[o]).value.status)
      && w' == w.(logs := w.logs[o := w.logs[o] + [Event(None, OrchestrationCancelled)]], cases := w'.cases)
      && CancelledCases(w.cases, w'.cases, w.executions, o)
  {
  }

  lemma CompleteChecks(w: State, o: Id, rev: int)
    requires CompleteStep(w, o, rev).Ok? && o in w.logs
    ensures var w' := CompleteStep(w, o, rev).value;
      && OrchOf(w.logs[o]).Ok? && !IsTerminal(OrchOf(w.logs[o]).value.status)
      && w' == w.(logs := w.logs[o := w.logs[o] + [Event(None, OrchestrationCompleted)]], executions := w'.executions,
                  sessions := w'.sessions)
      && CompletedRows(w.executions, w'.executions, o) && ClosedSessions(w.executions, w.sessions, w'.sessions, o)
  {
  }

  lemma CancelKeepsInv(w: State, o: Id, rev: int)
    requires Inv(w) && CancelStep(w, o, rev).Ok?
    ensures Inv(CancelStep(w, o, rev).value)
  {
    var w' := CancelStep(w, o, rev).value;
    CancelChecks(w, o, rev);
    ClosingKeepsLogsInv(w, w', o, OrchestrationCancelled);
    CancelKeepsTables(w.cases, w'.cases, w'.executions, w'.sessions, Standings(w.logs), Standings(w'.logs), o);
  }

  lemma CompleteKeepsInv(w: State, o: Id, rev: int)
    requires Inv(w) && CompleteStep(w, o, rev).Ok?
    ensures Inv(CompleteStep(w, o, rev).value)
  {
    var w' := CompleteStep(w, o, rev).value;
    CompleteChecks(w, o, rev);
    ClosingKeepsLogsInv(w, w', o, OrchestrationCompleted);
    CompleteKeepsTables(w'.cases, w.executions, w'.executions, w.sessions, w'.sessions, Standings(w.logs), Standings(w'.logs), o);
  }

  lemma OpenSessionFrame(w: State, e: Id, id: Id, named: bool, participant: string, resumedFrom: Id)
    ensures var r := OpenSessionStep(w, e, id, named, participant, resumedFrom);
            r.Ok? ==> r.value.logs == w.logs && r.value.definitions == w.definitions && r.value.minted == w.minted
  {
  }

  /** A session step either changes nothing or opens one session where none is active. */
  lemma OpenSessionChecks(w: State, e: Id, id: Id, named: bool, participant: string, resumedFrom: Id)
    requires OpenSessionStep(w, e, id, named, participant, resumedFrom).Ok?
    ensures var w' := OpenSessionStep(w, e, id, named, participant, resumedFrom).value;
            w' != w ==>
              && e in w.executions && w.executions[e].status == ExecutionActive && id !in w.sessions
              && (forall s :: !ActiveOn(w.sessions, s, e))
              && w'.cases == w.cases
              && w'.executions == w.executions[e := w.executions[e].(session := Some(id))]
              && w'.sessions == w.sessions[id := Session(e, resumedFrom, SessionActive)]
  {
  }

  lemma SessionStepKeepsTables(w: State, w': State, e: Id, id: Id, resumedFrom: Id)
    requires TablesInv(w) && w'.logs == w.logs && w'.cases == w.cases
    requires e in w.executions && w.executions[e].status == ExecutionActive && id !in w.sessions
    requires forall s :: !ActiveOn(w.sessions, s, e)
    requires w'.executions == w.executions[e := w.executions[e].(session := Some(id))]
    requires w'.sessions == w.sessions[id := Session(e, resumedFrom, SessionActive)]
    ensures TablesInv(w')
  {
    SessionKeepsTables(w'.cases, w.executions, w'.executions, w.sessions, w'.sessions, Standings(w'.logs), e, id);
  }

  lemma OpenSessionKeepsInv(w: State, e: Id, id: Id, named: bool, participant: string, resumedFrom: Id)
    requires Inv(w) && OpenSessionStep(w, e, id, named, participant, resumedFrom).Ok?
    ensures Inv(OpenSessionStep(w, e, id, named, participant, resumedFrom).value)
  {
    var w' := OpenSessionStep(w, e, id, named, participant, resumedFrom).value;
    OpenSessionFrame(w, e, id, named, participant, resumedFrom);
    SameLogs(w, w');
    if w' != w {
      OpenSessionChecks(w, e, id, named, participant, resumedFrom);
      SessionStepKeepsTables(w, w', e, id, resumedFrom);
    }
  }

  lemma CheckpointChecks(w: State, id: Id, input: CheckpointInput)
    requires CheckpointStep(w, id, input).Ok?
    ensures var w' := CheckpointStep(w, id, input).value;
      && id in w.sessions && w' == w.(sessions := w'.sessions, checkpoints := w'.checkpoints)
      && (w'.sessions == w.sessions || w'.sessions == w.sessions[id := w.sessions[id].(status := SessionHandedOff)])
  {
  }

  lemma CheckpointedTables(w: State, w': State, id: Id)
    requires TablesInv(w) && id in w.sessions && w' == w.(sessions := w'.sessions, checkpoints := w'.checkpoints)
    requires w'.sessions == w.sessions || w'.sessions == w.sessions[id := w.sessions[id].(status := SessionHandedOff)]
    ensures TablesInv(w')
  {
    HandOffKeepsTables(w.cases, w.executions, w.sessions, Standings(w.logs), id);
  }

  lemma CheckpointKeepsInv(w: State, id: Id, input: CheckpointInput)
    requires Inv(w) && CheckpointStep(w, id, input).Ok?
    ensures Inv(CheckpointStep(w, id, input).value)
  {
    var w' := CheckpointStep(w, id, input).value;
    CheckpointChecks(w, id, input);
    SameLogs(w, w');
    CheckpointedTables(w, w', id);
  }

  lemma GlobalStepKeepsInv(w: State, call: GlobalCall)
    requires Inv(w) && GlobalDisciplined(w, call) && GlobalStep(w, call).Ok?
    ensures Inv(GlobalStep(w, call).value)
  {
    var w' := GlobalStep(w, call).value;
    match call
    case NewOrchestration(o, inputs, workflow) =>
      NewLogKeepsLogsInv(w, w', o, [Event(None, OrchestrationCreated(inputs, workflow))]);
      LoneLogKeepsTables(w.cases, w.executions, w.sessions, Standings(w.logs), o);
    case Register(project, active) => SameLogs(w, w');
    case StartJira(key, tenant, start, found, last) => StartJiraKeepsInv(w, key, tenant, start, found, last);
    case StartAdhoc(start) =>
      StartNewCaseKeepsInv(w, w', start, Case(false, "", "", true, start.now), FirstEvents(start, false, ""));
    case Cancel(o, rev) => CancelKeepsInv(w, o, rev);
    case CompleteRun(o, rev) => CompleteKeepsInv(w, o, rev);
    case OpenSession(e, id, named, participant, resumedFrom) => OpenSessionKeepsInv(w, e, id, named, participant, resumedFrom);
    case Checkpoint(id, input) => CheckpointKeepsInv(w, id, input);
  }

  /** An orchestration no execution names does not concern the tables. */
  lemma LoneLogKeepsTables(cases: map<Id, Case>, executions: map<Id, Execution>, sessions: map<Id, Session>,
                           standing: map<Id, Standing>, o: Id)
    requires TablesOk(cases, executions, sessions, standing) && o !in standing
    ensures TablesOk(cases, executions, sessions, standing[o := Open])
  {
  }

  // ---------------------------------------------------------------- runs

  lemma InitInv(definitions: map<Id, Required>)
    ensures Inv(Init(definitions))
  {
    assert BusyProjects(Init(definitions).logs) == {};
  }

  lemma GlobalApplyKeepsInv(w: State, key: Key, call: GlobalCall)
    requires Inv(w) && GlobalDisciplined(w, call)
    ensures Inv(GlobalApply(w, key, call))
  {
    if key !in w.audit && GlobalStep(w, call).Ok? {
      GlobalStepKeepsInv(w, call);
      KeysKeepInv(GlobalStep(w, call).value, w.audit + {key});
    }
  }

  /** The used keys are no part of the invariant. */
  lemma KeysKeepInv(w: State, keys: set<Key>)
    requires Inv(w)
    ensures Inv(w.(audit := keys))
  {
    SameLogs(w, w.(audit := keys));
  }

  /** Every step keeps every invariant. */
  lemma NextKeepsInv(w: State, s: Step)
    requires Inv(w) && DisciplinedStep(w, s)
    ensures Inv(Next(w, s))
  {
    match s
    case OnLog(key, o, call) => ApplyKeepsInv(w, key, o, call);
    case Global(key, call) => GlobalApplyKeepsInv(w, key, call);
  }

  lemma {:induction false} RunKeepsInv(w: State, steps: seq<Step>)
    requires Inv(w) && DisciplinedRun(w, steps)
    ensures Inv(Run(w, steps))
    decreases |steps|
  {
    if steps != [] {
      NextKeepsInv(w, steps[0]);
      RunKeepsInv(Next(w, steps[0]), steps[1..]);
    }
  }

  /** One more step at the end of a run. */
  lemma {:induction false} RunSnoc(w: State, steps: seq<Step>, s: Step)
    requires DisciplinedRun(w, steps) && DisciplinedStep(Run(w, steps), s)
    ensures DisciplinedRun(w, steps + [s]) && Run(w, steps + [s]) == Next(Run(w, steps), s)
    decreases |steps|
  {
    if steps == [] {
      assert [] + [s] == [s] && [s][1..] == [];
    } else {
      RunSnoc(Next(w, steps[0]), steps[1..], s);
      assert (steps + [s])[1..] == steps[1..] + [s];
    }
  }

  lemma StepKeepsDefinitions(w: State, call: GlobalCall)
    requires GlobalStep(w, call).Ok?
    ensures GlobalStep(w, call).value.definitions == w.definitions
  {
    match call
    case NewOrchestration(_, _, _) =>
    case Register(_, _) =>
    case StartJira(_, _, _, _, _) =>
    case StartAdhoc(_) =>
    case Cancel(_, _) =>
    case CompleteRun(_, _) =>
    case OpenSession(_, _, _, _, _) =>
    case Checkpoint(_, _) =>
  }

  /** No step changes the workflow definitions. */
  lemma DefinitionsStay(w: State, s: Step)
    ensures Next(w, s).definitions == w.definitions
  {
    match s
    case OnLog(key, o, call) => ApplyKeepsDefinitions(w, key, o, Decide(w, o, call));
    case Global(key, call) =>
      if key !in w.audit && GlobalStep(w, call).Ok? {
        StepKeepsDefinitions(w, call);
      }
  }

  lemma ApplyKeepsDefinitions(w: State, key: Key, o: Id, d: Result<seq<Event>>)
    ensures Write(w, key, o, d).definitions == w.definitions
  {
    if d.Ok? {
      AppendAllTables(w, o, d.value);
    }
  }

  /** Some key is unused. */
  lemma {:induction false} FreshKey(used: set<Key>) returns (key: Key)
    ensures key !in used && forall k :: k in used ==> |k| < |key|
  {
    if used == {} {
      key := "";
    } else {
      var x :| x in used;
      key := FreshKey(used - {x});
      key := key + x + "x";
    }
  }
}
