/** The delivery store itself: an object whose methods read the log, check, and append under an idempotency key. Each
    method is proved to make exactly the step the state machine makes, and to keep every invariant. */
module DeliveryStore {
  import opened Core
  import opened Events
  import opened Reduce
  import opened Graph
  import opened LaneRules
  import opened World
  import opened Operations
  import opened Lifetime
  import opened Lifetimes
  import opened Machine
  import opened Matrix
  import opened Completion
  import opened Resume
  import opened Text
  import Sync

  class Store {
    var logs: map<Id, seq<Event>>
    var audit: set<Key>
    var minted: Token
    var projects: map<Id, bool>
    const definitions: map<Id, Required>
    var cases: map<Id, Case>
    var executions: map<Id, Execution>
    var sessions: map<Id, Session>
    var checkpoints: map<Id, SessionCheckpoint>

    function View(): State
      reads this
    {
      State(logs, audit, minted, projects, definitions, cases, executions, sessions, checkpoints)
    }

    ghost predicate Valid()
      reads this
    {
      Inv(View())
    }

    /** What the bodies of transactions rely on: no lane of any orchestration fails to replay. */
    ghost predicate Replays()
      reads this
    {
      forall o :: LanesReplay(LogOf(View(), o))
    }

    constructor (defs: map<Id, Required>)
      ensures Valid() && View() == Init(defs)
    {
      logs, audit, minted, projects, definitions := map[], {}, 0, map[], defs;
      cases, executions, sessions, checkpoints := map[], map[], map[], map[];
      new;
      InitInv(defs);
    }

    // -------------------------------------------------------------- transactions

    /** insertEvent, for the events of one transaction in turn. */
    method InsertEvents(o: Id, batch: seq<Event>)
      modifies this
      ensures View() == AppendAll(old(View()), o, batch)
    {
      for i := 0 to |batch|
        invariant AppendAll(View(), o, batch[i..]) == AppendAll(old(View()), o, batch)
      {
        assert batch[i..][0] == batch[i] && batch[i..][1..] == batch[i + 1..];
        logs := logs[o := LogOf(View(), o) + [batch[i]]];
        if batch[i].body.LeaseGranted? {
          minted := minted + 1;
        }
      }
      assert batch[|batch|..] == [];
    }

    /** The end of DB.Write for an unused key: a failed body leaves no trace, otherwise events and key commit together. */
    method Commit(key: Key, o: Id, decision: Result<seq<Event>>)
      requires key !in audit
      modifies this
      ensures View() == Write(old(View()), key, o, decision)
    {
      if decision.Ok? {
        AppendAllTables(View(), o, decision.value);
        InsertEvents(o, decision.value);
        audit := audit + {key};
      }
    }

    /** A used key is no error: the caller gets the lane as it stands. */
    ghost function Reply(was: State, key: Key, o: Id, lane: Id, decision: Result<seq<Event>>): Result<Lane>
      reads this
    {
      if key !in was.audit && decision.Err? then Err(decision.error) else LaneOf(lane, LogOf(View(), o))
    }

    method GetLane(o: Id, lane: Id) returns (r: Result<Lane>)
      ensures r == LaneOf(lane, LogOf(View(), o))
    {
      r := ReduceLane(lane, LogOf(View(), o));
    }

    method CommitLane(key: Key, o: Id, lane: Id, decision: Result<seq<Event>>) returns (r: Result<Lane>)
      requires key !in audit
      modifies this
      ensures View() == Write(old(View()), key, o, decision)
      ensures r == Reply(old(View()), key, o, lane, decision)
    {
      Commit(key, o, decision);
      if decision.Err? {
        return Err(decision.error);
      }
      r := GetLane(o, lane);
    }

    /** The lane table of an orchestration: no lane of a valid store fails to replay. */
    method LanesOf(o: Id) returns (lanes: map<Id, Lane>)
      requires Replays()
      ensures lanes == LaneTable(LogOf(View(), o)) && Sync.Shows(LogOf(View(), o), lanes)
    {
      var r := AllLanes(LogOf(View(), o));
      lanes := r.value;
    }

    // -------------------------------------------------------------- leases

    /** activeProjectIDs: every lane of every orchestration. */
    method ActiveProjectIds() returns (active: set<Id>)
      requires Replays()
      ensures active == BusyProjects(logs)
    {
      active := {};
      var todo := logs.Keys;
      while todo != {}
        invariant todo <= logs.Keys
        invariant forall p :: p in active <==> exists o :: o in logs && o !in todo && p in BusyIn(logs[o])
        decreases |todo|
      {
        var o :| o in todo;
        var lanes := LanesOf(o);
        var busy := ActiveIn(logs[o], lanes);
        active := active + busy;
        todo := todo - {o};
      }
    }

    method RecheckLane(o: Id, lane: Id, rev: int) returns (r: Result<Lane>)
      ensures r == AtRevision(LogOf(View(), o), lane, rev)
    {
      var found := ReduceLane(lane, LogOf(View(), o));
      if found.Ok? && found.value.revision != rev {
        return Err(RevisionConflict);
      }
      return found;
    }

    method HeldLane(o: Id, lane: Id, token: Token, rev: int) returns (r: Result<Lane>)
      ensures r == Held(LogOf(View(), o), lane, token, rev)
    {
      r := RecheckLane(o, lane, rev);
      if r.Err? {
        return;
      }
      if r.value.status != Leased && r.value.status != Running {
        return Err(LaneNotRunnable);
      }
      if r.value.token != Some(token) {
        return Err(LeaseTokenMismatch);
      }
    }

    method GrantBody(o: Id, lane: Id, rev: int, worker: Id, expiresAt: Time) returns (d: Result<seq<Event>>)
      requires Replays()
      ensures d == GrantDecision(View(), o, lane, rev, worker, expiresAt)
    {
      var found := RecheckLane(o, lane, rev);
      if found.Err? {
        return Err(found.error);
      }
      var l := found.value;
      if l.status != Runnable {
        return Err(LaneNotRunnable);
      }
      var lanes := LanesOf(o);
      var taken := ProjectTaken(LogOf(View(), o), lanes, lane, l.project);
      if taken {
        return Err(ProjectAtConcurrencyLimit);
      }
      var active := ActiveProjectIds();
      if l.project !in active && |active| >= MAX_CONCURRENT_PROJECTS {
        return Err(GlobalConcurrencyLimit);
      }
      var attempt := 1;
      if l.attempt.Some? {
        attempt := l.attempt.value + 1;
      }
      return Ok([Event(Some(lane), LeaseGranted(worker, minted, expiresAt, attempt))]);
    }

    method GrantLease(key: Key, o: Id, lane: Id, rev: int, worker: Id, expiresAt: Time) returns (r: Result<Lane>)
      requires Valid()
      modifies this
      ensures Valid()
      ensures View() == Write(old(View()), key, o, GrantDecision(old(View()), o, lane, rev, worker, expiresAt))
      ensures r == Reply(old(View()), key, o, lane, GrantDecision(old(View()), o, lane, rev, worker, expiresAt))
    {
      if key in audit {
        r := GetLane(o, lane);
        return;
      }
      ValidReplays(View());
      var d := GrantBody(o, lane, rev, worker, expiresAt);
      CallKeepsInv(View(), key, o, Lease(Grant(lane, rev, worker, expiresAt)), d);
      r := CommitLane(key, o, lane, d);
    }

    /** Heartbeat: the holder of the current token renews; the first renewal moves the lane to running. */
    method Heartbeat(key: Key, o: Id, lane: Id, token: Token, rev: int, expiresAt: Time) returns (r: Result<Lane>)
      requires Valid()
      modifies this
      ensures Valid()
      ensures var d := DecideLease(old(View()), o, LeaseCall.Heartbeat(lane, token, rev, expiresAt));
              View() == Write(old(View()), key, o, d) && r == Reply(old(View()), key, o, lane, d)
    {
      if key in audit {
        r := GetLane(o, lane);
        return;
      }
      var found := HeldLane(o, lane, token, rev);
      var d := if found.Err? then Err(found.error) else Ok([Event(Some(lane), LeaseHeartbeat(expiresAt))]);
      CallKeepsInv(View(), key, o, Lease(LeaseCall.Heartbeat(lane, token, rev, expiresAt)), d);
      r := CommitLane(key, o, lane, d);
    }

    /** transitionLeasedLane: completion is gated by the role stages, rejection is not. */
    method TransitionBody(o: Id, lane: Id, token: Token, rev: int, completes: bool) returns (d: Result<seq<Event>>)
      ensures d == if completes then CompleteDecision(View(), o, lane, token, rev, true)
                   else DecideLease(View(), o, LeaseCall.Reject(lane, token, rev))
    {
      var found := HeldLane(o, lane, token, rev);
      if found.Err? {
        return Err(found.error);
      }
      if !completes {
        return Ok([Event(Some(lane), LeaseRejected)]);
      }
      var req := RequiredStages(o);
      var l := found.value;
      if l.semar.Some? {
        var last := LastRequired(req);
        if last.Some? {
          var record := RecordOf(l, last.value);
          if record.None? || record.value == "" {
            return Err(RoleStagesIncomplete);
          }
        }
      }
      return Ok([Event(Some(lane), LeaseCompleted)]);
    }

    /** resolveRequiredStages for the orchestration's workflow definition. */
    method RequiredStages(o: Id) returns (req: Required)
      ensures req == ReqOf(definitions, LogOf(View(), o))
    {
      var orch := ReduceOrchestration(LogOf(View(), o));
      if orch.Ok? && orch.value.workflow != "" && orch.value.workflow in definitions {
        return definitions[orch.value.workflow];
      }
      return map[];
    }

    method CompleteLease(key: Key, o: Id, lane: Id, token: Token, rev: int, workLogged: bool) returns (r: Result<Lane>)
      requires Valid()
      modifies this
      ensures Valid()
      ensures View() == Write(old(View()), key, o, CompleteDecision(old(View()), o, lane, token, rev, workLogged))
      ensures workLogged ==>
                r == Reply(old(View()), key, o, lane, CompleteDecision(old(View()), o, lane, token, rev, workLogged))
      ensures !workLogged ==> r == Err(WorkLogRequired)
    {
      if !workLogged {
        return Err(WorkLogRequired);
      }
      if key in audit {
        r := GetLane(o, lane);
        return;
      }
      var d := TransitionBody(o, lane, token, rev, true);
      CallKeepsInv(View(), key, o, Lease(Complete(lane, token, rev, workLogged)), d);
      r := CommitLane(key, o, lane, d);
    }

    method RejectLease(key: Key, o: Id, lane: Id, token: Token, rev: int) returns (r: Result<Lane>)
      requires Valid()
      modifies this
      ensures Valid()
      ensures var d := DecideLease(old(View()), o, LeaseCall.Reject(lane, token, rev));
              View() == Write(old(View()), key, o, d) && r == Reply(old(View()), key, o, lane, d)
    {
      if key in audit {
        r := GetLane(o, lane);
        return;
      }
      var d := TransitionBody(o, lane, token, rev, false);
      CallKeepsInv(View(), key, o, Lease(LeaseCall.Reject(lane, token, rev)), d);
      r := CommitLane(key, o, lane, d);
    }

    /** RecordRoleStage. */
    method RecordRoleStage(key: Key, o: Id, lane: Id, token: Token, stage: RoleStage, record: Id, rev: int)
      returns (r: Result<Lane>)
      requires Valid()
      modifies this
      ensures Valid()
      ensures var d := StageDecision(old(View()), o, lane, token, stage, record, rev);
              View() == Write(old(View()), key, o, d) && r == Reply(old(View()), key, o, lane, d)
    {
      if key in audit {
        r := GetLane(o, lane);
        return;
      }
      var d := StageBody(o, lane, token, stage, record, rev);
      CallKeepsInv(View(), key, o, Lease(RecordStage(lane, token, stage, record, rev)), d);
      r := CommitLane(key, o, lane, d);
    }

    method StageBody(o: Id, lane: Id, token: Token, stage: RoleStage, record: Id, rev: int)
      returns (d: Result<seq<Event>>)
      ensures d == StageDecision(View(), o, lane, token, stage, record, rev)
    {
      var found := HeldLane(o, lane, token, rev);
      if found.Err? {
        return Err(found.error);
      }
      if stage != Semar {
        var req := RequiredStages(o);
        if PrecedingRecord(found.value, stage, req) == "" {
          return Err(RoleStageOutOfOrder);
        }
      }
      return Ok([Event(Some(lane), StageSubmitted(stage, record))]);
    }

    /** ExpireLeases: one sweep, in whatever order the lanes come up. */
    method ExpireLeases(key: Key, o: Id, now: Time) returns (expired: seq<Id>, ghost order: seq<Id>)
      requires Valid()
      modifies this
      ensures Valid()
      ensures Sync.Enumerates(order, LaneIds(LogOf(old(View()), o)))
      ensures View() == Write(old(View()), key, o, Ok(ExpireBatch(LogOf(old(View()), o), now, order)))
      ensures key !in old(audit) ==> forall id :: id in expired <==>
                var l := LaneOf(id, LogOf(old(View()), o)); l.Ok? && Operations.Expired(l.value, now)
      ensures key in old(audit) ==> expired == []
    {
      ValidReplays(View());
      var lanes := LanesOf(o);
      var batch;
      batch, expired, order := SweepExpired(lanes, now);
      ExpireFromIs(LogOf(View(), o), lanes, now, order);
      ExpiredAre(LogOf(View(), o), lanes, expired, now);
      if key in audit {
        expired := [];
        return;
      }
      CallKeepsInv(View(), key, o, Sweep(Expire(now, order)), Ok(batch));
      Commit(key, o, Ok(batch));
    }

    // -------------------------------------------------------------- the frontier and the graph

    /** SyncFrontier: maps first, then the frontier, then one event at most for each task's lane. */
    method SyncFrontier(key: Key, o: Id) returns (ghost pick: map<Id, Id>, ghost edgeOrder: seq<Id>, ghost order: seq<Id>)
      requires Valid()
      modifies this
      ensures Valid()
      ensures SweepOrders(LogOf(old(View()), o), SweepCall.SyncFrontier(pick, edgeOrder, order))
      ensures View() == Write(old(View()), key, o,
                              DecideSweep(LogOf(old(View()), o), SweepCall.SyncFrontier(pick, edgeOrder, order)))
    {
      ValidReplays(View());
      ValidTasksAndEdges(View(), o);
      var lanes := LanesOf(o);
      var log := LogOf(View(), o);
      var byTask := LanesByTask(lanes);
      var resolved := AcceptedTasks(lanes, byTask);
      var edges, listed := ActiveEdges(log);
      var tasks := TaskNodes(log);
      var frontier, blocked := Frontier(tasks, edges, resolved);
      var batch, taken := SyncLanes(lanes, byTask, frontier, blocked, TaskIds(log), edges, tasks, resolved);
      pick, edgeOrder, order := byTask, listed, taken;
      if key in audit {
        return;
      }
      CallKeepsInv(View(), key, o, Sweep(SweepCall.SyncFrontier(pick, edgeOrder, order)), Ok(batch));
      Commit(key, o, Ok(batch));
    }

    /** AddDependencyEdge: known ends, no unsafe crossing, and a search for the way back before the insert. */
    method AddEdgeBody(o: Id, edge: Id, from: Id, to: Id, edgeType: EdgeType, origin: EdgeOrigin)
      returns (d: Result<seq<Event>>)
      requires forall id :: TaskOf(id, LogOf(View(), o)) != Err(Corrupt) && EdgeOf(id, LogOf(View(), o)) != Err(Corrupt)
      ensures d == AddEdgeDecision(LogOf(View(), o), edge, from, to, edgeType, origin)
    {
      if from == to {
        return Err(Cycle);
      }
      var log := LogOf(View(), o);
      if from !in TaskIds(log) || to !in TaskIds(log) {
        return Err(NotFound);
      }
      var f := ReduceParentTask(from, log);
      var t := ReduceParentTask(to, log);
      if f.Err? {
        return Err(f.error);
      }
      if t.Err? {
        return Err(t.error);
      }
      if CrossesUnsafely(f.value, t.value, origin) {
        return Err(UnsafeCrossProjectEdge);
      }
      var edges := AllEdges(log);
      var closes := Reachable(edges, to, from);
      if closes {
        return Err(Cycle);
      }
      return Ok([Event(Some(edge), EdgeAdded(from, to, edgeType, origin))]);
    }

    method AddDependencyEdge(key: Key, o: Id, edge: Id, from: Id, to: Id, edgeType: EdgeType, origin: EdgeOrigin)
      returns (r: Result<Reduce.Edge>)
      requires Valid()
      modifies this
      ensures edge !in LaneIds(LogOf(old(View()), o)) ==> Valid()
      ensures var d := AddEdgeDecision(LogOf(old(View()), o), edge, from, to, edgeType, origin);
              && View() == Write(old(View()), key, o, d)
              && (key !in old(audit) && d.Err? ==> r == Err(d.error))
              && (from != to && (key in old(audit) || d.Ok?) ==> r == EdgeOf(edge, LogOf(View(), o)))
    {
      if from == to {
        return Err(Cycle);
      }
      if key !in audit {
        ValidTasksAndEdges(View(), o);
        var d := AddEdgeBody(o, edge, from, to, edgeType, origin);
        if edge !in LaneIds(LogOf(View(), o)) {
          CallKeepsInv(View(), key, o, Call.Edge(AddEdge(edge, from, to, edgeType, origin)), d);
        }
        Commit(key, o, d);
        if d.Err? {
          return Err(d.error);
        }
      }
      r := ReduceDependencyEdge(edge, LogOf(View(), o));
    }

    method RemoveEdgeBody(o: Id, edge: Id, evidence: string) returns (d: Result<seq<Event>>)
      ensures d == RemoveEdgeDecision(LogOf(View(), o), edge, evidence)
    {
      var e := ReduceDependencyEdge(edge, LogOf(View(), o));
      if e.Err? {
        return Err(e.error);
      }
      if !e.value.active {
        return Err(InvalidState);
      }
      var from := ReduceParentTask(e.value.from, LogOf(View(), o));
      if from.Err? {
        return Err(from.error);
      }
      if from.value.routed && evidence == "" {
        return Err(EvidenceRequired);
      }
      return Ok([Event(Some(edge), EdgeRemoved(evidence))]);
    }

    method RemoveDependencyEdge(key: Key, o: Id, edge: Id, evidence: string) returns (r: Result<Reduce.Edge>)
      requires Valid()
      modifies this
      ensures edge !in LaneIds(LogOf(old(View()), o)) ==> Valid()
      ensures var d := RemoveEdgeDecision(LogOf(old(View()), o), edge, evidence);
              && View() == Write(old(View()), key, o, d)
              && r == if key !in old(audit) && d.Err? then Err(d.error) else EdgeOf(edge, LogOf(View(), o))
    {
      if key !in audit {
        var d := RemoveEdgeBody(o, edge, evidence);
        if edge !in LaneIds(LogOf(View(), o)) {
          CallKeepsInv(View(), key, o, Call.Edge(RemoveEdge(edge, evidence)), d);
        }
        Commit(key, o, d);
        if d.Err? {
          return Err(d.error);
        }
      }
      r := ReduceDependencyEdge(edge, LogOf(View(), o));
    }

    // -------------------------------------------------------------- repair and publication

    /** The guards StartRepairCycle reads before its transaction, and whether the budget is used up. */
    method RepairGuards(lane: Id, reason: string, rev: int, seen: seq<Event>) returns (r: Result<bool>)
      ensures r.Err? ==> forall log :: RepairDecision(log, lane, reason, rev, seen) == Err(r.error)
      ensures r.Ok? ==>
                && LaneOf(lane, seen).Ok? && r.value == (Repairs(LaneOf(lane, seen).value) >= MAX_REPAIR_CYCLES)
                && forall log :: RepairDecision(log, lane, reason, rev, seen) == RepairStep(log, lane, reason, rev, r.value)
    {
      if reason == "" {
        return Err(BadRequest);
      }
      var first := ReduceLane(lane, seen);
      if first.Err? {
        return Err(first.error);
      }
      if first.value.revision != rev {
        return Err(RevisionConflict);
      }
      if first.value.status != Review && first.value.status != Running {
        return Err(LaneNotRunnable);
      }
      var cycles := 0;
      if first.value.repairs.Some? {
        cycles := first.value.repairs.value;
      }
      return Ok(cycles >= MAX_REPAIR_CYCLES);
    }

    /** StartRepairCycle; `seen` is the log its first read found, before the transaction. An exhausted lane is escalated, and
        the caller is told so even when that succeeded. */
    method StartRepairCycle(key: Key, o: Id, lane: Id, reason: string, rev: int, seen: seq<Event>)
      returns (r: Result<Lane>)
      requires Valid() && seen <= LogOf(View(), o)
      modifies this
      ensures Valid()
      ensures var d := RepairDecision(LogOf(old(View()), o), lane, reason, rev, seen);
              && View() == Write(old(View()), key, o, d)
              && (key !in old(audit) && d.Err? ==> r == Err(d.error))
              && (key !in old(audit) && d.Ok? ==>
                    r == if Repairs(LaneOf(lane, seen).value) >= MAX_REPAIR_CYCLES then Err(RepairCyclesExhausted)
                         else LaneOf(lane, LogOf(View(), o)))
    {
      var exhausted := RepairGuards(lane, reason, rev, seen);
      if exhausted.Err? {
        return Err(exhausted.error);
      }
      if key !in audit {
        var current := RecheckLane(o, lane, rev);
        var b := if exhausted.value then LaneEscalated(reason) else RepairCycleStarted(reason);
        var d := if current.Err? then Err(current.error) else Ok([Event(Some(lane), b)]);
        CallKeepsInv(View(), key, o, Snapshot(Repair(lane, reason, rev, seen)), d);
        Commit(key, o, d);
        if d.Err? {
          return Err(d.error);
        }
      }
      if exhausted.value {
        return Err(RepairCyclesExhausted);
      }
      r := GetLane(o, lane);
    }

    /** The guards PublishPullRequest reads before it calls the provider: the reply they already settle, if any. */
    method PublishGuards(lane: Id, token: Token, rev: int, seen: seq<Event>) returns (early: Option<Result<Lane>>)
      ensures early.None? ==> !Published(seen, lane, rev)
      ensures early.None? ==>
                forall log, number, url ::
                  PublishDecision(log, lane, token, rev, number, url, seen) == PublishStep(log, lane, rev, number, url)
      ensures early.Some? ==>
                forall log, number, url ::
                  var d := PublishDecision(log, lane, token, rev, number, url, seen);
                  d.Err? && early.value == if Published(seen, lane, rev) then LaneOf(lane, seen) else Err(d.error)
    {
      var first := ReduceLane(lane, seen);
      if first.Err? {
        return Some(first);
      }
      if first.value.revision != rev {
        return Some(Err(RevisionConflict));
      }
      if first.value.pr.Some? {
        return Some(first);
      }
      if first.value.token != Some(token) {
        return Some(Err(LeaseTokenMismatch));
      }
      if first.value.status != Leased && first.value.status != Running {
        return Some(Err(LaneNotRunnable));
      }
      return None;
    }

    method PublishBody(o: Id, lane: Id, rev: int, number: nat, url: string) returns (d: Result<seq<Event>>)
      ensures d == PublishStep(LogOf(View(), o), lane, rev, number, url)
    {
      var current := RecheckLane(o, lane, rev);
      if current.Err? {
        return Err(current.error);
      }
      if current.value.pr.Some? {
        return Ok([]);
      }
      return Ok([Event(Some(lane), PrPublished(number, url))]);
    }

    /** PublishPullRequest; `number` and `url` are what the provider returned between the two reads. */
    method PublishPullRequest(key: Key, o: Id, lane: Id, token: Token, rev: int, number: nat, url: string,
                              seen: seq<Event>)
      returns (r: Result<Lane>)
      requires Valid() && seen <= LogOf(View(), o)
      modifies this
      ensures Valid()
      ensures var d := PublishDecision(LogOf(old(View()), o), lane, token, rev, number, url, seen);
              && View() == Write(old(View()), key, o, d)
              && (key !in old(audit) ==>
                    r == if Published(seen, lane, rev) then LaneOf(lane, seen)
                         else if d.Err? then Err(d.error) else LaneOf(lane, LogOf(View(), o)))
    {
      var early := PublishGuards(lane, token, rev, seen);
      ghost var decided := PublishDecision(LogOf(View(), o), lane, token, rev, number, url, seen);
      if early.Some? {
        assert decided.Err?;
        return early.value;
      }
      if key in audit {
        r := GetLane(o, lane);
        return;
      }
      var d := PublishBody(o, lane, rev, number, url);
      assert d == decided;
      PublishKeepsInv(View(), key, o, lane, token, rev, number, url, seen, d);
      r := CommitLane(key, o, lane, d);
    }

    // -------------------------------------------------------------- evidence and statuses

    method NoteBody(o: Id, lane: Id, rev: int, b: Body) returns (d: Result<seq<Event>>)
      ensures d == Note(LogOf(View(), o), lane, rev, b)
    {
      var found := RecheckLane(o, lane, rev);
      if found.Err? {
        return Err(found.error);
      }
      if IsLaneTerminal(found.value.status) {
        return Err(LaneTerminal);
      }
      return Ok([Event(Some(lane), b)]);
    }

    method RecordVerificationDimension(key: Key, o: Id, lane: Id, name: Id, outcome: CheckStatus, rev: int)
      returns (r: Result<Lane>)
      requires Valid()
      modifies this
      ensures Valid()
      ensures var d := Note(LogOf(old(View()), o), lane, rev, VerificationRecorded(name, outcome));
              View() == Write(old(View()), key, o, d) && r == Reply(old(View()), key, o, lane, d)
    {
      if key in audit {
        r := GetLane(o, lane);
        return;
      }
      var d := NoteBody(o, lane, rev, VerificationRecorded(name, outcome));
      CallKeepsInv(View(), key, o, Evidence(Verify(lane, name, outcome, rev)), d);
      r := CommitLane(key, o, lane, d);
    }

    /** RecordReviewConclusion: the independence check comes before the transaction, so a repeated call meets it again. The
        conclusion recorded last on the lane is returned. */
    method RecordReviewConclusion(key: Key, o: Id, lane: Id, conclusion: Conclusion, implementer: Id, rev: int)
      returns (r: Result<Conclusion>)
      requires Valid()
      modifies this
      ensures Valid()
      ensures Refused(conclusion, implementer).Some? ==> r == Err(Refused(conclusion, implementer).value) && View() == old(View())
      ensures Refused(conclusion, implementer).None? ==>
                var d := Note(LogOf(old(View()), o), lane, rev, ReviewConclusionRecorded(conclusion));
                && View() == Write(old(View()), key, o, d)
                && r == (if key in old(audit) then ConclusionOf(lane, LogOf(old(View()), o))
                         else if d.Err? then Err(d.error) else Ok(conclusion))
    {
      if conclusion.worker == "" {
        return Err(BadRequest);
      }
      if conclusion.session == "" {
        return Err(BadRequest);
      }
      if conclusion.session == implementer && conclusion.overrideReason == "" {
        return Err(IndependenceRequired);
      }
      if key in audit {
        r := LatestReview(lane, LogOf(View(), o));
        return;
      }
      ghost var was := View();
      var d := NoteBody(o, lane, rev, ReviewConclusionRecorded(conclusion));
      CallKeepsInv(View(), key, o, Evidence(Conclude(lane, conclusion, implementer, rev)), d);
      Commit(key, o, d);
      if d.Err? {
        return Err(d.error);
      }
      JustConcluded(was, View(), key, o, lane, rev, conclusion);
      r := LatestReview(lane, LogOf(View(), o));
    }

    method UpdateLaneStatusTx(key: Key, o: Id, lane: Id, rev: int, status: LaneStatus) returns (r: Result<Lane>)
      modifies this
      ensures var d := DecideEvidence(LogOf(old(View()), o), UpdateStatus(lane, rev, status));
              View() == Write(old(View()), key, o, d) && r == Reply(old(View()), key, o, lane, d)
    {
      if key in audit {
        r := GetLane(o, lane);
        return;
      }
      var found := RecheckLane(o, lane, rev);
      var d := if found.Err? then Err(found.error) else Ok([Event(Some(lane), LaneStatusChanged(status))]);
      r := CommitLane(key, o, lane, d);
    }

    /** UpdateLaneStatus: only the revision is checked. Its one use sets a terminal status, which keeps the store valid. */
    method UpdateLaneStatus(key: Key, o: Id, lane: Id, rev: int, status: LaneStatus) returns (r: Result<Lane>)
      requires Valid()
      modifies this
      ensures IsLaneTerminal(status) ==> Valid()
      ensures var d := DecideEvidence(LogOf(old(View()), o), UpdateStatus(lane, rev, status));
              View() == Write(old(View()), key, o, d) && r == Reply(old(View()), key, o, lane, d)
    {
      if IsLaneTerminal(status) {
        StatusKeepsInv(View(), key, o, lane, rev, status);
      }
      r := UpdateLaneStatusTx(key, o, lane, rev, status);
    }

    // -------------------------------------------------------------- lanes and projects

    method CreateLaneBody(o: Id, lane: Id, project: Id, task: Id, createdAt: Time) returns (d: Result<seq<Event>>)
      ensures d == CreateLaneDecision(View(), o, lane, project, task, createdAt)
    {
      var orch := ReduceOrchestration(LogOf(View(), o));
      if orch.Err? {
        return Err(orch.error);
      }
      if IsTerminal(orch.value.status) {
        return Err(InvalidState);
      }
      if task != "" {
        var t := ReduceParentTask(task, LogOf(View(), o));
        if t.Err? {
          return Err(t.error);
        }
        if t.value.project.Some? && t.value.project.value != project {
          return Err(ScopeMismatch);
        }
      }
      if project !in projects {
        return Err(NotFound);
      }
      if !projects[project] {
        return Err(ProjectInactive);
      }
      return Ok([Event(Some(lane), LaneCreated(project, task, createdAt))]);
    }

    method CreateLaneTx(key: Key, o: Id, lane: Id, project: Id, task: Id, createdAt: Time) returns (r: Result<Lane>)
      modifies this
      ensures var d := CreateLaneDecision(old(View()), o, lane, project, task, createdAt);
              View() == Write(old(View()), key, o, d) && r == Reply(old(View()), key, o, lane, d)
    {
      if key in audit {
        r := GetLane(o, lane);
        return;
      }
      var d := CreateLaneBody(o, lane, project, task, createdAt);
      r := CommitLane(key, o, lane, d);
    }

    /** CreateLaneWithOptions: no check of the id is made. */
    method CreateLane(key: Key, o: Id, lane: Id, project: Id, task: Id, createdAt: Time) returns (r: Result<Lane>)
      requires Valid()
      modifies this
      ensures Disciplined(old(View()), o, Call.CreateLane(lane, project, task, createdAt)) ==> Valid()
      ensures var d := CreateLaneDecision(old(View()), o, lane, project, task, createdAt);
              View() == Write(old(View()), key, o, d) && r == Reply(old(View()), key, o, lane, d)
    {
      if Disciplined(View(), o, Call.CreateLane(lane, project, task, createdAt)) {
        CreationKeepsInv(View(), key, o, lane, project, task, createdAt);
      }
      r := CreateLaneTx(key, o, lane, project, task, createdAt);
    }

    method OpenOrchestration(o: Id, rev: int) returns (r: Result<Orchestration>)
      ensures r == OpenOrchAt(LogOf(View(), o), rev)
    {
      r := ReduceOrchestration(LogOf(View(), o));
      if r.Err? {
        return;
      }
      if r.value.revision != rev {
        return Err(RevisionConflict);
      }
      if IsTerminal(r.value.status) {
        return Err(InvalidState);
      }
    }

    /** DetachProject's body: refused while a lane of the project is short of a terminal status. */
    method DetachBody(o: Id, rev: int, project: Id) returns (d: Result<seq<Event>>)
      requires Replays()
      ensures d == DetachDecision(LogOf(View(), o), rev, project)
    {
      if project == "" {
        return Err(BadRequest);
      }
      var orch := OpenOrchestration(o, rev);
      if orch.Err? {
        return Err(orch.error);
      }
      var lanes := LanesOf(o);
      if project !in orch.value.projects {
        return Err(NotFound);
      }
      var busy := HasOpenLane(LogOf(View(), o), lanes, project);
      if busy {
        return Err(ProjectHasActiveLanes);
      }
      return Ok([Event(None, ProjectDetached(project))]);
    }

    method AttachBody(o: Id, rev: int, project: Id) returns (d: Result<seq<Event>>)
      ensures d == DecideOrch(View(), o, Attach(rev, project))
    {
      if project == "" {
        return Err(BadRequest);
      }
      var orch := OpenOrchestration(o, rev);
      if orch.Err? {
        return Err(orch.error);
      }
      if project in orch.value.projects {
        return Ok([]);
      }
      if project !in projects {
        return Err(NotFound);
      }
      if !projects[project] {
        return Err(ProjectInactive);
      }
      return Ok([Event(None, ProjectAttached(project))]);
    }

    /** AttachProject and DetachProject. */
    method ChangeProject(key: Key, o: Id, rev: int, project: Id, attach: bool) returns (r: Result<Orchestration>)
      requires Valid()
      modifies this
      ensures Valid()
      ensures var d := DecideOrch(old(View()), o, if attach then Attach(rev, project) else Detach(rev, project));
              && View() == Write(old(View()), key, o, d)
              && (project != "" ==>
                    r == if key !in old(audit) && d.Err? then Err(d.error) else OrchOf(LogOf(View(), o)))
    {
      if project == "" {
        return Err(BadRequest);
      }
      if key !in audit {
        ValidReplays(View());
        var d;
        if attach {
          d := AttachBody(o, rev, project);
        } else {
          d := DetachBody(o, rev, project);
        }
        CallKeepsInv(View(), key, o, Orch(if attach then Attach(rev, project) else Detach(rev, project)), d);
        Commit(key, o, d);
        if d.Err? {
          return Err(d.error);
        }
      }
      r := ReduceOrchestration(LogOf(View(), o));
    }

    /** appendOrchestrationEvent: details, registered and resolved inputs. */
    method AppendOrchestrationEvent(key: Key, o: Id, rev: int, change: Body) returns (r: Result<Orchestration>)
      requires Valid() && (change.DetailsUpdated? || change.InputRegistered? || change.InputResolved?)
      modifies this
      ensures Valid()
      ensures var d := DecideOrch(old(View()), o, Change(rev, change));
              && View() == Write(old(View()), key, o, d)
              && r == if key !in old(audit) && d.Err? then Err(d.error) else OrchOf(LogOf(View(), o))
    {
      if key !in audit {
        var orch := OpenOrchestration(o, rev);
        var d := if orch.Err? then Err(orch.error) else Ok([Event(None, change)]);
        CallKeepsInv(View(), key, o, Orch(Change(rev, change)), d);
        Commit(key, o, d);
        if d.Err? {
          return Err(d.error);
        }
      }
      r := ReduceOrchestration(LogOf(View(), o));
    }

    // -------------------------------------------------------------- completing a lane's work

    // The durable writes of CompleteLaneWork, each with the lane's revision as the one before left it.

    method TakeTheLease(r: Request, s: Stage, ghost token: Token, expiresAt: Time) returns (e: Option<Error>)
      requires Valid() && s.TakeLease?
      modifies this
      ensures Valid() && Did(old(View()), View(), e, r, s, token, expiresAt)
    {
      ghost var was := View();
      var found := GetLane(r.orch, r.lane);
      if found.Err? {
        NoLaneNoWrite(was, r, s, token, expiresAt, found.error);
        return Some(found.error);
      }
      LeaseDecides(was, r, s, found.value, token, expiresAt);
      var reply := GrantLease(KeyOf(r, s), r.orch, r.lane, found.value.revision, r.worker, expiresAt);
      e := if reply.Err? then Some(reply.error) else None;
      LogReplays(View(), r.orch);
      WriteIsExec(was, View(), r, s, token, expiresAt, reply);
    }

    method RecordOne(r: Request, s: Stage, ghost token: Token, ghost expiresAt: Time) returns (e: Option<Error>)
      requires Valid() && s.Record?
      modifies this
      ensures Valid() && Did(old(View()), View(), e, r, s, token, expiresAt)
    {
      ghost var was := View();
      var found := GetLane(r.orch, r.lane);
      if found.Err? {
        NoLaneNoWrite(was, r, s, token, expiresAt, found.error);
        return Some(found.error);
      }
      RecordDecides(was, r, s, found.value, token, expiresAt);
      var reply := RecordVerificationDimension(KeyOf(r, s), r.orch, r.lane, s.v.name, s.v.status, found.value.revision);
      e := if reply.Err? then Some(reply.error) else None;
      LogReplays(View(), r.orch);
      WriteIsExec(was, View(), r, s, token, expiresAt, reply);
    }

    method FinishLease(r: Request, s: Stage, token: Token, ghost expiresAt: Time) returns (e: Option<Error>)
      requires Valid() && s.Finish?
      modifies this
      ensures Valid() && Did(old(View()), View(), e, r, s, token, expiresAt)
    {
      ghost var was := View();
      var found := GetLane(r.orch, r.lane);
      if found.Err? {
        NoLaneNoWrite(was, r, s, token, expiresAt, found.error);
        return Some(found.error);
      }
      var reply := CompleteLease(KeyOf(r, s), r.orch, r.lane, token, found.value.revision, r.workLogged);
      e := if reply.Err? then Some(reply.error) else None;
      LogReplays(View(), r.orch);
      WriteIsExec(was, View(), r, s, token, expiresAt, reply);
    }

    method ConcludeReview(r: Request, s: Stage, ghost token: Token, ghost expiresAt: Time) returns (e: Option<Error>)
      requires Valid() && s.Judge?
      modifies this
      ensures Valid() && Did(old(View()), View(), e, r, s, token, expiresAt)
    {
      ghost var was := View();
      var found := GetLane(r.orch, r.lane);
      if found.Err? {
        NoLaneNoWrite(was, r, s, token, expiresAt, found.error);
        return Some(found.error);
      }
      var reply := RecordReviewConclusion(KeyOf(r, s), r.orch, r.lane, Verdict(r), r.session, found.value.revision);
      e := if reply.Err? then Some(reply.error) else None;
      JudgeIsExec(was, View(), r, s, token, expiresAt, reply);
    }

    method SettleLane(r: Request, s: Stage, ghost token: Token, ghost expiresAt: Time) returns (e: Option<Error>)
      requires Valid() && s.Settle? && IsLaneTerminal(r.outcome)
      modifies this
      ensures Valid() && Did(old(View()), View(), e, r, s, token, expiresAt)
    {
      ghost var was := View();
      var found := GetLane(r.orch, r.lane);
      if found.Err? {
        NoLaneNoWrite(was, r, s, token, expiresAt, found.error);
        return Some(found.error);
      }
      SettleDecides(was, r, s, found.value, token, expiresAt);
      var reply := UpdateLaneStatus(KeyOf(r, s), r.orch, r.lane, found.value.revision, r.outcome);
      e := if reply.Err? then Some(reply.error) else None;
      LogReplays(View(), r.orch);
      WriteIsExec(was, View(), r, s, token, expiresAt, reply);
    }

    /** The recordings, one key each. */
    method RecordAll(r: Request, token: Token, ghost expiresAt: Time, ghost stages: seq<Stage>, ghost limit: nat,
                     ghost n: nat)
      returns (e: Option<Error>)
      requires Valid() && stages == Stages(r, false) && n == |r.verifications| < limit
      modifies this
      ensures Valid()
      ensures if e.Some? then Fails(Executor(r, token, expiresAt), old(View()), stages, limit, View(), e.value)
              else Reaches(Executor(r, token, expiresAt), old(View()), stages, limit, n, View())
    {
      e := None;
      ghost var was, exec := View(), Executor(r, token, expiresAt);
      var i := 0;
      ReachesStart(exec, was, stages, limit, i);
      while i < |r.verifications|
        invariant 0 <= i <= |r.verifications| && e.None? && Valid() && Reaches(exec, was, stages, limit, i, View())
      {
        ghost var before := View();
        var s := Record(r.verifications[i]);
        assert stages[i] == s;
        e := RecordOne(r, s, token, expiresAt);
        StageDone(was, before, View(), r, stages, token, expiresAt, limit, i, i + 1, e);
        if e.Some? {
          return;
        }
        i := i + 1;
      }
    }

    /** The three closing writes. */
    method CloseLane(r: Request, token: Token, ghost expiresAt: Time, ghost was: State, ghost stages: seq<Stage>,
                     ghost limit: nat, ghost n: nat)
      returns (e: Option<Error>)
      requires Valid() && stages == Stages(r, false) && n == |r.verifications| && limit >= |stages| && IsLaneTerminal(r.outcome)
      requires Reaches(Executor(r, token, expiresAt), was, stages, limit, n, View())
      modifies this
      ensures Valid()
      ensures if e.Some? then Fails(Executor(r, token, expiresAt), was, stages, limit, View(), e.value)
              else Reaches(Executor(r, token, expiresAt), was, stages, limit, n + 3, View())
    {
      ClosingStages(r, stages, n);
      ghost var first := View();
      e := FinishLease(r, Finish, token, expiresAt);
      StageDone(was, first, View(), r, stages, token, expiresAt, limit, n, n + 1, e);
      if e.Some? {
        return;
      }
      ghost var second := View();
      e := ConcludeReview(r, Judge, token, expiresAt);
      StageDone(was, second, View(), r, stages, token, expiresAt, limit, n + 1, n + 2, e);
      if e.Some? {
        return;
      }
      ghost var third := View();
      e := SettleLane(r, Settle, token, expiresAt);
      StageDone(was, third, View(), r, stages, token, expiresAt, limit, n + 2, n + 3, e);
    }

    /** Everything after the lease. */
    method WorkThrough(r: Request, token: Token, ghost expiresAt: Time, ghost limit: nat) returns (e: Option<Error>)
      requires Valid() && IsLaneTerminal(r.outcome) && limit >= |Stages(r, false)|
      modifies this
      ensures Valid()
      ensures Ran(Go(Executor(r, token, expiresAt), old(View()), Stages(r, false), limit), View(), e)
    {
      ghost var was, stages, n := View(), Stages(r, false), |r.verifications|;
      e := RecordAll(r, token, expiresAt, stages, limit, n);
      if e.None? {
        e := CloseLane(r, token, expiresAt, was, stages, limit, n);
        if e.None? {
          ReachesEnd(Executor(r, token, expiresAt), was, stages, limit, n + 3, View());
        }
      }
    }

    /** CompleteLaneWork, not cut off: it makes exactly the writes of one attempt. `minted` is the id that keys a request
        without a key of its own. */
    method CompleteLaneWork(req: Request, rev: int, expiresAt: Time, minted: Key) returns (reply: Result<Lane>)
      requires Valid()
      modifies this
      ensures Valid()
      ensures !Admissible(req) ==> reply == Err(BadRequest) && View() == old(View())
      ensures Admissible(req) ==> IsAttempt(old(View()), View(), Keyed(req, minted), rev, expiresAt, reply)
    {
      var admissible := Validate(req);
      if !admissible {
        return Err(BadRequest);
      }
      var r := Derive(req, minted);
      reply := CompleteKeyed(r, rev, expiresAt);
    }

    method CompleteKeyed(r: Request, rev: int, expiresAt: Time) returns (reply: Result<Lane>)
      requires Valid() && IsLaneTerminal(r.outcome)
      modifies this
      ensures Valid()
      ensures IsAttempt(old(View()), View(), r, rev, expiresAt, reply)
    {
      var e := AttemptWork(r, rev, expiresAt);
      if e.Some? {
        return Err(e.value);
      }
      reply := GetLane(r.orch, r.lane);
    }

    method AttemptWork(r: Request, rev: int, expiresAt: Time) returns (e: Option<Error>)
      requires Valid() && IsLaneTerminal(r.outcome)
      modifies this
      ensures Valid()
      ensures Ran(Attempt(old(View()), r, rev, expiresAt, |r.verifications| + 4), View(), e)
    {
      ghost var was, rest := View(), |r.verifications| + 3;
      var found := GetLane(r.orch, r.lane);
      if found.Err? {
        return Some(found.error);
      }
      if found.value.revision != rev {
        return Some(RevisionConflict);
      }
      if IsLaneTerminal(found.value.status) {
        return Some(LaneTerminal);
      }
      var lane := found.value;
      if lane.status == Runnable {
        e := TakeTheLease(r, TakeLease, 0, expiresAt);
        if e.Some? {
          return;
        }
        var leased := GetLane(r.orch, r.lane);
        if leased.Err? {
          return Some(leased.error);
        }
        lane := leased.value;
      }
      if lane.token.None? {
        return Some(LaneNotRunnable);
      }
      e := WorkThrough(r, lane.token.value, expiresAt, if found.value.status == Runnable then rest else rest + 1);
    }

    // -------------------------------------------------------------- lifetimes

    /** CreateOrchestration. */
    method CreateOrchestration(key: Key, o: Id, inputs: seq<Id>, workflow: Id)
      requires Valid()
      modifies this
      ensures Valid() && View() == GlobalApply(old(View()), key, NewOrchestration(o, inputs, workflow))
    {
      GlobalApplyKeepsInv(View(), key, NewOrchestration(o, inputs, workflow));
      if key !in audit && o !in logs {
        logs := logs[o := [Event(None, OrchestrationCreated(inputs, workflow))]];
        audit := audit + {key};
      }
    }

    /** What follows the lookups of StartOrResolveExecution: adopt the active case, look at its last execution, and open the
        next one when there is none left to resume. The new rows are kept aside until nothing can fail any more. */
    method ResolveRows(issue: Id, tenant: Id, start: Start, active: Option<Id>, last: Option<Id>)
      returns (e: Option<Error>, started: bool)
      requires active.Some? ==> active.value in cases && last.Some? && last.value in executions
      requires start.orchId !in logs
      modifies this
      ensures started <==> start.orchId in logs
      ensures Stepped(old(View()), View(), e, StartJiraStep(old(View()), issue, tenant, start, active, last))
    {
      var caseId, ordinal := start.caseId, 1;
      var newCases, newExecutions := cases, executions;
      if active.None? {
        newCases := cases[caseId := Case(true, issue, tenant, true, start.now)];
      } else {
        caseId := active.value;
        if tenant != "" && cases[caseId].tenant != tenant {
          newCases := cases[caseId := cases[caseId].(tenant := tenant)];
        }
        SameCase(cases, caseId, tenant, newCases);
        var orch := ReduceOrchestration(LogOf(View(), executions[last.value].orch));
        if orch.Err? {
          return Some(orch.error), false;
        }
        if !IsTerminal(orch.value.status) {
          cases := newCases;
          return None, false;
        }
        newExecutions := executions[last.value := executions[last.value].(status := ClosedBy(orch.value.status))];
        ordinal := executions[last.value].ordinal + 1;
      }
      cases := newCases;
      logs := logs[start.orchId := FirstEvents(start, true, issue)];
      executions := newExecutions[start.executionId := Execution(caseId, start.orchId, ordinal, ExecutionActive, None)];
      return None, true;
    }

    /** The transaction of StartOrResolveExecution for an issue. */
    method ResolveTx(key: Key, issue: Id, tenant: Id, start: Start)
      returns (e: Option<Error>, created: bool, started: bool, ghost found: Option<Id>, ghost last: Option<Id>)
      requires Valid() && FreshIds(View(), start)
      modifies this
      ensures Valid() && View() == GlobalApply(old(View()), key, StartJira(issue, tenant, start, found, last))
      ensures GlobalDisciplined(old(View()), StartJira(issue, tenant, start, found, last))
      ensures Answered(old(View()), key, e, StartJiraStep(old(View()), issue, tenant, start, found, last))
      ensures key in old(audit) ==> e.None?
      ensures (created <==> key !in old(audit) && found.None?) && (started <==> start.orchId in logs)
    {
      var active := FindActive(cases, issue, tenant);
      var lastOne := None;
      if active.Some? {
        lastOne := FindLast(executions, active.value);
        LastOfActive(View(), active.value, lastOne);
      }
      e, created, started, found, last := None, false, false, active, lastOne;
      ghost var was := View();
      GlobalApplyKeepsInv(was, key, StartJira(issue, tenant, start, active, lastOne));
      if key in audit {
        return;
      }
      created := active.None?;
      e, started := ResolveRows(issue, tenant, start, active, lastOne);
      ghost var mid := View();
      if e.None? {
        audit := audit + {key};
      }
      Applied(was, mid, View(), key, e, StartJira(issue, tenant, start, active, lastOne));
    }

    /** StartOrResolveExecution for an issue: after the transaction the issue's case and its last execution are looked up and
        handed back. */
    method StartOrResolveJira(key: Key, issue: Id, tenant: Id, start: Start)
      returns (r: Result<Resolved>, ghost found: Option<Id>, ghost last: Option<Id>)
      requires Valid() && FreshIds(View(), start)
      modifies this
      ensures Valid() && View() == GlobalApply(old(View()), key, StartJira(issue, tenant, start, found, last))
      ensures GlobalDisciplined(old(View()), StartJira(issue, tenant, start, found, last))
      ensures var step := StartJiraStep(old(View()), issue, tenant, start, found, last);
              if key !in old(audit) && step.Err? then r == Err(step.error)
              else if r.Err? then r.error == NotFound && Found(cases, issue, tenant, None)
              else
                && Found(cases, issue, tenant, Some(r.value.caseId)) && IsLast(executions, r.value.caseId, r.value.executionId)
                && (r.value.createdCase <==> key !in old(audit) && found.None?)
                && (r.value.createdExecution <==> start.orchId in logs)
    {
      var e, created, started;
      e, created, started, found, last := ResolveTx(key, issue, tenant, start);
      if e.Some? {
        return Err(e.value), found, last;
      }
      var active := FindActive(cases, issue, tenant);
      if active.None? {
        return Err(NotFound), found, last;
      }
      var execution := FindLast(executions, active.value);
      LastOfActive(View(), active.value, execution);
      r := Ok(Resolved(active.value, execution.value, created, started));
    }

    method AdhocRows(start: Start)
      modifies this
      ensures GlobalStep(old(View()), StartAdhoc(start)) == Ok(View())
    {
      cases := cases[start.caseId := Case(false, "", "", true, start.now)];
      logs := logs[start.orchId := FirstEvents(start, false, "")];
      executions := executions[start.executionId := Execution(start.caseId, start.orchId, 1, ExecutionActive, None)];
    }

    /** StartOrResolveExecution for an ad-hoc source: always a new case. */
    method StartAdhocExecution(key: Key, start: Start)
      requires Valid() && FreshIds(View(), start)
      modifies this
      ensures Valid() && View() == GlobalApply(old(View()), key, StartAdhoc(start))
    {
      GlobalApplyKeepsInv(View(), key, StartAdhoc(start));
      if key !in audit {
        AdhocRows(start);
        audit := audit + {key};
      }
    }

    method CancelRows(o: Id, rev: int) returns (e: Option<Error>)
      requires RowsOk(cases, executions)
      modifies this
      ensures Stepped(old(View()), View(), e, CancelStep(old(View()), o, rev))
    {
      var orch := OpenOrchestration(o, rev);
      if orch.Err? {
        return Some(orch.error);
      }
      var execution := FindByOrchestration(executions, o);
      CancelsOne(cases, executions, o, execution);
      logs := logs[o := LogOf(View(), o) + [Event(None, OrchestrationCancelled)]];
      if execution.Some? {
        var c := executions[execution.value].caseId;
        cases := cases[c := cases[c].(active := false)];
      }
      return None;
    }

    method CancelOrchestrationTx(key: Key, o: Id, rev: int) returns (e: Option<Error>)
      requires RowsOk(cases, executions)
      modifies this
      ensures View() == GlobalApply(old(View()), key, Cancel(o, rev))
      ensures Answered(old(View()), key, e, CancelStep(old(View()), o, rev))
    {
      ghost var was, call := View(), Cancel(o, rev);
      if key in audit {
        return None;
      }
      e := CancelRows(o, rev);
      ghost var mid := View();
      if e.None? {
        audit := audit + {key};
      }
      Applied(was, mid, View(), key, e, call);
    }

    /** CancelOrchestration: the event, then the case of the orchestration's execution. */
    method CancelOrchestration(key: Key, o: Id, rev: int) returns (e: Option<Error>)
      requires Valid()
      modifies this
      ensures Valid() && View() == GlobalApply(old(View()), key, Cancel(o, rev))
      ensures Answered(old(View()), key, e, CancelStep(old(View()), o, rev))
    {
      GlobalApplyKeepsInv(View(), key, Cancel(o, rev));
      ValidRows(View());
      e := CancelOrchestrationTx(key, o, rev);
    }

    method CompleteRows(o: Id, rev: int) returns (e: Option<Error>)
      requires RowsOk(cases, executions)
      modifies this
      ensures Stepped(old(View()), View(), e, CompleteStep(old(View()), o, rev))
    {
      var orch := OpenOrchestration(o, rev);
      if orch.Err? {
        return Some(orch.error);
      }
      var execution := FindByOrchestration(executions, o);
      if execution.None? {
        return Some(NotFound);
      }
      var id := execution.value;
      var closed := CloseSessions(sessions, id);
      CompletesOne(executions, sessions, o, id, closed);
      sessions := closed;
      executions := executions[id := executions[id].(status := ExecutionCompleted)];
      logs := logs[o := LogOf(View(), o) + [Event(None, OrchestrationCompleted)]];
      return None;
    }

    method CompleteOrchestrationTx(key: Key, o: Id, rev: int) returns (e: Option<Error>)
      requires RowsOk(cases, executions)
      modifies this
      ensures View() == GlobalApply(old(View()), key, CompleteRun(o, rev))
      ensures Answered(old(View()), key, e, CompleteStep(old(View()), o, rev))
    {
      ghost var was, call := View(), CompleteRun(o, rev);
      if key in audit {
        return None;
      }
      e := CompleteRows(o, rev);
      ghost var mid := View();
      if e.None? {
        audit := audit + {key};
      }
      Applied(was, mid, View(), key, e, call);
    }

    /** CompleteOrchestration: the event, the execution, and every session still active on it. */
    method CompleteOrchestration(key: Key, o: Id, rev: int) returns (e: Option<Error>)
      requires Valid()
      modifies this
      ensures Valid() && View() == GlobalApply(old(View()), key, CompleteRun(o, rev))
      ensures Answered(old(View()), key, e, CompleteStep(old(View()), o, rev))
    {
      GlobalApplyKeepsInv(View(), key, CompleteRun(o, rev));
      ValidRows(View());
      e := CompleteOrchestrationTx(key, o, rev);
    }

    method SessionRows(execution: Id, session: Id, named: bool, participant: string, resumedFrom: Id)
      returns (e: Option<Error>)
      modifies this
      ensures Stepped(old(View()), View(), e, OpenSessionStep(old(View()), execution, session, named, participant, resumedFrom))
    {
      if participant == "" {
        return Some(BadRequest);
      }
      if execution !in executions {
        return Some(NotFound);
      }
      if executions[execution].status != ExecutionActive {
        return Some(InvalidState);
      }
      var busy := HasActiveSession(sessions, execution);
      if busy {
        return if !named && resumedFrom == "" then None else Some(InvalidState);
      }
      if resumedFrom != "" {
        if resumedFrom !in sessions || sessions[resumedFrom].execution != execution || sessions[resumedFrom].status == SessionActive {
          return Some(ScopeMismatch);
        }
      }
      if session in sessions {
        return Some(UniqueViolation);
      }
      sessions := sessions[session := Session(execution, resumedFrom, SessionActive)];
      executions := executions[execution := executions[execution].(session := Some(session))];
      return None;
    }

    method StartSessionTx(key: Key, execution: Id, session: Id, named: bool, participant: string, resumedFrom: Id)
      returns (e: Option<Error>)
      modifies this
      ensures View() == GlobalApply(old(View()), key, OpenSession(execution, session, named, participant, resumedFrom))
      ensures Answered(old(View()), key, e, OpenSessionStep(old(View()), execution, session, named, participant, resumedFrom))
    {
      ghost var was, call := View(), OpenSession(execution, session, named, participant, resumedFrom);
      if key in audit {
        return if participant == "" then Some(BadRequest) else None;
      }
      e := SessionRows(execution, session, named, participant, resumedFrom);
      ghost var mid := View();
      if e.None? {
        audit := audit + {key};
      }
      Applied(was, mid, View(), key, e, call);
    }

    /** StartSession. */
    method StartSession(key: Key, execution: Id, session: Id, named: bool, participant: string, resumedFrom: Id)
      returns (e: Option<Error>)
      requires Valid()
      modifies this
      ensures Valid() && View() == GlobalApply(old(View()), key, OpenSession(execution, session, named, participant, resumedFrom))
      ensures Answered(old(View()), key, e, OpenSessionStep(old(View()), execution, session, named, participant, resumedFrom))
    {
      GlobalApplyKeepsInv(View(), key, OpenSession(execution, session, named, participant, resumedFrom));
      e := StartSessionTx(key, execution, session, named, participant, resumedFrom);
    }

    /** The body of CheckpointSession. */
    method CheckpointRows(session: Id, input: CheckpointInput) returns (e: Option<Error>)
      requires TrimSpace(input.summary) != "" && Percentage(input.progress)
      modifies this
      ensures Stepped(old(View()), View(), e, CheckpointStep(old(View()), session, input))
    {
      if session !in sessions {
        return Some(NotFound);
      }
      if sessions[session].status != SessionActive {
        return Some(InvalidState);
      }
      if input.id in checkpoints {
        return Some(UniqueViolation);
      }
      var last := LargestSequence(checkpoints, session);
      var row := SessionCheckpoint(session, CaseOf(View(), sessions[session]), sessions[session].execution, last + 1,
                                   TrimSpace(input.summary), input.progress, TrimSpace(input.handoffTo));
      checkpoints := checkpoints[input.id := row];
      if row.handoffTo != "" {
        sessions := sessions[session := sessions[session].(status := SessionHandedOff)];
      }
      return None;
    }

    method CheckpointSessionTx(key: Key, session: Id, input: CheckpointInput) returns (e: Option<Error>)
      requires TrimSpace(input.summary) != "" && Percentage(input.progress)
      modifies this
      ensures View() == GlobalApply(old(View()), key, Checkpoint(session, input))
      ensures Answered(old(View()), key, e, CheckpointStep(old(View()), session, input))
      ensures key in old(audit) ==> e.None?
    {
      ghost var was, call := View(), Checkpoint(session, input);
      if key in audit {
        return None;
      }
      e := CheckpointRows(session, input);
      ghost var mid := View();
      if e.None? {
        audit := audit + {key};
      }
      Applied(was, mid, View(), key, e, call);
    }

    method GetCheckpoint(id: Id) returns (r: Result<SessionCheckpoint>)
      ensures r == if id in checkpoints then Ok(checkpoints[id]) else Err(NotFound)
    {
      return if id in checkpoints then Ok(checkpoints[id]) else Err(NotFound);
    }

    /** CheckpointSession: the next row of the session is returned, or the row of that id when the key was used; a recipient
        ends the session. A blank summary and a progress that is no percentage are refused before any key is looked at. */
    method CheckpointSession(key: Key, session: Id, input: CheckpointInput) returns (r: Result<SessionCheckpoint>)
      requires Valid()
      modifies this
      ensures Valid() && View() == GlobalApply(old(View()), key, Checkpoint(session, input))
      ensures TrimSpace(input.summary) == "" || !Percentage(input.progress) ==> r == Err(BadRequest) && View() == old(View())
      ensures TrimSpace(input.summary) != "" && Percentage(input.progress) ==>
                var step := CheckpointStep(old(View()), session, input);
                r == if key !in old(audit) && step.Err? then Err(step.error)
                     else if input.id in checkpoints then Ok(checkpoints[input.id]) else Err(NotFound)
    {
      GlobalApplyKeepsInv(View(), key, Checkpoint(session, input));
      if TrimSpace(input.summary) == "" {
        return Err(BadRequest);
      }
      if input.progress.Some? && (input.progress.value < 0.0 || input.progress.value > 100.0) {
        return Err(BadRequest);
      }
      var e := CheckpointSessionTx(key, session, input);
      if e.Some? {
        return Err(e.value);
      }
      r := GetCheckpoint(input.id);
    }
  }

  /** COALESCE(MAX(sequence), 0) over a session's checkpoints. */
  method LargestSequence(checkpoints: map<Id, SessionCheckpoint>, session: Id) returns (n: nat)
    ensures n == Largest(SequencesOf(checkpoints, session))
  {
    n := 0;
    var todo := checkpoints.Keys;
    while todo != {}
      invariant todo <= checkpoints.Keys
      invariant forall c :: c in checkpoints && c !in todo && checkpoints[c].session == session ==> checkpoints[c].sequence <= n
      invariant n > 0 ==> n in SequencesOf(checkpoints, session)
      decreases |todo|
    {
      var c :| c in todo;
      if checkpoints[c].session == session && checkpoints[c].sequence > n {
        n := checkpoints[c].sequence;
      }
      todo := todo - {c};
    }
    ghost var used := SequencesOf(checkpoints, session);
    assert forall x :: x in used ==> x <= n;
    assert used == {} || Largest(used) in used;
  }

  /** validate. */
  method Validate(req: Request) returns (admissible: bool)
    ensures admissible == Admissible(req)
  {
    if TrimSpace(req.orch) == "" || TrimSpace(req.lane) == "" {
      return false;
    }
    if TrimSpace(req.worker) == "" || TrimSpace(req.session) == "" {
      return false;
    }
    if TrimSpace(req.summary) == "" {
      return false;
    }
    if req.outcome != Accepted && req.outcome != Failed {
      return false;
    }
    for i := 0 to |req.verifications|
      invariant forall k :: 0 <= k < i ==>
        req.verifications[k].name in DIMENSIONS && req.verifications[k].status != CheckCancelled
    {
      var v := req.verifications[i];
      if v.name !in DIMENSIONS {
        return false;
      }
      if v.status != CheckPassed && v.status != CheckFailed && v.status != CheckPending {
        return false;
      }
    }
    return true;
  }

  /** The request under its base key. */
  method Derive(req: Request, minted: Key) returns (r: Request)
    ensures r == Keyed(req, minted)
  {
    var base := TrimSpace(req.key);
    if base == "" {
      base := minted;
    }
    r := req.(key := base);
  }

  /** The conclusion just recorded is the latest. */
  lemma JustConcluded(was: State, now: State, key: Key, o: Id, lane: Id, rev: int, conclusion: Conclusion)
    requires key !in was.audit && Note(LogOf(was, o), lane, rev, ReviewConclusionRecorded(conclusion)).Ok?
    requires now == Write(was, key, o, Note(LogOf(was, o), lane, rev, ReviewConclusionRecorded(conclusion)))
    ensures ConclusionOf(lane, LogOf(now, o)) == Ok(conclusion)
  {
    var ev := Event(Some(lane), ReviewConclusionRecorded(conclusion));
    assert o in was.logs;
    AppendAllFrame(was, o, [ev]);
    LaneAfter(lane, was.logs[o], ev);
  }

  // ---------------------------------------------------------------- loops over a lane table

  lemma ValidReplays(w: State)
    requires Inv(w)
    ensures forall o :: LanesReplay(LogOf(w, o))
  {
    forall o ensures LanesReplay(LogOf(w, o)) {
      if o in w.logs {
        assert LogInv(w.logs[o], w.definitions, w.minted);
      }
    }
  }

  lemma LogReplays(w: State, o: Id)
    requires Inv(w)
    ensures LanesReplay(LogOf(w, o))
  {
    ValidReplays(w);
  }

  /** What is left of StartRepairCycle inside its transaction. */
  function RepairStep(log: seq<Event>, lane: Id, reason: string, rev: int, exhausted: bool): Result<seq<Event>> {
    var current :- AtRevision(log, lane, rev);
    Single(lane, if exhausted then LaneEscalated(reason) else RepairCycleStarted(reason))
  }

  /** The lane at the expected revision has a pull request already. */
  predicate Published(log: seq<Event>, lane: Id, rev: int) {
    AtRevision(log, lane, rev).Ok? && AtRevision(log, lane, rev).value.pr.Some?
  }

  /** What is left of PublishPullRequest inside its transaction. */
  function PublishStep(log: seq<Event>, lane: Id, rev: int, number: nat, url: string): Result<seq<Event>> {
    var current :- AtRevision(log, lane, rev);
    if current.pr.Some? then Ok([]) else Single(lane, PrPublished(number, url))
  }

  lemma PublishKeepsInv(w: State, key: Key, o: Id, lane: Id, token: Token, rev: int, number: nat, url: string,
                        seen: seq<Event>,
                        d: Result<seq<Event>>)
    requires Inv(w) && seen <= LogOf(w, o) && d == PublishDecision(LogOf(w, o), lane, token, rev, number, url, seen)
    ensures Inv(Write(w, key, o, d))
  {
    CallKeepsInv(w, key, o, Snapshot(Publish(lane, token, rev, number, url, seen)), d);
  }

  /** Going through all the stages comes to going on from stage i at state `now`. */
  ghost predicate Reaches(exec: (State, Stage) -> Result<State>, was: State, stages: seq<Stage>, limit: nat, i: nat,
                          now: State) {
    i <= |stages| && i <= limit && Proceed(exec, was, stages, limit) == Proceed(exec, now, stages[i..], limit - i)
  }

  ghost predicate Fails(exec: (State, Stage) -> Result<State>, was: State, stages: seq<Stage>, limit: nat, now: State,
                        e: Error) {
    Proceed(exec, was, stages, limit) == (now, Failing(e))
  }

  lemma ReachesStart(exec: (State, Stage) -> Result<State>, was: State, stages: seq<Stage>, limit: nat, i: nat)
    requires i == 0
    ensures Reaches(exec, was, stages, limit, i, was)
  {
    assert stages[0..] == stages;
  }

  lemma ReachesNext(exec: (State, Stage) -> Result<State>, was: State, stages: seq<Stage>, limit: nat, i: nat, j: nat,
                    before: State, now: State, e: Option<Error>)
    requires Reaches(exec, was, stages, limit, i, before) && i < |stages| && i < limit && j == i + 1
    requires exec(before, stages[i]) == (if e.Some? then Err(e.value) else Ok(now)) && (e.Some? ==> now == before)
    ensures if e.Some? then Fails(exec, was, stages, limit, now, e.value) else Reaches(exec, was, stages, limit, j, now)
  {
    ProceedStep(exec, before, stages, i, limit - i);
  }

  lemma ClosingStages(r: Request, stages: seq<Stage>, n: nat)
    requires stages == Stages(r, false) && n == |r.verifications|
    ensures |stages| == n + 3 && stages[n] == Finish && stages[n + 1] == Judge && stages[n + 2] == Settle
  {
  }

  /** What a stage did brings the attempt one stage further. */
  lemma StageDone(was: State, before: State, now: State, r: Request, stages: seq<Stage>, token: Token, expiresAt: Time,
                limit: nat, i: nat, j: nat, e: Option<Error>)
    requires Reaches(Executor(r, token, expiresAt), was, stages, limit, i, before) && i < |stages| && i < limit && j == i + 1
    requires Did(before, now, e, r, stages[i], token, expiresAt)
    ensures if e.Some? then Fails(Executor(r, token, expiresAt), was, stages, limit, now, e.value)
            else Reaches(Executor(r, token, expiresAt), was, stages, limit, j, now)
  {
    ReachesNext(Executor(r, token, expiresAt), was, stages, limit, i, j, before, now, e);
  }

  lemma ReachesEnd(exec: (State, Stage) -> Result<State>, was: State, stages: seq<Stage>, limit: nat, n: nat, now: State)
    requires Reaches(exec, was, stages, limit, n, now) && n == |stages|
    ensures Ran(Go(exec, was, stages, limit), now, None)
  {
    assert stages[n..] == [];
  }

  /** An attempt ended in state `now`, with the given failure or without one. */
  ghost predicate Ran(result: (State, End), now: State, e: Option<Error>) {
    result == (now, if e.Some? then Failing(e.value) else Finished)
  }

  /** One attempt that was not cut off led from the one state to the other, and this is its reply. */
  ghost predicate IsAttempt(was: State, now: State, r: Request, rev: int, expiresAt: Time, reply: Result<Lane>) {
    exists e: Option<Error> ::
      && Ran(Attempt(was, r, rev, expiresAt, |r.verifications| + 4), now, e)
      && reply == if e.Some? then Err(e.value) else LaneOf(r.lane, LogOf(now, r.orch))
  }

  ghost predicate Did(was: State, now: State, e: Option<Error>, r: Request, s: Stage, token: Token, expiresAt: Time) {
    && Exec(was, r, s, token, expiresAt) == (if e.Some? then Err(e.value) else Ok(now))
    && (e.Some? ==> now == was)
  }

  lemma NoLaneNoWrite(w: State, r: Request, s: Stage, token: Token, expiresAt: Time, e: Error)
    requires LaneOf(r.lane, LogOf(w, r.orch)) == Err(e)
    ensures Did(w, w, Some(e), r, s, token, expiresAt)
  {
  }

  lemma RecordDecides(w: State, r: Request, s: Stage, l: Lane, token: Token, expiresAt: Time)
    requires s.Record? && LaneOf(r.lane, LogOf(w, r.orch)) == Ok(l)
    ensures Precheck(r, s).None?
    ensures Note(LogOf(w, r.orch), r.lane, l.revision, VerificationRecorded(s.v.name, s.v.status)) ==
            Decision(w, r, s, l, token, expiresAt)
  {
  }

  lemma LeaseDecides(w: State, r: Request, s: Stage, l: Lane, token: Token, expiresAt: Time)
    requires s.TakeLease? && LaneOf(r.lane, LogOf(w, r.orch)) == Ok(l)
    ensures Precheck(r, s).None?
    ensures GrantDecision(w, r.orch, r.lane, l.revision, r.worker, expiresAt) == Decision(w, r, s, l, token, expiresAt)
  {
  }

  lemma SettleDecides(w: State, r: Request, s: Stage, l: Lane, token: Token, expiresAt: Time)
    requires s.Settle? && LaneOf(r.lane, LogOf(w, r.orch)) == Ok(l)
    ensures DecideEvidence(LogOf(w, r.orch), UpdateStatus(r.lane, l.revision, r.outcome)) == Decision(w, r, s, l, token, expiresAt)
  {
  }

  /** A store method's write and reply are those of the stage. */
  lemma WriteIsExec(was: State, now: State, r: Request, s: Stage, token: Token, expiresAt: Time, reply: Result<Lane>)
    requires LaneOf(r.lane, LogOf(was, r.orch)).Ok? && LanesReplay(LogOf(now, r.orch)) && !s.Judge?
    requires Precheck(r, s).Some? ==> now == was && reply == Err(Precheck(r, s).value)
    requires Precheck(r, s).None? ==>
               var d := Decision(was, r, s, LaneOf(r.lane, LogOf(was, r.orch)).value, token, expiresAt);
               && now == Write(was, KeyOf(r, s), r.orch, d)
               && reply == if KeyOf(r, s) !in was.audit && d.Err? then Err(d.error) else LaneOf(r.lane, LogOf(now, r.orch))
    ensures Did(was, now, if reply.Err? then Some(reply.error) else None, r, s, token, expiresAt)
  {
    StaysLane(was, KeyOf(r, s), r.orch, Decision(was, r, s, LaneOf(r.lane, LogOf(was, r.orch)).value, token, expiresAt), r.lane);
  }

  /** ... and so are those of the review. */
  lemma JudgeIsExec(was: State, now: State, r: Request, s: Stage, token: Token, expiresAt: Time, reply: Result<Conclusion>)
    requires LaneOf(r.lane, LogOf(was, r.orch)).Ok? && s.Judge?
    requires Precheck(r, s).Some? ==> now == was && reply == Err(Precheck(r, s).value)
    requires Precheck(r, s).None? ==>
               var d := Decision(was, r, s, LaneOf(r.lane, LogOf(was, r.orch)).value, token, expiresAt);
               && now == Write(was, KeyOf(r, s), r.orch, d)
               && reply == (if KeyOf(r, s) in was.audit then ConclusionOf(r.lane, LogOf(was, r.orch))
                            else if d.Err? then Err(d.error) else Ok(Verdict(r)))
    ensures Did(was, now, if reply.Err? then Some(reply.error) else None, r, s, token, expiresAt)
  {
  }

  /** A lane that replays goes on replaying after any write. */
  lemma StaysLane(w: State, key: Key, o: Id, d: Result<seq<Event>>, lane: Id)
    requires LaneOf(lane, LogOf(w, o)).Ok?
    ensures LanesReplay(LogOf(Write(w, key, o, d), o)) ==> LaneOf(lane, LogOf(Write(w, key, o, d), o)).Ok?
  {
    if key !in w.audit && d.Ok? {
      assert o in w.logs;
      AppendAllFrame(w, o, d.value);
      LaneOkIsLane(lane, w.logs[o]);
      var log := w.logs[o] + d.value;
      var i :| 0 <= i < |w.logs[o]| && w.logs[o][i].body.LaneCreated? && w.logs[o][i].entity == Some(lane);
      assert log[i] == w.logs[o][i] && lane in LaneIds(log);
    }
  }

  /** Committing what a call decides keeps the store valid. */
  lemma CallKeepsInv(w: State, key: Key, o: Id, call: Call, decision: Result<seq<Event>>)
    requires Inv(w) && Disciplined(w, o, call) && decision == Decide(w, o, call)
    ensures Inv(Write(w, key, o, decision))
  {
    ApplyKeepsInv(w, key, o, call);
  }

  lemma CreationKeepsInv(w: State, key: Key, o: Id, lane: Id, project: Id, task: Id, createdAt: Time)
    requires Inv(w) && Disciplined(w, o, Call.CreateLane(lane, project, task, createdAt))
    ensures Inv(Write(w, key, o, CreateLaneDecision(w, o, lane, project, task, createdAt)))
  {
    var call := Call.CreateLane(lane, project, task, createdAt);
    CallKeepsInv(w, key, o, call, Decide(w, o, call));
  }

  lemma StatusKeepsInv(w: State, key: Key, o: Id, lane: Id, rev: int, status: LaneStatus)
    requires Inv(w) && IsLaneTerminal(status)
    ensures Inv(Write(w, key, o, DecideEvidence(LogOf(w, o), UpdateStatus(lane, rev, status))))
  {
    var call := Evidence(UpdateStatus(lane, rev, status));
    CallKeepsInv(w, key, o, call, Decide(w, o, call));
  }

  /** The inner loop of activeProjectIDs. */
  method ActiveIn(ghost log: seq<Event>, lanes: map<Id, Lane>) returns (busy: set<Id>)
    requires Sync.Shows(log, lanes)
    ensures busy == BusyIn(log)
  {
    busy := {};
    var todo := lanes.Keys;
    while todo != {}
      invariant todo <= lanes.Keys
      invariant forall p :: p in busy <==> exists id :: id in lanes && id !in todo && Active(lanes[id]) && lanes[id].project == p
      decreases |todo|
    {
      var id :| id in todo;
      if lanes[id].status == Leased || lanes[id].status == Running {
        busy := busy + {lanes[id].project};
      }
      todo := todo - {id};
    }
    forall p ensures p in busy <==> p in BusyIn(log) {
      if p in BusyIn(log) {
        var id :| id in LaneIds(log) && ActiveLane(log, id) && LaneOf(id, log).value.project == p;
        assert id in lanes && Active(lanes[id]);
      }
      if p in busy {
        var id :| id in lanes && Active(lanes[id]) && lanes[id].project == p;
        assert ActiveLane(log, id);
      }
    }
  }

  /** GrantLease's scan for another mutating lane of the project. */
  method ProjectTaken(ghost log: seq<Event>, lanes: map<Id, Lane>, lane: Id, project: Id) returns (taken: bool)
    requires Sync.Shows(log, lanes)
    ensures taken <==> exists other :: other in LaneIds(log) && other != lane && ActiveLane(log, other) &&
                                       LaneOf(other, log).value.project == project
  {
    var todo := lanes.Keys;
    while todo != {}
      invariant todo <= lanes.Keys
      invariant forall id :: id in lanes && id !in todo ==>
        id == lane || lanes[id].project != project || !Active(lanes[id])
      decreases |todo|
    {
      var other :| other in todo;
      if !(other == lane || lanes[other].project != project) && (lanes[other].status == Leased || lanes[other].status == Running) {
        assert ActiveLane(log, other);
        return true;
      }
      todo := todo - {other};
    }
    return false;
  }

  lemma EnumeratesSnoc(order: seq<Id>, done: set<Id>, x: Id)
    requires Sync.Enumerates(order, done) && x !in done
    ensures Sync.Enumerates(order + [x], done + {x})
    ensures (order + [x])[..|order|] == order
  {
    ElemsSnoc(order, x);
    assert forall i :: 0 <= i < |order| ==> order[i] in Elems(order);
  }

  /** ExpireBatch read off a lane table. */
  ghost function ExpireFrom(lanes: map<Id, Lane>, now: Time, order: seq<Id>): seq<Event> {
    if order == [] then []
    else
      var n := |order| - 1;
      ExpireFrom(lanes, now, order[..n]) +
      if order[n] in lanes && Expired(lanes[order[n]], now) then [Event(Some(order[n]), LeaseTimedOut)] else []
  }

  lemma {:induction false} ExpireFromIs(log: seq<Event>, lanes: map<Id, Lane>, now: Time, order: seq<Id>)
    requires Sync.Shows(log, lanes)
    ensures ExpireFrom(lanes, now, order) == ExpireBatch(log, now, order)
  {
    if order != [] {
      var n := |order| - 1;
      ExpireFromIs(log, lanes, now, order[..n]);
      if LaneOf(order[n], log).Ok? {
        LaneOkIsLane(order[n], log);
      }
    }
  }

  /** The loop of ExpireLeases. */
  method SweepExpired(lanes: map<Id, Lane>, now: Time) returns (batch: seq<Event>, expired: seq<Id>, ghost order: seq<Id>)
    ensures Sync.Enumerates(order, lanes.Keys) && batch == ExpireFrom(lanes, now, order)
    ensures forall id :: id in expired <==> id in lanes && Expired(lanes[id], now)
  {
    batch, expired, order := [], [], [];
    var todo := lanes.Keys;
    ghost var done: set<Id> := {};
    while todo != {}
      invariant done + todo == lanes.Keys && done !! todo
      invariant Sync.Enumerates(order, done)
      invariant batch == ExpireFrom(lanes, now, order)
      invariant forall id :: id in expired <==> id in done && Expired(lanes[id], now)
      decreases |todo|
    {
      var id :| id in todo;
      EnumeratesSnoc(order, done, id);
      MoveOver(lanes.Keys, done, todo, id);
      var over := PastDeadline(lanes[id], now);
      if over {
        batch := batch + [Event(Some(id), LeaseTimedOut)];
        expired := expired + [id];
      }
      order := order + [id];
      todo, done := todo - {id}, done + {id};
    }
  }

  method PastDeadline(lane: Lane, now: Time) returns (over: bool)
    ensures over == Expired(lane, now)
  {
    if lane.status != Leased && lane.status != Running {
      return false;
    }
    if lane.expiresAt.None? || lane.expiresAt.value > now {
      return false;
    }
    return true;
  }

  /** Going through a set element by element. */
  lemma MoveOver(all: set<Id>, done: set<Id>, todo: set<Id>, x: Id)
    requires done + todo == all && done !! todo && x in todo
    ensures (done + {x}) + (todo - {x}) == all && (done + {x}) !! (todo - {x})
  {
  }

  lemma ExpiredAre(log: seq<Event>, lanes: map<Id, Lane>, expired: seq<Id>, now: Time)
    requires Sync.Shows(log, lanes) && forall id :: id in expired <==> id in lanes && Expired(lanes[id], now)
    ensures forall id :: id in expired <==> LaneOf(id, log).Ok? && Expired(LaneOf(id, log).value, now)
  {
    forall id ensures id in expired <==> LaneOf(id, log).Ok? && Expired(LaneOf(id, log).value, now) {
      if LaneOf(id, log).Ok? {
        LaneOkIsLane(id, log);
      }
    }
  }

  /** DetachProject's loop over the lanes. */
  method HasOpenLane(ghost log: seq<Event>, lanes: map<Id, Lane>, project: Id) returns (open: bool)
    requires Sync.Shows(log, lanes)
    ensures open <==> exists id :: id in LaneIds(log) && LaneOf(id, log).Ok? && LaneOf(id, log).value.project == project &&
                                   !IsLaneTerminal(LaneOf(id, log).value.status)
  {
    var todo := lanes.Keys;
    while todo != {}
      invariant todo <= lanes.Keys
      invariant forall id :: id in lanes && id !in todo ==> lanes[id].project != project || IsLaneTerminal(lanes[id].status)
      decreases |todo|
    {
      var id :| id in todo;
      if lanes[id].project == project && !IsLaneTerminal(lanes[id].status) {
        assert LaneOf(id, log) == Ok(lanes[id]);
        return true;
      }
      todo := todo - {id};
    }
    return false;
  }

  // ---------------------------------------------------------------- loops over tasks and edges

  lemma ValidTasksAndEdges(w: State, o: Id)
    requires Inv(w)
    ensures forall id :: TaskOf(id, LogOf(w, o)) != Err(Corrupt) && EdgeOf(id, LogOf(w, o)) != Err(Corrupt)
  {
    if o in w.logs {
      assert LogInv(w.logs[o], w.definitions, w.minted);
    }
  }

  /** allDependencyEdges. */
  method AllEdges(log: seq<Event>) returns (edges: map<Id, Reduce.Edge>)
    requires forall id :: EdgeOf(id, log) != Err(Corrupt)
    ensures edges == Edges(log)
  {
    edges := map[];
    var todo := EdgeIds(log);
    ghost var done: set<Id> := {};
    while todo != {}
      invariant done + todo == EdgeIds(log) && done !! todo
      invariant forall id :: id in edges <==> id in done && EdgeOf(id, log).Ok?
      invariant forall id :: id in edges ==> EdgeOf(id, log) == Ok(edges[id])
      decreases |todo|
    {
      var id :| id in todo;
      MoveOver(EdgeIds(log), done, todo, id);
      var e := ReduceDependencyEdge(id, log);
      if e.Ok? {
        edges := edges[id := e.value];
      }
      todo, done := todo - {id}, done + {id};
    }
  }

  ghost function ActiveAmong(all: map<Id, Reduce.Edge>, ids: set<Id>): set<Id> {
    set id | id in ids && id in all && all[id].active
  }

  /** EdgeList read off an edge table. */
  ghost function ListFrom(all: map<Id, Reduce.Edge>, listed: seq<Id>): seq<Reduce.Edge> {
    if listed == [] then []
    else
      var n := |listed| - 1;
      ListFrom(all, listed[..n]) + if listed[n] in all then [all[listed[n]]] else []
  }

  lemma {:induction false} ListFromIs(log: seq<Event>, listed: seq<Id>)
    requires forall id :: id in listed ==> id in Edges(log)
    ensures ListFrom(Edges(log), listed) == EdgeList(log, listed)
  {
    if listed != [] {
      var n := |listed| - 1;
      assert forall id :: id in listed[..n] ==> id in listed;
      ListFromIs(log, listed[..n]);
      assert listed[n] in listed;
    }
  }

  lemma ListSnoc(all: map<Id, Reduce.Edge>, listed: seq<Id>, id: Id)
    requires id in all
    ensures ListFrom(all, listed + [id]) == ListFrom(all, listed) + [all[id]]
  {
    assert (listed + [id])[..|listed|] == listed;
  }

  lemma ActiveAmongStep(all: map<Id, Reduce.Edge>, done: set<Id>, id: Id)
    requires id in all && id !in done
    ensures ActiveAmong(all, done + {id}) == ActiveAmong(all, done) + if all[id].active then {id} else {}
    ensures id !in ActiveAmong(all, done)
  {
  }

  /** The active edges of a table, in whatever order it yields them. */
  method ListActive(all: map<Id, Reduce.Edge>) returns (edges: seq<Reduce.Edge>, ghost listed: seq<Id>)
    ensures Sync.Enumerates(listed, ActiveAmong(all, all.Keys)) && edges == ListFrom(all, listed)
  {
    edges, listed := [], [];
    var todo := all.Keys;
    ghost var done: set<Id> := {};
    while todo != {}
      invariant done + todo == all.Keys && done !! todo
      invariant Sync.Enumerates(listed, ActiveAmong(all, done))
      invariant edges == ListFrom(all, listed)
      decreases |todo|
    {
      var id :| id in todo;
      MoveOver(all.Keys, done, todo, id);
      ActiveAmongStep(all, done, id);
      if all[id].active {
        EnumeratesSnoc(listed, ActiveAmong(all, done), id);
        ListSnoc(all, listed, id);
        edges := edges + [all[id]];
        listed := listed + [id];
      }
      todo, done := todo - {id}, done + {id};
    }
  }

  method ActiveEdges(log: seq<Event>) returns (edges: seq<Reduce.Edge>, ghost listed: seq<Id>)
    requires forall id :: EdgeOf(id, log) != Err(Corrupt)
    ensures Sync.Enumerates(listed, set id | id in Edges(log) && Edges(log)[id].active)
    ensures edges == EdgeList(log, listed)
  {
    var all := AllEdges(log);
    edges, listed := ListActive(all);
    assert ActiveAmong(all, all.Keys) == set id | id in Edges(log) && Edges(log)[id].active;
    assert forall id :: id in listed ==> id in Elems(listed);
    ListFromIs(log, listed);
  }

  /** allParentTasks, as the frontier reads them: no event cancels a task. */
  method TaskNodes(log: seq<Event>) returns (tasks: seq<TaskNode>)
    ensures forall t, resolved :: Graph.Open(tasks, resolved, t) <==> t in TaskIds(log) && t !in resolved
  {
    tasks := [];
    var todo := TaskIds(log);
    ghost var done: set<Id> := {};
    while todo != {}
      invariant done + todo == TaskIds(log) && done !! todo
      invariant forall t :: t in done <==> exists i :: 0 <= i < |tasks| && tasks[i].id == t && !tasks[i].cancelled
      decreases |todo|
    {
      var t :| t in todo;
      MoveOver(TaskIds(log), done, todo, t);
      TaskNodesSnoc(tasks, done, t);
      tasks := tasks + [TaskNode(t, false)];
      todo, done := todo - {t}, done + {t};
    }
  }

  lemma TaskNodesSnoc(tasks: seq<TaskNode>, done: set<Id>, x: Id)
    requires forall t :: t in done <==> exists i :: 0 <= i < |tasks| && tasks[i].id == t && !tasks[i].cancelled
    ensures var more := tasks + [TaskNode(x, false)];
            forall t :: t in done + {x} <==> exists i :: 0 <= i < |more| && more[i].id == t && !more[i].cancelled
  {
    var more := tasks + [TaskNode(x, false)];
    forall t ensures t in done + {x} <==> exists i :: 0 <= i < |more| && more[i].id == t && !more[i].cancelled {
      if t in done {
        var i :| 0 <= i < |tasks| && tasks[i].id == t && !tasks[i].cancelled;
        assert more[i] == tasks[i];
      }
      if t == x {
        assert more[|tasks|].id == t;
      }
    }
  }

  /** laneByTask: of several lanes of one task the one met last is kept. */
  method LanesByTask(lanes: map<Id, Lane>) returns (byTask: map<Id, Id>)
    ensures Sync.PickOk(lanes, byTask)
  {
    byTask := map[];
    var todo := lanes.Keys;
    ghost var done: set<Id> := {};
    while todo != {}
      invariant done + todo == lanes.Keys && done !! todo
      invariant forall t :: t in byTask ==> t != "" && byTask[t] in lanes && lanes[byTask[t]].parentTask == t
      invariant forall id :: id in done && lanes[id].parentTask != "" ==> lanes[id].parentTask in byTask
      decreases |todo|
    {
      var id :| id in todo;
      MoveOver(lanes.Keys, done, todo, id);
      if lanes[id].parentTask != "" {
        byTask := byTask[lanes[id].parentTask := id];
      }
      todo, done := todo - {id}, done + {id};
    }
  }

  method AcceptedTasks(lanes: map<Id, Lane>, byTask: map<Id, Id>) returns (resolved: set<Id>)
    requires Sync.PickOk(lanes, byTask)
    ensures resolved == Sync.ResolvedTasks(lanes, byTask)
  {
    resolved := {};
    var todo := byTask.Keys;
    ghost var done: set<Id> := {};
    while todo != {}
      invariant done + todo == byTask.Keys && done !! todo
      invariant forall t :: t in resolved <==> t in done && lanes[byTask[t]].status == Accepted
      decreases |todo|
    {
      var t :| t in todo;
      MoveOver(byTask.Keys, done, todo, t);
      if lanes[byTask[t]].status == Accepted {
        resolved := resolved + {t};
      }
      todo, done := todo - {t}, done + {t};
    }
  }

  /** What SyncFrontier tells one lane. */
  method TellLane(lane: Lane, task: Id, frontier: seq<Id>, blocked: map<Id, seq<Id>>) returns (told: seq<Body>)
    ensures told == if !Unleased(lane.status) then []
                    else if task in frontier && lane.status != Runnable then [LaneUnblocked]
                    else if task in blocked && !Sync.SameBlockers(lane.blockedBy, blocked[task]) then [LaneBlocked(blocked[task])]
                    else []
  {
    if lane.status != Waiting && lane.status != Blocked && lane.status != Runnable {
      return [];
    }
    if task in frontier && lane.status != Runnable {
      return [LaneUnblocked];
    }
    if task in blocked {
      var same := Sync.CompareBlockers(lane.blockedBy, blocked[task]);
      if !same {
        return [LaneBlocked(blocked[task])];
      }
    }
    return [];
  }

  /** ... is what its task's blockers call for. */
  lemma ToldIsStep(lanes: map<Id, Lane>, tasks: set<Id>, byTask: map<Id, Id>, edges: seq<Reduce.Edge>, resolved: set<Id>,
                   frontier: seq<Id>, blocked: map<Id, seq<Id>>, t: Id, told: seq<Body>)
    requires Sync.PickOk(lanes, byTask) && t in byTask && resolved == Sync.ResolvedTasks(lanes, byTask)
    requires t in frontier <==> t in tasks && t !in resolved && Blockers(t, edges, resolved) == []
    requires t in blocked <==> t in tasks && t !in resolved && Blockers(t, edges, resolved) != []
    requires t in blocked ==> blocked[t] == Blockers(t, edges, resolved)
    requires var lane := lanes[byTask[t]];
             told == if !Unleased(lane.status) then []
                     else if t in frontier && lane.status != Runnable then [LaneUnblocked]
                     else if t in blocked && !Sync.SameBlockers(lane.blockedBy, blocked[t]) then [LaneBlocked(blocked[t])]
                     else []
    ensures told == Sync.SyncStep(lanes, tasks, byTask, edges, t)
  {
    assert t in resolved <==> lanes[byTask[t]].status == Accepted;
  }

  lemma SyncBatchSnoc(lanes: map<Id, Lane>, tasks: set<Id>, byTask: map<Id, Id>, edges: seq<Reduce.Edge>,
                      order: seq<Id>, t: Id)
    requires (forall u :: u in order ==> u in byTask && byTask[u] in lanes) && t in byTask && byTask[t] in lanes
    ensures forall u :: u in order + [t] ==> u in byTask && byTask[u] in lanes
    ensures Sync.SyncBatch(lanes, tasks, byTask, edges, order + [t]) ==
            Sync.SyncBatch(lanes, tasks, byTask, edges, order) +
            Sync.Scoped(byTask[t], Sync.SyncStep(lanes, tasks, byTask, edges, t))
  {
    assert (order + [t])[..|order|] == order;
  }

  /** The last loop of SyncFrontier. */
  method SyncLanes(lanes: map<Id, Lane>, byTask: map<Id, Id>, frontier: seq<Id>, blocked: map<Id, seq<Id>>,
                   ghost tasks: set<Id>, ghost edges: seq<Reduce.Edge>, ghost nodes: seq<TaskNode>, ghost resolved: set<Id>)
    returns (batch: seq<Event>, ghost order: seq<Id>)
    requires Sync.PickOk(lanes, byTask) && resolved == Sync.ResolvedTasks(lanes, byTask)
    requires forall t :: Graph.Open(nodes, resolved, t) <==> t in tasks && t !in resolved
    requires forall id :: id in frontier <==> Graph.Open(nodes, resolved, id) && Blockers(id, edges, resolved) == []
    requires forall id :: id in blocked <==> Graph.Open(nodes, resolved, id) && Blockers(id, edges, resolved) != []
    requires forall id :: id in blocked ==> blocked[id] == Blockers(id, edges, resolved)
    ensures Sync.Enumerates(order, byTask.Keys)
    ensures forall t :: t in order ==> t in byTask && byTask[t] in lanes
    ensures batch == Sync.SyncBatch(lanes, tasks, byTask, edges, order)
  {
    batch, order := [], [];
    var todo := byTask.Keys;
    ghost var done: set<Id> := {};
    while todo != {}
      invariant done + todo == byTask.Keys && done !! todo
      invariant Sync.Enumerates(order, done)
      invariant forall t :: t in order ==> t in byTask && byTask[t] in lanes
      invariant batch == Sync.SyncBatch(lanes, tasks, byTask, edges, order)
      decreases |todo|
    {
      var t :| t in todo;
      MoveOver(byTask.Keys, done, todo, t);
      var told := TellLane(lanes[byTask[t]], t, frontier, blocked);
      ToldIsStep(lanes, tasks, byTask, edges, resolved, frontier, blocked, t, told);
      EnumeratesSnoc(order, done, t);
      SyncBatchSnoc(lanes, tasks, byTask, edges, order, t);
      batch := batch + Sync.Scoped(byTask[t], told);
      order := order + [t];
      todo, done := todo - {t}, done + {t};
    }
  }

  // ---------------------------------------------------------------- queries on the tables

  /** getActiveJiraLifetime: the first row in its order. */
  method FindActive(cases: map<Id, Case>, issue: Id, org: Id) returns (found: Option<Id>)
    ensures Found(cases, issue, org, found)
  {
    found := None;
    var todo := cases.Keys;
    while todo != {}
      invariant todo <= cases.Keys
      invariant found.None? ==> forall c :: c in cases && c !in todo ==> !Candidate(cases[c], issue, org)
      invariant found.Some? ==> found.value in cases && Candidate(cases[found.value], issue, org)
      invariant found.Some? ==> forall c :: c in cases && c !in todo && Candidate(cases[c], issue, org) ==>
                                  !Ahead(cases[c], cases[found.value], org)
      decreases |todo|
    {
      var c :| c in todo;
      if Candidate(cases[c], issue, org) && (found.None? || Ahead(cases[c], cases[found.value], org)) {
        found := Some(c);
      }
      todo := todo - {c};
    }
  }

  /** The execution with the highest ordinal. */
  method FindLast(executions: map<Id, Execution>, c: Id) returns (last: Option<Id>)
    ensures LastIs(executions, c, last)
  {
    last := None;
    var todo := executions.Keys;
    while todo != {}
      invariant todo <= executions.Keys
      invariant last.None? ==> forall e :: e in executions && e !in todo ==> executions[e].caseId != c
      invariant last.Some? ==> last.value in executions && executions[last.value].caseId == c
      invariant last.Some? ==> forall e :: e in executions && e !in todo && executions[e].caseId == c ==>
                                 executions[e].ordinal <= executions[last.value].ordinal
      decreases |todo|
    {
      var e :| e in todo;
      if executions[e].caseId == c && (last.None? || executions[e].ordinal > executions[last.value].ordinal) {
        last := Some(e);
      }
      todo := todo - {e};
    }
  }

  method FindByOrchestration(executions: map<Id, Execution>, o: Id) returns (found: Option<Id>)
    ensures found.Some? ==> found.value in executions && executions[found.value].orch == o
    ensures found.None? ==> forall e :: e in executions ==> executions[e].orch != o
  {
    var todo := executions.Keys;
    while todo != {}
      invariant todo <= executions.Keys
      invariant forall e :: e in executions && e !in todo ==> executions[e].orch != o
      decreases |todo|
    {
      var e :| e in todo;
      if executions[e].orch == o {
        return Some(e);
      }
      todo := todo - {e};
    }
    return None;
  }

  method HasActiveSession(sessions: map<Id, Session>, execution: Id) returns (busy: bool)
    ensures busy <==> exists s :: s in sessions && ActiveOn(sessions, s, execution)
  {
    var todo := sessions.Keys;
    while todo != {}
      invariant todo <= sessions.Keys
      invariant forall s :: s in sessions && s !in todo ==> !ActiveOn(sessions, s, execution)
      decreases |todo|
    {
      var s :| s in todo;
      if sessions[s].execution == execution && sessions[s].status == SessionActive {
        assert ActiveOn(sessions, s, execution);
        return true;
      }
      todo := todo - {s};
    }
    return false;
  }

  /** UPDATE delivery_sessions ... WHERE execution_id = ? AND status = 'active'. */
  method CloseSessions(sessions: map<Id, Session>, execution: Id) returns (now: map<Id, Session>)
    ensures now.Keys == sessions.Keys
    ensures forall s :: s in now ==>
              now[s] == if ActiveOn(sessions, s, execution) then sessions[s].(status := SessionClosed) else sessions[s]
  {
    now := sessions;
    var todo := sessions.Keys;
    while todo != {}
      invariant todo <= sessions.Keys && now.Keys == sessions.Keys
      invariant forall s :: s in now ==>
        now[s] == if s !in todo && ActiveOn(sessions, s, execution) then sessions[s].(status := SessionClosed) else sessions[s]
      decreases |todo|
    {
      var s :| s in todo;
      if now[s].execution == execution && now[s].status == SessionActive {
        now := now[s := now[s].(status := SessionClosed)];
      }
      todo := todo - {s};
    }
  }

  lemma LastOfActive(w: State, c: Id, last: Option<Id>)
    requires Inv(w) && c in w.cases && LastIs(w.executions, c, last)
    ensures last.Some? && last.value in w.executions
  {
    CaseHasExecution(w, c, last);
  }

  /** Writing back an unchanged case changes nothing. */
  lemma SameCase(cases: map<Id, Case>, c: Id, tenant: Id, now: map<Id, Case>)
    requires c in cases
    requires now == if tenant != "" && cases[c].tenant != tenant then cases[c := cases[c].(tenant := tenant)] else cases
    ensures now == cases[c := if tenant != "" && cases[c].tenant != tenant then cases[c].(tenant := tenant) else cases[c]]
  {
  }

  /** A body ran: it changed the rows as the step says, or failed and left them alone. */
  ghost predicate Stepped(was: State, now: State, e: Option<Error>, step: Result<State>) {
    if e.Some? then step == Err(e.value) && now == was else step == Ok(now)
  }

  /** What the caller hears of a step: nothing bad of a used key. */
  ghost predicate Answered(was: State, key: Key, e: Option<Error>, step: Result<State>) {
    key !in was.audit ==> e == if step.Ok? then None else Some(step.error)
  }

  /** Body and key together. */
  lemma Applied(was: State, mid: State, now: State, key: Key, e: Option<Error>, call: GlobalCall)
    requires key !in was.audit && Stepped(was, mid, e, GlobalStep(was, call))
    requires now == if e.Some? then mid else mid.(audit := mid.audit + {key})
    ensures now == GlobalApply(was, key, call)
  {
    StepKeepsAudit(was, call);
  }

  lemma StepKeepsAudit(w: State, call: GlobalCall)
    ensures GlobalStep(w, call).Ok? ==> GlobalStep(w, call).value.audit == w.audit
  {
    match call
    case NewOrchestration(_, _, _) =>
    case Register(_, _) =>
    case StartJira(_, _, _, _, _) =>
    case StartAdhoc(_) =>
    case Cancel(_, _) =>
    case CompleteRun(_, _) =>
    case OpenSession(_, _, _, _, _) =>
    case Checkpoint(_, _) =>
  }

  /** Executions name cases that exist, and no two name one orchestration. */
  ghost predicate RowsOk(cases: map<Id, Case>, executions: map<Id, Execution>) {
    && (forall e :: e in executions ==> executions[e].caseId in cases)
    && forall e, d :: e in executions && d in executions && e != d ==> executions[e].orch != executions[d].orch
  }

  lemma ValidRows(w: State)
    requires Inv(w)
    ensures RowsOk(w.cases, w.executions)
  {
    assert ExecutionsOk(w.cases, w.executions, Standings(w.logs));
  }

  /** At most one execution names an orchestration, so one case is deactivated. */
  lemma CancelsOne(cases: map<Id, Case>, executions: map<Id, Execution>, o: Id, execution: Option<Id>)
    requires RowsOk(cases, executions)
    requires execution.Some? ==> execution.value in executions && executions[execution.value].orch == o
    requires execution.None? ==> forall e :: e in executions ==> executions[e].orch != o
    ensures (map c | c in cases ::
               if exists e :: e in executions && executions[e].orch == o && executions[e].caseId == c
               then cases[c].(active := false) else cases[c]) ==
            if execution.Some? then cases[executions[execution.value].caseId :=
                                            cases[executions[execution.value].caseId].(active := false)]
            else cases
  {
  }

  /** ... and one is completed, with the sessions on it. */
  lemma CompletesOne(executions: map<Id, Execution>, sessions: map<Id, Session>, o: Id, execution: Id,
                     closed: map<Id, Session>)
    requires forall e, d :: e in executions && d in executions && e != d ==> executions[e].orch != executions[d].orch
    requires execution in executions && executions[execution].orch == o && closed.Keys == sessions.Keys
    requires forall s :: s in closed ==>
      closed[s] == if ActiveOn(sessions, s, execution) then sessions[s].(status := SessionClosed) else sessions[s]
    ensures (map e | e in executions ::
               if executions[e].orch == o then executions[e].(status := ExecutionCompleted) else executions[e]) ==
            executions[execution := executions[execution].(status := ExecutionCompleted)]
    ensures (map s | s in sessions ::
               if sessions[s].status == SessionActive && sessions[s].execution in executions &&
                  executions[sessions[s].execution].orch == o
               then sessions[s].(status := SessionClosed) else sessions[s]) == closed
  {
  }
}
