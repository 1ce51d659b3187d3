/** What a call on a lane comes to: when it is accepted, what it makes of the lane, and that it touches nothing else. */
module Outcomes {
  import opened Core
  import opened Events
  import opened Reduce
  import opened LaneRules
  import opened World
  import opened Operations
  import opened Machine
  import opened Guarantees
  import opened Matrix

  // ---------------------------------------------------------------- one lane and nothing else

  /** Everything a log shows besides one lane is the same in both states, and so is every other log. */
  ghost predicate OnlyLane(w: State, w': State, o: Id, lane: Id)
    requires o in w.logs
  {
    && w'.logs.Keys == w.logs.Keys && (forall q :: q in w.logs && q != o ==> w'.logs[q] == w.logs[q])
    && OrchOf(w'.logs[o]) == OrchOf(w.logs[o])
    && LaneIds(w'.logs[o]) == LaneIds(w.logs[o]) && TaskIds(w'.logs[o]) == TaskIds(w.logs[o])
    && (forall id :: id != lane ==> LaneOf(id, w'.logs[o]) == LaneOf(id, w.logs[o]))
    && (forall id :: EdgeOf(id, w'.logs[o]) == EdgeOf(id, w.logs[o]) && TaskOf(id, w'.logs[o]) == TaskOf(id, w.logs[o]))
    && (w'.cases, w'.executions, w'.sessions, w'.checkpoints) == (w.cases, w.executions, w.sessions, w.checkpoints)
  }

  lemma LaneEventTouchesOne(log: seq<Event>, lane: Id, b: Body)
    requires IsLaneBody(b) && !b.LaneCreated? && OrchOf(log).Ok?
    ensures var more := log + [Event(Some(lane), b)];
      && OrchOf(more) == OrchOf(log) && LaneIds(more) == LaneIds(log) && TaskIds(more) == TaskIds(log)
      && (forall id :: id != lane ==> LaneOf(id, more) == LaneOf(id, log))
      && (forall id :: EdgeOf(id, more) == EdgeOf(id, log) && TaskOf(id, more) == TaskOf(id, log))
  {
    var ev := Event(Some(lane), b);
    NewsLeaves(log, [ev]);
    OrchOfAppend(log, ev);
    assert (log + [ev])[..|log|] == log;
    forall id
      ensures id != lane ==> LaneOf(id, log + [ev]) == LaneOf(id, log)
      ensures TaskOf(id, log + [ev]) == TaskOf(id, log)
    {
      LaneAfter(id, log, ev);
      assert OwnTask(id, log + [ev]) == OwnTask(id, log);
    }
  }

  lemma CommitTouchesOne(w: State, w': State, key: Key, o: Id, lane: Id, b: Body)
    requires o in w.logs && OrchOf(w.logs[o]).Ok? && key !in w.audit && IsLaneBody(b) && !b.LaneCreated?
    requires w' == Write(w, key, o, Ok([Event(Some(lane), b)]))
    ensures OnlyLane(w, w', o, lane)
  {
    AppendAllFrame(w, o, [Event(Some(lane), b)]);
    LaneEventTouchesOne(w.logs[o], lane, b);
  }

  // ---------------------------------------------------------------- calls under a lease

  /** What a call under a lease asks of the lane: the revision, the current token, and for a stage that every required stage
      before it is recorded and there is one, for completion the work log and the last required stage. */
  ghost predicate Accepts(l: Lane, c: LeaseCall, req: Required)
    requires !c.Grant?
  {
    && l.revision == c.rev && Active(l) && l.token == Some(c.token)
    && (c.Complete? ==> c.workLogged && StagesComplete(l, req))
    && (c.RecordStage? && c.stage != Semar ==>
          HasRequiredBefore(req, c.stage) &&
          forall p :: StageIndex(p) < StageIndex(c.stage) && IsRequired(req, p) ==> Recorded(l, p))
  }

  /** What the call makes of it. */
  function After(l: Lane, c: LeaseCall): Lane
    requires !c.Grant?
  {
    var m := l.(revision := l.revision + 1);
    match c
    case Heartbeat(_, _, _, expiresAt) => m.(status := Running, expiresAt := Some(expiresAt))
    case Complete(_, _, _, _) => m.(status := Review)
    case Reject(_, _, _) => m.(status := Runnable, worker := None, token := None, expiresAt := None)
    case RecordStage(_, _, Semar, record, _) => m.(semar := Some(record), gareng := None, petruk := None, bagong := None)
    case RecordStage(_, _, Gareng, record, _) => m.(gareng := Some(record), petruk := None, bagong := None)
    case RecordStage(_, _, Petruk, record, _) => m.(petruk := Some(record), bagong := None)
    case RecordStage(_, _, Bagong, record, _) => m.(bagong := Some(record))
  }

  function LeaseBody(c: LeaseCall): Body
    requires !c.Grant?
  {
    match c
    case Heartbeat(_, _, _, expiresAt) => LeaseHeartbeat(expiresAt)
    case Complete(_, _, _, _) => LeaseCompleted
    case Reject(_, _, _) => LeaseRejected
    case RecordStage(_, _, stage, record, _) => StageSubmitted(stage, record)
  }

  lemma LeaseBodySteps(l: Lane, c: LeaseCall)
    requires !c.Grant?
    ensures IsLaneBody(LeaseBody(c)) && !LeaseBody(c).LaneCreated? && StepLane(l, LeaseBody(c)) == Ok(After(l, c))
  {
  }

  lemma LeaseDecides(w: State, o: Id, c: LeaseCall, l: Lane)
    requires !c.Grant? && o in w.logs && LaneOf(c.lane, w.logs[o]) == Ok(l) && StagesInOrder(l, ReqOf(w.definitions, w.logs[o]))
    ensures if Accepts(l, c, ReqOf(w.definitions, w.logs[o])) then DecideLease(w, o, c) == Ok([Event(Some(c.lane), LeaseBody(c))])
            else DecideLease(w, o, c).Err?
  {
    if c.RecordStage? {
      NearestCoversAll(l, c.stage, ReqOf(w.definitions, w.logs[o]));
    }
  }

  /** A call under a lease is accepted exactly when the lane is at the revision, held under that token and ready for it; it
      then makes of the lane what the call is for and touches nothing else. Otherwise it changes nothing. */
  lemma LeaseOutcome(w: State, w': State, key: Key, o: Id, c: LeaseCall, l: Lane)
    requires Inv(w) && !c.Grant? && o in w.logs && key !in w.audit && LaneOf(c.lane, w.logs[o]) == Ok(l)
    requires w' == Apply(w, key, o, Lease(c))
    ensures if Accepts(l, c, ReqOf(w.definitions, w.logs[o]))
            then OnlyLane(w, w', o, c.lane) && LaneOf(c.lane, w'.logs[o]) == Ok(After(l, c))
            else w' == w
  {
    LaneOkIsLane(c.lane, w.logs[o]);
    LaneHolds(w, o, c.lane);
    LeaseDecides(w, o, c, l);
    LeaseWrites(w, w', key, o, c);
    if Accepts(l, c, ReqOf(w.definitions, w.logs[o])) {
      GraphsAndReplay(w, o);
      LeaseBodySteps(l, c);
      CommitsOne(w, key, o, c.lane, LeaseBody(c), l);
      CommitTouchesOne(w, w', key, o, c.lane, LeaseBody(c));
    }
  }

  lemma LeaseWrites(w: State, w': State, key: Key, o: Id, c: LeaseCall)
    requires w' == Apply(w, key, o, Lease(c))
    ensures w' == Write(w, key, o, DecideLease(w, o, c)) && (DecideLease(w, o, c).Err? ==> w' == w)
  {
  }

  // ---------------------------------------------------------------- verification evidence

  /** Recording a dimension shows in the matrix: that dimension is what was reported, every other is as before. */
  lemma VerificationShows(own: seq<Body>, name: Id, outcome: CheckStatus, other: Id, s: CheckStatus)
    ensures DimensionIs(own + [VerificationRecorded(name, outcome)], other, s) <==>
            if other == name then s == outcome else DimensionIs(own, other, s)
  {
    var b := VerificationRecorded(name, outcome);
    var more := own + [b];
    forall i ensures LastOf(more, other, i) <==> if other == name then i == |own| else LastOf(own, other, i) {
      LastOfSnoc(own, b, other, i);
    }
    if other == name {
      assert LastOf(more, name, |own|);
    } else {
      CiUnmoved(own, b, s);
      assert forall i :: LastOf(own, other, i) ==> more[i] == own[i];
    }
  }

  lemma CiUnmoved(own: seq<Body>, b: Body, s: CheckStatus)
    requires !b.CiCheckReported?
    ensures CiIs(own + [b], s) <==> CiIs(own, s)
  {
    var more := own + [b];
    forall i ensures LastCheck(more, i) <==> LastCheck(own, i) {
      LastCheckSnoc(own, b, i);
    }
    assert forall i :: LastCheck(own, i) ==> more[i] == own[i];
  }

  /** The matrix of the later events shows the outcome in that dimension, and every other dimension as before. */
  ghost predicate MatrixMoves(own: seq<Body>, own': seq<Body>, name: Id, outcome: CheckStatus) {
    forall other, s :: DimensionIs(own', other, s) <==> if other == name then s == outcome else DimensionIs(own, other, s)
  }

  lemma CommitExtendsOwn(w: State, w': State, key: Key, o: Id, lane: Id, b: Body)
    requires o in w.logs && key !in w.audit && w' == Write(w, key, o, Ok([Event(Some(lane), b)]))
    ensures o in w'.logs && Own(lane, w'.logs[o]) == Own(lane, w.logs[o]) + [b]
  {
    AppendAllFrame(w, o, [Event(Some(lane), b)]);
    OwnAppend(lane, w.logs[o], Event(Some(lane), b));
  }

  /** RecordVerificationDimension at the current revision of a lane short of a terminal status: the lane only counts one
      event more, and its verification matrix shows the outcome in that dimension and nothing else anew. */
  lemma VerificationOutcome(w: State, w': State, key: Key, o: Id, lane: Id, name: Id, outcome: CheckStatus, rev: int, l: Lane)
    requires Inv(w) && o in w.logs && key !in w.audit && LaneOf(lane, w.logs[o]) == Ok(l)
    requires w' == Apply(w, key, o, Evidence(Verify(lane, name, outcome, rev)))
    ensures if l.revision == rev && !IsLaneTerminal(l.status)
            then && OnlyLane(w, w', o, lane) && LaneOf(lane, w'.logs[o]) == Ok(l.(revision := l.revision + 1))
                 && MatrixMoves(Own(lane, w.logs[o]), Own(lane, w'.logs[o]), name, outcome)
            else w' == w
  {
    VerifyWrites(w, w', key, o, lane, name, outcome, rev, l);
    if l.revision == rev && !IsLaneTerminal(l.status) {
      GraphsAndReplay(w, o);
      EvidenceCommits(w, w', key, o, lane, name, outcome, l);
    }
  }

  lemma EvidenceCommits(w: State, w': State, key: Key, o: Id, lane: Id, name: Id, outcome: CheckStatus, l: Lane)
    requires o in w.logs && OrchOf(w.logs[o]).Ok? && key !in w.audit && LaneOf(lane, w.logs[o]) == Ok(l)
    requires w' == Write(w, key, o, Ok([Event(Some(lane), VerificationRecorded(name, outcome))]))
    ensures OnlyLane(w, w', o, lane) && LaneOf(lane, w'.logs[o]) == Ok(l.(revision := l.revision + 1))
    ensures MatrixMoves(Own(lane, w.logs[o]), Own(lane, w'.logs[o]), name, outcome)
  {
    var b := VerificationRecorded(name, outcome);
    CommitsOne(w, key, o, lane, b, l);
    CommitTouchesOne(w, w', key, o, lane, b);
    CommitExtendsOwn(w, w', key, o, lane, b);
    forall other, s
      ensures DimensionIs(Own(lane, w'.logs[o]), other, s) <==>
              if other == name then s == outcome else DimensionIs(Own(lane, w.logs[o]), other, s)
    {
      VerificationShows(Own(lane, w.logs[o]), name, outcome, other, s);
    }
  }

  lemma VerifyWrites(w: State, w': State, key: Key, o: Id, lane: Id, name: Id, outcome: CheckStatus, rev: int, l: Lane)
    requires o in w.logs && LaneOf(lane, w.logs[o]) == Ok(l)
    requires w' == Apply(w, key, o, Evidence(Verify(lane, name, outcome, rev)))
    ensures if l.revision == rev && !IsLaneTerminal(l.status)
            then w' == Write(w, key, o, Ok([Event(Some(lane), VerificationRecorded(name, outcome))]))
            else w' == w
  {
    var d := Note(w.logs[o], lane, rev, VerificationRecorded(name, outcome));
    assert w' == Write(w, key, o, d);
  }

  // ---------------------------------------------------------------- shared ids

  /** No store call checks that an id is not used for another kind of entity. An edge, task, source or worklog event under
      a lane's id makes the lane unreadable, and with it every call that reads all lanes; under any other id it does no
      harm. */
  lemma SharedIdExactly(w: State, o: Id, id: Id, b: Body)
    requires Inv(w) && o in w.logs && !IsLaneBody(b)
    ensures LanesReplay(w.logs[o] + [Event(Some(id), b)]) <==> id !in LaneIds(w.logs[o])
  {
    var log, ev := w.logs[o], Event(Some(id), b);
    GraphsAndReplay(w, o);
    LaneIdsAppend(log, ev);
    forall lane | lane in LaneIds(log)
      ensures LaneOf(lane, log + [ev]) == if lane == id then Err(Corrupt) else LaneOf(lane, log)
    {
      LaneAfter(lane, log, ev);
    }
  }

  /** A lane created under an id is readable exactly when the id is a lane's already, or was not used and the project has
      an id. */
  lemma CreatedIdExactly(w: State, o: Id, id: Id, project: Id, task: Id, at: Time)
    requires Inv(w) && o in w.logs
    ensures LanesReplay(w.logs[o] + [Event(Some(id), LaneCreated(project, task, at))]) <==>
              id in LaneIds(w.logs[o]) || (Own(id, w.logs[o]) == [] && project != "")
  {
    var log, ev := w.logs[o], Event(Some(id), LaneCreated(project, task, at));
    GraphsAndReplay(w, o);
    LaneIdsAppend(log, ev);
    forall lane | lane in LaneIds(log) ensures LaneOf(lane, log + [ev]).Ok? {
      LaneAfter(lane, log, ev);
    }
    if id !in LaneIds(log) {
      NewIdReads(log, id, ev.body);
    }
  }

  lemma NewIdReads(log: seq<Event>, id: Id, created: Body)
    requires id !in LaneIds(log) && created.LaneCreated?
    ensures LaneOf(id, log + [Event(Some(id), created)]).Ok? <==> Own(id, log) == [] && created.project != ""
  {
    var own := Own(id, log);
    OwnAppend(id, log, Event(Some(id), created));
    LaneAfter(id, log, Event(Some(id), created));
    if own != [] && own[0].LaneCreated? {
      StartsCreated(own);
      HasCreatedIsLane(id, log);
    }
    assert (own + [created])[0] == if own == [] then created else own[0];
  }
}
