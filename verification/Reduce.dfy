/** Replay (internal/delivery/reduce.go): every entity's state is a fold of its own events. */
module Reduce {
  import opened Core
  import opened Events

  // ---------------------------------------------------------------- an entity's own events

  /** The bodies of the events scoped to entity `id`, in log order. */
  function Own(id: Id, log: seq<Event>): seq<Body> {
    if log == [] then []
    else
      var n := |log| - 1;
      if log[n].entity == Some(id) then Own(id, log[..n]) + [log[n].body] else Own(id, log[..n])
  }

  lemma OwnAppend(id: Id, log: seq<Event>, ev: Event)
    ensures Own(id, log + [ev]) == if ev.entity == Some(id) then Own(id, log) + [ev.body] else Own(id, log)
  {
    assert (log + [ev])[..|log|] == log;
  }

  lemma {:induction false} OwnConcat(id: Id, log: seq<Event>, more: seq<Event>)
    ensures Own(id, log + more) == Own(id, log) + Own(id, more)
  {
    if more == [] {
      assert log + more == log;
    } else {
      var n := |more| - 1;
      OwnConcat(id, log, more[..n]);
      assert log + more == (log + more[..n]) + [more[n]];
      OwnAppend(id, log + more[..n], more[n]);
    }
  }

  // ---------------------------------------------------------------- lanes

  datatype Lane = Lane(
    project: Id,
    parentTask: Id,
    createdAt: Time,
    status: LaneStatus,
    revision: nat,
    blockedBy: seq<Id>,
    worker: Option<Id>,
    token: Option<Token>,
    expiresAt: Option<Time>,
    attempt: Option<nat>,
    worktree: Option<string>,
    branch: Option<string>,
    semar: Option<Id>,
    gareng: Option<Id>,
    petruk: Option<Id>,
    bagong: Option<Id>,
    pr: Option<nat>,
    prUrl: Option<string>,
    repairs: Option<nat>,
    escalated: bool
  )

  /** A lane with mutating work in flight. */
  predicate Active(l: Lane) {
    l.status == Leased || l.status == Running
  }

  predicate IsLaneTerminal(s: LaneStatus) {
    s == Accepted || s == Failed
  }

  function NewLane(created: Body): Lane
    requires created.LaneCreated?
  {
    Lane(created.project, created.parentTask, created.createdAt, Waiting, 0, [], None, None, None, None,
         None, None, None, None, None, None, None, None, None, false)
  }

  /** One iteration of the replay switch. */
  function StepLane(was: Lane, b: Body): Result<Lane> {
    var l := was.(revision := was.revision + 1);
    match b
    case LaneCreated(_, _, _) => Ok(l)
    case LaneStatusChanged(s) => Ok(l.(status := s))
    case LaneBlocked(ids) => Ok(l.(status := Blocked, blockedBy := ids))
    case LaneUnblocked => Ok(l.(status := Runnable, blockedBy := []))
    case LeaseGranted(w, t, e, a) =>
      Ok(l.(status := Leased, worker := Some(w), token := Some(t), expiresAt := Some(e), attempt := Some(a)))
    case LeaseHeartbeat(e) => Ok(l.(status := Running, expiresAt := Some(e)))
    case LeaseCompleted => Ok(l.(status := Review))
    case LeaseRejected => Ok(l.(status := Runnable, worker := None, token := None, expiresAt := None))
    case LeaseTimedOut => Ok(l.(status := Runnable, worker := None, token := None, expiresAt := None))
    case LeaseCancelled => Ok(l.(status := Failed, worker := None, token := None, expiresAt := None))
    case WorktreeCreated(p, br) => Ok(l.(worktree := Some(p), branch := Some(br)))
    case WorktreeRemoved => Ok(l.(worktree := None))
    case StageSubmitted(stage, rec) =>
      Ok(match stage
         case Semar => l.(semar := Some(rec), gareng := None, petruk := None, bagong := None)
         case Gareng => l.(gareng := Some(rec), petruk := None, bagong := None)
         case Petruk => l.(petruk := Some(rec), bagong := None)
         case Bagong => l.(bagong := Some(rec)))
    case VerificationRecorded(_, _) => Ok(l)
    case CiCheckReported(_, _, _) => Ok(l)
    case CommitRecorded(_) => Ok(l)
    case ReviewConclusionRecorded(_) => Ok(l)
    case PrPublished(n, u) => Ok(l.(pr := Some(n), prUrl := Some(u)))
    case RepairCycleStarted(_) =>
      Ok(l.(repairs := Some((if l.repairs.Some? then l.repairs.value else 0) + 1), status := Runnable))
    case LaneEscalated(_) => Ok(l.(escalated := true))
    case _ => Err(Corrupt)
  }

  /** Left fold of StepLane; the first rejected event ends the replay. */
  function FoldLane(l: Lane, own: seq<Body>): Result<Lane> {
    if own == [] then Ok(l)
    else
      var n := |own| - 1;
      match FoldLane(l, own[..n])
      case Err(e) => Err(e)
      case Ok(m) => StepLane(m, own[n])
  }

  function ReplayLane(own: seq<Body>): Result<Lane> {
    if own == [] then Err(NotFound)
    else if !own[0].LaneCreated? || own[0].project == "" then Err(Corrupt)
    else FoldLane(NewLane(own[0]), own)
  }

  /** The lane state reduceLane derives from an orchestration's log. */
  function LaneOf(id: Id, log: seq<Event>): Result<Lane> {
    ReplayLane(Own(id, log))
  }

  lemma {:induction false} FoldLaneErr(l: Lane, own: seq<Body>, k: nat)
    requires k <= |own| && FoldLane(l, own[..k]).Err?
    ensures FoldLane(l, own) == FoldLane(l, own[..k])
    decreases |own|
  {
    if k == |own| {
      assert own[..k] == own;
    } else {
      assert own[..|own| - 1][..k] == own[..k];
      FoldLaneErr(l, own[..|own| - 1], k);
    }
  }

  /** reduceLane: the filtering loop, the two start checks, the replay loop. */
  method ReduceLane(id: Id, events: seq<Event>) returns (r: Result<Lane>)
    ensures r == LaneOf(id, events)
  {
    var own: seq<Body> := [];
    for i := 0 to |events|
      invariant own == Own(id, events[..i])
    {
      assert events[..i + 1] == events[..i] + [events[i]];
      OwnAppend(id, events[..i], events[i]);
      if events[i].entity == Some(id) {
        own := own + [events[i].body];
      }
    }
    assert events[..|events|] == events;
    if |own| == 0 {
      return Err(NotFound);
    }
    if !own[0].LaneCreated? || own[0].project == "" {
      return Err(Corrupt);
    }
    var l := NewLane(own[0]);
    for i := 0 to |own|
      invariant FoldLane(NewLane(own[0]), own[..i]) == Ok(l)
    {
      assert own[..i + 1][..i] == own[..i];
      var stepped := StepLane(l, own[i]);
      if stepped.Err? {
        FoldLaneErr(NewLane(own[0]), own, i + 1);
        return stepped;
      }
      l := stepped.value;
    }
    assert own[..|own|] == own;
    return Ok(l);
  }

  /** Replaying one more event steps the replayed state; a failed replay stays failed. */
  lemma ReplayLaneSnoc(own: seq<Body>, b: Body)
    requires own != [] && own[0].LaneCreated? && own[0].project != ""
    ensures ReplayLane(own + [b]) == match ReplayLane(own) case Err(e) => Err(e) case Ok(l) => StepLane(l, b)
  {
    assert (own + [b])[..|own|] == own;
  }

  /** A lane's first event. */
  lemma FirstLane(b: Body)
    requires b.LaneCreated? && b.project != ""
    ensures ReplayLane([b]) == Ok(NewLane(b).(revision := 1))
  {
    assert [b][..0] == [];
    assert FoldLane(NewLane(b), [b][..0]) == Ok(NewLane(b));
  }

  lemma ReplayLaneAppend(own: seq<Body>, b: Body)
    requires ReplayLane(own).Ok?
    ensures ReplayLane(own + [b]) == StepLane(ReplayLane(own).value, b)
  {
    ReplayLaneSnoc(own, b);
  }

  lemma {:induction false} ReplayLaneRevision(own: seq<Body>)
    requires ReplayLane(own).Ok?
    ensures ReplayLane(own).value.revision == |own|
  {
    FoldLaneRevision(NewLane(own[0]), own);
  }

  lemma {:induction false} FoldLaneRevision(l: Lane, own: seq<Body>)
    requires FoldLane(l, own).Ok?
    ensures FoldLane(l, own).value.revision == l.revision + |own|
  {
    if own != [] {
      FoldLaneRevision(l, own[..|own| - 1]);
    }
  }

  /** Reducing log + batch is stepping the reduced lane through the batch's own events. */
  lemma {:induction false} LaneOfBatch(id: Id, log: seq<Event>, batch: seq<Event>)
    requires LaneOf(id, log).Ok?
    ensures LaneOf(id, log + batch) == FoldLane(LaneOf(id, log).value, Own(id, batch))
  {
    if batch == [] {
      assert log + batch == log;
    } else {
      var n := |batch| - 1;
      LaneOfBatch(id, log, batch[..n]);
      assert log + batch == (log + batch[..n]) + [batch[n]];
      OwnAppend(id, log + batch[..n], batch[n]);
      OwnAppend(id, batch[..n], batch[n]);
      assert batch == batch[..n] + [batch[n]];
      OwnConcat(id, log, batch[..n]);
      if batch[n].entity == Some(id) {
        ReplayLaneSnoc(Own(id, log + batch[..n]), batch[n].body);
        assert (Own(id, batch[..n]) + [batch[n].body])[..|Own(id, batch[..n])|] == Own(id, batch[..n]);
      }
    }
  }

  /** Optimistic concurrency is sound: a log that grew but shows the lane at the same revision shows the same lane. */
  lemma LaneRevisionSound(id: Id, log: seq<Event>, more: seq<Event>)
    requires LaneOf(id, log).Ok? && LaneOf(id, log + more).Ok?
    requires LaneOf(id, log).value.revision == LaneOf(id, log + more).value.revision
    ensures LaneOf(id, log + more) == LaneOf(id, log)
    ensures Own(id, more) == []
  {
    OwnConcat(id, log, more);
    ReplayLaneRevision(Own(id, log));
    ReplayLaneRevision(Own(id, log + more));
    assert Own(id, log) + [] == Own(id, log);
  }

  /** Events scoped to other entities never change a lane. */
  lemma LaneIgnoresOthers(id: Id, log: seq<Event>, more: seq<Event>)
    requires forall i :: 0 <= i < |more| ==> more[i].entity != Some(id)
    ensures LaneOf(id, log + more) == LaneOf(id, log)
  {
    OwnNone(id, more);
    OwnConcat(id, log, more);
    assert Own(id, log) + [] == Own(id, log);
  }

  lemma {:induction false} OwnNone(id: Id, more: seq<Event>)
    requires forall i :: 0 <= i < |more| ==> more[i].entity != Some(id)
    ensures Own(id, more) == []
  {
    if more != [] {
      OwnNone(id, more[..|more| - 1]);
    }
  }

  // ---------------------------------------------------------------- all lanes

  /** The ids allLanes reduces: those with a lane.created event. */
  function LaneIds(log: seq<Event>): set<Id> {
    set i | 0 <= i < |log| && log[i].body.LaneCreated? && log[i].entity.Some? :: log[i].entity.value
  }

  lemma LaneIdsAppend(log: seq<Event>, ev: Event)
    ensures LaneIds(log + [ev]) == LaneIds(log) + if ev.body.LaneCreated? && ev.entity.Some? then {ev.entity.value} else {}
  {
    var l2 := log + [ev];
    forall id | id in LaneIds(log) ensures id in LaneIds(l2) {
      var i :| 0 <= i < |log| && log[i].body.LaneCreated? && log[i].entity == Some(id);
      assert l2[i] == log[i];
    }
    if ev.body.LaneCreated? && ev.entity.Some? {
      assert l2[|log|] == ev;
    }
  }

  ghost predicate HasCreated(own: seq<Body>) {
    own != [] && (own[|own| - 1].LaneCreated? || HasCreated(own[..|own| - 1]))
  }

  lemma {:induction false} HasCreatedIsLane(id: Id, log: seq<Event>)
    ensures HasCreated(Own(id, log)) <==> id in LaneIds(log)
  {
    if log != [] {
      var n := |log| - 1;
      HasCreatedIsLane(id, log[..n]);
      TakeSnoc(log, n);
      TakeAll(log);
      LaneIdsAppend(log[..n], log[n]);
      assert Own(id, log) == Own(id, log[..n]) + [log[n].body] ==> Own(id, log)[..|Own(id, log)| - 1] == Own(id, log[..n]);
    }
  }

  lemma {:induction false} StartsCreated(own: seq<Body>)
    requires own != [] && own[0].LaneCreated?
    ensures HasCreated(own)
  {
    if |own| > 1 {
      StartsCreated(own[..|own| - 1]);
    }
  }

  /** A lane that replays has a lane.created event. */
  lemma LaneOkIsLane(id: Id, log: seq<Event>)
    requires LaneOf(id, log).Ok?
    ensures id in LaneIds(log)
  {
    StartsCreated(Own(id, log));
    HasCreatedIsLane(id, log);
  }

  /** The lane an appended event leaves behind. */
  lemma LaneAfter(id: Id, log: seq<Event>, ev: Event)
    ensures ev.entity != Some(id) ==> LaneOf(id, log + [ev]) == LaneOf(id, log)
    ensures ev.entity == Some(id) && LaneOf(id, log).Ok? ==>
              LaneOf(id, log + [ev]) == StepLane(LaneOf(id, log).value, ev.body)
    ensures ev.entity == Some(id) && Own(id, log) == [] && ev.body.LaneCreated? && ev.body.project != "" ==>
              LaneOf(id, log + [ev]) == Ok(NewLane(ev.body).(revision := 1))
  {
    OwnAppend(id, log, ev);
    if ev.entity == Some(id) {
      if LaneOf(id, log).Ok? {
        ReplayLaneAppend(Own(id, log), ev.body);
      } else if Own(id, log) == [] && ev.body.LaneCreated? && ev.body.project != "" {
        assert [] + [ev.body] == [ev.body];
        FirstLane(ev.body);
      }
    }
  }

  /** Every lane entity of the log replays. */
  ghost predicate LanesReplay(log: seq<Event>) {
    forall id :: id in LaneIds(log) ==> LaneOf(id, log).Ok?
  }

  /** The lane table of a log whose lanes all replay. */
  function Lanes(log: seq<Event>): (m: map<Id, Lane>)
    requires LanesReplay(log)
  {
    map id | id in LaneIds(log) :: LaneOf(id, log).value
  }

  /** allLanes: collect the ids, then reduce each one; the first lane that does not replay fails the whole call. */
  method AllLanes(events: seq<Event>) returns (r: Result<map<Id, Lane>>)
    ensures r.Ok? <==> LanesReplay(events)
    ensures r.Ok? ==> r.value == Lanes(events)
    ensures r.Err? ==> exists id :: id in LaneIds(events) && LaneOf(id, events) == Err(r.error)
  {
    var ids: set<Id> := {};
    for i := 0 to |events|
      invariant ids == LaneIds(events[..i])
    {
      assert events[..i + 1] == events[..i] + [events[i]];
      LaneIdsAppend(events[..i], events[i]);
      if events[i].body.LaneCreated? && events[i].entity.Some? {
        ids := ids + {events[i].entity.value};
      }
    }
    assert events[..|events|] == events;
    var out: map<Id, Lane> := map[];
    var todo := ids;
    while todo != {}
      invariant todo <= ids && out.Keys == ids - todo
      invariant forall id :: id in out ==> LaneOf(id, events) == Ok(out[id])
      decreases |todo|
    {
      var id :| id in todo;
      var l := ReduceLane(id, events);
      if l.Err? {
        return Err(l.error);
      }
      out := out[id := l.value];
      todo := todo - {id};
    }
    return Ok(out);
  }

  // ---------------------------------------------------------------- orchestrations

  datatype OrchStatus = OrchPending | OrchActive | OrchCancelled | OrchCompleted

  datatype Orchestration = Orchestration(
    status: OrchStatus,
    revision: nat,
    workflow: Id, // "" when no definition is attached
    projects: seq<Id>,
    unresolved: seq<Id>
  )

  predicate IsTerminal(s: OrchStatus) {
    s == OrchCancelled || s == OrchCompleted
  }

  const NEW_ORCHESTRATION := Orchestration(OrchPending, 0, "", [], [])

  /** The unresolved inputs other than `ref`, in order. */
  function Without(s: seq<Id>, ref: Id): seq<Id> {
    if s == [] then []
    else if s[|s| - 1] == ref then Without(s[..|s| - 1], ref)
    else Without(s[..|s| - 1], ref) + [s[|s| - 1]]
  }

  /** `s` without its first occurrence of `x`. */
  function RemoveFirst(s: seq<Id>, x: Id): seq<Id> {
    if s == [] then [] else if s[0] == x then s[1..] else [s[0]] + RemoveFirst(s[1..], x)
  }

  /** The pending orchestration becomes active with any later orchestration-scoped event. */
  function Promote(o: Orchestration, first: bool): Orchestration {
    if !first && o.status == OrchPending then o.(status := OrchActive) else o
  }

  function StepOrch(was: Orchestration, first: bool, b: Body): Result<Orchestration> {
    var o := was.(revision := was.revision + 1);
    match b
    case OrchestrationCreated(inputs, w) =>
      Ok(Promote(o.(unresolved := inputs, workflow := if w != "" then w else o.workflow), first))
    case DetailsUpdated => Ok(Promote(o, first))
    case ProjectAttached(p) =>
      Ok(Promote(if p != "" && p !in o.projects then o.(projects := o.projects + [p]) else o, first))
    case ProjectDetached(p) => Ok(Promote(o.(projects := RemoveFirst(o.projects, p)), first))
    case InputRegistered(ref) => Ok(Promote(o.(unresolved := o.unresolved + [ref]), first))
    case InputResolved(ref) => Ok(Promote(o.(unresolved := Without(o.unresolved, ref)), first))
    case OrchestrationCancelled => Ok(o.(status := OrchCancelled))
    case OrchestrationCompleted => Ok(o.(status := OrchCompleted))
    case CompletedWithGaps => Ok(o) // no promotion either
    case _ => Err(Corrupt)
  }

  function FoldOrch(log: seq<Event>): Result<Orchestration> {
    if log == [] then Ok(NEW_ORCHESTRATION)
    else
      var n := |log| - 1;
      match FoldOrch(log[..n])
      case Err(e) => Err(e)
      case Ok(o) => if log[n].entity.Some? then Ok(o) else StepOrch(o, n == 0, log[n].body)
  }

  /** The orchestration state reduceOrchestration derives from a log. */
  function OrchOf(log: seq<Event>): Result<Orchestration> {
    if log == [] then Err(NotFound)
    else if !log[0].body.OrchestrationCreated? then Err(Corrupt)
    else FoldOrch(log)
  }

  lemma {:induction false} FoldOrchErr(log: seq<Event>, k: nat)
    requires k <= |log| && FoldOrch(log[..k]).Err?
    ensures FoldOrch(log) == FoldOrch(log[..k])
    decreases |log|
  {
    if k == |log| {
      assert log[..k] == log;
    } else {
      assert log[..|log| - 1][..k] == log[..k];
      FoldOrchErr(log[..|log| - 1], k);
    }
  }

  /** reduceOrchestration: one pass over the whole log, skipping entity-scoped events. */
  method ReduceOrchestration(events: seq<Event>) returns (r: Result<Orchestration>)
    ensures r == OrchOf(events)
  {
    if |events| == 0 {
      return Err(NotFound);
    }
    if !events[0].body.OrchestrationCreated? {
      return Err(Corrupt);
    }
    var o := NEW_ORCHESTRATION;
    for i := 0 to |events|
      invariant FoldOrch(events[..i]) == Ok(o)
    {
      assert events[..i + 1][..i] == events[..i];
      if events[i].entity.None? {
        var stepped := StepOrch(o, i == 0, events[i].body);
        if stepped.Err? {
          FoldOrchErr(events, i + 1);
          return stepped;
        }
        o := stepped.value;
      }
    }
    assert events[..|events|] == events;
    return Ok(o);
  }

  lemma OrchOfAppend(log: seq<Event>, ev: Event)
    requires OrchOf(log).Ok?
    ensures OrchOf(log + [ev]) ==
            if ev.entity.Some? then OrchOf(log) else StepOrch(OrchOf(log).value, false, ev.body)
  {
    assert (log + [ev])[..|log|] == log;
  }

  /** The orchestration-scoped events of a log. */
  function OrchEvents(log: seq<Event>): nat {
    if log == [] then 0
    else OrchEvents(log[..|log| - 1]) + if log[|log| - 1].entity.None? then 1 else 0
  }

  lemma {:induction false} FoldOrchRevision(log: seq<Event>)
    requires FoldOrch(log).Ok?
    ensures FoldOrch(log).value.revision == OrchEvents(log)
  {
    if log != [] {
      FoldOrchRevision(log[..|log| - 1]);
    }
  }

  lemma {:induction false} FoldOrchGrows(log: seq<Event>, more: seq<Event>)
    requires log != [] && FoldOrch(log + more).Ok?
    ensures FoldOrch(log).Ok?
    ensures OrchEvents(log + more) >= OrchEvents(log)
    ensures OrchEvents(log + more) == OrchEvents(log) ==> FoldOrch(log + more) == FoldOrch(log)
  {
    if more == [] {
      assert log + more == log;
    } else {
      var n := |more| - 1;
      assert (log + more)[..|log + more| - 1] == log + more[..n];
      FoldOrchGrows(log, more[..n]);
    }
  }

  /** The orchestration revision counts orchestration events, so an equal revision after any growth means an equal state. */
  lemma OrchRevisionSound(log: seq<Event>, more: seq<Event>)
    requires OrchOf(log).Ok? && OrchOf(log + more).Ok?
    requires OrchOf(log).value.revision == OrchOf(log + more).value.revision
    ensures OrchOf(log + more) == OrchOf(log)
  {
    FoldOrchRevision(log);
    FoldOrchRevision(log + more);
    FoldOrchGrows(log, more);
  }

  // ---------------------------------------------------------------- tasks

  datatype Task = Task(routed: bool, project: Option<Id>, revision: nat)

  predicate IsTaskBody(b: Body) {
    b.TaskCreated? || b.TaskRouted?
  }

  /** The task.created/task.routed events of `id`; other events carrying the id are not read. */
  function OwnTask(id: Id, log: seq<Event>): seq<Body> {
    if log == [] then []
    else
      var n := |log| - 1;
      if log[n].entity == Some(id) && IsTaskBody(log[n].body) then OwnTask(id, log[..n]) + [log[n].body] else OwnTask(id, log[..n])
  }

  function FoldTask(own: seq<Body>): Task {
    if own == [] then Task(false, None, 0)
    else
      var n := |own| - 1;
      var t := FoldTask(own[..n]).(revision := n + 1);
      if own[n].TaskRouted? then t.(routed := true, project := Some(own[n].routedTo)) else t
  }

  function TaskOf(id: Id, log: seq<Event>): Result<Task> {
    var own := OwnTask(id, log);
    if own == [] then Err(NotFound)
    else if !own[0].TaskCreated? then Err(Corrupt)
    else Ok(FoldTask(own))
  }

  function TaskIds(log: seq<Event>): set<Id> {
    set i | 0 <= i < |log| && log[i].body.TaskCreated? && log[i].entity.Some? :: log[i].entity.value
  }

  lemma TaskAfter(id: Id, log: seq<Event>, ev: Event)
    ensures TaskOf(id, log + [ev]) == Err(Corrupt) ==>
              TaskOf(id, log) == Err(Corrupt) || (ev.entity == Some(id) && ev.body.TaskRouted? && TaskOf(id, log) == Err(NotFound))
    ensures TaskOf(id, log).Ok? ==> TaskOf(id, log + [ev]).Ok?
  {
    assert (log + [ev])[..|log|] == log;
  }

  /** reduceParentTask. */
  method ReduceParentTask(id: Id, events: seq<Event>) returns (r: Result<Task>)
    ensures r == TaskOf(id, events)
  {
    var own: seq<Body> := [];
    for i := 0 to |events|
      invariant own == OwnTask(id, events[..i])
    {
      assert events[..i + 1][..i] == events[..i];
      if events[i].entity == Some(id) && IsTaskBody(events[i].body) {
        own := own + [events[i].body];
      }
    }
    assert events[..|events|] == events;
    if |own| == 0 {
      return Err(NotFound);
    }
    if !own[0].TaskCreated? {
      return Err(Corrupt);
    }
    var t := Task(false, None, 0);
    for i := 0 to |own|
      invariant t == FoldTask(own[..i])
    {
      assert own[..i + 1][..i] == own[..i];
      t := t.(revision := t.revision + 1);
      if own[i].TaskRouted? {
        t := t.(routed := true, project := Some(own[i].routedTo));
      }
    }
    assert own[..|own|] == own;
    return Ok(t);
  }

  // ---------------------------------------------------------------- dependency edges

  datatype Edge = Edge(from: Id, to: Id, edgeType: EdgeType, active: bool, revision: nat)

  predicate IsEdgeBody(b: Body) {
    b.EdgeAdded? || b.EdgeRemoved?
  }

  function OwnEdge(id: Id, log: seq<Event>): seq<Body> {
    if log == [] then []
    else
      var n := |log| - 1;
      if log[n].entity == Some(id) && IsEdgeBody(log[n].body) then OwnEdge(id, log[..n]) + [log[n].body] else OwnEdge(id, log[..n])
  }

  /** Endpoints come from the first edge.added; any edge.removed removes the edge for good. */
  function FoldEdge(own: seq<Body>): Edge
    requires own != [] && own[0].EdgeAdded?
  {
    Edge(own[0].from, own[0].to, own[0].edgeType, forall i :: 0 <= i < |own| ==> !own[i].EdgeRemoved?, |own|)
  }

  function EdgeOf(id: Id, log: seq<Event>): Result<Edge> {
    var own := OwnEdge(id, log);
    if own == [] then Err(NotFound)
    else if !own[0].EdgeAdded? then Err(Corrupt)
    else Ok(FoldEdge(own))
  }

  function EdgeIds(log: seq<Event>): set<Id> {
    set i | 0 <= i < |log| && log[i].body.EdgeAdded? && log[i].entity.Some? :: log[i].entity.value
  }

  /** An edge after one more event: only a first edge.added creates it and only edge.removed changes it. */
  lemma EdgeAfter(id: Id, log: seq<Event>, ev: Event)
    ensures EdgeOf(id, log + [ev]) == Err(Corrupt) ==>
              EdgeOf(id, log) == Err(Corrupt) || (ev.entity == Some(id) && ev.body.EdgeRemoved? && EdgeOf(id, log) == Err(NotFound))
    ensures EdgeOf(id, log).Ok? ==> EdgeOf(id, log + [ev]).Ok?
    ensures EdgeOf(id, log).Ok? ==>
              var e, e' := EdgeOf(id, log).value, EdgeOf(id, log + [ev]).value;
              && (e'.from, e'.to, e'.edgeType) == (e.from, e.to, e.edgeType)
              && (e'.active <==> e.active && !(ev.entity == Some(id) && ev.body.EdgeRemoved?))
    ensures EdgeOf(id, log) == Err(NotFound) && EdgeOf(id, log + [ev]).Ok? ==>
              ev.entity == Some(id) && ev.body.EdgeAdded? &&
              EdgeOf(id, log + [ev]).value == Edge(ev.body.from, ev.body.to, ev.body.edgeType, true, 1)
  {
    assert (log + [ev])[..|log|] == log;
    var was, now := OwnEdge(id, log), OwnEdge(id, log + [ev]);
    if now != was {
      assert now == was + [ev.body];
      if was != [] && was[0].EdgeAdded? {
        assert now[|was|] == ev.body;
        assert forall i :: 0 <= i < |was| ==> now[i] == was[i];
      }
    }
  }

  /** reduceDependencyEdge. */
  method ReduceDependencyEdge(id: Id, events: seq<Event>) returns (r: Result<Edge>)
    ensures r == EdgeOf(id, events)
  {
    var own: seq<Body> := [];
    for i := 0 to |events|
      invariant own == OwnEdge(id, events[..i])
    {
      assert events[..i + 1][..i] == events[..i];
      if events[i].entity == Some(id) && IsEdgeBody(events[i].body) {
        own := own + [events[i].body];
      }
    }
    assert events[..|events|] == events;
    if |own| == 0 {
      return Err(NotFound);
    }
    if !own[0].EdgeAdded? {
      return Err(Corrupt);
    }
    var e := Edge(own[0].from, own[0].to, own[0].edgeType, true, 0);
    for i := 0 to |own|
      invariant e == Edge(own[0].from, own[0].to, own[0].edgeType,
                          forall k :: 0 <= k < i ==> !own[k].EdgeRemoved?, i)
    {
      e := e.(revision := e.revision + 1);
      if own[i].EdgeRemoved? {
        e := e.(active := false);
      }
    }
    return Ok(e);
  }
}
