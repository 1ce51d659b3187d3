/** One lane's life: which events the operations may append in which state, and what every such history keeps.
    Guards: internal/delivery/scheduler.go, rolestage.go, repair.go, publish.go, lanecompletion.go. */
module LaneRules {
  import opened Core
  import opened Events
  import opened Reduce

  // ---------------------------------------------------------------- role stages

  /** A workflow definition's explicit Required flags; nil and "no definition" are the empty map. */
  type Required = map<RoleStage, bool>

  function StageIndex(s: RoleStage): nat {
    match s case Semar => 0 case Gareng => 1 case Petruk => 2 case Bagong => 3
  }

  function Previous(s: RoleStage): RoleStage
    requires s != Semar
  {
    match s case Gareng => Semar case Petruk => Gareng case Bagong => Petruk
  }

  predicate IsRequired(req: Required, s: RoleStage) {
    if s in req then req[s] else s == Semar || s == Bagong
  }

  function RecordOf(l: Lane, s: RoleStage): Option<Id> {
    match s case Semar => l.semar case Gareng => l.gareng case Petruk => l.petruk case Bagong => l.bagong
  }

  predicate Recorded(l: Lane, s: RoleStage) {
    RecordOf(l, s).Some? && RecordOf(l, s).value != ""
  }

  /** precedingRecordID: the record of the nearest required stage before `s`, or "" when it is missing or when no
      earlier stage is required. */
  function PrecedingRecord(l: Lane, s: RoleStage, req: Required): Id
    decreases StageIndex(s)
  {
    if s == Semar then ""
    else
      var p := Previous(s);
      if !IsRequired(req, p) then PrecedingRecord(l, p, req)
      else if RecordOf(l, p).None? then "" else RecordOf(l, p).value
  }

  /** lastRequiredStage. */
  function LastRequired(req: Required): Option<RoleStage> {
    if IsRequired(req, Bagong) then Some(Bagong)
    else if IsRequired(req, Petruk) then Some(Petruk)
    else if IsRequired(req, Gareng) then Some(Gareng)
    else if IsRequired(req, Semar) then Some(Semar)
    else None
  }

  ghost predicate HasRequiredBefore(req: Required, s: RoleStage) {
    exists p :: StageIndex(p) < StageIndex(s) && IsRequired(req, p)
  }

  /** Every recorded stage after Semar stands on a full chain: some earlier stage is required, and every earlier
      required stage is recorded with a nonempty id. */
  ghost predicate StagesInOrder(l: Lane, req: Required) {
    forall s :: s != Semar && RecordOf(l, s).Some? ==>
      HasRequiredBefore(req, s) &&
      forall p :: StageIndex(p) < StageIndex(s) && IsRequired(req, p) ==> Recorded(l, p)
  }

  /** The order check of RecordRoleStage looks at one stage only, yet on an ordered lane it holds exactly when some
      earlier stage is required and all of them are recorded. */
  lemma {:induction false} NearestCoversAll(l: Lane, s: RoleStage, req: Required)
    requires StagesInOrder(l, req)
    ensures PrecedingRecord(l, s, req) != "" <==>
              HasRequiredBefore(req, s) &&
              forall p :: StageIndex(p) < StageIndex(s) && IsRequired(req, p) ==> Recorded(l, p)
    decreases StageIndex(s)
  {
    if s != Semar {
      var p := Previous(s);
      if !IsRequired(req, p) {
        NearestCoversAll(l, p, req);
      } else {
        assert StageIndex(p) < StageIndex(s);
      }
    }
  }

  /** The review gate CompleteLease checks. */
  predicate StagesComplete(l: Lane, req: Required) {
    l.semar.None? || LastRequired(req).None? || Recorded(l, LastRequired(req).value)
  }

  // ---------------------------------------------------------------- counting a lane's history

  function CountGrants(own: seq<Body>): nat {
    if own == [] then 0 else CountGrants(own[..|own| - 1]) + if own[|own| - 1].LeaseGranted? then 1 else 0
  }

  function CountRepairs(own: seq<Body>): nat {
    if own == [] then 0 else CountRepairs(own[..|own| - 1]) + if own[|own| - 1].RepairCycleStarted? then 1 else 0
  }

  function CountPublished(own: seq<Body>): nat {
    if own == [] then 0 else CountPublished(own[..|own| - 1]) + if own[|own| - 1].PrPublished? then 1 else 0
  }

  const MAX_REPAIR_CYCLES := 3

  function AttemptOf(l: Lane): nat {
    if l.attempt.Some? then l.attempt.value else 0
  }

  function Repairs(l: Lane): nat {
    if l.repairs.Some? then l.repairs.value else 0
  }

  // ---------------------------------------------------------------- the rules

  predicate Unleased(s: LaneStatus) {
    s == Waiting || s == Blocked || s == Runnable
  }

  /** The lane-local guard under which some operation appends `b`; `minted` tokens have been issued so far. */
  predicate Allowed(l: Lane, b: Body, req: Required, minted: Token) {
    match b
    case LaneCreated(p, _, _) => p != ""
    case LaneStatusChanged(s) => IsLaneTerminal(s)
    case LaneBlocked(_) => Unleased(l.status)
    case LaneUnblocked => Unleased(l.status)
    case LeaseGranted(_, t, _, a) => l.status == Runnable && t == minted && a == AttemptOf(l) + 1
    case LeaseHeartbeat(_) => Active(l)
    case LeaseCompleted => Active(l) && StagesComplete(l, req)
    case LeaseRejected => Active(l)
    case LeaseTimedOut => Active(l)
    case LeaseCancelled => false
    case WorktreeCreated(_, _) => true
    case WorktreeRemoved => true
    case StageSubmitted(s, _) => Active(l) && (s == Semar || PrecedingRecord(l, s, req) != "")
    case VerificationRecorded(_, _) => true
    case CiCheckReported(_, _, _) => true
    case CommitRecorded(_) => true
    case ReviewConclusionRecorded(_) => true
    case PrPublished(_, _) => l.pr.None?
    case RepairCycleStarted(_) => (l.status == Review || l.status == Running) && Repairs(l) < MAX_REPAIR_CYCLES
    case LaneEscalated(_) => true
    case _ => false
  }

  /** What every reachable lane state satisfies. Tokens stay below `minted`. */
  ghost predicate LaneOk(l: Lane, req: Required, minted: Token) {
    && (l.token.Some? ==> l.token.value < minted)
    && (Active(l) ==> l.token.Some? && l.expiresAt.Some?)
    && (l.blockedBy != [] ==> l.status == Blocked || IsLaneTerminal(l.status))
    && StagesInOrder(l, req)
    && (l.status == Review ==> StagesComplete(l, req))
    && Repairs(l) <= MAX_REPAIR_CYCLES
  }

  /** What every reachable lane history satisfies: it replays, and the state's counters count the log. */
  ghost predicate LaneInv(own: seq<Body>, req: Required, minted: Token) {
    && ReplayLane(own).Ok?
    && var l := ReplayLane(own).value;
    && LaneOk(l, req, minted)
    && AttemptOf(l) == CountGrants(own)
    && Repairs(l) == CountRepairs(own)
    && CountPublished(own) == (if l.pr.Some? then 1 else 0)
  }

  /** A new lane satisfies the invariant. */
  lemma NewLaneInv(b: Body, req: Required, minted: Token)
    requires b.LaneCreated? && b.project != ""
    ensures LaneInv([b], req, minted)
  {
    var own := [b];
    assert own[..0] == [];
    assert FoldLane(NewLane(b), own[..0]) == Ok(NewLane(b));
  }

  /** Every rule keeps it. */
  lemma AllowedKeepsLaneInv(own: seq<Body>, b: Body, req: Required, minted: Token)
    requires LaneInv(own, req, minted) && Allowed(ReplayLane(own).value, b, req, minted)
    ensures LaneInv(own + [b], req, if b.LeaseGranted? then minted + 1 else minted)
  {
    var l := ReplayLane(own).value;
    AllowedKeepsLaneOk(l, b, req, minted);
    ReplayLaneAppend(own, b);
    StepCounters(l, b);
    CountsSnoc(own, b);
  }

  /** How one event moves a lane's counters. */
  lemma StepCounters(l: Lane, b: Body)
    requires StepLane(l, b).Ok?
    ensures var m := StepLane(l, b).value;
      && AttemptOf(m) == (if b.LeaseGranted? then b.attempt else AttemptOf(l))
      && Repairs(m) == (if b.RepairCycleStarted? then Repairs(l) + 1 else Repairs(l))
      && m.pr.Some? == (b.PrPublished? || l.pr.Some?)
  {
  }

  lemma CountsSnoc(own: seq<Body>, b: Body)
    ensures CountGrants(own + [b]) == CountGrants(own) + if b.LeaseGranted? then 1 else 0
    ensures CountRepairs(own + [b]) == CountRepairs(own) + if b.RepairCycleStarted? then 1 else 0
    ensures CountPublished(own + [b]) == CountPublished(own) + if b.PrPublished? then 1 else 0
  {
    assert (own + [b])[..|own|] == own;
  }

  /** The lease fields, the blockers and the repair budget. */
  lemma AllowedKeepsLease(l: Lane, b: Body, req: Required, minted: Token, later: Token)
    requires LaneOk(l, req, minted) && Allowed(l, b, req, minted) && later == if b.LeaseGranted? then minted + 1 else minted
    ensures StepLane(l, b).Ok?
    ensures var m := StepLane(l, b).value;
      && (m.token.Some? ==> m.token.value < later)
      && (Active(m) ==> m.token.Some? && m.expiresAt.Some?)
      && (m.blockedBy != [] ==> m.status == Blocked || IsLaneTerminal(m.status))
      && Repairs(m) <= MAX_REPAIR_CYCLES
  {
  }

  /** The review gate: the stage records a lane enters review with stay as they are. */
  lemma AllowedKeepsReview(l: Lane, b: Body, req: Required, minted: Token)
    requires LaneOk(l, req, minted) && Allowed(l, b, req, minted) && StepLane(l, b).Ok?
    ensures StepLane(l, b).value.status == Review ==> StagesComplete(StepLane(l, b).value, req)
  {
  }

  lemma AllowedKeepsLaneOk(l: Lane, b: Body, req: Required, minted: Token)
    requires LaneOk(l, req, minted) && Allowed(l, b, req, minted)
    ensures StepLane(l, b).Ok?
    ensures LaneOk(StepLane(l, b).value, req, if b.LeaseGranted? then minted + 1 else minted)
  {
    AllowedKeepsLease(l, b, req, minted, if b.LeaseGranted? then minted + 1 else minted);
    AllowedKeepsReview(l, b, req, minted);
    if b.StageSubmitted? {
      StageKeepsOrder(l, b, req);
    } else {
      OthersKeepRecords(l, b);
      SameRecordsSameOrder(l, StepLane(l, b).value, req);
    }
  }

  lemma OthersKeepRecords(l: Lane, b: Body)
    requires !b.StageSubmitted? && StepLane(l, b).Ok?
    ensures var m := StepLane(l, b).value;
            l.semar == m.semar && l.gareng == m.gareng && l.petruk == m.petruk && l.bagong == m.bagong
  {
  }

  lemma SameRecordsSameOrder(l: Lane, m: Lane, req: Required)
    requires StagesInOrder(l, req)
    requires l.semar == m.semar && l.gareng == m.gareng && l.petruk == m.petruk && l.bagong == m.bagong
    ensures StagesInOrder(m, req)
  {
    assert forall s :: RecordOf(m, s) == RecordOf(l, s) && Recorded(m, s) == Recorded(l, s);
  }

  lemma StageKeepsOrder(l: Lane, b: Body, req: Required)
    requires b.StageSubmitted? && StagesInOrder(l, req)
    requires b.stage == Semar || PrecedingRecord(l, b.stage, req) != ""
    ensures StepLane(l, b).Ok? && StagesInOrder(StepLane(l, b).value, req)
  {
    var m := StepLane(l, b).value;
    NearestCoversAll(l, b.stage, req);
    forall s | s != Semar && RecordOf(m, s).Some?
      ensures HasRequiredBefore(req, s)
      ensures forall p :: StageIndex(p) < StageIndex(s) && IsRequired(req, p) ==> Recorded(m, p)
    {
      assert StageIndex(s) <= StageIndex(b.stage);
      forall p | StageIndex(p) < StageIndex(s) && IsRequired(req, p) ensures Recorded(m, p) {
        assert RecordOf(m, p) == RecordOf(l, p);
      }
    }
  }

  lemma LaneInvLater(own: seq<Body>, req: Required, minted: Token, later: Token)
    requires LaneInv(own, req, minted) && minted <= later
    ensures LaneInv(own, req, later)
  {
  }

  // ---------------------------------------------------------------- fencing

  /** Token t no longer holds this lane. */
  predicate Fenced(l: Lane, t: Token) {
    !Active(l) || l.token != Some(t)
  }

  /** Once fenced, a token that was issued before stays fenced whatever is appended. */
  lemma FencedStays(l: Lane, b: Body, req: Required, minted: Token, t: Token)
    requires Fenced(l, t) && t < minted && Allowed(l, b, req, minted) && StepLane(l, b).Ok?
    ensures Fenced(StepLane(l, b).value, t)
  {
  }

  /** Rejection, time-out, completion, a repair cycle and a terminal status each fence the token they find. */
  lemma EndsFence(l: Lane, b: Body, t: Token)
    requires b.LeaseRejected? || b.LeaseTimedOut? || b.LeaseCompleted? || b.RepairCycleStarted? ||
             (b.LaneStatusChanged? && IsLaneTerminal(b.status)) || (b.LeaseGranted? && b.token != t)
    ensures StepLane(l, b).Ok? && Fenced(StepLane(l, b).value, t)
  {
  }
}
