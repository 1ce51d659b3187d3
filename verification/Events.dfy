/** The delivery event log: every event type of an orchestration's append-only log, with the payload
    fields that decide something. Texts, timestamps and external identifiers nobody branches on are dropped. */
module Events {
  import opened Core

  type Id = string
  type Token = nat
  type Time = int

  datatype LaneStatus = Waiting | Blocked | Runnable | Leased | Running | Review | Accepted | Failed

  datatype RoleStage = Semar | Gareng | Petruk | Bagong

  datatype EdgeType = Requires | ProducesInputFor | SerializesWith | Informational

  datatype EdgeOrigin = ExplicitSource | User | RepositoryFact | ModelInference

  datatype CheckStatus = CheckPending | CheckPassed | CheckFailed | CheckCancelled

  datatype ReviewOutcome = Approved | ChangesRequested | ReviewBlocked

  /** overrideReason "" states no reason for letting the implementer review. */
  datatype Conclusion = Conclusion(outcome: ReviewOutcome, worker: Id, session: Id, overrideReason: string)

  datatype Body =
    // lane-scoped
    | LaneCreated(project: Id, parentTask: Id, createdAt: Time) // parentTask "" names no task
    | LaneStatusChanged(status: LaneStatus)
    | LaneBlocked(blockedBy: seq<Id>)
    | LaneUnblocked
    | LeaseGranted(worker: Id, token: Token, expiresAt: Time, attempt: nat)
    | LeaseHeartbeat(renewedTo: Time)
    | LeaseCompleted
    | LeaseRejected
    | LeaseTimedOut
    | LeaseCancelled
    | WorktreeCreated(path: string, branch: string)
    | WorktreeRemoved
    | StageSubmitted(stage: RoleStage, record: Id)
    | VerificationRecorded(dimension: Id, outcome: CheckStatus)
    | CiCheckReported(check: Id, required: bool, checkStatus: CheckStatus)
    | CommitRecorded(sha: Id)
    | ReviewConclusionRecorded(conclusion: Conclusion)
    | PrPublished(number: nat, url: string)
    | RepairCycleStarted(reason: string)
    | LaneEscalated(why: string)
    // task-, edge-, source- and worklog-scoped
    | TaskCreated(sources: seq<Id>)
    | TaskRouted(routedTo: Id)
    | EdgeAdded(from: Id, to: Id, edgeType: EdgeType, origin: EdgeOrigin)
    | EdgeRemoved(evidence: string)
    | RequirementCaptured(canonicalKey: Id, contentHash: Id)
    | WorklogRecorded
    // orchestration-scoped
    | OrchestrationCreated(inputs: seq<Id>, workflow: Id) // workflow "" names no definition
    | DetailsUpdated
    | ProjectAttached(attached: Id)
    | ProjectDetached(detached: Id)
    | InputRegistered(registered: Id)
    | InputResolved(resolved: Id)
    | OrchestrationCancelled
    | OrchestrationCompleted
    | CompletedWithGaps

  /** entity is None for an orchestration-scoped event. */
  datatype Event = Event(entity: Option<Id>, body: Body)

  predicate IsLaneBody(b: Body) {
    match b
    case LaneCreated(_, _, _) => true
    case LaneStatusChanged(_) => true
    case LaneBlocked(_) => true
    case LaneUnblocked => true
    case LeaseGranted(_, _, _, _) => true
    case LeaseHeartbeat(_) => true
    case LeaseCompleted => true
    case LeaseRejected => true
    case LeaseTimedOut => true
    case LeaseCancelled => true
    case WorktreeCreated(_, _) => true
    case WorktreeRemoved => true
    case StageSubmitted(_, _) => true
    case VerificationRecorded(_, _) => true
    case CiCheckReported(_, _, _) => true
    case CommitRecorded(_) => true
    case ReviewConclusionRecorded(_) => true
    case PrPublished(_, _) => true
    case RepairCycleStarted(_) => true
    case LaneEscalated(_) => true
    case _ => false
  }
}
