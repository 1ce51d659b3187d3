/** CompleteLaneWork (internal/delivery/lanecompletion.go): a composition of durable writes that is not atomic itself. Each
    write has a key derived from the request's, so an attempt that stopped anywhere can be repeated. */
module Completion {
  import opened Core
  import opened Events
  import opened Reduce
  import opened LaneRules
  import opened World
  import opened Operations
  import opened Machine
  import opened Matrix
  import opened Resume
  import opened Text

  datatype Verification = Verification(name: Id, status: CheckStatus)

  datatype Request = Request(
    key: Key, orch: Id, lane: Id, worker: Id, session: Id,
    verifications: seq<Verification>,
    outcome: LaneStatus,
    summary: string,
    overrideReason: string, // why the session that did the work may conclude its review
    workLogged: bool        // requireLaneWorkLog is satisfied
  )

  /** validate. */
  predicate Admissible(r: Request) {
    && TrimSpace(r.orch) != "" && TrimSpace(r.lane) != "" && TrimSpace(r.worker) != "" && TrimSpace(r.session) != ""
    && TrimSpace(r.summary) != "" && IsLaneTerminal(r.outcome)
    && forall i :: 0 <= i < |r.verifications| ==>
         r.verifications[i].name in DIMENSIONS && r.verifications[i].status != CheckCancelled
  }

  /** The request under the key its writes are derived from: its own, trimmed, or a minted one when that is blank. */
  function Keyed(r: Request, minted: Key): Request {
    r.(key := if TrimSpace(r.key) == "" then minted else TrimSpace(r.key))
  }

  /** The durable writes. */
  datatype Stage = TakeLease | Record(v: Verification) | Finish | Judge | Settle

  function Tag(s: Stage): string {
    match s
    case TakeLease => "lease"
    case Record(v) => "verify:" + v.name
    case Finish => "complete-lease"
    case Judge => "review"
    case Settle => "terminal"
  }

  function KeyOf(r: Request, s: Stage): Key {
    r.key + ":" + Tag(s)
  }

  function Records(vs: seq<Verification>): seq<Stage> {
    seq(|vs|, i requires 0 <= i < |vs| => Record(vs[i]))
  }

  function Stages(r: Request, runnable: bool): seq<Stage> {
    (if runnable then [TakeLease] else []) + Records(r.verifications) + [Finish, Judge, Settle]
  }

  /** What the request concludes about its own work. */
  function Verdict(r: Request): Conclusion {
    Conclusion(if r.outcome == Failed then ReviewBlocked else Approved, r.worker, r.session, TrimSpace(r.overrideReason))
  }

  /** The store call a stage makes, with the lane's current revision. */
  function CallOf(r: Request, s: Stage, rev: int, token: Token, expiresAt: Time): Call {
    match s
    case TakeLease => Lease(Grant(r.lane, rev, r.worker, expiresAt))
    case Record(v) => Evidence(Verify(r.lane, v.name, v.status, rev))
    case Finish => Lease(Complete(r.lane, token, rev, r.workLogged))
    case Judge => Evidence(Conclude(r.lane, Verdict(r), r.session, rev))
    case Settle => Evidence(UpdateStatus(r.lane, rev, r.outcome))
  }

  /** The checks a stage makes before it opens its transaction. */
  function Precheck(r: Request, s: Stage): Option<Error> {
    if s.Finish? && !r.workLogged then Some(WorkLogRequired)
    else if s.Judge? then Refused(Verdict(r), r.session)
    else None
  }

  /** What the call of a stage decides, l being the lane it finds. */
  function Decision(w: State, r: Request, s: Stage, l: Lane, token: Token, expiresAt: Time): Result<seq<Event>> {
    match s
    case TakeLease => GrantDecision(w, r.orch, r.lane, l.revision, r.worker, expiresAt)
    case Record(v) => Note(LogOf(w, r.orch), r.lane, l.revision, VerificationRecorded(v.name, v.status))
    case Finish => CompleteDecision(w, r.orch, r.lane, token, l.revision, r.workLogged)
    case Judge => Note(LogOf(w, r.orch), r.lane, l.revision, ReviewConclusionRecorded(Verdict(r)))
    case Settle => Single(r.lane, LaneStatusChanged(r.outcome))
  }

  /** One durable write: a used key changes nothing and is no error, provided there is a conclusion to return. */
  function Exec(w: State, r: Request, s: Stage, token: Token, expiresAt: Time): Result<State> {
    var l :- LaneOf(r.lane, LogOf(w, r.orch));
    if Precheck(r, s).Some? then Err(Precheck(r, s).value)
    else if KeyOf(r, s) in w.audit then
      if s.Judge? && LatestConclusion(r.lane, LogOf(w, r.orch)).None? then Err(NotFound) else Ok(w)
    else
      var batch :- Decision(w, r, s, l, token, expiresAt);
      Ok(Write(w, KeyOf(r, s), r.orch, Ok(batch)))
  }

  /** Every durable write of an attempt is a store call, under the stage's key and with the lane's current revision. */
  lemma ExecIsStoreCall(w: State, r: Request, s: Stage, token: Token, expiresAt: Time)
    requires LaneOf(r.lane, LogOf(w, r.orch)).Ok? && Precheck(r, s).None?
    ensures var call := CallOf(r, s, LaneOf(r.lane, LogOf(w, r.orch)).value.revision, token, expiresAt);
            var result := Exec(w, r, s, token, expiresAt);
      && (KeyOf(r, s) !in w.audit ==> (result.Err? <==> Decide(w, r.orch, call).Err?))
      && (result.Ok? ==> result.value == Apply(w, KeyOf(r, s), r.orch, call))
      && (KeyOf(r, s) !in w.audit && result.Err? ==> result.error == Decide(w, r.orch, call).error)
      && (KeyOf(r, s) in w.audit ==> (result.Err? <==> s.Judge? && ConclusionOf(r.lane, LogOf(w, r.orch)).Err?))
  {
    match s
    case TakeLease =>
    case Record(_) =>
    case Finish =>
    case Judge =>
    case Settle =>
  }

  /** The stages of one attempt share its token and its clock. */
  ghost function Executor(r: Request, token: Token, expiresAt: Time): (State, Stage) -> Result<State> {
    (w: State, s: Stage) => Exec(w, r, s, token, expiresAt)
  }

  /** One call of CompleteLaneWork that is cut off after `limit` durable writes. */
  ghost function Attempt(w: State, r: Request, rev: int, expiresAt: Time, limit: nat): (State, End) {
    match LaneOf(r.lane, LogOf(w, r.orch))
    case Err(e) => (w, Failing(e))
    case Ok(l) =>
      if l.revision != rev then (w, Failing(RevisionConflict))
      else if IsLaneTerminal(l.status) then (w, Failing(LaneTerminal))
      else if l.status != Runnable then
        if l.token.None? then (w, Failing(LaneNotRunnable))
        else Go(Executor(r, l.token.value, expiresAt), w, Stages(r, false), limit)
      else if limit == 0 then (w, Stopped)
      else
        match Exec(w, r, TakeLease, 0, expiresAt)
        case Err(e) => (w, Failing(e))
        case Ok(w') =>
          var l' := LaneOf(r.lane, LogOf(w', r.orch));
          if l'.Err? then (w', Failing(l'.error))
          else if l'.value.token.None? then (w', Failing(LaneNotRunnable))
          else Go(Executor(r, l'.value.token.value, expiresAt), w', Stages(r, false), limit - 1)
  }

  /** The lane's current revision, which a retry passes. */
  function CurrentRevision(w: State, r: Request): int {
    var l := LaneOf(r.lane, LogOf(w, r.orch));
    if l.Ok? then l.value.revision else 0
  }

  /** Where and when each attempt was cut off. */
  datatype Cut = Cut(limit: nat, expiresAt: Time)

  /** Attempts one after the other, each with the lane's revision at that time, and nothing in between. */
  ghost function Attempts(w: State, r: Request, cuts: seq<Cut>): State
    decreases |cuts|
  {
    if cuts == [] then w
    else Attempts(Attempt(w, r, CurrentRevision(w, r), cuts[0].expiresAt, cuts[0].limit).0, r, cuts[1..])
  }

  // ---------------------------------------------------------------- the events a completed request leaves

  /** Stages with one key: only two recordings of the same dimension share one. */
  predicate Same(s: Stage, t: Stage) {
    s == t || (s.Record? && t.Record? && s.v.name == t.v.name)
  }

  lemma SameKey(r: Request, s: Stage, t: Stage)
    ensures KeyOf(r, s) == KeyOf(r, t) <==> Same(s, t)
  {
    assert KeyOf(r, s)[|r.key| + 1..] == Tag(s);
    assert KeyOf(r, t)[|r.key| + 1..] == Tag(t);
    if Tag(s) == Tag(t) {
      assert Tag(s)[0] == Tag(t)[0];
      if s.Record? && t.Record? {
        assert Tag(s)[7..] == s.v.name && Tag(t)[7..] == t.v.name;
      }
    }
  }

  ghost predicate DoneBefore(stages: seq<Stage>, p: nat, s: Stage)
    requires p <= |stages|
  {
    exists i :: 0 <= i < p && Same(stages[i], s)
  }

  /** The first stage of every key: what is left after the repetitions are dropped. */
  ghost function Distinct(stages: seq<Stage>, p: nat): seq<Stage>
    requires p <= |stages|
  {
    if p == 0 then []
    else Distinct(stages, p - 1) + if DoneBefore(stages, p - 1, stages[p - 1]) then [] else [stages[p - 1]]
  }

  lemma {:induction false} DistinctFrom(stages: seq<Stage>, p: nat, d: Stage)
    requires p <= |stages|
    ensures d in Distinct(stages, p) ==> exists i :: 0 <= i < p && stages[i] == d
  {
    if p > 0 {
      DistinctFrom(stages, p - 1, d);
    }
  }

  /** Each derived key is used exactly once. */
  lemma {:induction false} DistinctKeys(stages: seq<Stage>, p: nat, s: Stage)
    requires p <= |stages|
    ensures forall i, j :: 0 <= i < j < |Distinct(stages, p)| ==> !Same(Distinct(stages, p)[i], Distinct(stages, p)[j])
    ensures DoneBefore(stages, p, s) <==> exists d :: d in Distinct(stages, p) && Same(d, s)
  {
    if p > 0 {
      var n := p - 1;
      var was, all := Distinct(stages, n), Distinct(stages, p);
      DistinctKeys(stages, n, s);
      DistinctKeys(stages, n, stages[n]);
      assert DoneBefore(stages, p, s) <==> DoneBefore(stages, n, s) || Same(stages[n], s);
      if !DoneBefore(stages, n, stages[n]) {
        assert all == was + [stages[n]];
        forall i | 0 <= i < |was| ensures !Same(was[i], stages[n]) {
          assert was[i] in was;
        }
        if d :| d in was && Same(d, s) {
          assert d in all;
        }
        if Same(stages[n], s) {
          assert stages[n] in all;
        }
      } else if Same(stages[n], s) {
        var i :| 0 <= i < n && Same(stages[i], stages[n]);
        assert DoneBefore(stages, n, s);
      }
    }
  }

  /** What a grant would record on the lane as it was when the request came in. */
  datatype Origin = Origin(minted: Token, attempt: nat, expiresAt: Time)

  function BodyOf(r: Request, s: Stage, at: Origin): Body {
    match s
    case TakeLease => LeaseGranted(r.worker, at.minted, at.expiresAt, at.attempt + 1)
    case Record(v) => VerificationRecorded(v.name, v.status)
    case Finish => LeaseCompleted
    case Judge => ReviewConclusionRecorded(Verdict(r))
    case Settle => LaneStatusChanged(r.outcome)
  }

  function Script(r: Request, stages: seq<Stage>, at: Origin): seq<Event> {
    seq(|stages|, i requires 0 <= i < |stages| => Event(Some(r.lane), BodyOf(r, stages[i], at)))
  }

  // ---------------------------------------------------------------- being on track

  /** A request that can be completed from here: the lane is runnable and may be leased, or leased already; its stages are
      complete; and none of the request's keys was used. */
  ghost predicate Ready(w: State, r: Request) {
    && r.orch in w.logs && OrchOf(w.logs[r.orch]).Ok? && LaneOf(r.lane, w.logs[r.orch]).Ok?
    && Sound(r)
    && var l := LaneOf(r.lane, w.logs[r.orch]).value;
    && StagesComplete(l, ReqOf(w.definitions, w.logs[r.orch]))
    && (if l.status == Runnable then Grantable(w, r) else Active(l) && l.token.Some?)
    && forall s :: s in Stages(r, true) ==> KeyOf(r, s) !in w.audit
  }

  /** What validate and the independence check ask of the request, and the work log. */
  predicate Sound(r: Request) {
    IsLaneTerminal(r.outcome) && TrimSpace(r.overrideReason) != "" && r.workLogged && r.session != "" && r.worker != ""
  }

  ghost predicate Grantable(w: State, r: Request) {
    GrantDecision(w, r.orch, r.lane, CurrentRevision(w, r), r.worker, 0).Ok?
  }

  /** The first p stages of the request are done: the log, the keys and the lane are as they should be then. */
  ghost predicate OnTrack(w: State, r: Request, log0: seq<Event>, stages: seq<Stage>, at: Origin, token: Token, p: nat) {
    && p <= |stages|
    && r.orch in w.logs && w.logs[r.orch] == log0 + Script(r, Distinct(stages, p), at)
    && (forall s :: s in stages ==> (KeyOf(r, s) in w.audit <==> DoneBefore(stages, p, s)))
    && OrchOf(w.logs[r.orch]).Ok? && LaneOf(r.lane, w.logs[r.orch]).Ok?
    && StagesComplete(LaneOf(r.lane, w.logs[r.orch]).value, ReqOf(w.definitions, w.logs[r.orch]))
    && InPhase(w, r, LaneOf(r.lane, w.logs[r.orch]).value, stages, token, p)
  }

  /** The lane before stage p. */
  ghost predicate InPhase(w: State, r: Request, l: Lane, stages: seq<Stage>, token: Token, p: nat)
    requires p <= |stages|
  {
    if p == |stages| then l.status == r.outcome
    else
      match stages[p]
      case TakeLease => l.status == Runnable && Grantable(w, r) && token == w.minted
      case Record(_) => Active(l) && l.token == Some(token)
      case Finish => Active(l) && l.token == Some(token)
      case Judge => l.status == Review && l.token == Some(token)
      case Settle => l.status == Review && l.token == Some(token)
  }

  /** The order of stages: a lease at most at the start, recordings, then the three closing stages. */
  ghost predicate Arranged(stages: seq<Stage>, runnable: bool) {
    && |stages| >= (if runnable then 4 else 3)
    && forall p :: 0 <= p < |stages| ==>
         && (stages[p].TakeLease? <==> p == 0 && runnable)
         && (stages[p].Settle? <==> p == |stages| - 1)
         && (stages[p].Judge? <==> p == |stages| - 2)
         && (stages[p].Finish? <==> p == |stages| - 3)
  }

  lemma StagesArranged(r: Request, runnable: bool)
    ensures Arranged(Stages(r, runnable), runnable)
    ensures Stages(r, true)[1..] == Stages(r, false)
  {
  }

  lemma StagesLength(r: Request)
    ensures |Stages(r, true)| == |Stages(r, false)| + 1
  {
  }

  /** The grant does not depend on any token. */
  lemma GrantIgnoresToken(w: State, r: Request, token: Token, expiresAt: Time)
    ensures Exec(w, r, TakeLease, token, expiresAt) == Exec(w, r, TakeLease, 0, expiresAt)
  {
  }

  // ---------------------------------------------------------------- one stage

  /** What a stage finds on the lane is what its decision needs. */
  lemma StageDecides(w: State, r: Request, s: Stage, token: Token, expiresAt: Time)
    requires Sound(r) && r.orch in w.logs && LaneOf(r.lane, w.logs[r.orch]).Ok?
    requires StagesComplete(LaneOf(r.lane, w.logs[r.orch]).value, ReqOf(w.definitions, w.logs[r.orch]))
    requires var l := LaneOf(r.lane, w.logs[r.orch]).value;
             match s
             case TakeLease => l.status == Runnable && Grantable(w, r)
             case Record(_) => Active(l)
             case Finish => Active(l) && l.token == Some(token)
             case Judge => l.status == Review
             case Settle => l.status == Review
    ensures var l := LaneOf(r.lane, w.logs[r.orch]).value;
            && Precheck(r, s).None?
            && Decision(w, r, s, l, token, expiresAt) ==
                 Ok([Event(Some(r.lane), BodyOf(r, s, Origin(w.minted, AttemptOf(l), expiresAt)))])
  {
  }

  /** The lane a stage's event leaves. */
  lemma StageMoves(r: Request, l: Lane, s: Stage, at: Origin, token: Token, req: Required)
    requires s.TakeLease? ==> token == at.minted
    requires !s.TakeLease? ==> l.token == Some(token)
    requires s.Record? ==> Active(l)
    requires s.Judge? ==> l.status == Review
    ensures StepLane(l, BodyOf(r, s, at)).Ok?
    ensures var m := StepLane(l, BodyOf(r, s, at)).value;
      && StagesComplete(m, req) == StagesComplete(l, req)
      && m.token == Some(token)
      && (s.TakeLease? || s.Record? ==> Active(m))
      && (s.Finish? || s.Judge? ==> m.status == Review)
      && (s.Settle? ==> m.status == r.outcome)
  {
  }

  lemma ScriptSnoc(r: Request, stages: seq<Stage>, s: Stage, at: Origin)
    ensures Script(r, stages + [s], at) == Script(r, stages, at) + [Event(Some(r.lane), BodyOf(r, s, at))]
  {
  }

  /** The state a fresh stage leaves. */
  function Recorded(w: State, r: Request, s: Stage, b: Body): State {
    AppendEvent(w, r.orch, Event(Some(r.lane), b)).(audit := w.audit + {KeyOf(r, s)})
  }

  /** A stage done before is not done again. */
  lemma ExecDone(w: State, r: Request, log0: seq<Event>, stages: seq<Stage>, at: Origin, token: Token, p: nat, s: Stage,
                 expiresAt: Time)
    requires OnTrack(w, r, log0, stages, at, token, p) && Sound(r) && s in stages && DoneBefore(stages, p, s)
    ensures Exec(w, r, s, token, expiresAt) == Ok(w)
  {
    if s.Judge? {
      JudgedIsConcluded(w, r, log0, stages, at, token, p);
    }
  }

  lemma JudgedIsConcluded(w: State, r: Request, log0: seq<Event>, stages: seq<Stage>, at: Origin, token: Token, p: nat)
    requires OnTrack(w, r, log0, stages, at, token, p) && DoneBefore(stages, p, Judge)
    ensures LatestConclusion(r.lane, w.logs[r.orch]).Some?
  {
    DistinctKeys(stages, p, Judge);
    var done := Distinct(stages, p);
    var d :| d in done && Same(d, Judge);
    var i :| 0 <= i < |done| && done[i] == d;
    assert Script(r, done, at)[i] == w.logs[r.orch][|log0| + i];
    OnceConcluded(r.lane, w.logs[r.orch], |log0| + i);
  }

  /** A new stage appends its event under its key. */
  lemma ExecRecords(w: State, r: Request, s: Stage, at: Origin, token: Token, expiresAt: Time)
    requires Sound(r) && r.orch in w.logs && LaneOf(r.lane, w.logs[r.orch]).Ok? && KeyOf(r, s) !in w.audit
    requires StagesComplete(LaneOf(r.lane, w.logs[r.orch]).value, ReqOf(w.definitions, w.logs[r.orch]))
    requires var l := LaneOf(r.lane, w.logs[r.orch]).value;
             match s
             case TakeLease =>
               l.status == Runnable && Grantable(w, r) && at == Origin(w.minted, AttemptOf(l), expiresAt)
             case Record(_) => Active(l)
             case Finish => Active(l) && l.token == Some(token)
             case Judge => l.status == Review
             case Settle => l.status == Review
    ensures Exec(w, r, s, token, expiresAt) == Ok(Recorded(w, r, s, BodyOf(r, s, at)))
  {
    StageDecides(w, r, s, token, expiresAt);
    var ev := Event(Some(r.lane), BodyOf(r, s, at));
    assert [ev][1..] == [];
    assert AppendAll(w, r.orch, [ev]) == AppendEvent(w, r.orch, ev);
  }

  /** What recording one stage does to the lane, the log and the keys. */
  lemma RecordedAdvances(w: State, r: Request, log0: seq<Event>, stages: seq<Stage>, at: Origin, token: Token, p: nat)
    requires OnTrack(w, r, log0, stages, at, token, p) && p < |stages| && !DoneBefore(stages, p, stages[p])
    requires stages[p].TakeLease? ==> token == at.minted
    ensures var w' := Recorded(w, r, stages[p], BodyOf(r, stages[p], at));
      && w'.logs[r.orch] == log0 + Script(r, Distinct(stages, p + 1), at)
      && OrchOf(w'.logs[r.orch]).Ok? && ReqOf(w'.definitions, w'.logs[r.orch]) == ReqOf(w.definitions, w.logs[r.orch])
      && LaneOf(r.lane, w'.logs[r.orch]) == StepLane(LaneOf(r.lane, w.logs[r.orch]).value, BodyOf(r, stages[p], at))
  {
    var s := stages[p];
    var ev := Event(Some(r.lane), BodyOf(r, s, at));
    ScriptSnoc(r, Distinct(stages, p), s, at);
    var done := Script(r, Distinct(stages, p), at);
    assert log0 + done + [ev] == log0 + (done + [ev]);
    OrchOfAppend(w.logs[r.orch], ev);
    LaneAfter(r.lane, w.logs[r.orch], ev);
  }

  lemma KeysAdvance(w: State, r: Request, stages: seq<Stage>, p: nat)
    requires p < |stages|
    requires forall s :: s in stages ==> (KeyOf(r, s) in w.audit <==> DoneBefore(stages, p, s))
    ensures forall s :: s in stages ==>
              (KeyOf(r, s) in w.audit + {KeyOf(r, stages[p])} <==> DoneBefore(stages, p + 1, s))
  {
    forall s | s in stages
      ensures KeyOf(r, s) in w.audit + {KeyOf(r, stages[p])} <==> DoneBefore(stages, p + 1, s)
    {
      SameKey(r, s, stages[p]);
      assert DoneBefore(stages, p + 1, s) <==> DoneBefore(stages, p, s) || Same(stages[p], s);
    }
  }

  lemma RepeatedIsRecord(stages: seq<Stage>, runnable: bool, p: nat)
    requires Arranged(stages, runnable) && p < |stages| && DoneBefore(stages, p, stages[p])
    ensures stages[p].Record? && p + 1 < |stages|
    ensures forall t :: DoneBefore(stages, p + 1, t) <==> DoneBefore(stages, p, t)
  {
    var i :| 0 <= i < p && Same(stages[i], stages[p]);
    forall t ensures DoneBefore(stages, p + 1, t) <==> DoneBefore(stages, p, t) {
      if Same(stages[p], t) {
        assert Same(stages[i], t);
      }
    }
  }

  /** A repeated recording is skipped, and the request is one stage further. */
  lemma ExecRepeated(w: State, r: Request, log0: seq<Event>, stages: seq<Stage>, runnable: bool, at: Origin, token: Token,
                     p: nat, expiresAt: Time)
    requires Sound(r) && Arranged(stages, runnable) && p < |stages| && DoneBefore(stages, p, stages[p])
    requires OnTrack(w, r, log0, stages, at, token, p)
    ensures Exec(w, r, stages[p], token, expiresAt) == Ok(w)
    ensures OnTrack(w, r, log0, stages, at, token, p + 1)
  {
    ExecDone(w, r, log0, stages, at, token, p, stages[p], expiresAt);
    RepeatedIsRecord(stages, runnable, p);
  }

  /** A new stage is recorded, and the request is one stage further. */
  lemma ExecFresh(w: State, r: Request, log0: seq<Event>, stages: seq<Stage>, runnable: bool, at: Origin, token: Token,
                  p: nat, expiresAt: Time)
    requires Sound(r) && Arranged(stages, runnable) && p < |stages| && !DoneBefore(stages, p, stages[p])
    requires OnTrack(w, r, log0, stages, at, token, p)
    requires stages[p].TakeLease? ==>
               at == Origin(w.minted, AttemptOf(LaneOf(r.lane, w.logs[r.orch]).value), expiresAt)
    ensures Exec(w, r, stages[p], token, expiresAt) == Ok(Recorded(w, r, stages[p], BodyOf(r, stages[p], at)))
    ensures OnTrack(Recorded(w, r, stages[p], BodyOf(r, stages[p], at)), r, log0, stages, at, token, p + 1)
  {
    assert stages[p] in stages;
    ExecRecords(w, r, stages[p], at, token, expiresAt);
    RecordedOnTrack(w, r, log0, stages, runnable, at, token, p);
  }

  lemma RecordedOnTrack(w: State, r: Request, log0: seq<Event>, stages: seq<Stage>, runnable: bool, at: Origin,
                        token: Token,
                        p: nat)
    requires Arranged(stages, runnable) && p < |stages| && !DoneBefore(stages, p, stages[p])
    requires OnTrack(w, r, log0, stages, at, token, p)
    requires stages[p].TakeLease? ==> at.minted == w.minted
    ensures OnTrack(Recorded(w, r, stages[p], BodyOf(r, stages[p], at)), r, log0, stages, at, token, p + 1)
  {
    RecordedAdvances(w, r, log0, stages, at, token, p);
    KeysAdvance(w, r, stages, p);
    StageMoves(r, LaneOf(r.lane, w.logs[r.orch]).value, stages[p], at, token, ReqOf(w.definitions, w.logs[r.orch]));
  }

  // ---------------------------------------------------------------- whole attempts

  /** One stage, done before or not. */
  lemma OneStage(w: State, r: Request, log0: seq<Event>, stages: seq<Stage>, runnable: bool, at: Origin, token: Token,
                 p: nat, start: nat, expiresAt: Time)
    returns (next: State, q: nat)
    requires Sound(r) && Arranged(stages, runnable) && OnTrack(w, r, log0, stages, at, token, p)
    requires start <= p && start < |stages| && (runnable ==> start >= 1)
    ensures Exec(w, r, stages[start], token, expiresAt) == Ok(next)
    ensures OnTrack(next, r, log0, stages, at, token, q) && q == if start < p then p else p + 1
  {
    next, q := w, p;
    if start < p {
      assert Same(stages[start], stages[start]) && stages[start] in stages;
      ExecDone(w, r, log0, stages, at, token, p, stages[start], expiresAt);
    } else if DoneBefore(stages, p, stages[p]) {
      ExecRepeated(w, r, log0, stages, runnable, at, token, p, expiresAt);
      q := p + 1;
    } else {
      ExecFresh(w, r, log0, stages, runnable, at, token, p, expiresAt);
      next, q := Recorded(w, r, stages[p], BodyOf(r, stages[p], at)), p + 1;
    }
  }

  ghost function Track(r: Request, log0: seq<Event>, stages: seq<Stage>, at: Origin, token: Token): (State, nat) -> bool {
    (w: State, p: nat) => OnTrack(w, r, log0, stages, at, token, p)
  }

  lemma StagesKeepTrack(r: Request, log0: seq<Event>, stages: seq<Stage>, runnable: bool, at: Origin, token: Token,
                        expiresAt: Time)
    requires Sound(r) && Arranged(stages, runnable)
    ensures KeepsTrack(Executor(r, token, expiresAt), stages, if runnable then 1 else 0, Track(r, log0, stages, at, token))
  {
    var exec, track := Executor(r, token, expiresAt), Track(r, log0, stages, at, token);
    forall w, p: nat, start: nat | (if runnable then 1 else 0) <= start <= p && start < |stages| && track(w, p)
      ensures exec(w, stages[start]).Ok? && track(exec(w, stages[start]).value, if start < p then p else p + 1)
    {
      var next, q := OneStage(w, r, log0, stages, runnable, at, token, p, start, expiresAt);
    }
  }

  // ---------------------------------------------------------------- whole attempts

  /** The progress of the request at state w: p stages of a run that began with a runnable lane, or with a leased one. */
  ghost predicate Progress(w: State, r: Request, log0: seq<Event>, runnable: bool, at: Origin, token: Token, p: nat) {
    OnTrack(w, r, log0, Stages(r, runnable), at, token, p)
  }

  lemma ReadyIsProgress(w: State, r: Request, at: Origin)
    requires Ready(w, r)
    ensures var l := LaneOf(r.lane, w.logs[r.orch]).value;
            var runnable := l.status == Runnable;
            Progress(w, r, w.logs[r.orch], runnable, at, if runnable then w.minted else l.token.value, 0)
  {
    var l := LaneOf(r.lane, w.logs[r.orch]).value;
    var stages := Stages(r, l.status == Runnable);
    StagesArranged(r, l.status == Runnable);
    StagesArranged(r, true);
    assert Script(r, [], at) == [];
    assert w.logs[r.orch] + [] == w.logs[r.orch];
    forall s | s in stages ensures s in Stages(r, true) {
      var i :| 0 <= i < |stages| && stages[i] == s;
      assert Stages(r, true)[if l.status == Runnable then i else i + 1] == s;
    }
  }

  /** Before the lease is taken, the origin is not yet settled. */
  lemma OriginIsFree(w: State, r: Request, log0: seq<Event>, at: Origin, at': Origin, token: Token)
    requires Progress(w, r, log0, true, at, token, 0)
    ensures Progress(w, r, log0, true, at', token, 0)
  {
    assert Script(r, [], at) == Script(r, [], at') == [];
  }

  /** What one attempt comes to. */
  ghost predicate Advanced(result: (State, End), r: Request, log0: seq<Event>, runnable: bool, at: Origin, token: Token,
                           p: nat, reached: nat, full: bool)
  {
    && Progress(result.0, r, log0, runnable, at, token, reached) && p <= reached <= |Stages(r, runnable)|
    && (full ==> reached == |Stages(r, runnable)| && result.1 == Finished)
  }

  /** Going on from the first stage after the lease. */
  lemma GoesOn(w: State, r: Request, log0: seq<Event>, runnable: bool, at: Origin, token: Token, p: nat, expiresAt: Time,
               limit: nat, full: bool)
    returns (reached: nat)
    requires Sound(r) && Progress(w, r, log0, runnable, at, token, p) && (runnable ==> p >= 1)
    requires full ==> limit >= |Stages(r, false)|
    ensures Advanced(Go(Executor(r, token, expiresAt), w, Stages(r, false), limit), r, log0, runnable, at, token, p, reached, full)
  {
    var stages, first := Stages(r, runnable), if runnable then 1 else 0;
    StagesArranged(r, runnable);
    assert stages[first..] == Stages(r, false);
    StagesKeepTrack(r, log0, stages, runnable, at, token, expiresAt);
    reached := ProceedKeepsTrack(Executor(r, token, expiresAt), stages, first, Track(r, log0, stages, at, token), w, p, first, limit);
  }

  /** The lane of a request in progress: short of its outcome it is runnable only before the lease, and holds the token. */
  lemma ProgressLane(w: State, r: Request, log0: seq<Event>, runnable: bool, at: Origin, token: Token, p: nat)
    requires Sound(r) && Progress(w, r, log0, runnable, at, token, p)
    ensures var l := LaneOf(r.lane, w.logs[r.orch]).value;
      && (IsLaneTerminal(l.status) <==> p == |Stages(r, runnable)|)
      && (l.status == Runnable <==> runnable && p == 0)
      && (p < |Stages(r, runnable)| && l.status != Runnable ==> l.token == Some(token))
      && (p < |Stages(r, runnable)| && l.status == Runnable ==> token == w.minted)
  {
    StagesArranged(r, runnable);
  }

  /** Taking the lease. */
  lemma TakesLease(w: State, r: Request, log0: seq<Event>, at: Origin, token: Token, expiresAt: Time)
    returns (w': State, at': Origin)
    requires Sound(r) && Progress(w, r, log0, true, at, token, 0)
    ensures Exec(w, r, TakeLease, 0, expiresAt) == Ok(w')
    ensures Progress(w', r, log0, true, at', token, 1) && at'.expiresAt == expiresAt
    ensures at'.minted == w.minted && at'.attempt == AttemptOf(LaneOf(r.lane, w.logs[r.orch]).value)
    ensures r.orch in w'.logs && LaneOf(r.lane, w'.logs[r.orch]).Ok? && LaneOf(r.lane, w'.logs[r.orch]).value.token == Some(token)
  {
    at' := Origin(w.minted, AttemptOf(LaneOf(r.lane, w.logs[r.orch]).value), expiresAt);
    var stages := Stages(r, true);
    StagesArranged(r, true);
    OriginIsFree(w, r, log0, at, at', token);
    assert !DoneBefore(stages, 0, stages[0]);
    ExecFresh(w, r, log0, stages, true, at', token, 0, expiresAt);
    GrantIgnoresToken(w, r, token, expiresAt);
    w' := Recorded(w, r, TakeLease, BodyOf(r, TakeLease, at'));
    ProgressLane(w', r, log0, true, at', token, 1);
  }

  lemma AttemptResumes(w: State, r: Request, expiresAt: Time, limit: nat, l: Lane)
    requires LaneOf(r.lane, LogOf(w, r.orch)) == Ok(l) && l.status != Runnable && !IsLaneTerminal(l.status) && l.token.Some?
    ensures Attempt(w, r, CurrentRevision(w, r), expiresAt, limit) ==
            Go(Executor(r, l.token.value, expiresAt), w, Stages(r, false), limit)
  {
  }

  lemma AttemptLeases(w: State, r: Request, expiresAt: Time, limit: nat, rest: nat, w': State, token: Token)
    requires LaneOf(r.lane, LogOf(w, r.orch)).Ok? && LaneOf(r.lane, LogOf(w, r.orch)).value.status == Runnable
    requires limit == rest + 1
    requires Exec(w, r, TakeLease, 0, expiresAt) == Ok(w')
    requires LaneOf(r.lane, LogOf(w', r.orch)).Ok? && LaneOf(r.lane, LogOf(w', r.orch)).value.token == Some(token)
    ensures Attempt(w, r, CurrentRevision(w, r), expiresAt, limit) ==
            Go(Executor(r, token, expiresAt), w', Stages(r, false), rest)
  {
  }

  lemma AttemptRefused(w: State, r: Request, expiresAt: Time, limit: nat)
    requires LaneOf(r.lane, LogOf(w, r.orch)).Ok? && IsLaneTerminal(LaneOf(r.lane, LogOf(w, r.orch)).value.status)
    ensures Attempt(w, r, CurrentRevision(w, r), expiresAt, limit) == (w, Failing(LaneTerminal))
  {
  }

  lemma AttemptCutAtOnce(w: State, r: Request, expiresAt: Time)
    requires LaneOf(r.lane, LogOf(w, r.orch)).Ok? && LaneOf(r.lane, LogOf(w, r.orch)).value.status == Runnable
    ensures Attempt(w, r, CurrentRevision(w, r), expiresAt, 0) == (w, Stopped)
  {
  }

  lemma AttemptAfterLease(w: State, r: Request, log0: seq<Event>, runnable: bool, at: Origin, token: Token, p: nat,
                          expiresAt: Time, limit: nat)
    returns (reached: nat)
    requires Sound(r) && Progress(w, r, log0, runnable, at, token, p) && p < |Stages(r, runnable)| && !(runnable && p == 0)
    ensures Advanced(Attempt(w, r, CurrentRevision(w, r), expiresAt, limit), r, log0, runnable, at, token, p, reached,
                     limit >= |Stages(r, true)|)
  {
    ProgressLane(w, r, log0, runnable, at, token, p);
    StagesArranged(r, true);
    AttemptResumes(w, r, expiresAt, limit, LaneOf(r.lane, w.logs[r.orch]).value);
    reached := GoesOn(w, r, log0, runnable, at, token, p, expiresAt, limit, limit >= |Stages(r, true)|);
  }

  /** Taking the lease and going on. */
  lemma LeaseAndGo(w: State, r: Request, log0: seq<Event>, runnable: bool, at: Origin, token: Token, p: nat,
                   expiresAt: Time,
                   limit: nat, rest: nat, full: bool)
    returns (w': State, at': Origin, q: nat, reached: nat)
    requires Sound(r) && Progress(w, r, log0, runnable, at, token, p) && runnable && p == 0
    requires limit == rest + 1 && (full ==> limit >= |Stages(r, true)|)
    ensures Exec(w, r, TakeLease, 0, expiresAt) == Ok(w')
    ensures r.orch in w'.logs && LaneOf(r.lane, w'.logs[r.orch]).Ok? && LaneOf(r.lane, w'.logs[r.orch]).value.token == Some(token)
    ensures p <= q && Advanced(Go(Executor(r, token, expiresAt), w', Stages(r, false), rest), r, log0, runnable, at', token, q,
                               reached, full)
    ensures at' == Origin(w.minted, AttemptOf(LaneOf(r.lane, w.logs[r.orch]).value), expiresAt)
  {
    StagesLength(r);
    w', at' := TakesLease(w, r, log0, at, token, expiresAt);
    q := 1;
    reached := GoesOn(w', r, log0, runnable, at', token, q, expiresAt, rest, full);
  }

  lemma AttemptWithLease(w: State, r: Request, log0: seq<Event>, runnable: bool, at: Origin, token: Token, p: nat,
                         expiresAt: Time, limit: nat, rest: nat, full: bool)
    returns (q: nat, reached: nat, at': Origin)
    requires Sound(r) && Progress(w, r, log0, runnable, at, token, p) && runnable && p == 0
    requires limit == rest + 1 && (full ==> limit >= |Stages(r, true)|)
    ensures p <= q && Advanced(Attempt(w, r, CurrentRevision(w, r), expiresAt, limit), r, log0, runnable, at', token, q, reached, full)
    ensures at' == Origin(w.minted, AttemptOf(LaneOf(r.lane, w.logs[r.orch]).value), expiresAt)
  {
    ProgressLane(w, r, log0, runnable, at, token, p);
    var w', origin, first, end := LeaseAndGo(w, r, log0, runnable, at, token, p, expiresAt, limit, rest, full);
    q, reached, at' := first, end, origin;
    AttemptLeases(w, r, expiresAt, limit, rest, w', token);
  }

  /** One attempt with the lane's current revision: from any progress it gets further or stays, and a request already at
      its end is refused and changes nothing. */
  lemma AttemptOnTrack(w: State, r: Request, log0: seq<Event>, runnable: bool, at: Origin, token: Token, p: nat,
                       expiresAt: Time, limit: nat)
    returns (reached: nat, at': Origin)
    requires Sound(r) && Progress(w, r, log0, runnable, at, token, p)
    ensures p == |Stages(r, runnable)| ==> Attempt(w, r, CurrentRevision(w, r), expiresAt, limit) == (w, Failing(LaneTerminal))
    ensures Advanced(Attempt(w, r, CurrentRevision(w, r), expiresAt, limit), r, log0, runnable, at', token, p, reached,
                     limit >= |Stages(r, true)| && p < |Stages(r, runnable)|)
    ensures at' == at ||
            (runnable && at' == Origin(w.minted, AttemptOf(LaneOf(r.lane, w.logs[r.orch]).value), expiresAt) && p == 0)
    ensures runnable && p == 0 && reached > 0 ==>
              at' == Origin(w.minted, AttemptOf(LaneOf(r.lane, w.logs[r.orch]).value), expiresAt)
  {
    reached, at' := p, at;
    ProgressLane(w, r, log0, runnable, at, token, p);
    if p == |Stages(r, runnable)| {
      AttemptRefused(w, r, expiresAt, limit);
    } else if !(runnable && p == 0) {
      reached := AttemptAfterLease(w, r, log0, runnable, at, token, p, expiresAt, limit);
    } else if limit > 0 {
      var q, end, origin := AttemptWithLease(w, r, log0, runnable, at, token, p, expiresAt, limit, limit - 1,
                                             limit >= |Stages(r, true)|);
      reached, at' := end, origin;
    } else {
      AttemptCutAtOnce(w, r, expiresAt);
    }
  }

  // ---------------------------------------------------------------- crash and retry

  /** The origin a request's lane gives a grant made at `expiresAt`. */
  ghost function OriginOf(w: State, r: Request, expiresAt: Time): Origin
    requires LaneOf(r.lane, LogOf(w, r.orch)).Ok?
  {
    Origin(w.minted, AttemptOf(LaneOf(r.lane, LogOf(w, r.orch)).value), expiresAt)
  }

  /** Any number of attempts, each cut off anywhere: the log is the initial one and the script of a prefix of the stages,
      with the lease granted by the attempt that got that far. */
  lemma {:induction false} AttemptsOnTrack(w: State, r: Request, log0: seq<Event>, runnable: bool, minted: Token,
                                           attempt: nat,
                                      at: Origin, token: Token, p: nat, cuts: seq<Cut>)
    returns (reached: nat, at': Origin)
    requires Sound(r) && Progress(w, r, log0, runnable, at, token, p) && at.minted == minted && at.attempt == attempt
    requires runnable && p == 0 ==>
               w.minted == minted && AttemptOf(LaneOf(r.lane, w.logs[r.orch]).value) == attempt
    requires runnable && p == 0 ==> w.logs[r.orch] == log0
    ensures Progress(Attempts(w, r, cuts), r, log0, runnable, at', token, reached) && p <= reached
    ensures at'.minted == minted && at'.attempt == attempt
    ensures runnable && reached == 0 ==>
              var w' := Attempts(w, r, cuts);
              w'.minted == minted && AttemptOf(LaneOf(r.lane, w'.logs[r.orch]).value) == attempt
    ensures at'.expiresAt == at.expiresAt || exists c :: c in cuts && at'.expiresAt == c.expiresAt
    decreases |cuts|
  {
    reached, at' := p, at;
    if cuts != [] {
      var q, next := AttemptOnTrack(w, r, log0, runnable, at, token, p, cuts[0].expiresAt, cuts[0].limit);
      var w' := Attempt(w, r, CurrentRevision(w, r), cuts[0].expiresAt, cuts[0].limit).0;
      if runnable && q == 0 {
        ProgressLane(w, r, log0, runnable, at, token, p);
        ProgressLane(w', r, log0, runnable, next, token, q);
        assert Script(r, [], next) == [];
      }
      reached, at' := AttemptsOnTrack(w', r, log0, runnable, minted, attempt, next, token, q, cuts[1..]);
      assert cuts[0] in cuts;
      assert forall c :: c in cuts[1..] ==> c in cuts;
    }
  }

  /** How much of the request's first stages its final events cover. */
  ghost function FinalEvents(r: Request, runnable: bool, at: Origin): seq<Event> {
    Script(r, Distinct(Stages(r, runnable), |Stages(r, runnable)|), at)
  }

  /** A request at its end: its lane has the outcome, and its log grew by exactly the final events. */
  lemma AtTheEnd(w: State, r: Request, log0: seq<Event>, runnable: bool, at: Origin, token: Token)
    requires Sound(r) && Progress(w, r, log0, runnable, at, token, |Stages(r, runnable)|)
    ensures w.logs[r.orch] == log0 + FinalEvents(r, runnable, at)
    ensures LaneOf(r.lane, w.logs[r.orch]).Ok? && LaneOf(r.lane, w.logs[r.orch]).value.status == r.outcome
  {
  }

  /** Crash and retry: whatever attempts stopped wherever they did, one more attempt that is not cut off leaves the log the
      uninterrupted run leaves, with the lease dated by the attempt that took it, and the lane with the requested outcome. */
  lemma CrashRetry(w: State, r: Request, cuts: seq<Cut>, last: Cut) returns (dated: Time)
    requires Ready(w, r) && last.limit >= |Stages(r, true)|
    ensures var retried := Attempts(w, r, cuts + [last]);
            var uninterrupted := Attempt(w, r, CurrentRevision(w, r), dated, last.limit);
      && uninterrupted.1 == Finished
      && LogOf(retried, r.orch) == LogOf(uninterrupted.0, r.orch)
      && LogOf(retried, r.orch) == w.logs[r.orch] +
           FinalEvents(r, LaneOf(r.lane, w.logs[r.orch]).value.status == Runnable, OriginOf(w, r, dated))
      && LaneOf(r.lane, LogOf(retried, r.orch)).Ok? && LaneOf(r.lane, LogOf(retried, r.orch)).value.status == r.outcome
    ensures dated == last.expiresAt || exists c :: c in cuts && dated == c.expiresAt
  {
    var log0, l := w.logs[r.orch], LaneOf(r.lane, w.logs[r.orch]).value;
    var runnable := l.status == Runnable;
    var at, token := OriginOf(w, r, last.expiresAt), if runnable then w.minted else l.token.value;
    ReadyIsProgress(w, r, at);
    var settled := RetriedToTheEnd(w, r, log0, runnable, at, token, cuts, last);
    dated := settled.expiresAt;
    ReadyIsProgress(w, r, settled);
    var again := UninterruptedToTheEnd(w, r, log0, runnable, settled, token, last.limit);
    AtTheEnd(Attempts(w, r, cuts + [last]), r, log0, runnable, settled, token);
    AtTheEnd(Attempt(w, r, CurrentRevision(w, r), dated, last.limit).0, r, log0, runnable, again, token);
  }

  lemma RetriedToTheEnd(w: State, r: Request, log0: seq<Event>, runnable: bool, at: Origin, token: Token, cuts: seq<Cut>,
                        last: Cut)
    returns (settled: Origin)
    requires Sound(r) && Progress(w, r, log0, runnable, at, token, 0) && last.limit >= |Stages(r, true)|
    requires w.logs[r.orch] == log0 && at == OriginOf(w, r, last.expiresAt)
    ensures Progress(Attempts(w, r, cuts + [last]), r, log0, runnable, settled, token, |Stages(r, runnable)|)
    ensures settled == OriginOf(w, r, settled.expiresAt)
    ensures settled.expiresAt == last.expiresAt || exists c :: c in cuts && settled.expiresAt == c.expiresAt
  {
    AttemptsSplit(w, r, cuts, last);
    var p, origin := AttemptsOnTrack(w, r, log0, runnable, at.minted, at.attempt, at, token, 0, cuts);
    var w' := Attempts(w, r, cuts);
    var reached, next := AttemptOnTrack(w', r, log0, runnable, origin, token, p, last.expiresAt, last.limit);
    settled := next;
  }

  lemma UninterruptedToTheEnd(w: State, r: Request, log0: seq<Event>, runnable: bool, at: Origin, token: Token,
                              limit: nat)
    returns (again: Origin)
    requires Sound(r) && Progress(w, r, log0, runnable, at, token, 0) && limit >= |Stages(r, true)|
    requires w.logs[r.orch] == log0 && at == OriginOf(w, r, at.expiresAt)
    ensures again == at
    ensures var result := Attempt(w, r, CurrentRevision(w, r), at.expiresAt, limit);
            result.1 == Finished && Progress(result.0, r, log0, runnable, again, token, |Stages(r, runnable)|)
  {
    StagesArranged(r, runnable);
    var reached, next := AttemptOnTrack(w, r, log0, runnable, at, token, 0, at.expiresAt, limit);
    again := next;
  }

  lemma {:induction false} AttemptsSplit(w: State, r: Request, cuts: seq<Cut>, last: Cut)
    ensures Attempts(w, r, cuts + [last]) ==
            var w' := Attempts(w, r, cuts); Attempt(w', r, CurrentRevision(w', r), last.expiresAt, last.limit).0
    decreases |cuts|
  {
    if cuts == [] {
      assert [] + [last] == [last];
      assert [last][1..] == [];
    } else {
      assert (cuts + [last])[1..] == cuts[1..] + [last];
      AttemptsSplit(Attempt(w, r, CurrentRevision(w, r), cuts[0].expiresAt, cuts[0].limit).0, r, cuts[1..], last);
    }
  }

  // ---------------------------------------------------------------- what an attempt needs

  /** The lane may complete its lease, the three closing writes are still to come, and the log replays. */
  ghost predicate Pending(w: State, r: Request, l: Lane, req: Required) {
    && r.orch in w.logs && OrchOf(w.logs[r.orch]).Ok? && ReqOf(w.definitions, w.logs[r.orch]) == req
    && LaneOf(r.lane, w.logs[r.orch]) == Ok(l) && KeyOf(r, Finish) !in w.audit
  }

  /** A durable write that is no closing one leaves status, stages and the closing keys alone. */
  lemma WriteLeaves(w: State, r: Request, s: Stage, b: Body, l: Lane, req: Required)
    requires Pending(w, r, l, req) && (s.TakeLease? || s.Record?) && KeyOf(r, s) !in w.audit
    requires b.VerificationRecorded? || b.LeaseGranted?
    ensures var w' := Write(w, KeyOf(r, s), r.orch, Ok([Event(Some(r.lane), b)]));
            StepLane(l, b).Ok? && Pending(w', r, StepLane(l, b).value, req)
  {
    var ev := Event(Some(r.lane), b);
    AppendAllFrame(w, r.orch, [ev]);
    LaneAfter(r.lane, w.logs[r.orch], ev);
    OrchOfAppend(w.logs[r.orch], ev);
    SameKey(r, Finish, s);
  }

  /** As far as completion is concerned the lane stands as before. */
  predicate SameWork(l: Lane, l': Lane, req: Required) {
    Active(l') == Active(l) && StagesComplete(l', req) == StagesComplete(l, req)
  }

  lemma RecordLeaves(w: State, next: State, r: Request, v: Verification, token: Token, expiresAt: Time, l: Lane,
                     req: Required)
    returns (l': Lane)
    requires Pending(w, r, l, req) && Executor(r, token, expiresAt)(w, Record(v)) == Ok(next)
    ensures Pending(next, r, l', req)
    ensures SameWork(l, l', req)
  {
    l' := l;
    if KeyOf(r, Record(v)) !in w.audit {
      var b := VerificationRecorded(v.name, v.status);
      WriteLeaves(w, r, Record(v), b, l, req);
      l' := StepLane(l, b).value;
    }
  }

  lemma CompletesOnly(w: State, next: State, r: Request, token: Token, expiresAt: Time, l: Lane, req: Required)
    requires Pending(w, r, l, req) && Executor(r, token, expiresAt)(w, Finish) == Ok(next)
    ensures Active(l) && StagesComplete(l, req)
  {
  }

  /** Stage i comes before Finish or is it. */
  lemma StageIs(r: Request, stages: seq<Stage>, i: nat)
    requires stages == Stages(r, false) && i <= |r.verifications|
    ensures i < |stages| && stages[i] == if i == |r.verifications| then Finish else Record(r.verifications[i])
  {
  }

  lemma GetsPastFinish(w: State, r: Request, stages: seq<Stage>, i: nat, token: Token, expiresAt: Time, limit: nat, l: Lane,
                       req: Required)
    requires stages == Stages(r, false) && i == |r.verifications| && Pending(w, r, l, req)
    requires Proceed(Executor(r, token, expiresAt), w, stages[i..], limit).1 == Finished
    ensures Active(l) && StagesComplete(l, req)
  {
    StageIs(r, stages, i);
    var next, rest := FinishedStep(Executor(r, token, expiresAt), w, stages, i, limit);
    CompletesOnly(w, next, r, token, expiresAt, l, req);
  }

  lemma GetsPastRecord(w: State, r: Request, stages: seq<Stage>, i: nat, token: Token, expiresAt: Time, limit: nat, l: Lane,
                       req: Required)
    returns (next: State, l': Lane, rest: nat)
    requires stages == Stages(r, false) && i < |r.verifications| && Pending(w, r, l, req)
    requires Proceed(Executor(r, token, expiresAt), w, stages[i..], limit).1 == Finished
    ensures Proceed(Executor(r, token, expiresAt), next, stages[i + 1..], rest).1 == Finished
    ensures Pending(next, r, l', req) && SameWork(l, l', req)
  {
    StageIs(r, stages, i);
    var v := r.verifications[i];
    next, rest := FinishedStep(Executor(r, token, expiresAt), w, stages, i, limit);
    l' := RecordLeaves(w, next, r, v, token, expiresAt, l, req);
  }

  /** Stages that get past Finish found a lane that was leased or running, with its stages complete. */
  lemma {:induction false} FinishNeeds(w: State, r: Request, stages: seq<Stage>, i: nat, token: Token, expiresAt: Time,
                                       limit: nat, l: Lane, req: Required)
    requires stages == Stages(r, false) && i <= |r.verifications| <= |stages| && Pending(w, r, l, req)
    requires Proceed(Executor(r, token, expiresAt), w, stages[i..], limit).1 == Finished
    ensures Active(l) && StagesComplete(l, req)
    decreases |r.verifications| - i
  {
    if i == |r.verifications| {
      GetsPastFinish(w, r, stages, i, token, expiresAt, limit, l, req);
    } else {
      var next, l', rest := GetsPastRecord(w, r, stages, i, token, expiresAt, limit, l, req);
      FinishNeeds(next, r, stages, i + 1, token, expiresAt, rest, l', req);
    }
  }

  lemma GrantTellsGrantable(w: State, r: Request, expiresAt: Time, l: Lane)
    requires LaneOf(r.lane, LogOf(w, r.orch)) == Ok(l) && l.status == Runnable && KeyOf(r, TakeLease) !in w.audit
    requires Exec(w, r, TakeLease, 0, expiresAt).Ok?
    ensures Grantable(w, r)
    ensures Exec(w, r, TakeLease, 0, expiresAt).value ==
              Write(w, KeyOf(r, TakeLease), r.orch,
                    Ok([Event(Some(r.lane), LeaseGranted(r.worker, w.minted, expiresAt, AttemptOf(l) + 1))]))
  {
  }

  lemma LeasedNeeds(w: State, r: Request, expiresAt: Time, limit: nat, l: Lane, req: Required)
    requires Pending(w, r, l, req) && l.status != Runnable
    requires Attempt(w, r, CurrentRevision(w, r), expiresAt, limit).1 == Finished
    ensures StagesComplete(l, req) && Active(l) && l.token.Some?
  {
    var stages := Stages(r, false);
    assert stages[0..] == stages;
    assert l.token.Some?;
    FinishNeeds(w, r, stages, 0, l.token.value, expiresAt, limit, l, req);
  }

  lemma GrantedNeeds(w: State, r: Request, w': State, token: Token, expiresAt: Time, limit: nat, l: Lane, req: Required)
    requires Pending(w', r, l, req) && Go(Executor(r, token, expiresAt), w', Stages(r, false), limit).1 == Finished
    ensures StagesComplete(l, req)
  {
    var stages := Stages(r, false);
    assert stages[0..] == stages;
    FinishNeeds(w', r, stages, 0, token, expiresAt, limit, l, req);
  }

  lemma RunnableNeeds(w: State, r: Request, expiresAt: Time, limit: nat, rest: nat, l: Lane, req: Required)
    requires Pending(w, r, l, req) && l.status == Runnable && KeyOf(r, TakeLease) !in w.audit && limit == rest + 1
    requires Attempt(w, r, CurrentRevision(w, r), expiresAt, limit).1 == Finished
    ensures StagesComplete(l, req) && Grantable(w, r)
  {
    GrantTellsGrantable(w, r, expiresAt, l);
    var b := LeaseGranted(r.worker, w.minted, expiresAt, AttemptOf(l) + 1);
    WriteLeaves(w, r, TakeLease, b, l, req);
    var w', l' := Exec(w, r, TakeLease, 0, expiresAt).value, StepLane(l, b).value;
    AttemptLeases(w, r, expiresAt, limit, rest, w', w.minted);
    GrantedNeeds(w, r, w', w.minted, expiresAt, rest, l', req);
  }

  /** An attempt that is not cut off finishes only on a lane that is leased or running, or runnable and grantable, with its
      role stages complete. */
  lemma FinishedNeeds(w: State, r: Request, expiresAt: Time, limit: nat, l: Lane, req: Required)
    requires Pending(w, r, l, req) && KeyOf(r, TakeLease) !in w.audit
    requires Attempt(w, r, CurrentRevision(w, r), expiresAt, limit).1 == Finished
    ensures StagesComplete(l, req) && if l.status == Runnable then Grantable(w, r) else Active(l) && l.token.Some?
  {
    if l.status != Runnable {
      LeasedNeeds(w, r, expiresAt, limit, l, req);
    } else {
      assert limit > 0;
      RunnableNeeds(w, r, expiresAt, limit, limit - 1, l, req);
    }
  }

  lemma ReadyFinishes(w: State, r: Request, expiresAt: Time, limit: nat)
    requires Ready(w, r) && limit >= |Stages(r, true)|
    ensures Attempt(w, r, CurrentRevision(w, r), expiresAt, limit).1 == Finished
  {
    var l := LaneOf(r.lane, w.logs[r.orch]).value;
    var at := OriginOf(w, r, expiresAt);
    ReadyIsProgress(w, r, at);
    var again := UninterruptedToTheEnd(w, r, w.logs[r.orch], l.status == Runnable, at,
                                       if l.status == Runnable then w.minted else l.token.value, limit);
  }

  /** Being ready is exactly what an uninterrupted first attempt needs: a sound request none of whose keys was used is
      carried to its end if and only if its lane is leased, running or grantable, with its role stages complete. */
  lemma ReadyExactly(w: State, r: Request, expiresAt: Time, limit: nat)
    requires LogsInv(w) && Sound(r) && limit >= |Stages(r, true)|
    requires forall s :: s in Stages(r, true) ==> KeyOf(r, s) !in w.audit
    ensures Ready(w, r) <==> Attempt(w, r, CurrentRevision(w, r), expiresAt, limit).1 == Finished
  {
    if Ready(w, r) {
      ReadyFinishes(w, r, expiresAt, limit);
    } else if LaneOf(r.lane, LogOf(w, r.orch)).Ok? {
      NotReadyStops(w, r, expiresAt, limit);
    }
  }

  lemma NotReadyStops(w: State, r: Request, expiresAt: Time, limit: nat)
    requires LogsInv(w) && Sound(r) && LaneOf(r.lane, LogOf(w, r.orch)).Ok? && !Ready(w, r)
    requires forall s :: s in Stages(r, true) ==> KeyOf(r, s) !in w.audit
    ensures Attempt(w, r, CurrentRevision(w, r), expiresAt, limit).1 != Finished
  {
    assert LogInv(w.logs[r.orch], w.definitions, w.minted);
    var stages := Stages(r, true);
    assert stages[0] == TakeLease && stages[|stages| - 3] == Finish;
    if Attempt(w, r, CurrentRevision(w, r), expiresAt, limit).1 == Finished {
      FinishedNeeds(w, r, expiresAt, limit, LaneOf(r.lane, w.logs[r.orch]).value, ReqOf(w.definitions, w.logs[r.orch]));
    }
  }
}
