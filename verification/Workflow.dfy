/** Which role stages can ever be recorded, and which lanes can ever complete their lease
    (internal/delivery/rolestage.go:85-151, scheduler.go:343-356). */
module Workflow {
  import opened Core
  import opened Events
  import opened Reduce
  import opened LaneRules
  import opened World
  import opened Operations
  import opened Machine
  import opened Guarantees

  // ---------------------------------------------------------------- what cannot be done

  /** A recorded stage after Semar rests, stage by stage, on a required and recorded Semar. */
  lemma {:induction false} RecordedNeedsSemar(l: Lane, s: RoleStage, req: Required)
    requires StagesInOrder(l, req) && s != Semar && RecordOf(l, s).Some?
    ensures IsRequired(req, Semar)
    decreases StageIndex(s)
  {
    var p :| StageIndex(p) < StageIndex(s) && IsRequired(req, p);
    if p != Semar {
      RecordedNeedsSemar(l, p, req);
    }
  }

  /** Where Semar is not required, no later stage can be recorded: no predecessor record is ever found. If any stage is
      required there, a lane that recorded Semar cannot complete its lease. */
  lemma UnreachableStage(w: State, o: Id, lane: Id, token: Token, rev: int, s: RoleStage, record: Id, workLogged: bool)
    requires Inv(w) && o in w.logs && lane in LaneIds(w.logs[o])
    requires s != Semar && !IsRequired(ReqOf(w.definitions, w.logs[o]), Semar)
    ensures StageDecision(w, o, lane, token, s, record, rev).Err?
    ensures LaneOf(lane, w.logs[o]).Ok? && RecordOf(LaneOf(lane, w.logs[o]).value, s).None?
    ensures LastRequired(ReqOf(w.definitions, w.logs[o])).Some? && LaneOf(lane, w.logs[o]).value.semar.Some? ==>
              CompleteDecision(w, o, lane, token, rev, workLogged).Err?
  {
    LaneHolds(w, o, lane);
    NothingAfterSemar(LaneOf(lane, w.logs[o]).value, ReqOf(w.definitions, w.logs[o]), s);
  }

  lemma NothingAfterSemar(l: Lane, req: Required, s: RoleStage)
    requires StagesInOrder(l, req) && !IsRequired(req, Semar) && s != Semar
    ensures PrecedingRecord(l, s, req) == "" && RecordOf(l, s).None?
    ensures LastRequired(req).Some? && l.semar.Some? ==> !StagesComplete(l, req)
  {
    NearestCoversAll(l, s, req);
    if p :| StageIndex(p) < StageIndex(s) && IsRequired(req, p) && Recorded(l, p) {
      RecordedNeedsSemar(l, p, req);
    }
    if RecordOf(l, s).Some? {
      RecordedNeedsSemar(l, s, req);
    }
    var last := LastRequired(req);
    if last.Some? && Recorded(l, last.value) {
      RecordedNeedsSemar(l, last.value, req);
    }
  }

  ghost function HasSemar(): Lane -> bool {
    (l: Lane) => l.semar.Some?
  }

  lemma SemarLasts(req: Required)
    ensures Lasting(HasSemar(), req, 0)
  {
    forall l, b, minted | HasSemar()(l) && 0 <= minted && Allowed(l, b, req, minted)
      ensures StepLane(l, b).Ok? && HasSemar()(StepLane(l, b).value)
    {
      AllowedSteps(l, b, req, minted);
    }
  }

  ghost function AnyLane(): Lane -> bool {
    (l: Lane) => true
  }

  lemma LaneLasts(req: Required)
    ensures Lasting(AnyLane(), req, 0)
  {
    forall l, b, minted | AnyLane()(l) && 0 <= minted && Allowed(l, b, req, minted) ensures StepLane(l, b).Ok? {
      AllowedSteps(l, b, req, minted);
    }
  }

  // ---------------------------------------------------------------- what can be done

  /** The lane is leased or running under the token, its stages governed by `req` and in order. */
  ghost predicate Holder(w: State, o: Id, lane: Id, token: Token, l: Lane, req: Required) {
    && o in w.logs && OrchOf(w.logs[o]).Ok? && ReqOf(w.definitions, w.logs[o]) == req
    && LaneOf(lane, w.logs[o]) == Ok(l) && Active(l) && l.token == Some(token) && StagesInOrder(l, req)
  }

  lemma IsHolder(w: State, o: Id, lane: Id, l: Lane) returns (token: Token)
    requires Inv(w) && o in w.logs && LaneOf(lane, w.logs[o]) == Ok(l) && Active(l)
    ensures Holder(w, o, lane, token, l, ReqOf(w.definitions, w.logs[o]))
  {
    LaneOkIsLane(lane, w.logs[o]);
    LaneHolds(w, o, lane);
    assert LogInv(w.logs[o], w.definitions, w.minted);
    token := l.token.value;
  }

  lemma StageCommits(w: State, key: Key, o: Id, lane: Id, b: Body, l: Lane)
    requires o in w.logs && key !in w.audit && LaneOf(lane, w.logs[o]) == Ok(l) && b.StageSubmitted? && OrchOf(w.logs[o]).Ok?
    ensures var w' := Write(w, key, o, Ok([Event(Some(lane), b)]));
      && o in w'.logs && LaneOf(lane, w'.logs[o]) == StepLane(l, b)
      && OrchOf(w'.logs[o]).Ok? && ReqOf(w'.definitions, w'.logs[o]) == ReqOf(w.definitions, w.logs[o])
  {
    CommitsOne(w, key, o, lane, b, l);
    AppendAllFrame(w, o, [Event(Some(lane), b)]);
    OrchOfAppend(w.logs[o], Event(Some(lane), b));
  }

  /** The step that records a stage. */
  function RecordStep(key: Key, o: Id, lane: Id, token: Token, rev: int, stage: RoleStage, record: Id): Step {
    OnLog(key, o, Lease(RecordStage(lane, token, stage, record, rev)))
  }

  lemma RecordStepIs(w: State, key: Key, o: Id, lane: Id, token: Token, l: Lane, stage: RoleStage, record: Id)
    requires o in w.logs && LaneOf(lane, w.logs[o]) == Ok(l) && Active(l) && l.token == Some(token)
    requires stage == Semar || PrecedingRecord(l, stage, ReqOf(w.definitions, w.logs[o])) != ""
    ensures var s := RecordStep(key, o, lane, token, l.revision, stage, record);
            DisciplinedStep(w, s) && Next(w, s) == Write(w, key, o, Ok([Event(Some(lane), StageSubmitted(stage, record))]))
  {
    assert StageDecision(w, o, lane, token, stage, record, l.revision) == Ok([Event(Some(lane), StageSubmitted(stage, record))]);
  }

  /** The holder records a stage whose predecessor is there. */
  lemma RecordsNext(w: State, o: Id, lane: Id, token: Token, l: Lane, req: Required, stage: RoleStage, record: Id)
    returns (s: Step, l': Lane)
    requires Holder(w, o, lane, token, l, req) && (stage == Semar || PrecedingRecord(l, stage, req) != "")
    ensures DisciplinedStep(w, s) && Holder(Next(w, s), o, lane, token, l', req)
    ensures Ok(l') == StepLane(l, StageSubmitted(stage, record))
  {
    var key := FreshKey(w.audit);
    var b := StageSubmitted(stage, record);
    s, l' := RecordStep(key, o, lane, token, l.revision, stage, record), StepLane(l, b).value;
    RecordStepIs(w, key, o, lane, token, l, stage, record);
    StageCommits(w, key, o, lane, b, l);
    StageKeepsOrder(l, b, req);
  }

  /** Every required stage before stage k is recorded. */
  ghost predicate RecordedUpTo(l: Lane, req: Required, k: nat) {
    forall s :: StageIndex(s) < k && IsRequired(req, s) ==> Recorded(l, s)
  }

  lemma RecordingKeeps(l: Lane, l': Lane, req: Required, stage: RoleStage, record: Id)
    requires RecordedUpTo(l, req, StageIndex(stage)) && record != "" && Ok(l') == StepLane(l, StageSubmitted(stage, record))
    ensures RecordedUpTo(l', req, StageIndex(stage) + 1)
  {
    forall s | StageIndex(s) < StageIndex(stage) + 1 && IsRequired(req, s) ensures Recorded(l', s) {
      if s != stage {
        assert Recorded(l, s) && RecordOf(l', s) == RecordOf(l, s);
      }
    }
  }

  /** Where Semar is required and the earlier required stages are recorded, the next one finds its predecessor. */
  lemma PredecessorThere(l: Lane, stage: RoleStage, req: Required)
    requires StagesInOrder(l, req) && IsRequired(req, Semar) && RecordedUpTo(l, req, StageIndex(stage)) && stage != Semar
    ensures PrecedingRecord(l, stage, req) != ""
  {
    NearestCoversAll(l, stage, req);
    assert StageIndex(Semar) < StageIndex(stage);
  }

  /** The run so far leaves the holder with every required stage before stage k recorded. */
  ghost predicate Prepared(w: State, steps: seq<Step>, o: Id, lane: Id, token: Token, l: Lane, req: Required, k: nat) {
    DisciplinedRun(w, steps) && Holder(Run(w, steps), o, lane, token, l, req) && RecordedUpTo(l, req, k)
  }

  lemma PreparedSnoc(w: State, steps: seq<Step>, s: Step, o: Id, lane: Id, token: Token, l: Lane, req: Required, k: nat)
    requires DisciplinedRun(w, steps) && DisciplinedStep(Run(w, steps), s)
    requires Holder(Next(Run(w, steps), s), o, lane, token, l, req) && RecordedUpTo(l, req, k)
    ensures Prepared(w, steps + [s], o, lane, token, l, req, k)
  {
    RunSnoc(w, steps, s);
  }

  lemma PreparesNext(w: State, steps: seq<Step>, o: Id, lane: Id, token: Token, l: Lane, req: Required, stage: RoleStage)
    returns (more: seq<Step>, l': Lane)
    requires Prepared(w, steps, o, lane, token, l, req, StageIndex(stage)) && (stage == Semar || IsRequired(req, Semar))
    ensures Prepared(w, more, o, lane, token, l', req, StageIndex(stage) + 1) && RecordOf(l', stage).Some?
  {
    var record, k := "r", StageIndex(stage) + 1;
    var s, after := AdvancesTo(Run(w, steps), o, lane, token, l, req, stage, record, k);
    PreparedSnoc(w, steps, s, o, lane, token, after, req, k);
    more, l' := steps + [s], after;
  }

  lemma AdvancesTo(w: State, o: Id, lane: Id, token: Token, l: Lane, req: Required, stage: RoleStage, record: Id, k: nat)
    returns (s: Step, l': Lane)
    requires Holder(w, o, lane, token, l, req) && RecordedUpTo(l, req, StageIndex(stage)) && record != ""
    requires stage == Semar || IsRequired(req, Semar)
    requires k == StageIndex(stage) + 1
    ensures DisciplinedStep(w, s) && Holder(Next(w, s), o, lane, token, l', req) && RecordedUpTo(l', req, k)
    ensures RecordOf(l', stage).Some?
  {
    if stage != Semar {
      PredecessorThere(l, stage, req);
    }
    s, l' := RecordsNext(w, o, lane, token, l, req, stage, record);
    RecordingKeeps(l, l', req, stage, record);
  }

  /** Where Semar is required the holder can record the required stages before stage k, in order. */
  lemma {:induction false} RecordsInOrder(w: State, o: Id, lane: Id, token: Token, l: Lane, req: Required, k: nat)
    returns (steps: seq<Step>, l': Lane)
    requires Holder(w, o, lane, token, l, req) && IsRequired(req, Semar) && k <= 4
    ensures Prepared(w, steps, o, lane, token, l', req, k)
  {
    if k == 0 {
      steps, l' := [], l;
    } else {
      var before, was := RecordsInOrder(w, o, lane, token, l, req, k - 1);
      if IsRequired(req, StageAt(k - 1)) {
        steps, l' := PreparesNext(w, before, o, lane, token, was, req, StageAt(k - 1));
      } else {
        steps, l' := before, was;
        assert forall s :: StageIndex(s) < k && s != StageAt(k - 1) ==> StageIndex(s) < k - 1;
      }
    }
  }

  function StageAt(k: nat): (s: RoleStage)
    requires k < 4
    ensures StageIndex(s) == k
  {
    if k == 0 then Semar else if k == 1 then Gareng else if k == 2 then Petruk else Bagong
  }

  // ---------------------------------------------------------------- exactly when

  /** Some run goes through the stage's recording. */
  ghost predicate CanRecord(w: State, o: Id, lane: Id, s: RoleStage) {
    exists steps :: DisciplinedRun(w, steps) && HasRecord(Run(w, steps), o, lane, s)
  }

  ghost predicate HasRecord(w: State, o: Id, lane: Id, s: RoleStage) {
    o in w.logs && LaneOf(lane, w.logs[o]).Ok? && RecordOf(LaneOf(lane, w.logs[o]).value, s).Some?
  }

  /** Some run leads to a completed lease. */
  ghost predicate CanComplete(w: State, o: Id, lane: Id) {
    exists steps :: DisciplinedRun(w, steps) && Completable(Run(w, steps), o, lane)
  }

  ghost predicate Completable(w: State, o: Id, lane: Id) {
    exists token, rev :: CompleteDecision(w, o, lane, token, rev, true).Ok?
  }

  /** A leased lane can get a stage recorded exactly when the stage is Semar or Semar is required. */
  lemma RecordableExactly(w: State, o: Id, lane: Id, l: Lane, s: RoleStage)
    requires Inv(w) && o in w.logs && LaneOf(lane, w.logs[o]) == Ok(l) && Active(l)
    ensures CanRecord(w, o, lane, s) <==> s == Semar || IsRequired(ReqOf(w.definitions, w.logs[o]), Semar)
  {
    var req := ReqOf(w.definitions, w.logs[o]);
    if s == Semar || IsRequired(req, Semar) {
      var token := IsHolder(w, o, lane, l);
      var steps := RecordsStage(w, o, lane, token, l, req, s);
    } else {
      forall steps | DisciplinedRun(w, steps) ensures !HasRecord(Run(w, steps), o, lane, s) {
        LaneLasts(req);
        NeverRecorded(w, steps, o, lane, req, AnyLane(), s);
      }
    }
  }

  /** What a run cannot change where Semar is not required. */
  lemma NeverRecorded(w: State, steps: seq<Step>, o: Id, lane: Id, req: Required, keep: Lane -> bool, s: RoleStage)
    requires Inv(w) && DisciplinedRun(w, steps) && KeptIn(w, o, lane, keep, req, 0) && Lasting(keep, req, 0)
    requires !IsRequired(req, Semar) && s != Semar
    ensures KeptIn(Run(w, steps), o, lane, keep, req, 0) && Inv(Run(w, steps)) && lane in LaneIds(Run(w, steps).logs[o])
    ensures !HasRecord(Run(w, steps), o, lane, s)
  {
    var w' := Run(w, steps);
    RunKeepsKept(w, steps, o, lane, keep, req, 0);
    Machine.RunKeepsInv(w, steps);
    LaneOkIsLane(lane, w'.logs[o]);
    UnreachableStage(w', o, lane, 0, 0, s, "", true);
  }

  lemma RecordsStage(w: State, o: Id, lane: Id, token: Token, l: Lane, req: Required, s: RoleStage)
    returns (steps: seq<Step>)
    requires Holder(w, o, lane, token, l, req) && (s == Semar || IsRequired(req, Semar))
    ensures DisciplinedRun(w, steps) && HasRecord(Run(w, steps), o, lane, s)
  {
    var before, was := [], l;
    if s != Semar {
      before, was := RecordsInOrder(w, o, lane, token, l, req, StageIndex(s));
    }
    assert Prepared(w, before, o, lane, token, was, req, StageIndex(s));
    var more, after := PreparesNext(w, before, o, lane, token, was, req, s);
    steps := more;
  }

  /** A leased lane can complete its lease, now or after further work, exactly when it recorded no Semar, or no stage is
      required, or Semar is. */
  lemma CompletableExactly(w: State, o: Id, lane: Id, l: Lane)
    requires Inv(w) && o in w.logs && LaneOf(lane, w.logs[o]) == Ok(l) && Active(l)
    ensures CanComplete(w, o, lane) <==>
            var req := ReqOf(w.definitions, w.logs[o]); l.semar.None? || LastRequired(req).None? || IsRequired(req, Semar)
  {
    var req := ReqOf(w.definitions, w.logs[o]);
    if l.semar.None? || LastRequired(req).None? || IsRequired(req, Semar) {
      var token := IsHolder(w, o, lane, l);
      var steps := CompletesAfter(w, o, lane, token, l, req);
    } else {
      forall steps | DisciplinedRun(w, steps) ensures !Completable(Run(w, steps), o, lane) {
        SemarLasts(req);
        NeverRecorded(w, steps, o, lane, req, HasSemar(), Bagong);
        NeverCompletable(Run(w, steps), o, lane, req);
      }
    }
  }

  lemma NeverCompletable(w: State, o: Id, lane: Id, req: Required)
    requires Inv(w) && KeptIn(w, o, lane, HasSemar(), req, 0) && lane in LaneIds(w.logs[o])
    requires LastRequired(req).Some? && !IsRequired(req, Semar)
    ensures !Completable(w, o, lane)
  {
    forall t, rev ensures CompleteDecision(w, o, lane, t, rev, true).Err? {
      UnreachableStage(w, o, lane, t, rev, Bagong, "", true);
    }
  }

  lemma CompletesAfter(w: State, o: Id, lane: Id, token: Token, l: Lane, req: Required) returns (steps: seq<Step>)
    requires Holder(w, o, lane, token, l, req) && (l.semar.None? || LastRequired(req).None? || IsRequired(req, Semar))
    ensures DisciplinedRun(w, steps) && Completable(Run(w, steps), o, lane)
  {
    var run, after := [], l;
    if !(l.semar.None? || LastRequired(req).None?) {
      run, after := RecordsInOrder(w, o, lane, token, l, req, 4);
    }
    steps := run;
    CompletesNow(Run(w, steps), o, lane, token, after, req);
  }

  lemma CompletesNow(w: State, o: Id, lane: Id, token: Token, l: Lane, req: Required)
    requires Holder(w, o, lane, token, l, req) && StagesComplete(l, req)
    ensures Completable(w, o, lane)
  {
    assert CompleteDecision(w, o, lane, token, l.revision, true).Ok?;
  }
}
