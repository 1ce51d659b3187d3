/** What every run keeps of the session checkpoints (internal/delivery/execution.go:281-330). */
module Checkpoints {
  import opened Core
  import opened Events
  import opened World
  import opened Operations
  import opened Lifetime
  import opened Machine
  import LaneRules

  ghost predicate IsNumber(checkpoints: map<Id, SessionCheckpoint>, c: Id, session: Id, k: nat) {
    c in checkpoints && checkpoints[c].session == session && checkpoints[c].sequence == k
  }

  ghost predicate HasNumber(checkpoints: map<Id, SessionCheckpoint>, session: Id, k: nat) {
    exists c :: IsNumber(checkpoints, c, session, k)
  }

  /** The checkpoints of a session are numbered 1, 2, 3, ... without a gap or a repetition. */
  ghost predicate Counted(checkpoints: map<Id, SessionCheckpoint>) {
    && (forall c :: c in checkpoints ==> checkpoints[c].sequence >= 1)
    && (forall c, d :: c in checkpoints && d in checkpoints && c != d && checkpoints[c].session == checkpoints[d].session ==>
          checkpoints[c].sequence != checkpoints[d].sequence)
    && (forall c, k: nat :: c in checkpoints && 1 <= k <= checkpoints[c].sequence ==>
          HasNumber(checkpoints, checkpoints[c].session, k))
  }

  /** A checkpoint with a recipient is its session's last, and the session is over. */
  ghost predicate HandsOver(sessions: map<Id, Session>, checkpoints: map<Id, SessionCheckpoint>) {
    && (forall c :: c in checkpoints ==> checkpoints[c].session in sessions)
    && forall c :: c in checkpoints && checkpoints[c].handoffTo != "" ==>
         && sessions[checkpoints[c].session].status != SessionActive
         && forall d :: d in checkpoints && checkpoints[d].session == checkpoints[c].session ==>
              checkpoints[d].sequence <= checkpoints[c].sequence
  }

  ghost predicate CheckpointsOk(w: State) {
    Counted(w.checkpoints) && HandsOver(w.sessions, w.checkpoints)
  }

  // ---------------------------------------------------------------- one checkpoint more

  lemma AboveAll(checkpoints: map<Id, SessionCheckpoint>, session: Id, n: nat)
    requires n == Largest(SequencesOf(checkpoints, session))
    ensures forall c :: c in checkpoints && checkpoints[c].session == session ==> checkpoints[c].sequence <= n
    ensures n > 0 ==> exists c :: IsNumber(checkpoints, c, session, n)
  {
    var used := SequencesOf(checkpoints, session);
    forall c | c in checkpoints && checkpoints[c].session == session ensures checkpoints[c].sequence <= n {
      assert checkpoints[c].sequence in used;
    }
    if n > 0 {
      assert n in used;
      var c :| c in checkpoints && checkpoints[c].session == session && checkpoints[c].sequence == n;
      assert IsNumber(checkpoints, c, session, n);
    }
  }

  lemma AddsNumber(checkpoints: map<Id, SessionCheckpoint>, id: Id, row: SessionCheckpoint, n: nat)
    requires Counted(checkpoints) && id !in checkpoints && n == Largest(SequencesOf(checkpoints, row.session))
    requires row.sequence == n + 1
    ensures Counted(checkpoints[id := row])
  {
    var now := checkpoints[id := row];
    AboveAll(checkpoints, row.session, n);
    forall c, k: nat | c in now && 1 <= k <= now[c].sequence ensures HasNumber(now, now[c].session, k) {
      if c == id && k == n + 1 {
        assert IsNumber(now, id, row.session, k);
      } else {
        assert HasNumber(checkpoints, now[c].session, k) by {
          if c == id {
            var top :| IsNumber(checkpoints, top, row.session, n);
            assert HasNumber(checkpoints, checkpoints[top].session, k);
          } else {
            assert HasNumber(checkpoints, checkpoints[c].session, k);
          }
        }
        var d :| IsNumber(checkpoints, d, now[c].session, k);
        assert IsNumber(now, d, now[c].session, k);
      }
    }
  }

  lemma AddsCheckpoint(w: State, w': State, id: Id, input: CheckpointInput)
    requires CheckpointsOk(w) && CheckpointStep(w, id, input) == Ok(w')
    ensures CheckpointsOk(w')
  {
    var row, n := CheckpointRow(w, id, input), Largest(SequencesOf(w.checkpoints, id));
    AddsNumber(w.checkpoints, input.id, row, n);
    AboveAll(w.checkpoints, id, n);
    HandsOverStill(w.sessions, w'.sessions, w.checkpoints, input.id, row);
  }

  lemma HandsOverStill(sessions: map<Id, Session>, sessions': map<Id, Session>, checkpoints: map<Id, SessionCheckpoint>,
                       id: Id, row: SessionCheckpoint)
    requires HandsOver(sessions, checkpoints) && id !in checkpoints
    requires row.session in sessions && sessions[row.session].status == SessionActive
    requires sessions' == if row.handoffTo == "" then sessions
                          else sessions[row.session := sessions[row.session].(status := SessionHandedOff)]
    requires forall c :: c in checkpoints && checkpoints[c].session == row.session ==> checkpoints[c].sequence < row.sequence
    ensures HandsOver(sessions', checkpoints[id := row])
  {
  }

  // ---------------------------------------------------------------- every step

  /** Sessions are added and closed, never reopened. */
  ghost predicate MoveOn(sessions: map<Id, Session>, sessions': map<Id, Session>) {
    forall s :: s in sessions ==> s in sessions' && (sessions'[s].status == SessionActive ==> sessions[s].status == SessionActive)
  }

  lemma MovingOnKeeps(w: State, w': State)
    requires CheckpointsOk(w) && w'.checkpoints == w.checkpoints && MoveOn(w.sessions, w'.sessions)
    ensures CheckpointsOk(w')
  {
  }

  lemma OthersMoveOn(w: State, call: GlobalCall)
    requires GlobalStep(w, call).Ok? && !call.Checkpoint?
    ensures GlobalStep(w, call).value.checkpoints == w.checkpoints && MoveOn(w.sessions, GlobalStep(w, call).value.sessions)
  {
    match call
    case NewOrchestration(_, _, _) =>
    case Register(_, _) =>
    case StartJira(_, _, _, _, _) =>
    case StartAdhoc(_) =>
    case Cancel(_, _) =>
    case CompleteRun(_, _) =>
    case OpenSession(_, _, _, _, _) =>
  }

  lemma NextKeepsCheckpoints(w: State, s: Step)
    requires CheckpointsOk(w)
    ensures CheckpointsOk(Next(w, s))
  {
    match s
    case OnLog(key, o, call) =>
      if key !in w.audit && Decide(w, o, call).Ok? {
        AppendAllTables(w, o, Decide(w, o, call).value);
      }
    case Global(key, call) =>
      if key !in w.audit && GlobalStep(w, call).Ok? {
        var next := GlobalStep(w, call).value;
        if call.Checkpoint? {
          AddsCheckpoint(w, next, call.session, call.input);
        } else {
          OthersMoveOn(w, call);
          MovingOnKeeps(w, next);
        }
      }
  }

  /** In every run, without any assumption on the calls, the checkpoints of a session are numbered without gaps, and one
      with a recipient is the last of its session. */
  lemma {:induction false} RunKeepsCheckpoints(w: State, steps: seq<Step>)
    requires CheckpointsOk(w)
    ensures CheckpointsOk(Run(w, steps))
    decreases |steps|
  {
    if steps != [] {
      NextKeepsCheckpoints(w, steps[0]);
      RunKeepsCheckpoints(Next(w, steps[0]), steps[1..]);
    }
  }

  lemma InitCheckpoints(definitions: map<Id, LaneRules.Required>)
    ensures CheckpointsOk(Init(definitions))
  {
  }

  /** So it is after any run from the empty control plane. */
  lemma CheckpointHistory(definitions: map<Id, LaneRules.Required>, steps: seq<Step>)
    ensures CheckpointsOk(Run(Init(definitions), steps))
  {
    InitCheckpoints(definitions);
    RunKeepsCheckpoints(Init(definitions), steps);
  }
}
