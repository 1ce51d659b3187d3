/** Resuming a composition of repeatable steps: if doing a step again does nothing and each next step advances, then going
    through the steps from any earlier one ends where an uninterrupted run ends. */
module Resume {
  import opened Core

  datatype End = Finished | Failing(error: Error) | Stopped

  /** The stages in turn; the process stops after `limit` of them, or at the first failure. */
  ghost function Proceed<S, G>(exec: (S, G) -> Result<S>, w: S, stages: seq<G>, limit: nat): (S, End)
    decreases |stages|
  {
    if stages == [] then (w, Finished)
    else if limit == 0 then (w, Stopped)
    else
      match exec(w, stages[0])
      case Err(e) => (w, Failing(e))
      case Ok(next) => Proceed(exec, next, stages[1..], limit - 1)
  }

  /** One stage of the rest. */
  lemma ProceedStep<S, G>(exec: (S, G) -> Result<S>, w: S, stages: seq<G>, i: nat, limit: nat)
    requires i < |stages| && limit > 0
    ensures Proceed(exec, w, stages[i..], limit) ==
            match exec(w, stages[i])
            case Err(e) => (w, Failing(e))
            case Ok(next) => Proceed(exec, next, stages[i + 1..], limit - 1)
  {
    assert stages[i..][0] == stages[i] && stages[i..][1..] == stages[i + 1..];
  }

  /** Stages that came to their end got past the first of them. */
  lemma FinishedStep<S, G>(exec: (S, G) -> Result<S>, w: S, stages: seq<G>, i: nat, limit: nat)
    returns (next: S, rest: nat)
    requires i < |stages| && Proceed(exec, w, stages[i..], limit).1 == Finished
    ensures exec(w, stages[i]) == Ok(next) && Proceed(exec, next, stages[i + 1..], rest).1 == Finished
  {
    assert limit > 0;
    rest := limit - 1;
    ProceedStep(exec, w, stages, i, limit);
    next := exec(w, stages[i]).value;
  }

  /** All the stages, cut off after `limit` of them. */
  ghost function Go<S, G>(exec: (S, G) -> Result<S>, w: S, stages: seq<G>, limit: nat): (S, End) {
    Proceed(exec, w, stages, limit)
  }

  /** `track(w, p)`: w is a state with the first p stages done. Repeating a done stage stays, the next one advances. */
  ghost predicate KeepsTrack<S(!new), G>(exec: (S, G) -> Result<S>, stages: seq<G>, first: nat, track: (S, nat) -> bool) {
    forall w, p: nat, start: nat ::
      first <= start <= p && start < |stages| && track(w, p) ==>
        exec(w, stages[start]).Ok? && track(exec(w, stages[start]).value, if start < p then p else p + 1)
  }

  lemma {:induction false} ProceedKeepsTrack<S(!new), G>(exec: (S, G) -> Result<S>, stages: seq<G>, first: nat,
                                                    track: (S, nat) -> bool, w: S, p: nat, start: nat, limit: nat)
    returns (reached: nat)
    requires KeepsTrack(exec, stages, first, track) && track(w, p)
    requires first <= start <= p <= |stages|
    ensures Proceed(exec, w, stages[start..], limit).1 == if start + limit >= |stages| then Finished else Stopped
    ensures p <= reached <= |stages| && track(Proceed(exec, w, stages[start..], limit).0, reached)
    ensures start + limit >= |stages| ==> reached == |stages|
    decreases |stages| - start
  {
    reached := p;
    if start < |stages| && limit > 0 {
      assert stages[start..][0] == stages[start] && stages[start..][1..] == stages[start + 1..];
      var next := exec(w, stages[start]).value;
      reached := ProceedKeepsTrack(exec, stages, first, track, next, if start < p then p else p + 1, start + 1, limit - 1);
    }
  }
}
