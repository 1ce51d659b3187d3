/** The verification matrix (internal/delivery/verification.go:143-270): a view folded from one lane's own events. */
module Matrix {
  import opened Core
  import opened Events
  import opened Reduce

  const DIMENSIONS: seq<Id> := ["logic", "unit", "integration", "quality", "e2e", "ci"]

  datatype Check = Check(required: bool, status: CheckStatus)

  // ---------------------------------------------------------------- what was reported last

  /** Report i is the last one of dimension `name`. */
  ghost predicate LastOf(own: seq<Body>, name: Id, i: int) {
    && 0 <= i < |own| && own[i].VerificationRecorded? && own[i].dimension == name
    && forall j :: i < j < |own| ==> !(own[j].VerificationRecorded? && own[j].dimension == name)
  }

  /** Report i is the last one of its check. */
  ghost predicate LastCheck(own: seq<Body>, i: int) {
    && 0 <= i < |own| && own[i].CiCheckReported?
    && forall j :: i < j < |own| ==> !(own[j].CiCheckReported? && own[j].check == own[i].check)
  }

  predicate Bad(s: CheckStatus) {
    s == CheckFailed || s == CheckCancelled
  }

  /** The ci dimension by the latest reports: failed when a required check failed or was cancelled, passed when there are
      required checks and all of them passed, pending otherwise. */
  ghost predicate CiIs(own: seq<Body>, s: CheckStatus) {
    && (s == CheckFailed <==> exists i :: LastCheck(own, i) && own[i].required && Bad(own[i].checkStatus))
    && (s == CheckPassed <==>
          (exists i :: LastCheck(own, i) && own[i].required) &&
          forall i :: LastCheck(own, i) && own[i].required ==> own[i].checkStatus == CheckPassed)
    && s != CheckCancelled
  }

  ghost predicate DimensionIs(own: seq<Body>, name: Id, s: CheckStatus) {
    && (forall i :: LastOf(own, name, i) ==> s == own[i].outcome)
    && ((forall i :: !LastOf(own, name, i)) ==> if name == "ci" then CiIs(own, s) else s == CheckPending)
  }

  // ---------------------------------------------------------------- the fold

  ghost predicate ExplicitIs(own: seq<Body>, explicit: map<Id, CheckStatus>) {
    && (forall name :: name in explicit ==> exists i :: LastOf(own, name, i) && own[i].outcome == explicit[name])
    && forall name, i :: LastOf(own, name, i) ==> name in explicit
  }

  ghost predicate ChecksAre(own: seq<Body>, checks: map<Id, Check>) {
    && (forall c :: c in checks ==> exists i :: LastCheck(own, i) && own[i].check == c && Check(own[i].required, own[i].checkStatus) == checks[c])
    && forall i :: LastCheck(own, i) ==> own[i].check in checks && Check(own[i].required, own[i].checkStatus) == checks[own[i].check]
  }

  lemma LastOfUnique(own: seq<Body>, name: Id, i: int, j: int)
    requires LastOf(own, name, i) && LastOf(own, name, j)
    ensures i == j
  {
  }

  lemma LastOfSnoc(own: seq<Body>, b: Body, name: Id, i: int)
    ensures LastOf(own + [b], name, i) <==>
            if b.VerificationRecorded? && b.dimension == name then i == |own| else LastOf(own, name, i)
  {
    var more := own + [b];
    assert more[|own|] == b && forall j :: 0 <= j < |own| ==> more[j] == own[j];
  }

  lemma LastCheckSnoc(own: seq<Body>, b: Body, i: int)
    ensures LastCheck(own + [b], i) <==>
            (i == |own| && b.CiCheckReported?) || (LastCheck(own, i) && !(b.CiCheckReported? && own[i].check == b.check))
  {
    var more := own + [b];
    assert more[|own|] == b && forall j :: 0 <= j < |own| ==> more[j] == own[j];
    if LastCheck(more, i) && i < |own| {
      assert !(more[|own|].CiCheckReported? && more[|own|].check == own[i].check);
      assert forall j :: i < j < |own| ==> !(more[j].CiCheckReported? && more[j].check == more[i].check);
    }
  }

  lemma ExplicitSnoc(own: seq<Body>, explicit: map<Id, CheckStatus>, b: Body)
    requires ExplicitIs(own, explicit)
    ensures ExplicitIs(own + [b], if b.VerificationRecorded? then explicit[b.dimension := b.outcome] else explicit)
  {
    var more := own + [b];
    forall name, i ensures LastOf(more, name, i) <==>
        if b.VerificationRecorded? && b.dimension == name then i == |own| else LastOf(own, name, i)
    {
      LastOfSnoc(own, b, name, i);
    }
    var now := if b.VerificationRecorded? then explicit[b.dimension := b.outcome] else explicit;
    forall name | name in now ensures exists i :: LastOf(more, name, i) && more[i].outcome == now[name] {
      if b.VerificationRecorded? && b.dimension == name {
        assert LastOf(more, name, |own|);
      } else {
        var i :| LastOf(own, name, i) && own[i].outcome == explicit[name];
        assert LastOf(more, name, i) && more[i] == own[i];
      }
    }
  }

  lemma ChecksSnoc(own: seq<Body>, checks: map<Id, Check>, b: Body)
    requires ChecksAre(own, checks)
    ensures ChecksAre(own + [b], if b.CiCheckReported? then checks[b.check := Check(b.required, b.checkStatus)] else checks)
  {
    var more := own + [b];
    forall i ensures LastCheck(more, i) <==>
        (i == |own| && b.CiCheckReported?) || (LastCheck(own, i) && !(b.CiCheckReported? && own[i].check == b.check))
    {
      LastCheckSnoc(own, b, i);
    }
    var now := if b.CiCheckReported? then checks[b.check := Check(b.required, b.checkStatus)] else checks;
    forall c | c in now
      ensures exists i :: LastCheck(more, i) && more[i].check == c && Check(more[i].required, more[i].checkStatus) == now[c]
    {
      if b.CiCheckReported? && b.check == c {
        assert LastCheck(more, |own|);
      } else {
        var i :| LastCheck(own, i) && own[i].check == c && Check(own[i].required, own[i].checkStatus) == checks[c];
        assert LastCheck(more, i) && more[i] == own[i];
      }
    }
  }

  /** deriveCIDimensionStatus: two passes over the checks, in any order. */
  method DeriveCi(checks: map<Id, Check>) returns (s: CheckStatus)
    ensures s == CheckFailed <==> exists c :: c in checks && checks[c].required && Bad(checks[c].status)
    ensures s == CheckPassed <==>
              (exists c :: c in checks && checks[c].required) &&
              forall c :: c in checks && checks[c].required ==> checks[c].status == CheckPassed
    ensures s != CheckCancelled
  {
    var hasRequired := false;
    var todo := checks.Keys;
    while todo != {}
      invariant todo <= checks.Keys
      invariant hasRequired <==> exists c :: c in checks && c !in todo && checks[c].required
      invariant forall c :: c in checks && c !in todo && checks[c].required ==> !Bad(checks[c].status)
      decreases |todo|
    {
      var c :| c in todo;
      todo := todo - {c};
      if checks[c].required {
        hasRequired := true;
        if checks[c].status == CheckFailed || checks[c].status == CheckCancelled {
          return CheckFailed;
        }
      }
    }
    if !hasRequired {
      return CheckPending;
    }
    todo := checks.Keys;
    while todo != {}
      invariant todo <= checks.Keys
      invariant forall c :: c in checks && c !in todo && checks[c].required ==> checks[c].status == CheckPassed
      decreases |todo|
    {
      var c :| c in todo;
      if checks[c].required && checks[c].status != CheckPassed {
        return CheckPending;
      }
      todo := todo - {c};
    }
    return CheckPassed;
  }

  lemma CiFromChecks(own: seq<Body>, checks: map<Id, Check>, s: CheckStatus)
    requires ChecksAre(own, checks) && s != CheckCancelled
    requires s == CheckFailed <==> exists c :: c in checks && checks[c].required && Bad(checks[c].status)
    requires s == CheckPassed <==>
               (exists c :: c in checks && checks[c].required) &&
               forall c :: c in checks && checks[c].required ==> checks[c].status == CheckPassed
    ensures CiIs(own, s)
  {
    forall c | c in checks
      ensures exists i :: LastCheck(own, i) && own[i].check == c && Check(own[i].required, own[i].checkStatus) == checks[c]
    {
    }
  }

  /** BuildVerificationMatrix: every dimension is present once, in the fixed order, and shows what was reported last. */
  method BuildMatrix(log: seq<Event>, lane: Id) returns (r: Result<seq<(Id, CheckStatus)>>)
    ensures r.Err? <==> LaneOf(lane, log).Err?
    ensures r.Ok? ==> |r.value| == |DIMENSIONS|
    ensures r.Ok? ==>
              forall k :: 0 <= k < |DIMENSIONS| ==>
                r.value[k].0 == DIMENSIONS[k] && DimensionIs(Own(lane, log), DIMENSIONS[k], r.value[k].1)
  {
    var l := ReduceLane(lane, log);
    if l.Err? {
      return Err(l.error);
    }
    var explicit: map<Id, CheckStatus> := map[];
    var checks: map<Id, Check> := map[];
    for i := 0 to |log|
      invariant ExplicitIs(Own(lane, log[..i]), explicit) && ChecksAre(Own(lane, log[..i]), checks)
    {
      TakeSnoc(log, i);
      OwnAppend(lane, log[..i], log[i]);
      if log[i].entity == Some(lane) {
        ExplicitSnoc(Own(lane, log[..i]), explicit, log[i].body);
        ChecksSnoc(Own(lane, log[..i]), checks, log[i].body);
        match log[i].body
        case VerificationRecorded(name, outcome) => explicit := explicit[name := outcome];
        case CiCheckReported(check, required, status) => checks := checks[check := Check(required, status)];
        case _ =>
      }
    }
    TakeAll(log);
    var dimensions: seq<(Id, CheckStatus)> := [];
    for k := 0 to |DIMENSIONS|
      invariant |dimensions| == k
      invariant forall j :: 0 <= j < k ==>
        dimensions[j].0 == DIMENSIONS[j] && DimensionIs(Own(lane, log), DIMENSIONS[j], dimensions[j].1)
    {
      var s := Dimension(Own(lane, log), DIMENSIONS[k], explicit, checks);
      dimensions := dimensions + [(DIMENSIONS[k], s)];
    }
    return Ok(dimensions);
  }

  method Dimension(ghost own: seq<Body>, name: Id, explicit: map<Id, CheckStatus>, checks: map<Id, Check>)
    returns (s: CheckStatus)
    requires ExplicitIs(own, explicit) && ChecksAre(own, checks)
    ensures DimensionIs(own, name, s)
  {
    if name in explicit {
      s := explicit[name];
      ghost var last :| LastOf(own, name, last) && own[last].outcome == explicit[name];
      forall i | LastOf(own, name, i) ensures s == own[i].outcome {
        LastOfUnique(own, name, i, last);
      }
    } else if name == "ci" {
      s := DeriveCi(checks);
      CiFromChecks(own, checks, s);
    } else {
      s := CheckPending;
    }
  }

  // ---------------------------------------------------------------- review conclusions

  /** The conclusion recorded last on the lane. */
  function LatestConclusion(lane: Id, log: seq<Event>): Option<Conclusion> {
    if log == [] then None
    else
      var n := |log| - 1;
      if log[n].entity == Some(lane) && log[n].body.ReviewConclusionRecorded? then Some(log[n].body.conclusion)
      else LatestConclusion(lane, log[..n])
  }

  function ConclusionOf(lane: Id, log: seq<Event>): Result<Conclusion> {
    var l :- LaneOf(lane, log);
    var latest := LatestConclusion(lane, log);
    if latest.None? then Err(NotFound) else Ok(latest.value)
  }

  /** GetLatestReviewConclusion. */
  method LatestReview(lane: Id, log: seq<Event>) returns (r: Result<Conclusion>)
    ensures r == ConclusionOf(lane, log)
  {
    var l := ReduceLane(lane, log);
    if l.Err? {
      return Err(l.error);
    }
    var latest: Option<Conclusion> := None;
    for i := 0 to |log|
      invariant latest == LatestConclusion(lane, log[..i])
    {
      assert log[..i + 1][..i] == log[..i];
      if log[i].entity == Some(lane) && log[i].body.ReviewConclusionRecorded? {
        latest := Some(log[i].body.conclusion);
      }
    }
    TakeAll(log);
    return if latest.None? then Err(NotFound) else Ok(latest.value);
  }

  /** A lane has a conclusion once one was recorded. */
  lemma {:induction false} OnceConcluded(lane: Id, log: seq<Event>, i: nat)
    requires i < |log| && log[i].entity == Some(lane) && log[i].body.ReviewConclusionRecorded?
    ensures LatestConclusion(lane, log).Some?
    decreases |log|
  {
    if i < |log| - 1 {
      OnceConcluded(lane, log[..|log| - 1], i);
    }
  }
}
