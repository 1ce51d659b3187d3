/** What every run keeps of the case, execution and session tables. */
module Lifetimes {
  import opened Core
  import opened Events
  import opened Reduce
  import opened LaneRules
  import opened World
  import opened Lifetime

  // ---------------------------------------------------------------- how an orchestration stands

  datatype Standing = Open | Cancelled | Completed

  function StandingOf(log: seq<Event>): Standing {
    var o := OrchOf(log);
    if o.Ok? && o.value.status == OrchCancelled then Cancelled
    else if o.Ok? && o.value.status == OrchCompleted then Completed
    else Open
  }

  function Standings(logs: map<Id, seq<Event>>): map<Id, Standing> {
    map o | o in logs :: StandingOf(logs[o])
  }

  // ---------------------------------------------------------------- the invariant

  /** An active case of an issue is the only one at its organisation, and one without an organisation is the only one. */
  ghost predicate UniqueActive(cases: map<Id, Case>) {
    forall c, d :: c in cases && d in cases && c != d ==> !Clash(cases[c], cases[d])
  }

  ghost predicate Clash(a: Case, b: Case) {
    && a.jira && b.jira && a.active && b.active && a.key == b.key
    && (a.tenant == b.tenant || a.tenant == "" || b.tenant == "")
  }

  ghost predicate BelongsTo(executions: map<Id, Execution>, e: Id, c: Id) {
    e in executions && executions[e].caseId == c
  }

  ghost predicate Uses(executions: map<Id, Execution>, c: Id, k: nat) {
    exists e :: BelongsTo(executions, e, c) && executions[e].ordinal == k
  }

  /** The ordinals of a case are exactly 1..n, each used once. */
  ghost predicate Numbered(executions: map<Id, Execution>, c: Id, n: nat) {
    && (forall e :: BelongsTo(executions, e, c) ==> 1 <= executions[e].ordinal <= n)
    && (forall k :: 1 <= k <= n ==> Uses(executions, c, k))
    && (forall e, d :: BelongsTo(executions, e, c) && BelongsTo(executions, d, c) && e != d ==>
          executions[e].ordinal != executions[d].ordinal)
  }

  ghost predicate HasNumbers(executions: map<Id, Execution>, c: Id) {
    exists n: nat :: n > 0 && Numbered(executions, c, n)
  }

  ghost predicate CasesNumbered(cases: map<Id, Case>, executions: map<Id, Execution>) {
    forall c :: c in cases ==> HasNumbers(executions, c)
  }

  /** Only a case's last execution can have a live or cancelled orchestration, and the case is active exactly while that
      one is not cancelled. */
  ghost predicate OnlyLastLives(cases: map<Id, Case>, executions: map<Id, Execution>, standing: map<Id, Standing>) {
    forall e :: e in executions && executions[e].caseId in cases && executions[e].orch in standing ==>
      if IsLast(executions, executions[e].caseId, e)
      then cases[executions[e].caseId].active <==> standing[executions[e].orch] != Cancelled
      else standing[executions[e].orch] == Completed
  }

  ghost predicate ExecutionsOk(cases: map<Id, Case>, executions: map<Id, Execution>, standing: map<Id, Standing>) {
    && (forall e :: e in executions ==> executions[e].caseId in cases && executions[e].orch in standing)
    && (forall e, d :: e in executions && d in executions && e != d ==> executions[e].orch != executions[d].orch)
    && (forall e :: e in executions ==>
          executions[e].status == if standing[executions[e].orch] == Completed then ExecutionCompleted else ExecutionActive)
  }

  /** At most one active session per execution, and none on a completed one. */
  ghost predicate SessionsOk(executions: map<Id, Execution>, sessions: map<Id, Session>) {
    && (forall s :: s in sessions ==> sessions[s].execution in executions)
    && (forall s :: s in sessions && sessions[s].status == SessionActive ==>
          executions[sessions[s].execution].status == ExecutionActive)
    && (forall s, t, e :: ActiveOn(sessions, s, e) && ActiveOn(sessions, t, e) ==> s == t)
  }

  ghost predicate TablesOk(cases: map<Id, Case>, executions: map<Id, Execution>, sessions: map<Id, Session>,
                           standing: map<Id, Standing>) {
    && UniqueActive(cases)
    && CasesNumbered(cases, executions)
    && ExecutionsOk(cases, executions, standing)
    && OnlyLastLives(cases, executions, standing)
    && SessionsOk(executions, sessions)
  }

  ghost predicate TablesInv(w: State) {
    TablesOk(w.cases, w.executions, w.sessions, Standings(w.logs))
  }

  // ---------------------------------------------------------------- lookups

  /** The last execution of a numbered case carries the count, and no later one exists. */
  lemma LastHasCount(executions: map<Id, Execution>, c: Id, n: nat, e: Id)
    requires Numbered(executions, c, n) && IsLast(executions, c, e)
    ensures executions[e].ordinal == n
  {
    assert BelongsTo(executions, e, c);
    assert Uses(executions, c, n);
    var d :| BelongsTo(executions, d, c) && executions[d].ordinal == n;
  }

  /** With an organisation the exact match wins; without one the unnamed case does: in both cases the case returned
      can be given the organisation asked for, or a new case opened, without a clash. */
  lemma FoundKeepsUnique(cases: map<Id, Case>, key: Id, org: Id, found: Option<Id>)
    requires UniqueActive(cases) && Found(cases, key, org, found)
    ensures found.None? ==>
              forall d, at :: d in cases ==> !Clash(Case(true, key, org, true, at), cases[d])
    ensures found.Some? && org != "" ==>
              forall d :: d in cases && d != found.value ==> !Clash(cases[found.value].(tenant := org), cases[d])
  {
  }

  // ---------------------------------------------------------------- opening executions

  /** The tables before a new execution of case c: everything but the new ordinal is in place. */
  ghost predicate ReadyToOpen(executions: map<Id, Execution>, c: Id, n: nat, standing: map<Id, Standing>) {
    && Numbered(executions, c, n)
    && forall e :: BelongsTo(executions, e, c) ==> executions[e].orch in standing && standing[executions[e].orch] == Completed
  }

  lemma OpenNumbers(executions: map<Id, Execution>, now: map<Id, Execution>, c: Id, n: nat, e: Id, x: Execution)
    requires now == executions[e := x]
    requires Numbered(executions, c, n) && e !in executions && x.caseId == c && x.ordinal == n + 1
    ensures Numbered(now, c, n + 1)
    ensures IsLast(now, c, e)
    ensures forall f :: IsLast(now, c, f) ==> f == e
  {
    assert forall f :: BelongsTo(now, f, c) <==> BelongsTo(executions, f, c) || f == e;
    forall k | 1 <= k <= n + 1 ensures Uses(now, c, k) {
      if k == n + 1 {
        assert BelongsTo(now, e, c);
      } else {
        assert Uses(executions, c, k);
        var f :| BelongsTo(executions, f, c) && executions[f].ordinal == k;
        assert BelongsTo(now, f, c);
      }
    }
    assert BelongsTo(now, e, c);
    forall f | IsLast(now, c, f) ensures f == e {
      assert now[e].ordinal <= now[f].ordinal;
      assert f != e ==> BelongsTo(executions, f, c);
    }
  }

  lemma OpenElsewhere(executions: map<Id, Execution>, now: map<Id, Execution>, e: Id, x: Execution, d: Id, m: nat)
    requires now == executions[e := x]
    requires e !in executions && x.caseId != d && Numbered(executions, d, m)
    ensures Numbered(now, d, m)
    ensures forall f :: IsLast(now, d, f) <==> IsLast(executions, d, f)
  {
    assert forall f :: BelongsTo(now, f, d) <==> BelongsTo(executions, f, d);
    forall k | 1 <= k <= m ensures Uses(now, d, k) {
      assert Uses(executions, d, k);
      var f :| BelongsTo(executions, f, d) && executions[f].ordinal == k;
      assert BelongsTo(now, f, d);
    }
    forall f ensures IsLast(now, d, f) <==> IsLast(executions, d, f) {
      if IsLast(executions, d, f) {
        forall g | g in now && now[g].caseId == d ensures now[g].ordinal <= now[f].ordinal {
          assert g in executions;
        }
      }
      if IsLast(now, d, f) {
        forall g | g in executions && executions[g].caseId == d ensures executions[g].ordinal <= executions[f].ordinal {
          assert now[g] == executions[g];
        }
      }
    }
  }

  /** An execution that was there already is neither newer nor differently placed. */
  lemma OldStaysPut(cases: map<Id, Case>, executions: map<Id, Execution>, now: map<Id, Execution>,
                    standing: map<Id, Standing>, c: Id, n: nat,
                    e: Id, x: Execution, f: Id)
    requires now == executions[e := x]
    requires forall d :: d in cases && d != c ==> HasNumbers(executions, d)
    requires ReadyToOpen(executions, c, n, standing) && OnlyLastLives(cases, executions, standing)
    requires e !in executions && x.caseId == c && x.ordinal == n + 1
    requires f in executions && executions[f].caseId in cases && executions[f].orch in standing
    ensures if IsLast(now, executions[f].caseId, f)
            then cases[executions[f].caseId].active <==> standing[executions[f].orch] != Cancelled
            else standing[executions[f].orch] == Completed
  {
    var d := executions[f].caseId;
    if d == c {
      assert BelongsTo(executions, f, c);
      OpenNumbers(executions, now, c, n, e, x);
    } else {
      var m: nat :| m > 0 && Numbered(executions, d, m);
      OpenElsewhere(executions, now, e, x, d, m);
    }
  }

  lemma OpenKeepsNumbers(cases: map<Id, Case>, executions: map<Id, Execution>, now: map<Id, Execution>, c: Id, n: nat,
                         e: Id, x: Execution)
    requires now == executions[e := x]
    requires forall d :: d in cases && d != c ==> HasNumbers(executions, d)
    requires Numbered(executions, c, n) && e !in executions && x.caseId == c && x.ordinal == n + 1
    ensures CasesNumbered(cases, now)
  {
    OpenNumbers(executions, now, c, n, e, x);
    forall d | d in cases ensures HasNumbers(now, d) {
      if d == c {
        assert Numbered(now, c, n + 1);
      } else {
        var m: nat :| m > 0 && Numbered(executions, d, m);
        OpenElsewhere(executions, now, e, x, d, m);
      }
    }
  }

  lemma OpenKeepsLast(cases: map<Id, Case>, executions: map<Id, Execution>, now: map<Id, Execution>,
                      standing: map<Id, Standing>, stands: map<Id, Standing>, c: Id, n: nat,
                      e: Id, x: Execution)
    requires stands == standing[x.orch := Open]
    requires now == executions[e := x]
    requires forall d :: d in cases && d != c ==> HasNumbers(executions, d)
    requires ReadyToOpen(executions, c, n, standing) && OnlyLastLives(cases, executions, standing)
    requires e !in executions && x.caseId == c && x.ordinal == n + 1 && c in cases && cases[c].active
    requires x.orch !in standing && forall f :: f in executions ==> executions[f].orch in standing
    ensures OnlyLastLives(cases, now, stands)
  {
    forall f | f in now && now[f].caseId in cases && now[f].orch in stands
      ensures if IsLast(now, now[f].caseId, f)
              then cases[now[f].caseId].active <==> stands[now[f].orch] != Cancelled
              else stands[now[f].orch] == Completed
    {
      if f == e {
        OpenNumbers(executions, now, c, n, e, x);
      } else if executions[f].orch in standing {
        OldStaysPut(cases, executions, now, standing, c, n, e, x, f);
      }
    }
  }

  lemma OpenKeepsRows(cases: map<Id, Case>, executions: map<Id, Execution>, now: map<Id, Execution>,
                      sessions: map<Id, Session>, standing: map<Id, Standing>, stands: map<Id, Standing>, e: Id, x: Execution)
    requires now == executions[e := x] && stands == standing[x.orch := Open]
    requires ExecutionsOk(cases, executions, standing) && SessionsOk(executions, sessions)
    requires e !in executions && x.orch !in standing && x.caseId in cases && x.status == ExecutionActive
    ensures ExecutionsOk(cases, now, stands) && SessionsOk(now, sessions)
  {
    forall f | f in now
      ensures now[f].caseId in cases && now[f].orch in stands
      ensures now[f].status == if stands[now[f].orch] == Completed then ExecutionCompleted else ExecutionActive
      ensures f != e ==> now[f].orch != x.orch
    {
      if f != e {
        assert now[f] == executions[f];
      }
    }
  }

  /** Opening the next execution of an active case, on a new orchestration. */
  lemma OpenKeepsTables(cases: map<Id, Case>, executions: map<Id, Execution>, now: map<Id, Execution>,
                        sessions: map<Id, Session>,
                        standing: map<Id, Standing>, stands: map<Id, Standing>, c: Id, n: nat, e: Id, x: Execution)
    requires stands == standing[x.orch := Open]
    requires now == executions[e := x]
    requires UniqueActive(cases) && c in cases && cases[c].active
    requires forall d :: d in cases && d != c ==> HasNumbers(executions, d)
    requires ExecutionsOk(cases, executions, standing) && OnlyLastLives(cases, executions, standing)
    requires SessionsOk(executions, sessions)
    requires ReadyToOpen(executions, c, n, standing)
    requires e !in executions && x.orch !in standing
    requires x.caseId == c && x.ordinal == n + 1 && x.status == ExecutionActive
    ensures TablesOk(cases, now, sessions, stands)
  {
    OpenKeepsNumbers(cases, executions, now, c, n, e, x);
    OpenKeepsLast(cases, executions, now, standing, stands, c, n, e, x);
    OpenKeepsRows(cases, executions, now, sessions, standing, stands, e, x);
  }

  // ---------------------------------------------------------------- each operation

  lemma NewCaseKeepsTables(w: State, c: Id, row: Case, e: Id, o: Id)
    requires TablesInv(w) && c !in w.cases && e !in w.executions && o !in w.logs && row.active
    requires forall d :: d in w.cases ==> !Clash(row, w.cases[d])
    ensures TablesOk(w.cases[c := row], w.executions[e := Execution(c, o, 1, ExecutionActive, None)], w.sessions,
                     Standings(w.logs)[o := Open])
  {
    var cases := w.cases[c := row];
    assert forall f :: !BelongsTo(w.executions, f, c);
    assert forall d :: d in w.cases ==> cases[d] == w.cases[d];
    forall a, b | a in cases && b in cases && a != b ensures !Clash(cases[a], cases[b]) {
      if a == c {
        assert !Clash(row, w.cases[b]);
      } else if b == c {
        assert !Clash(row, w.cases[a]);
      }
    }
    var x := Execution(c, o, 1, ExecutionActive, None);
    OpenKeepsTables(cases, w.executions, w.executions[e := x], w.sessions, Standings(w.logs), Standings(w.logs)[o := Open],
                    c, 0, e, x);
  }

  /** Renaming the organisation of one case changes no other fact. */
  lemma AdoptKeepsTables(w: State, c: Id, org: Id)
    requires TablesInv(w) && c in w.cases
    requires forall d :: d in w.cases && d != c ==> !Clash(w.cases[c].(tenant := org), w.cases[d])
    ensures TablesOk(w.cases[c := w.cases[c].(tenant := org)], w.executions, w.sessions, Standings(w.logs))
  {
    var cases := w.cases[c := w.cases[c].(tenant := org)];
    forall a, b | a in cases && b in cases && a != b ensures !Clash(cases[a], cases[b]) {
      if a == c {
        assert !Clash(cases[c], w.cases[b]);
      } else if b == c {
        assert !Clash(cases[c], w.cases[a]);
      }
    }
  }

  lemma ClosedCaseIsReady(cases: map<Id, Case>, executions: map<Id, Execution>, standing: map<Id, Standing>, c: Id,
                          last: Id)
    requires CasesNumbered(cases, executions) && ExecutionsOk(cases, executions, standing)
    requires OnlyLastLives(cases, executions, standing)
    requires c in cases && cases[c].active && IsLast(executions, c, last) && standing[executions[last].orch] != Open
    ensures executions[last].status == ExecutionCompleted && executions[last].ordinal > 0
    ensures ReadyToOpen(executions, c, executions[last].ordinal, standing)
  {
    assert HasNumbers(executions, c);
    var n: nat :| n > 0 && Numbered(executions, c, n);
    LastHasCount(executions, c, n, last);
    forall f | BelongsTo(executions, f, c)
      ensures executions[f].orch in standing && standing[executions[f].orch] == Completed
    {
      if IsLast(executions, c, f) {
        LastHasCount(executions, c, n, f);
        assert BelongsTo(executions, last, c) && f == last;
      }
    }
  }

  /** The next execution of an issue whose last one is over. */
  lemma NextExecutionKeepsTables(cases: map<Id, Case>, executions: map<Id, Execution>, now: map<Id, Execution>,
                                 sessions: map<Id, Session>, standing: map<Id, Standing>, stands: map<Id, Standing>,
                                 c: Id, last: Id, e: Id, o: Id)
    requires TablesOk(cases, executions, sessions, standing)
    requires c in cases && cases[c].active && IsLast(executions, c, last) && e !in executions && o !in standing
    requires standing[executions[last].orch] != Open
    requires now == executions[e := Execution(c, o, executions[last].ordinal + 1, ExecutionActive, None)]
    requires stands == standing[o := Open]
    ensures TablesOk(cases, now, sessions, stands)
  {
    ClosedCaseIsReady(cases, executions, standing, c, last);
    OpenKeepsTables(cases, executions, now, sessions, standing, stands, c, executions[last].ordinal, e, now[e]);
  }

  // ---------------------------------------------------------------- closing

  /** The same executions under the same cases, ordinals and orchestrations; status and session may differ. */
  ghost predicate SameShape(executions: map<Id, Execution>, now: map<Id, Execution>) {
    && now.Keys == executions.Keys
    && forall e :: e in now ==>
         now[e].caseId == executions[e].caseId && now[e].ordinal == executions[e].ordinal && now[e].orch == executions[e].orch
  }

  lemma ShapeKeepsNumbers(executions: map<Id, Execution>, now: map<Id, Execution>, c: Id)
    requires SameShape(executions, now) && HasNumbers(executions, c)
    ensures HasNumbers(now, c)
  {
    var n: nat :| n > 0 && Numbered(executions, c, n);
    forall k | 1 <= k <= n ensures Uses(now, c, k) {
      assert Uses(executions, c, k);
      var e :| BelongsTo(executions, e, c) && executions[e].ordinal == k;
      assert BelongsTo(now, e, c);
    }
    assert forall e :: BelongsTo(now, e, c) <==> BelongsTo(executions, e, c);
    assert Numbered(now, c, n);
  }

  lemma ShapeKeepsLast(executions: map<Id, Execution>, now: map<Id, Execution>, c: Id, e: Id)
    requires SameShape(executions, now)
    ensures IsLast(now, c, e) <==> IsLast(executions, c, e)
  {
    assert forall d :: d in now <==> d in executions;
  }

  lemma ShapeKeepsCases(cases: map<Id, Case>, executions: map<Id, Execution>, now: map<Id, Execution>,
                        standing: map<Id, Standing>)
    requires SameShape(executions, now) && CasesNumbered(cases, executions) && OnlyLastLives(cases, executions, standing)
    ensures CasesNumbered(cases, now) && OnlyLastLives(cases, now, standing)
  {
    forall c | c in cases ensures HasNumbers(now, c) {
      ShapeKeepsNumbers(executions, now, c);
    }
    forall e | e in now && now[e].caseId in cases && now[e].orch in standing
      ensures if IsLast(now, now[e].caseId, e)
              then cases[now[e].caseId].active <==> standing[now[e].orch] != Cancelled
              else standing[now[e].orch] == Completed
    {
      ShapeKeepsLast(executions, now, now[e].caseId, e);
    }
  }

  /** A live orchestration belongs to the last execution of its case, if it belongs to any. */
  lemma LiveIsLast(cases: map<Id, Case>, executions: map<Id, Execution>, standing: map<Id, Standing>, e: Id)
    requires ExecutionsOk(cases, executions, standing) && OnlyLastLives(cases, executions, standing)
    requires e in executions && standing[executions[e].orch] == Open
    ensures IsLast(executions, executions[e].caseId, e) && cases[executions[e].caseId].active
  {
  }

  lemma LastIsOne(executions: map<Id, Execution>, c: Id, e: Id, d: Id)
    requires HasNumbers(executions, c) && IsLast(executions, c, e) && IsLast(executions, c, d)
    ensures e == d
  {
    assert BelongsTo(executions, e, c) && BelongsTo(executions, d, c);
  }

  ghost predicate CancelledCases(cases: map<Id, Case>, now: map<Id, Case>, executions: map<Id, Execution>, o: Id) {
    && now.Keys == cases.Keys
    && forall c :: c in now ==>
         now[c] == if exists e :: e in executions && executions[e].orch == o && executions[e].caseId == c
                   then cases[c].(active := false) else cases[c]
  }

  lemma CancelKeepsUnique(cases: map<Id, Case>, now: map<Id, Case>, executions: map<Id, Execution>, o: Id)
    requires UniqueActive(cases) && CancelledCases(cases, now, executions, o)
    ensures UniqueActive(now)
  {
    forall a, b | a in now && b in now && a != b ensures !Clash(now[a], now[b]) {
      assert !Clash(cases[a], cases[b]);
    }
  }

  lemma CancelKeepsLast(cases: map<Id, Case>, now: map<Id, Case>, executions: map<Id, Execution>,
                        standing: map<Id, Standing>, stands: map<Id, Standing>, o: Id)
    requires CasesNumbered(cases, executions) && ExecutionsOk(cases, executions, standing)
    requires OnlyLastLives(cases, executions, standing) && CancelledCases(cases, now, executions, o)
    requires o in standing && standing[o] == Open && stands == standing[o := Cancelled]
    ensures OnlyLastLives(now, executions, stands)
  {
    forall f | f in executions && executions[f].caseId in now && executions[f].orch in stands
      ensures if IsLast(executions, executions[f].caseId, f)
              then now[executions[f].caseId].active <==> stands[executions[f].orch] != Cancelled
              else stands[executions[f].orch] == Completed
    {
      var c := executions[f].caseId;
      if executions[f].orch == o {
        LiveIsLast(cases, executions, standing, f);
        assert !now[c].active;
      } else if e :| e in executions && executions[e].orch == o && executions[e].caseId == c {
        LiveIsLast(cases, executions, standing, e);
        if IsLast(executions, c, f) {
          LastIsOne(executions, c, e, f);
        }
      }
    }
  }

  /** Cancelling the orchestration of a case's last execution deactivates exactly that case. */
  lemma CancelKeepsTables(cases: map<Id, Case>, now: map<Id, Case>, executions: map<Id, Execution>,
                          sessions: map<Id, Session>, standing: map<Id, Standing>, stands: map<Id, Standing>, o: Id)
    requires TablesOk(cases, executions, sessions, standing) && CancelledCases(cases, now, executions, o)
    requires o in standing && standing[o] == Open && stands == standing[o := Cancelled]
    ensures TablesOk(now, executions, sessions, stands)
  {
    CancelKeepsUnique(cases, now, executions, o);
    CancelKeepsLast(cases, now, executions, standing, stands, o);
  }

  ghost predicate CompletedRows(executions: map<Id, Execution>, now: map<Id, Execution>, o: Id) {
    && now.Keys == executions.Keys
    && forall e :: e in now ==>
         now[e] == if executions[e].orch == o then executions[e].(status := ExecutionCompleted) else executions[e]
  }

  ghost predicate ClosedSessions(executions: map<Id, Execution>, sessions: map<Id, Session>, open: map<Id, Session>,
                                 o: Id) {
    && open.Keys == sessions.Keys
    && forall s :: s in open ==>
         open[s] == if sessions[s].status == SessionActive && sessions[s].execution in executions &&
                       executions[sessions[s].execution].orch == o
                    then sessions[s].(status := SessionClosed) else sessions[s]
  }

  lemma CompleteKeepsLast(cases: map<Id, Case>, executions: map<Id, Execution>, standing: map<Id, Standing>,
                          stands: map<Id, Standing>, o: Id)
    requires ExecutionsOk(cases, executions, standing) && OnlyLastLives(cases, executions, standing)
    requires o in standing && standing[o] == Open && stands == standing[o := Completed]
    ensures OnlyLastLives(cases, executions, stands)
  {
    forall e | e in executions && executions[e].caseId in cases && executions[e].orch in stands
      ensures if IsLast(executions, executions[e].caseId, e)
              then cases[executions[e].caseId].active <==> stands[executions[e].orch] != Cancelled
              else stands[executions[e].orch] == Completed
    {
      if executions[e].orch == o {
        LiveIsLast(cases, executions, standing, e);
      }
    }
  }

  /** Sessions that end, or whose executions keep their status, leave no second active session. */
  lemma ClosingKeepsSessions(executions: map<Id, Execution>, now: map<Id, Execution>, sessions: map<Id, Session>,
                             open: map<Id, Session>)
    requires SessionsOk(executions, sessions) && now.Keys == executions.Keys && open.Keys == sessions.Keys
    requires forall s :: s in open ==> open[s].execution == sessions[s].execution
    requires forall s :: s in open && open[s].status == SessionActive ==> sessions[s].status == SessionActive
    requires forall s :: s in open && open[s].status == SessionActive && sessions[s].execution in now ==>
               now[sessions[s].execution].status == executions[sessions[s].execution].status
    ensures SessionsOk(now, open)
  {
    forall s, t, e | ActiveOn(open, s, e) && ActiveOn(open, t, e) ensures s == t {
      assert ActiveOn(sessions, s, e) && ActiveOn(sessions, t, e);
    }
  }

  /** Completing an orchestration completes its execution and closes that execution's sessions. */
  lemma CompleteKeepsTables(cases: map<Id, Case>, executions: map<Id, Execution>, now: map<Id, Execution>,
                            sessions: map<Id, Session>, open: map<Id, Session>,
                            standing: map<Id, Standing>, stands: map<Id, Standing>, o: Id)
    requires TablesOk(cases, executions, sessions, standing)
    requires o in standing && standing[o] == Open && stands == standing[o := Completed]
    requires CompletedRows(executions, now, o) && ClosedSessions(executions, sessions, open, o)
    ensures TablesOk(cases, now, open, stands)
  {
    CompleteKeepsLast(cases, executions, standing, stands, o);
    CompleteKeepsShape(executions, now, o);
    ShapeKeepsCases(cases, executions, now, stands);
    CompleteKeepsRows(cases, executions, now, standing, stands, o);
    CompleteClosesSessions(executions, now, sessions, open, o);
  }

  lemma CompleteKeepsShape(executions: map<Id, Execution>, now: map<Id, Execution>, o: Id)
    requires CompletedRows(executions, now, o)
    ensures SameShape(executions, now)
  {
  }

  lemma CompleteKeepsRows(cases: map<Id, Case>, executions: map<Id, Execution>, now: map<Id, Execution>,
                          standing: map<Id, Standing>, stands: map<Id, Standing>, o: Id)
    requires ExecutionsOk(cases, executions, standing) && CompletedRows(executions, now, o)
    requires stands == standing[o := Completed]
    ensures ExecutionsOk(cases, now, stands)
  {
  }

  lemma CompleteClosesSessions(executions: map<Id, Execution>, now: map<Id, Execution>, sessions: map<Id, Session>,
                               open: map<Id, Session>, o: Id)
    requires SessionsOk(executions, sessions)
    requires CompletedRows(executions, now, o) && ClosedSessions(executions, sessions, open, o)
    ensures SessionsOk(now, open)
  {
    ClosingKeepsSessions(executions, now, sessions, open);
  }

  lemma OpeningKeepsSessions(executions: map<Id, Execution>, now: map<Id, Execution>, sessions: map<Id, Session>, e: Id,
                             id: Id, open: map<Id, Session>)
    requires SessionsOk(executions, sessions) && forall s :: !ActiveOn(sessions, s, e)
    requires e in executions && executions[e].status == ExecutionActive && id !in sessions
    requires now == executions[e := executions[e].(session := Some(id))]
    requires id in open && open == sessions[id := open[id]] && open[id].execution == e && open[id].status == SessionActive
    ensures SessionsOk(now, open)
  {
    forall s, t, f | ActiveOn(open, s, f) && ActiveOn(open, t, f) ensures s == t {
      assert s != id ==> ActiveOn(sessions, s, f);
      assert t != id ==> ActiveOn(sessions, t, f);
    }
  }

  lemma SessionKeepsShape(executions: map<Id, Execution>, now: map<Id, Execution>, e: Id, id: Id)
    requires e in executions && now == executions[e := executions[e].(session := Some(id))]
    ensures SameShape(executions, now)
  {
  }

  lemma SessionKeepsRows(cases: map<Id, Case>, executions: map<Id, Execution>, now: map<Id, Execution>,
                         standing: map<Id, Standing>, e: Id, id: Id)
    requires ExecutionsOk(cases, executions, standing) && e in executions
    requires now == executions[e := executions[e].(session := Some(id))]
    ensures ExecutionsOk(cases, now, standing)
  {
  }

  /** A session is opened on an execution without an active one. */
  lemma SessionKeepsTables(cases: map<Id, Case>, executions: map<Id, Execution>, now: map<Id, Execution>,
                           sessions: map<Id, Session>, open: map<Id, Session>, standing: map<Id, Standing>, e: Id, id: Id)
    requires TablesOk(cases, executions, sessions, standing)
    requires e in executions && executions[e].status == ExecutionActive && id !in sessions
    requires forall s :: !ActiveOn(sessions, s, e)
    requires now == executions[e := executions[e].(session := Some(id))]
    requires id in open && open == sessions[id := open[id]] && open[id].execution == e && open[id].status == SessionActive
    ensures TablesOk(cases, now, open, standing)
  {
    SessionKeepsShape(executions, now, e, id);
    ShapeKeepsCases(cases, executions, now, standing);
    SessionKeepsRows(cases, executions, now, standing, e, id);
    OpeningKeepsSessions(executions, now, sessions, e, id, open);
  }

  lemma HandOffKeepsTables(cases: map<Id, Case>, executions: map<Id, Execution>, sessions: map<Id, Session>,
                           standing: map<Id, Standing>, id: Id)
    requires TablesOk(cases, executions, sessions, standing) && id in sessions
    ensures TablesOk(cases, executions, sessions[id := sessions[id].(status := SessionHandedOff)], standing)
  {
    ClosingKeepsSessions(executions, executions, sessions, sessions[id := sessions[id].(status := SessionHandedOff)]);
  }
}
