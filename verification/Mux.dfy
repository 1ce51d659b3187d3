/** The JSON-RPC call multiplexer (internal/adapters/stdio.go:182-269) as a step system. A step is one stretch of code
    under the lock or one channel operation; calls, cancellations and the reader interleave freely. A call's channel has
    one slot and is named by the call's request id. */
module Mux {
  import opened Core

  datatype Response = Response(id: Option<nat>, payload: string)

  datatype ReadError = TooLarge(operation: string)

  datatype Failure = WriteError | ContextDone | Exited(cause: Option<ReadError>)

  datatype Outcome = Answer(response: Response) | Failed(failure: Failure)

  /** Where one Call stands. Dropping removes the call from the pending table and returns. */
  datatype Phase = Writing | Waiting | Dropping(failure: Failure) | Returned(outcome: Outcome)

  datatype Reader = Scanning | Delivering(to: nat, response: Response) | Closing | Closed

  datatype Client = Client(
    nextId: nat,
    pending: map<nat, string>,      // id to operation
    slots: map<nat, seq<Response>>, // each call's channel
    calls: map<nat, Phase>,
    reader: Reader,
    readErr: Option<ReadError>,
    sent: seq<nat>                  // history: the calls readLoop took out of the table to answer
  )

  const START := Client(0, map[], map[], map[], Scanning, None, [])

  datatype Step =
    | Begin(operation: string)       // nextID++, register the channel
    | Wrote(id: nat)
    | WriteFailed(id: nat)
    | Receive(id: nat)            // <-ch
    | Cancelled(id: nat)          // <-ctx.Done(), then the cancel notification
    | SawDone(id: nat)            // <-c.done
    | Drop(id: nat)               // delete from the table under the lock, return
    | Read(response: Response)    // one line, the table lookup and deletion under the lock
    | Deliver                     // call.ch <- resp
    | StopReading(tooLong: bool, operation: string)
    | CloseDone                   // close(c.done)

  predicate Done(c: Client) {
    c.reader == Closed
  }

  predicate Is(c: Client, id: nat, p: Phase) {
    id in c.calls && c.calls[id] == p
  }

  /** Deliver needs room in the one-slot channel; without it readLoop would block. */
  predicate Enabled(c: Client, s: Step) {
    match s
    case Begin(_) => true
    case Wrote(id) => Is(c, id, Writing)
    case WriteFailed(id) => Is(c, id, Writing)
    case Receive(id) => Is(c, id, Waiting) && id in c.slots && c.slots[id] != []
    case Cancelled(id) => Is(c, id, Waiting)
    case SawDone(id) => Is(c, id, Waiting) && Done(c)
    case Drop(id) => id in c.calls && c.calls[id].Dropping?
    case Read(_) => c.reader.Scanning?
    case Deliver => c.reader.Delivering? && c.reader.to in c.slots && c.slots[c.reader.to] == []
    case StopReading(tooLong, operation) =>
      && c.reader.Scanning?
      && (tooLong ==> if c.pending == map[] then operation == "" else operation in c.pending.Values)
    case CloseDone => c.reader.Closing?
  }

  function Next(c: Client, s: Step): Client
    requires Enabled(c, s)
  {
    match s
    case Begin(operation) =>
      var id := c.nextId + 1;
      c.(nextId := id, pending := c.pending[id := operation], slots := c.slots[id := []], calls := c.calls[id := Writing])
    case Wrote(id) => c.(calls := c.calls[id := Waiting])
    case WriteFailed(id) => c.(calls := c.calls[id := Dropping(WriteError)])
    case Receive(id) => c.(calls := c.calls[id := Returned(Answer(c.slots[id][0]))], slots := c.slots[id := c.slots[id][1..]])
    case Cancelled(id) => c.(calls := c.calls[id := Dropping(ContextDone)])
    case SawDone(id) => c.(calls := c.calls[id := Dropping(Exited(c.readErr))])
    case Drop(id) => c.(calls := c.calls[id := Returned(Failed(c.calls[id].failure))], pending := c.pending - {id})
    case Read(response) =>
      if response.id.None? || response.id.value !in c.pending then c
      else
        var id := response.id.value;
        c.(pending := c.pending - {id}, reader := Delivering(id, response), sent := c.sent + [id])
    case Deliver =>
      c.(slots := c.slots[c.reader.to := c.slots[c.reader.to] + [c.reader.response]], reader := Scanning)
    case StopReading(tooLong, operation) => c.(reader := Closing, readErr := if tooLong then Some(TooLarge(operation)) else None)
    case CloseDone => c.(reader := Closed)
  }

  predicate Possible(c: Client, steps: seq<Step>)
    decreases |steps|
  {
    steps == [] || (Enabled(c, steps[0]) && Possible(Next(c, steps[0]), steps[1..]))
  }

  function Run(c: Client, steps: seq<Step>): Client
    requires Possible(c, steps)
    decreases |steps|
  {
    if steps == [] then c else Run(Next(c, steps[0]), steps[1..])
  }

  // ---------------------------------------------------------------- the invariant

  ghost predicate Answered(c: Client, id: nat) {
    id in c.calls && c.calls[id].Returned? && c.calls[id].outcome.Answer?
  }

  /** The call was taken out of the table to be answered, and its answer is not in the channel yet. */
  predicate OnItsWay(c: Client, id: nat) {
    c.reader.Delivering? && c.reader.to == id
  }

  /** What holds of one id. */
  ghost predicate CallOk(c: Client, id: nat) {
    && (id in c.calls <==> 1 <= id <= c.nextId)
    && (id in c.slots <==> id in c.calls)
    && (id in c.pending ==> id in c.calls && !c.calls[id].Returned? && id !in c.sent)
    && (id in c.sent ==> id in c.calls)
    && (id in c.slots && c.slots[id] != [] ==> id in c.sent && |c.slots[id]| == 1 && c.slots[id][0].id == Some(id))
    && (Answered(c, id) ==> id in c.sent && c.calls[id].outcome.response.id == Some(id) && c.slots[id] == [])
    && (c.reader.Delivering? && c.reader.to == id ==>
          id in c.sent && c.reader.response.id == Some(id) && c.slots[id] == [] && !Answered(c, id))
    && (id in c.sent && !Answered(c, id) && !OnItsWay(c, id) ==> c.slots[id] != [])
  }

  ghost predicate Inv(c: Client) {
    NoDup(c.sent) && forall id :: CallOk(c, id)
  }

  lemma NextKeepsCall(c: Client, s: Step, id: nat)
    requires Inv(c) && Enabled(c, s)
    ensures CallOk(Next(c, s), id)
  {
    assert CallOk(c, id);
    match s
    case Begin(_) =>
    case Wrote(_) =>
    case WriteFailed(_) =>
    case Receive(_) =>
    case Cancelled(_) =>
    case SawDone(_) =>
    case Drop(_) =>
    case Read(_) =>
    case Deliver => assert CallOk(c, c.reader.to);
    case StopReading(_, _) =>
    case CloseDone =>
  }

  lemma SentOnce(c: Client, s: Step)
    requires Inv(c) && Enabled(c, s)
    ensures NoDup(Next(c, s).sent)
  {
    if s.Read? && Next(c, s).sent != c.sent {
      var id := s.response.id.value;
      assert CallOk(c, id);
      forall i | 0 <= i < |c.sent| ensures c.sent[i] != id {
        assert c.sent[i] in c.sent;
      }
    }
  }

  lemma NextKeepsInv(c: Client, s: Step)
    requires Inv(c) && Enabled(c, s)
    ensures Inv(Next(c, s))
  {
    SentOnce(c, s);
    forall id ensures CallOk(Next(c, s), id) {
      NextKeepsCall(c, s, id);
    }
  }

  lemma {:induction false} RunKeepsInv(c: Client, steps: seq<Step>)
    requires Inv(c) && Possible(c, steps)
    ensures Inv(Run(c, steps))
    decreases |steps|
  {
    if steps != [] {
      NextKeepsInv(c, steps[0]);
      RunKeepsInv(Next(c, steps[0]), steps[1..]);
    }
  }

  lemma StartInv()
    ensures Inv(START)
  {
    assert forall id :: CallOk(START, id);
  }

  // ---------------------------------------------------------------- what every interleaving guarantees

  /** A new call's id was never used before. */
  lemma IdsAreFresh(steps: seq<Step>, operation: string)
    requires Possible(START, steps)
    ensures var c := Run(START, steps); Next(c, Begin(operation)).nextId !in c.calls && c.nextId + 1 !in c.sent
  {
    StartInv();
    RunKeepsInv(START, steps);
    assert CallOk(Run(START, steps), Run(START, steps).nextId + 1);
  }

  /** An answered call got the response carrying its own id, and readLoop answered each id at most once. */
  lemma AnswersAreOwn(steps: seq<Step>, id: nat)
    requires Possible(START, steps) && Answered(Run(START, steps), id)
    ensures Run(START, steps).calls[id].outcome.response.id == Some(id)
    ensures NoDup(Run(START, steps).sent)
  {
    StartInv();
    RunKeepsInv(START, steps);
    assert CallOk(Run(START, steps), id);
  }

  /** The send of readLoop never blocks: whenever it is about to deliver, the slot is free. */
  lemma DeliveryNeverBlocks(steps: seq<Step>)
    requires Possible(START, steps) && Run(START, steps).reader.Delivering?
    ensures Enabled(Run(START, steps), Deliver)
  {
    StartInv();
    RunKeepsInv(START, steps);
    assert CallOk(Run(START, steps), Run(START, steps).reader.to);
  }

  /** No entry outlives its call: the table holds calls still running only. */
  lemma NoLeftovers(steps: seq<Step>, id: nat)
    requires Possible(START, steps) && id in Run(START, steps).calls && Run(START, steps).calls[id].Returned?
    ensures id !in Run(START, steps).pending
  {
    StartInv();
    RunKeepsInv(START, steps);
    assert CallOk(Run(START, steps), id);
  }

  /** How many of its own steps a call still has at most. */
  function StepsLeft(p: Phase): nat {
    match p case Writing => 3 case Waiting => 2 case Dropping(_) => 1 case Returned(_) => 0
  }

  /** The steps a call takes itself. */
  predicate OwnStep(s: Step, id: nat) {
    match s
    case Wrote(i) => i == id
    case WriteFailed(i) => i == id
    case Receive(i) => i == id
    case Cancelled(i) => i == id
    case SawDone(i) => i == id
    case Drop(i) => i == id
    case _ => false
  }

  /** Once done is closed no call is stuck: each running call has a step of its own that is enabled, and each such step
      brings it nearer to returning, while nobody else's step moves it. */
  lemma DoneFreesEveryCall(steps: seq<Step>, id: nat) returns (s: Step)
    requires Possible(START, steps) && Done(Run(START, steps))
    requires id in Run(START, steps).calls && !Run(START, steps).calls[id].Returned?
    ensures Enabled(Run(START, steps), s) && OwnStep(s, id)
    ensures forall t :: Enabled(Run(START, steps), t) ==>
              var was, now := Run(START, steps).calls[id], Next(Run(START, steps), t).calls;
              id in now && if OwnStep(t, id) then StepsLeft(now[id]) < StepsLeft(was) else now[id] == was
  {
    var c := Run(START, steps);
    StartInv();
    RunKeepsInv(START, steps);
    assert CallOk(c, c.nextId + 1);
    s := match c.calls[id] case Writing => Wrote(id) case Waiting => SawDone(id) case Dropping(_) => Drop(id);
  }

  /** The read error is settled before done is closed, and done stays closed. */
  lemma DoneIsFinal(c: Client, s: Step)
    requires Done(c) && Enabled(c, s)
    ensures Done(Next(c, s)) && Next(c, s).readErr == c.readErr && Next(c, s).sent == c.sent
  {
  }

  /** A returned call stays as it returned: no second answer. */
  lemma ReturnedIsFinal(c: Client, s: Step, id: nat)
    requires Inv(c) && Enabled(c, s) && id in c.calls && c.calls[id].Returned?
    ensures id in Next(c, s).calls && Next(c, s).calls[id] == c.calls[id]
  {
    assert CallOk(c, c.nextId + 1);
  }

  // ---------------------------------------------------------------- lost answers

  /** A call that failed lost its answer, which then stays in its channel for good, exactly when readLoop had taken it out
      of the table to answer it and the delivery is through. */
  lemma AnswerLostExactly(steps: seq<Step>, id: nat)
    requires Possible(START, steps) && id in Run(START, steps).calls
    requires Run(START, steps).calls[id].Returned? && Run(START, steps).calls[id].outcome.Failed?
    ensures var c := Run(START, steps); id in c.slots && (c.slots[id] != [] <==> id in c.sent && !OnItsWay(c, id))
  {
    StartInv();
    RunKeepsInv(START, steps);
    assert CallOk(Run(START, steps), id);
  }

  /** The guard it rests on: a waiting call whose answer has arrived can only receive it, unless its context is cancelled or
      done is closed; and the way out through done is open exactly when done is closed. */
  lemma ArrivedIsReceived(steps: seq<Step>, id: nat, s: Step)
    requires Possible(START, steps) && Is(Run(START, steps), id, Waiting) && OwnStep(s, id)
    ensures var c := Run(START, steps);
      && (Enabled(c, Receive(id)) <==> id in c.sent && !OnItsWay(c, id))
      && (Enabled(c, SawDone(id)) <==> Done(c))
      && (Enabled(c, s) ==> s == Receive(id) || s == Cancelled(id) || (s == SawDone(id) && Done(c)))
      && (Enabled(c, s) ==> (Answered(Next(c, s), id) <==> s == Receive(id)))
  {
    StartInv();
    RunKeepsInv(START, steps);
    assert CallOk(Run(START, steps), id);
  }

  /** How the call stands tells which of its steps the run took. */
  ghost predicate Tells(c: Client, steps: seq<Step>, id: nat) {
    && (Receive(id) in steps <==> Answered(c, id))
    && (WriteFailed(id) in steps <==> FailureOf(c, id) == Some(WriteError))
    && (Cancelled(id) in steps <==> FailureOf(c, id) == Some(ContextDone))
    && (SawDone(id) in steps <==> FailureOf(c, id).Some? && FailureOf(c, id).value.Exited?)
    && (SawDone(id) in steps ==> Done(c))
  }

  /** What the call failed with, or is about to. */
  function FailureOf(c: Client, id: nat): Option<Failure> {
    if id !in c.calls then None
    else
      match c.calls[id]
      case Dropping(failure) => Some(failure)
      case Returned(Failed(failure)) => Some(failure)
      case _ => None
  }

  lemma {:induction false} RunSnoc(c: Client, steps: seq<Step>, s: Step)
    requires Possible(c, steps + [s])
    ensures Possible(c, steps) && Enabled(Run(c, steps), s) && Run(c, steps + [s]) == Next(Run(c, steps), s)
    decreases |steps|
  {
    if steps == [] {
      assert [] + [s] == [s] && [s][1..] == [];
    } else {
      assert (steps + [s])[1..] == steps[1..] + [s];
      RunSnoc(Next(c, steps[0]), steps[1..], s);
    }
  }

  lemma TellsNext(c: Client, steps: seq<Step>, s: Step, id: nat)
    requires Inv(c) && Enabled(c, s) && Tells(c, steps, id)
    ensures Tells(Next(c, s), steps + [s], id)
  {
    assert CallOk(c, id) && CallOk(c, c.nextId + 1);
    assert forall t :: t in steps + [s] <==> t in steps || t == s;
  }

  /** A call's outcome has exactly one cause: it is answered if and only if it received, fails with a write error, its
      context's error or the adapter's exit if and only if it took that way out, the last only with done closed. So an
      answer is lost only to one of the three, never while writing succeeds, the context lives and done is open. */
  lemma {:induction false} OutcomeTells(steps: seq<Step>, id: nat)
    requires Possible(START, steps)
    ensures Tells(Run(START, steps), steps, id)
    decreases |steps|
  {
    if steps != [] {
      var n := |steps| - 1;
      assert steps == steps[..n] + [steps[n]];
      RunSnoc(START, steps[..n], steps[n]);
      OutcomeTells(steps[..n], id);
      StartInv();
      RunKeepsInv(START, steps[..n]);
      TellsNext(Run(START, steps[..n]), steps[..n], steps[n], id);
    }
  }

  const LATE := Response(Some(1), "ok")

  function LateAnswer(): seq<Step> {
    [Begin("m"), Wrote(1), Read(LATE), Deliver, StopReading(false, ""), CloseDone, SawDone(1), Drop(1)]
  }

  /** The client after the first half: the answer lies in the channel. */
  const ANSWERED := Client(1, map[], map[1 := [LATE]], map[1 := Waiting], Scanning, None, [1])

  lemma FirstHalf()
    ensures Possible(START, LateAnswer()[..4]) && Run(START, LateAnswer()[..4]) == ANSWERED
  {
    var c1 := Next(START, Begin("m"));
    var c2 := Next(c1, Wrote(1));
    var c3 := Next(c2, Read(LATE));
    var c4 := Next(c3, Deliver);
    assert c4.slots[1] == [LATE];
    assert c4.pending == map[] && c4.slots == map[1 := [LATE]] && c4.calls == map[1 := Waiting] && c4.sent == [1];
    OneMore(c3, Deliver, []);
    OneMore(c2, Read(LATE), [Deliver]);
    OneMore(c1, Wrote(1), [Read(LATE), Deliver]);
    OneMore(START, Begin("m"), [Wrote(1), Read(LATE), Deliver]);
    assert LateAnswer()[..4] == [Begin("m")] + [Wrote(1), Read(LATE), Deliver];
  }

  lemma SecondHalf()
    ensures Possible(ANSWERED, LateAnswer()[4..])
    ensures Run(ANSWERED, LateAnswer()[4..]) ==
            ANSWERED.(reader := Closed, calls := map[1 := Returned(Failed(Exited(None)))])
  {
    var c1 := Next(ANSWERED, StopReading(false, ""));
    var c2 := Next(c1, CloseDone);
    var c3 := Next(c2, SawDone(1));
    OneMore(c3, Drop(1), []);
    OneMore(c2, SawDone(1), [Drop(1)]);
    OneMore(c1, CloseDone, [SawDone(1), Drop(1)]);
    OneMore(ANSWERED, StopReading(false, ""), [CloseDone, SawDone(1), Drop(1)]);
    assert LateAnswer()[4..] == [StopReading(false, "")] + [CloseDone, SawDone(1), Drop(1)];
  }

  lemma {:induction false} RunAppend(c: Client, a: seq<Step>, b: seq<Step>)
    requires Possible(c, a) && Possible(Run(c, a), b)
    ensures Possible(c, a + b) && Run(c, a + b) == Run(Run(c, a), b)
    decreases |a|
  {
    if a == [] {
      assert a + b == b;
    } else {
      RunAppend(Next(c, a[0]), a[1..], b);
      assert (a + b)[1..] == a[1..] + b;
    }
  }

  /** The answer can still be lost: once done is closed a waiting call may take that way out although its answer lies in
      the channel already. */
  lemma AnswerMayBeLost()
    ensures Possible(START, LateAnswer())
    ensures var c := Run(START, LateAnswer());
            1 in c.slots && c.slots[1] == [LATE] && 1 in c.calls && c.calls[1] == Returned(Failed(Exited(None)))
  {
    FirstHalf();
    SecondHalf();
    RunAppend(START, LateAnswer()[..4], LateAnswer()[4..]);
    assert LateAnswer() == LateAnswer()[..4] + LateAnswer()[4..];
  }

  lemma OneMore(c: Client, s: Step, rest: seq<Step>)
    requires Enabled(c, s) && Possible(Next(c, s), rest)
    ensures Possible(c, [s] + rest) && Run(c, [s] + rest) == Run(Next(c, s), rest)
  {
    assert ([s] + rest)[1..] == rest;
  }
}
