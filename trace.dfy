/** The observable behaviour of one execution of FakeHLF_PseudoCode::do_work: the
    events it produces (flag reads, endpoint calls and their outcomes, warnings, the
    exit summary), and an event-driven state machine whose states are the program
    points of do_work at which the next event happens. A log is a possible run of
    do_work exactly when the machine accepts it. */
module WorkerTrace {
  import opened Endpoints

  datatype Option<T> = None | Some(value: T)

  /** The four counters of do_work (FakeHLF_PseudoCode.cpp:99-102). */
  datatype Counters = Counters(
    requestCount: nat,
    requestedTRCount: nat,
    receivedCount: nat,
    sentCount: nat)

  const ZERO := Counters(0, 0, 0, 0)

  /** One observable step of do_work. */
  datatype Event =
    | Poll(running: bool)                                        // a read of running_flag
    | SendRequest(request: TriggerRecordRequest, outcome: Outcome) // requestSender_->send
    | Receive(delivery: Delivery)                                // dataReceiver_->receive
    | SendResult(record: TriggerRecord, outcome: Outcome)          // resultSender_->send
    | Warning(endpoint: Endpoint)                                // ers::warning of a timeout
    | Summary(requests: nat, recordsPerRequest: nat, received: nat, sent: nat) // ers::info on exit

  /** A call to one of the three endpoints. */
  predicate IsEndpointCall(e: Event)
  {
    e.SendRequest? || e.Receive? || e.SendResult?
  }

  /** The program points of do_work at which the next event happens. `left` is the
      value of trigRecLeftToReceive, `record` the record held in trigRec. */
  datatype Phase =
    | OuterTest                                    // the running_flag test of line 104
    | RequestDue                                   // the request send of line 119
    | RequestWarningDue                            // the warning of lines 123-126
    | BatchTest(left: nat)                         // the running_flag test of line 138 (left > 0)
    | ReceiveTest(left: nat)                       // the running_flag test of line 142
    | ReceiveDue(left: nat)                        // the receive of line 147
    | ReceiveWarningDue(left: nat)                 // the warning of lines 156-159
    | ForwardTest(left: nat, record: TriggerRecord) // the running_flag test of line 170
    | ForwardDue(left: nat, record: TriggerRecord)  // the result send of line 175
    | SummaryDue                                   // the summary of lines 191-196
    | Exited                                       // do_work has returned

  datatype State = State(phase: Phase, counters: Counters)

  const INITIAL := State(OuterTest, ZERO)

  /** Where control goes when the test of line 138 is reached with `left` records
      still to receive: with none left the test fails without reading the flag and
      control is back at line 104. */
  function BatchPoint(left: nat): Phase
  {
    if left == 0 then OuterTest else BatchTest(left)
  }

  /** The value of trigRecLeftToReceive at a program point; 0 outside a batch. */
  function LeftToReceive(p: Phase): nat
  {
    match p
    case BatchTest(left) => left
    case ReceiveTest(left) => left
    case ReceiveDue(left) => left
    case ReceiveWarningDue(left) => left
    case ForwardTest(left, _) => left
    case ForwardDue(left, _) => left
    case _ => 0
  }

  /** Whether a received record is waiting to be forwarded (the loop of lines 170-184). */
  predicate Forwarding(p: Phase)
  {
    p.ForwardTest? || p.ForwardDue?
  }

  /** The state after event e, or None when do_work cannot produce e in state st.
      n is TRsToRequestEachTime. */
  function Step(n: nat, st: State, e: Event): Option<State>
  {
    var c := st.counters;
    match st.phase
    case OuterTest => AtOuterTest(c, e)
    case RequestDue => AtRequest(n, c, e)
    case RequestWarningDue => AtRequestWarning(c, e)
    case BatchTest(left) => AtBatchTest(left, c, e)
    case ReceiveTest(left) => AtReceiveTest(left, c, e)
    case ReceiveDue(left) => AtReceive(left, c, e)
    case ReceiveWarningDue(left) => AtReceiveWarning(left, c, e)
    case ForwardTest(left, r) => AtForwardTest(left, r, c, e)
    case ForwardDue(left, r) => AtForward(left, r, c, e)
    case SummaryDue => AtSummary(n, c, e)
    case Exited => None
  }

  /** The running_flag test of line 104: a true read starts a request, a false one ends the loop. */
  function AtOuterTest(c: Counters, e: Event): Option<State>
  {
    if e.Poll? then Some(State(if e.running then RequestDue else SummaryDue, c)) else None
  }

  /** The request send of line 119: success counts the request and its n records
      (lines 131-132) and starts a batch; a timeout leads to the warning. */
  function AtRequest(n: nat, c: Counters, e: Event): Option<State>
  {
    if e.SendRequest? && e.request == TriggerRecordRequest(n) then
      if e.outcome == Ok then
        Some(State(BatchPoint(n),
                   c.(requestCount := c.requestCount + 1, requestedTRCount := c.requestedTRCount + n)))
      else
        Some(State(RequestWarningDue, c))
    else None
  }

  /** The warning of lines 123-126, then `continue` back to line 104. */
  function AtRequestWarning(c: Counters, e: Event): Option<State>
  {
    if e == Warning(RequestDestination) then Some(State(OuterTest, c)) else None
  }

  /** The running_flag half of the test of line 138, with left > 0 records still owed. */
  function AtBatchTest(left: nat, c: Counters, e: Event): Option<State>
  {
    if e.Poll? then Some(State(if e.running then ReceiveTest(left) else OuterTest, c)) else None
  }

  /** The running_flag half of the test of line 142: a false read leaves the receive
      loop with nothing received and control returns to line 138. */
  function AtReceiveTest(left: nat, c: Counters, e: Event): Option<State>
  {
    if e.Poll? then Some(State(if e.running then ReceiveDue(left) else BatchPoint(left), c)) else None
  }

  /** The receive of line 147: a record counts as received (line 165) and decrements
      trigRecLeftToReceive (line 149); a timeout leads to the warning. */
  function AtReceive(left: nat, c: Counters, e: Event): Option<State>
  {
    if e.Receive? && left > 0 then
      match e.delivery
      case Delivered(r) => Some(State(ForwardTest(left - 1, r), c.(receivedCount := c.receivedCount + 1)))
      case ReceiveTimeout => Some(State(ReceiveWarningDue(left), c))
    else None
  }

  /** The warning of lines 156-159, then back to the test of line 142. */
  function AtReceiveWarning(left: nat, c: Counters, e: Event): Option<State>
  {
    if e == Warning(DataSource) then Some(State(ReceiveTest(left), c)) else None
  }

  /** The running_flag half of the test of line 170: a false read gives up on the record. */
  function AtForwardTest(left: nat, r: TriggerRecord, c: Counters, e: Event): Option<State>
  {
    if e.Poll? then Some(State(if e.running then ForwardDue(left, r) else BatchPoint(left), c)) else None
  }

  /** The result send of line 175 of the record just received: success counts it as
      sent (line 177); a timeout is silent and goes back to the test of line 170. */
  function AtForward(left: nat, r: TriggerRecord, c: Counters, e: Event): Option<State>
  {
    if e.SendResult? && e.record == r then
      if e.outcome == Ok then Some(State(BatchPoint(left), c.(sentCount := c.sentCount + 1)))
      else Some(State(ForwardTest(left, r), c))
    else None
  }

  /** The exit summary of lines 191-196, reporting the requests, n, and the records
      received and sent. */
  function AtSummary(n: nat, c: Counters, e: Event): Option<State>
  {
    if e == Summary(c.requestCount, n, c.receivedCount, c.sentCount) then Some(State(Exited, c)) else None
  }

  /** The state after the events of s, started from the entry of do_work. */
  function Run(n: nat, s: seq<Event>): Option<State>
    decreases |s|, 0
  {
    if s == [] then Some(INITIAL) else RunThen(n, s[..|s| - 1], s[|s| - 1])
  }

  /** The state after the events of s and then e. */
  function RunThen(n: nat, s: seq<Event>, e: Event): Option<State>
    decreases |s|, 1
  {
    match Run(n, s)
    case None => None
    case Some(st) => Step(n, st, e)
  }

  /** Running one more event is one more step. */
  lemma RunSnoc(n: nat, s: seq<Event>, e: Event)
    ensures Run(n, s + [e]) == RunThen(n, s, e)
  {
  }

  /** The three inner loops of do_work. */
  datatype Loop =
    | ReceiveLoop // the receive retry loop of lines 142-160
    | SendLoop    // the send retry loop of lines 170-184
    | BatchLoop   // the batch loop of lines 138-185, with both retry loops inside it

  /** Phase p is a program point inside loop l. */
  predicate InLoop(l: Loop, p: Phase)
  {
    match l
    case ReceiveLoop => p.ReceiveTest? || p.ReceiveDue? || p.ReceiveWarningDue?
    case SendLoop => Forwarding(p)
    case BatchLoop => p.BatchTest? || p.ReceiveTest? || p.ReceiveDue? || p.ReceiveWarningDue? || Forwarding(p)
  }

  /** Every state that the events of s pass through after their first `from` events,
      except the state at the end, is inside loop l: after `from`, control leaves l at
      most with the last event of s. */
  predicate StaysIn(n: nat, l: Loop, s: seq<Event>, from: nat)
    decreases |s|
  {
    || |s| <= from + 1
    || (&& Run(n, s[..|s| - 1]).Some?
        && InLoop(l, Run(n, s[..|s| - 1]).value.phase)
        && StaysIn(n, l, s[..|s| - 1], from))
  }

  /** s is the complete event log of one execution of do_work that returned with counters c. */
  predicate Accepts(n: nat, s: seq<Event>, c: Counters)
  {
    Run(n, s) == Some(State(Exited, c))
  }

  /** The counters after one more event: each successful operation raises its own
      counter by one, a successful request raises requestedTRCount by n. */
  function Bump(n: nat, c: Counters, e: Event): Counters
  {
    match e
    case SendRequest(_, Ok) => c.(requestCount := c.requestCount + 1, requestedTRCount := c.requestedTRCount + n)
    case Receive(Delivered(_)) => c.(receivedCount := c.receivedCount + 1)
    case SendResult(_, Ok) => c.(sentCount := c.sentCount + 1)
    case _ => c
  }

  /** The counters as a count of the successful operations in a log. */
  function Tally(n: nat, s: seq<Event>): Counters
    decreases |s|
  {
    if s == [] then ZERO else Bump(n, Tally(n, s[..|s| - 1]), s[|s| - 1])
  }

  /** Componentwise order on counters. */
  predicate NoGreater(a: Counters, b: Counters)
  {
    a.requestCount <= b.requestCount && a.requestedTRCount <= b.requestedTRCount
    && a.receivedCount <= b.receivedCount && a.sentCount <= b.sentCount
  }

  /** The record of the most recent successful receive in s, if any. */
  function LastDelivered(s: seq<Event>): Option<TriggerRecord>
    decreases |s|
  {
    if s == [] then None
    else match s[|s| - 1]
      case Receive(Delivered(r)) => Some(r)
      case _ => LastDelivered(s[..|s| - 1])
  }

  /** The values the flag reads of s returned, in order. */
  function Polls(s: seq<Event>): seq<bool>
    decreases |s|
  {
    if s == [] then []
    else Polls(s[..|s| - 1]) + match s[|s| - 1] case Poll(b) => [b] case _ => []
  }

  /** The outcomes of the request sends of s, in order. */
  function RequestOutcomes(s: seq<Event>): seq<Outcome>
    decreases |s|
  {
    if s == [] then []
    else RequestOutcomes(s[..|s| - 1]) + match s[|s| - 1] case SendRequest(_, o) => [o] case _ => []
  }

  /** The results of the data receives of s, in order. */
  function Deliveries(s: seq<Event>): seq<Delivery>
    decreases |s|
  {
    if s == [] then []
    else Deliveries(s[..|s| - 1]) + match s[|s| - 1] case Receive(d) => [d] case _ => []
  }

  /** The outcomes of the result sends of s, in order. */
  function ResultOutcomes(s: seq<Event>): seq<Outcome>
    decreases |s|
  {
    if s == [] then []
    else ResultOutcomes(s[..|s| - 1]) + match s[|s| - 1] case SendResult(_, o) => [o] case _ => []
  }

  /** How many answers of each script have been used. */
  datatype Cursor = Cursor(flagReads: nat, requestSends: nat, dataReceives: nat, resultSends: nat)

  /** The cursor after event e: a flag read or an endpoint call uses one answer of its
      script; warnings and the summary use none. */
  function Advance(cur: Cursor, e: Event): Cursor
  {
    match e
    case Poll(_) => cur.(flagReads := cur.flagReads + 1)
    case SendRequest(_, _) => cur.(requestSends := cur.requestSends + 1)
    case Receive(_) => cur.(dataReceives := cur.dataReceives + 1)
    case SendResult(_, _) => cur.(resultSends := cur.resultSends + 1)
    case _ => cur
  }

  /** Event e carries the answer the script gives next, once the answers counted by cur
      have been used. */
  predicate Answered(env: Script, cur: Cursor, e: Event)
  {
    match e
    case Poll(b) => b == Answer(env.runningFlag, cur.flagReads, false)
    case SendRequest(_, o) => o == Answer(env.requestSends, cur.requestSends, Timeout)
    case Receive(d) => d == Answer(env.dataReceives, cur.dataReceives, ReceiveTimeout)
    case SendResult(_, o) => o == Answer(env.resultSends, cur.resultSends, Timeout)
    case _ => true
  }

  /** Plays the events of s against the script: the cursor after them, or None when
      some flag read or endpoint call in s did not get the answer the script gives it. */
  function Replay(env: Script, s: seq<Event>): Option<Cursor>
    decreases |s|, 0
  {
    if s == [] then Some(Cursor(0, 0, 0, 0)) else ReplayThen(env, s[..|s| - 1], s[|s| - 1])
  }

  /** Plays the events of s and then e against the script. */
  function ReplayThen(env: Script, s: seq<Event>, e: Event): Option<Cursor>
    decreases |s|, 1
  {
    match Replay(env, s)
    case None => None
    case Some(cur) => if Answered(env, cur, e) then Some(Advance(cur, e)) else None
  }

  /** Every flag read and endpoint call of s got the answer the script gives it, in
      order: the log is the one the scripted world drives do_work through. */
  predicate FollowsScript(env: Script, s: seq<Event>)
  {
    Replay(env, s).Some?
  }

  /** Replaying one more event. */
  lemma ReplaySnoc(env: Script, s: seq<Event>, e: Event)
    ensures Replay(env, s + [e]) == ReplayThen(env, s, e)
  {
  }

  /** The invariant of do_work's local state at every program point: requestedTRCount
      is n times requestCount, trigRecLeftToReceive stays within 1..n while a record is
      still awaited and below n while one is being forwarded, the records still owed
      plus those received never exceed those requested, and a record being forwarded
      has been counted as received but not yet as sent. */
  predicate Consistent(n: nat, st: State)
  {
    var c := st.counters;
    var p := st.phase;
    && c.requestedTRCount == n * c.requestCount
    && c.receivedCount + LeftToReceive(p) <= c.requestedTRCount
    && c.sentCount + (if Forwarding(p) then 1 else 0) <= c.receivedCount
    && (p.BatchTest? || p.ReceiveTest? || p.ReceiveDue? || p.ReceiveWarningDue? ==> 1 <= LeftToReceive(p) <= n)
    && (Forwarding(p) ==> LeftToReceive(p) < n)
  }
}
