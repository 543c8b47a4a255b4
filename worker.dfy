/** FakeHLF_PseudoCode::do_work: request trigger records, receive them, and forward
    each one unchanged, retrying timed-out calls while the running flag holds. */
module FakeHlf {
  import opened Endpoints
  import opened WorkerTrace
  import TraceProperties

  /** running_flag.load() (lines 104, 138, 142, 170): the next answer of the flag script. */
  method LoadRunningFlag(n: nat, env: Script, log: seq<Event>) returns (running: bool, log': seq<Event>)
    requires FollowsScript(env, log)
    ensures log' == log + [Poll(running)]
    ensures Replay(env, log') == Some(Advance(Replay(env, log).value, Poll(running)))
    ensures Run(n, log') == RunThen(n, log, Poll(running))
    ensures running == Answer(env.runningFlag, Replay(env, log).value.flagReads, false)
    ensures running ==> Replay(env, log).value.flagReads < |env.runningFlag|
  {
    running := Answer(env.runningFlag, Replay(env, log).value.flagReads, false);
    log' := log + [Poll(running)];
    ReplaySnoc(env, log, Poll(running));
    RunSnoc(n, log, Poll(running));
  }

  /** requestSender_->send(trReq, requestSendTimeout_) (line 119): the next answer of
      the request sender's script. */
  method SendRequestMessage(n: nat, env: Script, log: seq<Event>, request: TriggerRecordRequest)
    returns (outcome: Outcome, log': seq<Event>)
    requires FollowsScript(env, log)
    ensures log' == log + [SendRequest(request, outcome)]
    ensures Replay(env, log') == Some(Advance(Replay(env, log).value, SendRequest(request, outcome)))
    ensures Run(n, log') == RunThen(n, log, SendRequest(request, outcome))
    ensures outcome == Answer(env.requestSends, Replay(env, log).value.requestSends, Timeout)
  {
    outcome := Answer(env.requestSends, Replay(env, log).value.requestSends, Timeout);
    log' := log + [SendRequest(request, outcome)];
    ReplaySnoc(env, log, SendRequest(request, outcome));
    RunSnoc(n, log, SendRequest(request, outcome));
  }

  /** dataReceiver_->receive(trigRec, dataReceiveTimeout_) (line 147): the next answer
      of the data receiver's script. */
  method ReceiveRecord(n: nat, env: Script, log: seq<Event>) returns (delivery: Delivery, log': seq<Event>)
    requires FollowsScript(env, log)
    ensures log' == log + [Receive(delivery)]
    ensures Replay(env, log') == Some(Advance(Replay(env, log).value, Receive(delivery)))
    ensures Run(n, log') == RunThen(n, log, Receive(delivery))
    ensures delivery == Answer(env.dataReceives, Replay(env, log).value.dataReceives, ReceiveTimeout)
  {
    delivery := Answer(env.dataReceives, Replay(env, log).value.dataReceives, ReceiveTimeout);
    log' := log + [Receive(delivery)];
    ReplaySnoc(env, log, Receive(delivery));
    RunSnoc(n, log, Receive(delivery));
  }

  /** resultSender_->send(trigRec, resultSendTimeout_) (line 175): the next answer of
      the result sender's script. */
  method SendResultMessage(n: nat, env: Script, log: seq<Event>, record: TriggerRecord)
    returns (outcome: Outcome, log': seq<Event>)
    requires FollowsScript(env, log)
    ensures log' == log + [SendResult(record, outcome)]
    ensures Replay(env, log') == Some(Advance(Replay(env, log).value, SendResult(record, outcome)))
    ensures Run(n, log') == RunThen(n, log, SendResult(record, outcome))
    ensures outcome == Answer(env.resultSends, Replay(env, log).value.resultSends, Timeout)
  {
    outcome := Answer(env.resultSends, Replay(env, log).value.resultSends, Timeout);
    log' := log + [SendResult(record, outcome)];
    ReplaySnoc(env, log, SendResult(record, outcome));
    RunSnoc(n, log, SendResult(record, outcome));
  }

  /** ers::warning of a TransportTimeoutExpired (lines 125, 158), or ers::info of the
      exit summary (line 196): an event that consumes no answer of the script. */
  method Emit(n: nat, env: Script, log: seq<Event>, e: Event) returns (log': seq<Event>)
    requires FollowsScript(env, log)
    requires e.Warning? || e.Summary?
    ensures log' == log + [e]
    ensures Replay(env, log') == Some(Advance(Replay(env, log).value, e))
    ensures Run(n, log') == RunThen(n, log, e)
  {
    log' := log + [e];
    ReplaySnoc(env, log, e);
    RunSnoc(n, log, e);
  }

  /** The receive loop of lines 140-161, entered with trigRecLeftToReceive = left > 0:
      read the flag, try to receive, and on a timeout warn once and try again, until a
      record arrives or the flag reads false. */
  method AwaitRecord(n: nat, env: Script, log: seq<Event>, left: nat, ctrs: Counters)
    returns (trigRecWasSuccessfullyReceived: bool, trigRec: TriggerRecord, log': seq<Event>)
    requires left > 0
    requires Run(n, log) == Some(State(ReceiveTest(left), ctrs))
    requires FollowsScript(env, log)
    ensures trigRecWasSuccessfullyReceived ==>
              Run(n, log') == Some(State(ForwardTest(left - 1, trigRec), ctrs.(receivedCount := ctrs.receivedCount + 1)))
    ensures !trigRecWasSuccessfullyReceived ==> Run(n, log') == Some(State(BatchTest(left), ctrs))
    ensures log <= log' && StaysIn(n, ReceiveLoop, log', |log|)
    ensures FollowsScript(env, log')
    ensures Replay(env, log).value.flagReads < Replay(env, log').value.flagReads
  {
    trigRec := EMPTY_RECORD;
    trigRecWasSuccessfullyReceived := false;
    log' := log;
    var running: bool;
    var delivery: Delivery;
    while !trigRecWasSuccessfullyReceived
      invariant Run(n, log') == Some(
                  if trigRecWasSuccessfullyReceived
                  then State(ForwardTest(left - 1, trigRec), ctrs.(receivedCount := ctrs.receivedCount + 1))
                  else State(ReceiveTest(left), ctrs))
      invariant log <= log' && StaysIn(n, ReceiveLoop, log', |log|)
      invariant FollowsScript(env, log')
      invariant Replay(env, log).value.flagReads <= Replay(env, log').value.flagReads
      invariant trigRecWasSuccessfullyReceived ==> Replay(env, log).value.flagReads < Replay(env, log').value.flagReads
      decreases |env.runningFlag| - Replay(env, log').value.flagReads
    {
      running, log' := LoadRunningFlag(n, env, log');
      if !running {
        break;
      }
      assert Run(n, log') == Some(State(ReceiveDue(left), ctrs));
      delivery, log' := ReceiveRecord(n, env, log');
      match delivery
      case Delivered(r) =>
        trigRec := r;
        trigRecWasSuccessfullyReceived := true;
      case ReceiveTimeout =>
        assert Run(n, log') == Some(State(ReceiveWarningDue(left), ctrs));
        log' := Emit(n, env, log', Warning(DataSource));
    }
  }

  /** The send loop of lines 169-184 for the record just received, with left records
      still owed: read the flag and try to send, retrying silently on a timeout, until
      the record is sent or the flag reads false. */
  method ForwardRecord(n: nat, env: Script, log: seq<Event>, left: nat, trigRec: TriggerRecord, ctrs: Counters)
    returns (trigRecWasSuccessfullySent: bool, log': seq<Event>)
    requires Run(n, log) == Some(State(ForwardTest(left, trigRec), ctrs))
    requires FollowsScript(env, log)
    ensures Run(n, log') == Some(State(BatchPoint(left),
                                       if trigRecWasSuccessfullySent
                                       then ctrs.(sentCount := ctrs.sentCount + 1)
                                       else ctrs))
    ensures log <= log' && StaysIn(n, SendLoop, log', |log|)
    ensures FollowsScript(env, log')
    ensures Replay(env, log).value.flagReads < Replay(env, log').value.flagReads
  {
    trigRecWasSuccessfullySent := false;
    log' := log;
    var running: bool;
    var resultOutcome: Outcome;
    while true
      invariant Run(n, log') == Some(State(ForwardTest(left, trigRec), ctrs))
      invariant log <= log' && StaysIn(n, SendLoop, log', |log|)
      invariant FollowsScript(env, log')
      invariant Replay(env, log).value.flagReads <= Replay(env, log').value.flagReads
      decreases |env.runningFlag| - Replay(env, log').value.flagReads
    {
      running, log' := LoadRunningFlag(n, env, log');
      if !running {
        break;
      }
      assert Run(n, log') == Some(State(ForwardDue(left, trigRec), ctrs));
      resultOutcome, log' := SendResultMessage(n, env, log', trigRec);
      if resultOutcome == Ok {
        trigRecWasSuccessfullySent := true;
        break;
      }
    }
  }

  /** The batch loop of lines 137-186 after a successful request: receive up to n records,
      forwarding each one as it arrives, until none is owed or the flag reads false at
      line 138. Raises only the received and sent counters, and ends back at line 104. */
  method ReceiveBatch(n: nat, env: Script, log: seq<Event>, ctrs: Counters)
    returns (ctrs': Counters, log': seq<Event>)
    requires Run(n, log) == Some(State(BatchPoint(n), ctrs))
    requires FollowsScript(env, log)
    ensures Run(n, log') == Some(State(OuterTest, ctrs'))
    ensures log <= log' && StaysIn(n, BatchLoop, log', |log|)
    ensures FollowsScript(env, log')
    ensures ctrs'.requestCount == ctrs.requestCount && ctrs'.requestedTRCount == ctrs.requestedTRCount
    ensures ctrs.receivedCount <= ctrs'.receivedCount && ctrs.sentCount <= ctrs'.sentCount
    ensures Replay(env, log).value.flagReads <= Replay(env, log').value.flagReads
  {
    ctrs' := ctrs;
    var running: bool;
    log' := log;
    var trigRecLeftToReceive: nat := n;
    while trigRecLeftToReceive > 0
      invariant Run(n, log') == Some(State(BatchPoint(trigRecLeftToReceive), ctrs'))
      invariant log <= log' && StaysIn(n, BatchLoop, log', |log|)
      invariant FollowsScript(env, log')
      invariant ctrs'.requestCount == ctrs.requestCount && ctrs'.requestedTRCount == ctrs.requestedTRCount
      invariant ctrs.receivedCount <= ctrs'.receivedCount && ctrs.sentCount <= ctrs'.sentCount
      invariant Replay(env, log).value.flagReads <= Replay(env, log').value.flagReads
      decreases |env.runningFlag| - Replay(env, log').value.flagReads
    {
      running, log' := LoadRunningFlag(n, env, log');
      if !running {
        break;
      }
      assert Run(n, log') == Some(State(ReceiveTest(trigRecLeftToReceive), ctrs'));
      var trigRecWasSuccessfullyReceived: bool, trigRec: TriggerRecord;
      ghost var atReceiveTest := log';
      trigRecWasSuccessfullyReceived, trigRec, log' := AwaitRecord(n, env, log', trigRecLeftToReceive, ctrs');
      TraceProperties.StaysInJoin(n, BatchLoop, ReceiveLoop, |log|, atReceiveTest, log');
      if trigRecWasSuccessfullyReceived {
        trigRecLeftToReceive := trigRecLeftToReceive - 1;
        ctrs' := ctrs'.(receivedCount := ctrs'.receivedCount + 1);

        // the processing step is the identity: the received record is sent back as it is
        var trigRecWasSuccessfullySent: bool;
        ghost var atForwardTest := log';
        trigRecWasSuccessfullySent, log' := ForwardRecord(n, env, log', trigRecLeftToReceive, trigRec, ctrs');
        TraceProperties.StaysInJoin(n, BatchLoop, SendLoop, |log|, atForwardTest, log');
        if trigRecWasSuccessfullySent {
          ctrs' := ctrs'.(sentCount := ctrs'.sentCount + 1);
        }
      }
    }
  }

  /** One execution of do_work against the scripted world env, with n =
      TRsToRequestEachTime records asked for by each request. Returns the four
      counters and the log of everything the worker observed and emitted. */
  method DoWork(n: nat, env: Script) returns (c: Counters, log: seq<Event>)
    ensures Accepts(n, log, c)
    ensures FollowsScript(env, log)
    ensures c == Tally(n, log)
    ensures c.requestedTRCount == n * c.requestCount
    ensures c.receivedCount <= c.requestedTRCount
    ensures c.sentCount <= c.receivedCount
    ensures |log| >= 2 && log[|log| - 2] == Poll(false)
    ensures log[|log| - 1] == Summary(c.requestCount, n, c.receivedCount, c.sentCount)
    ensures forall i :: 0 <= i < |log| - 1 ==> !log[i].Summary?
    ensures !Answer(env.runningFlag, 0, false) <==> log == [Poll(false), Summary(0, n, 0, 0)]
    ensures !Answer(env.runningFlag, 0, false) ==> c == ZERO
    ensures forall s, d :: Accepts(n, s, d) && FollowsScript(env, s) ==> s == log && d == c
  {
    c := ZERO;
    var running: bool;
    log := [];
    while true
      invariant Run(n, log) == Some(State(OuterTest, c))
      invariant FollowsScript(env, log)
      decreases |env.runningFlag| - Replay(env, log).value.flagReads
    {
      running, log := LoadRunningFlag(n, env, log);
      if !running {
        break;
      }

      assert Run(n, log) == Some(State(RequestDue, c));
      var trReq := TriggerRecordRequest(n);
      var requestOutcome: Outcome;
      requestOutcome, log := SendRequestMessage(n, env, log, trReq);
      if requestOutcome == Timeout {
        assert Run(n, log) == Some(State(RequestWarningDue, c));
        log := Emit(n, env, log, Warning(RequestDestination));
        continue;
      }

      c := c.(requestCount := c.requestCount + 1, requestedTRCount := c.requestedTRCount + n);
      c, log := ReceiveBatch(n, env, log, c);
    }

    log := Emit(n, env, log, Summary(c.requestCount, n, c.receivedCount, c.sentCount));
    TraceProperties.AcceptedCounters(n, log, c);
    TraceProperties.SummaryOnceAtExit(n, log, c);
    TraceProperties.CancelledAtFirstTest(n, log, c);
    TraceProperties.FirstReadIsScripted(env, log);
    forall s, d | Accepts(n, s, d) && FollowsScript(env, s)
      ensures s == log && d == c
    {
      TraceProperties.ScriptedRunUnique(n, env, s, d, log, c);
    }
  }
}
