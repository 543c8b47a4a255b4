/** What every complete execution of do_work guarantees, proved over the logs the
    worker state machine accepts. */
module TraceProperties {
  import opened Endpoints
  import opened WorkerTrace

  /** Every prefix of a log the machine can run is itself runnable, one step at a time. */
  lemma {:induction false} PrefixRuns(n: nat, s: seq<Event>, i: nat)
    requires Run(n, s).Some? && i <= |s|
    ensures Run(n, s[..i]).Some?
    ensures i < |s| ==> Run(n, s[..i + 1]) == Step(n, Run(n, s[..i]).value, s[i])
    decreases |s|
  {
    if i < |s| {
      var t := s[..|s| - 1];
      if i < |t| {
        PrefixRuns(n, t, i);
        assert t[..i] == s[..i];
        assert t[..i + 1] == s[..i + 1];
      } else {
        assert s[..i] == t;
        assert s[..i + 1] == s;
      }
    } else {
      assert s[..i] == s;
    }
  }

  /** The state of do_work after the first i events of s. */
  function StateAt(n: nat, s: seq<Event>, i: nat): State
    requires Run(n, s).Some? && i <= |s|
  {
    PrefixRuns(n, s, i);
    Run(n, s[..i]).value
  }

  /** Event i of s takes the machine from the state before it to the state after it. */
  lemma Transition(n: nat, s: seq<Event>, i: nat)
    requires Run(n, s).Some? && i < |s|
    ensures Step(n, StateAt(n, s, i), s[i]) == Some(StateAt(n, s, i + 1))
  {
    PrefixRuns(n, s, i);
    PrefixRuns(n, s, i + 1);
  }

  /** A run starts at the entry of do_work and ends in the state Run computes; in a
      complete log the worker has returned only after the last event. */
  lemma Ends(n: nat, s: seq<Event>, c: Counters)
    requires Accepts(n, s, c)
    ensures StateAt(n, s, 0) == INITIAL
    ensures StateAt(n, s, |s|) == State(Exited, c)
    ensures forall i :: 0 <= i < |s| ==> StateAt(n, s, i).phase != Exited
  {
    assert s[..0] == [];
    assert s[..|s|] == s;
    forall i | 0 <= i < |s|
      ensures StateAt(n, s, i).phase != Exited
    {
      Transition(n, s, i);
    }
  }

  /** A run that stays inside loop l up to mid, is inside l at mid, and from there stays
      inside a loop l' nested in l, stays inside l all along. */
  lemma {:induction false} StaysInJoin(n: nat, l: Loop, l': Loop, from: nat, mid: seq<Event>, s: seq<Event>)
    requires from <= |mid| && mid <= s
    requires l' == l || l == BatchLoop
    requires StaysIn(n, l, mid, from) && StaysIn(n, l', s, |mid|)
    requires from < |mid| ==> Run(n, mid).Some? && InLoop(l, Run(n, mid).value.phase)
    ensures StaysIn(n, l, s, from)
    decreases |s|
  {
    if |s| == |mid| {
      assert s == mid;
    } else {
      var t := s[..|s| - 1];
      assert mid <= t;
      if |t| == |mid| {
        assert t == mid;
      } else {
        StaysInJoin(n, l, l', from, mid, t);
      }
    }
  }

  /** One event keeps the invariant of do_work's locals. */
  lemma StepConsistent(n: nat, st: State, e: Event)
    requires Consistent(n, st) && Step(n, st, e).Some?
    ensures Consistent(n, Step(n, st, e).value)
  {
  }

  /** Every state a run reaches satisfies the invariant of do_work's locals. */
  lemma {:induction false} RunConsistent(n: nat, s: seq<Event>)
    requires Run(n, s).Some?
    ensures Consistent(n, Run(n, s).value)
    decreases |s|
  {
    if s != [] {
      var t := s[..|s| - 1];
      RunConsistent(n, t);
      StepConsistent(n, Run(n, t).value, s[|s| - 1]);
    }
  }

  /** The counters of every state a run reaches count the successful operations of its log. */
  lemma {:induction false} RunTally(n: nat, s: seq<Event>)
    requires Run(n, s).Some?
    ensures Run(n, s).value.counters == Tally(n, s)
    decreases |s|
  {
    if s != [] {
      RunTally(n, s[..|s| - 1]);
    }
  }

  /** A record is being forwarded only right after it was received: the record held
      while forwarding is the one most recently delivered. */
  lemma {:induction false} RunForwardsLastDelivered(n: nat, s: seq<Event>)
    requires Run(n, s).Some? && Forwarding(Run(n, s).value.phase)
    ensures LastDelivered(s) == Some(Run(n, s).value.phase.record)
    decreases |s|
  {
    var t := s[..|s| - 1];
    var e := s[|s| - 1];
    if !(e.Receive? && e.delivery.Delivered?) {
      RunForwardsLastDelivered(n, t);
    }
  }

  /** Counting successful operations over a longer log never gives less. */
  lemma {:induction false} TallyNeverDecreases(n: nat, s: seq<Event>, i: nat)
    requires i <= |s|
    ensures NoGreater(Tally(n, s[..i]), Tally(n, s))
    decreases |s|
  {
    if i < |s| {
      var t := s[..|s| - 1];
      TallyNeverDecreases(n, t, i);
      assert t[..i] == s[..i];
    } else {
      assert s[..i] == s;
    }
  }

  /** At exit requestedTRCount is TRsToRequestEachTime times requestCount, no more records
      were received than requested and no more sent than received, and every counter
      counts the successful operations of its kind in the log. */
  lemma AcceptedCounters(n: nat, log: seq<Event>, c: Counters)
    requires Accepts(n, log, c)
    ensures c == Tally(n, log)
    ensures c.requestedTRCount == n * c.requestCount
    ensures c.receivedCount <= c.requestedTRCount
    ensures c.sentCount <= c.receivedCount
  {
    RunConsistent(n, log);
    RunTally(n, log);
  }

  /** At every program point of the run (in particular at every test of the outer loop)
      the invariant of do_work's locals holds, and the counters count the successful
      operations so far. */
  lemma ConsistentAtEveryPoint(n: nat, log: seq<Event>, c: Counters)
    requires Accepts(n, log, c)
    ensures forall i :: 0 <= i <= |log| ==>
              Consistent(n, StateAt(n, log, i)) && StateAt(n, log, i).counters == Tally(n, log[..i])
  {
    forall i | 0 <= i <= |log|
      ensures Consistent(n, StateAt(n, log, i)) && StateAt(n, log, i).counters == Tally(n, log[..i])
    {
      PrefixRuns(n, log, i);
      RunConsistent(n, log[..i]);
      RunTally(n, log[..i]);
    }
  }

  /** The counters never decrease during one execution, and each event raises them by
      exactly what its success is worth (one, or n for requestedTRCount). */
  lemma CountersNeverDecrease(n: nat, log: seq<Event>, c: Counters, i: nat, j: nat)
    requires Accepts(n, log, c) && i <= j <= |log|
    ensures NoGreater(StateAt(n, log, i).counters, StateAt(n, log, j).counters)
    ensures i < |log| ==> StateAt(n, log, i + 1).counters == Bump(n, StateAt(n, log, i).counters, log[i])
  {
    ConsistentAtEveryPoint(n, log, c);
    TallyNeverDecreases(n, log[..j], i);
    assert log[..j][..i] == log[..i];
    if i < |log| {
      assert log[..i + 1][..i] == log[..i];
    }
  }

  /** A timed-out request send counts nothing and is followed by exactly one warning
      for the request destination, after which control is straight back at the flag
      test of the outer loop; every such warning follows a timed-out request send. */
  lemma RequestTimeoutWarnsOnce(n: nat, log: seq<Event>, c: Counters)
    requires Accepts(n, log, c)
    ensures forall i :: 0 <= i < |log| && log[i].SendRequest? && log[i].outcome == Timeout ==>
              && i + 2 < |log|
              && log[i + 1] == Warning(RequestDestination)
              && log[i + 2].Poll?
              && StateAt(n, log, i + 2) == State(OuterTest, StateAt(n, log, i).counters)
    ensures forall i :: 0 <= i < |log| && log[i] == Warning(RequestDestination) ==>
              0 < i && log[i - 1].SendRequest? && log[i - 1].outcome == Timeout
  {
    Ends(n, log, c);
    forall i | 0 <= i < |log| && log[i].SendRequest? && log[i].outcome == Timeout
      ensures && i + 2 < |log|
              && log[i + 1] == Warning(RequestDestination)
              && log[i + 2].Poll?
              && StateAt(n, log, i + 2) == State(OuterTest, StateAt(n, log, i).counters)
    {
      Transition(n, log, i);
      Transition(n, log, i + 1);
      Transition(n, log, i + 2);
    }
    forall i | 0 <= i < |log| && log[i] == Warning(RequestDestination)
      ensures 0 < i && log[i - 1].SendRequest? && log[i - 1].outcome == Timeout
    {
      Transition(n, log, i);
      Transition(n, log, i - 1);
    }
  }

  /** A timed-out receive counts nothing and is followed by exactly one warning for the
      data source, after which control is back at the retry test of the receive loop;
      every such warning follows a timed-out receive. */
  lemma ReceiveTimeoutWarnsOnce(n: nat, log: seq<Event>, c: Counters)
    requires Accepts(n, log, c)
    ensures forall i :: 0 <= i < |log| && log[i] == Receive(ReceiveTimeout) ==>
              && i + 2 < |log|
              && log[i + 1] == Warning(DataSource)
              && log[i + 2].Poll?
              && StateAt(n, log, i + 2) ==
                 State(ReceiveTest(LeftToReceive(StateAt(n, log, i).phase)), StateAt(n, log, i).counters)
    ensures forall i :: 0 <= i < |log| && log[i] == Warning(DataSource) ==>
              0 < i && log[i - 1] == Receive(ReceiveTimeout)
  {
    forall i | 0 <= i < |log| && log[i] == Receive(ReceiveTimeout)
      ensures && i + 2 < |log|
              && log[i + 1] == Warning(DataSource)
              && log[i + 2].Poll?
              && StateAt(n, log, i + 2) ==
                 State(ReceiveTest(LeftToReceive(StateAt(n, log, i).phase)), StateAt(n, log, i).counters)
    {
      ReceiveTimeoutAt(n, log, c, i);
    }
    forall i | 0 <= i < |log| && log[i] == Warning(DataSource)
      ensures 0 < i && log[i - 1] == Receive(ReceiveTimeout)
    {
      Ends(n, log, c);
      Transition(n, log, i);
      assert StateAt(n, log, i).phase.ReceiveWarningDue?;
      Transition(n, log, i - 1);
      EnteredReceiveWarning(n, StateAt(n, log, i - 1), log[i - 1], StateAt(n, log, i));
    }
  }

  /** Only a timed-out receive leads to the warning of lines 156-159. */
  lemma EnteredReceiveWarning(n: nat, st: State, e: Event, st': State)
    requires Step(n, st, e) == Some(st') && st'.phase.ReceiveWarningDue?
    ensures e == Receive(ReceiveTimeout) && st.phase == ReceiveDue(st'.phase.left)
  {
  }

  /** The first half of ReceiveTimeoutWarnsOnce, at one timed-out receive. */
  lemma ReceiveTimeoutAt(n: nat, log: seq<Event>, c: Counters, i: nat)
    requires Accepts(n, log, c) && i < |log| && log[i] == Receive(ReceiveTimeout)
    ensures && i + 2 < |log|
            && log[i + 1] == Warning(DataSource)
            && log[i + 2].Poll?
            && StateAt(n, log, i + 2) ==
               State(ReceiveTest(LeftToReceive(StateAt(n, log, i).phase)), StateAt(n, log, i).counters)
  {
    Ends(n, log, c);
    Transition(n, log, i);
    var left := LeftToReceive(StateAt(n, log, i).phase);
    assert StateAt(n, log, i).phase == ReceiveDue(left);
    assert StateAt(n, log, i + 1) == State(ReceiveWarningDue(left), StateAt(n, log, i).counters);
    Transition(n, log, i + 1);
    Transition(n, log, i + 2);
  }

  /** A timed-out result send emits no warning and counts nothing: the flag is read
      again and, while it holds, the same record is sent again. No warning ever names
      the result destination. */
  lemma ResultTimeoutRetriesSilently(n: nat, log: seq<Event>, c: Counters)
    requires Accepts(n, log, c)
    ensures forall i :: 0 <= i < |log| && log[i].SendResult? && log[i].outcome == Timeout ==>
              && i + 1 < |log|
              && log[i + 1].Poll?
              && StateAt(n, log, i + 1).counters == StateAt(n, log, i).counters
              && (log[i + 1].running ==> i + 2 < |log| && log[i + 2].SendResult? && log[i + 2].record == log[i].record)
    ensures forall i :: 0 <= i < |log| ==> log[i] != Warning(ResultDestination)
  {
    forall i | 0 <= i < |log| && log[i].SendResult? && log[i].outcome == Timeout
      ensures && i + 1 < |log|
              && log[i + 1].Poll?
              && StateAt(n, log, i + 1).counters == StateAt(n, log, i).counters
              && (log[i + 1].running ==> i + 2 < |log| && log[i + 2].SendResult? && log[i + 2].record == log[i].record)
    {
      ResultTimeoutAt(n, log, c, i);
    }
    Ends(n, log, c);
    forall i | 0 <= i < |log|
      ensures log[i] != Warning(ResultDestination)
    {
      Transition(n, log, i);
      NoResultWarning(n, StateAt(n, log, i), log[i]);
    }
  }

  /** No step of do_work warns about the result destination. */
  lemma NoResultWarning(n: nat, st: State, e: Event)
    requires Step(n, st, e).Some?
    ensures e != Warning(ResultDestination)
  {
  }

  /** The first half of ResultTimeoutRetriesSilently, at one timed-out result send. */
  lemma ResultTimeoutAt(n: nat, log: seq<Event>, c: Counters, i: nat)
    requires Accepts(n, log, c) && i < |log| && log[i].SendResult? && log[i].outcome == Timeout
    ensures && i + 1 < |log|
            && log[i + 1].Poll?
            && StateAt(n, log, i + 1).counters == StateAt(n, log, i).counters
            && (log[i + 1].running ==> i + 2 < |log| && log[i + 2].SendResult? && log[i + 2].record == log[i].record)
  {
    Ends(n, log, c);
    Transition(n, log, i);
    var st := StateAt(n, log, i);
    assert st.phase == ForwardDue(st.phase.left, log[i].record);
    assert StateAt(n, log, i + 1) == State(ForwardTest(st.phase.left, log[i].record), st.counters);
    Transition(n, log, i + 1);
    if log[i + 1].running {
      Transition(n, log, i + 2);
    }
  }

  /** No endpoint is called unless the running flag has just been read true. */
  lemma CallsFollowTrueReads(n: nat, log: seq<Event>, c: Counters)
    requires Accepts(n, log, c)
    ensures forall i :: 0 <= i < |log| && IsEndpointCall(log[i]) ==> 0 < i && log[i - 1] == Poll(true)
  {
    Ends(n, log, c);
    forall i | 0 <= i < |log| && IsEndpointCall(log[i])
      ensures 0 < i && log[i - 1] == Poll(true)
    {
      Transition(n, log, i);
      Transition(n, log, i - 1);
    }
  }

  /** A result is sent only after a successful receive, and it is exactly the record
      that was received last. */
  lemma ForwardsReceivedRecord(n: nat, log: seq<Event>, c: Counters)
    requires Accepts(n, log, c)
    ensures forall i :: 0 <= i < |log| && log[i].SendResult? ==> LastDelivered(log[..i]) == Some(log[i].record)
  {
    forall i | 0 <= i < |log| && log[i].SendResult?
      ensures LastDelivered(log[..i]) == Some(log[i].record)
    {
      Transition(n, log, i);
      PrefixRuns(n, log, i);
      RunForwardsLastDelivered(n, log[..i]);
    }
  }

  /** trigRecLeftToReceive is set to n by each successful request, is decremented by one
      on each successful receive and by nothing else, and the remainder is discarded
      when the flag is read false at the test of line 138; a request is only ever sent
      with nothing left over from the previous one. */
  lemma LeftToReceiveCountsDown(n: nat, log: seq<Event>, c: Counters)
    requires Accepts(n, log, c)
    ensures forall i :: 0 <= i < |log| ==>
              LeftToReceive(StateAt(n, log, i + 1).phase) ==
                if log[i].SendRequest? && log[i].outcome == Ok then n
                else if log[i].Receive? && log[i].delivery.Delivered? then LeftToReceive(StateAt(n, log, i).phase) - 1
                else if StateAt(n, log, i).phase.BatchTest? && log[i] == Poll(false) then 0
                else LeftToReceive(StateAt(n, log, i).phase)
    ensures forall i :: 0 <= i < |log| && log[i].SendRequest? ==> LeftToReceive(StateAt(n, log, i).phase) == 0
  {
    forall i | 0 <= i < |log|
      ensures LeftToReceive(StateAt(n, log, i + 1).phase) ==
                if log[i].SendRequest? && log[i].outcome == Ok then n
                else if log[i].Receive? && log[i].delivery.Delivered? then LeftToReceive(StateAt(n, log, i).phase) - 1
                else if StateAt(n, log, i).phase.BatchTest? && log[i] == Poll(false) then 0
                else LeftToReceive(StateAt(n, log, i).phase)
    {
      Transition(n, log, i);
    }
    forall i | 0 <= i < |log| && log[i].SendRequest?
      ensures LeftToReceive(StateAt(n, log, i).phase) == 0
    {
      Transition(n, log, i);
    }
  }

  /** If the flag reads false at the first test, no endpoint is called, the counters stay
      0 and the log is that read and the summary. */
  lemma CancelledAtFirstTest(n: nat, log: seq<Event>, c: Counters)
    requires Accepts(n, log, c)
    ensures |log| > 0 && log[0].Poll?
    ensures log[0] == Poll(false) <==> log == [Poll(false), Summary(0, n, 0, 0)]
    ensures log[0] == Poll(false) ==> c == ZERO
  {
    Ends(n, log, c);
    Transition(n, log, 0);
    if log[0] == Poll(false) {
      Transition(n, log, 1);
      assert log == [Poll(false), Summary(0, n, 0, 0)];
    }
  }

  /** The summary is emitted exactly once, as the last event, right after the flag
      test of the outer loop read false, and it reports the final counters. */
  lemma SummaryOnceAtExit(n: nat, log: seq<Event>, c: Counters)
    requires Accepts(n, log, c)
    ensures |log| >= 2
    ensures log[|log| - 1] == Summary(c.requestCount, n, c.receivedCount, c.sentCount)
    ensures log[|log| - 2] == Poll(false) && StateAt(n, log, |log| - 2).phase == OuterTest
    ensures forall i :: 0 <= i < |log| - 1 ==> !log[i].Summary?
  {
    Ends(n, log, c);
    Transition(n, log, |log| - 1);
    Transition(n, log, |log| - 2);
    forall i | 0 <= i < |log| - 1
      ensures !log[i].Summary?
    {
      Transition(n, log, i);
    }
  }

  /** Every prefix of a log that follows the script follows it too, and the event after
      the prefix carries the answer the script gives next. */
  lemma {:induction false} FollowsScriptPrefix(env: Script, s: seq<Event>, i: nat)
    requires FollowsScript(env, s) && i <= |s|
    ensures FollowsScript(env, s[..i])
    ensures i < |s| ==> Answered(env, Replay(env, s[..i]).value, s[i])
    decreases |s|
  {
    if i == |s| {
      assert s[..i] == s;
    } else {
      var t := s[..|s| - 1];
      assert Replay(env, s) == ReplayThen(env, t, s[|s| - 1]);
      if i < |t| {
        FollowsScriptPrefix(env, t, i);
        assert t[..i] == s[..i];
      } else {
        assert s[..i] == t;
      }
    }
  }

  /** The first read of the flag returns the first answer of the flag script. */
  lemma FirstReadIsScripted(env: Script, s: seq<Event>)
    requires FollowsScript(env, s) && |s| > 0 && s[0].Poll?
    ensures s[0].running == Answer(env.runningFlag, 0, false)
  {
    FollowsScriptPrefix(env, s, 0);
    assert s[..0] == [];
  }

  /** In a given state and at a given point of the script, do_work has only one next
      event: the program point fixes the kind of event and the script fixes its answer. */
  lemma NextEventUnique(n: nat, env: Script, st: State, cur: Cursor, e1: Event, e2: Event)
    requires Step(n, st, e1).Some? && Step(n, st, e2).Some?
    requires Answered(env, cur, e1) && Answered(env, cur, e2)
    ensures e1 == e2
  {
  }

  /** Two runnable logs that follow the same script agree on their common length. */
  lemma {:induction false} SamePrefix(n: nat, env: Script, s1: seq<Event>, s2: seq<Event>, k: nat)
    requires Run(n, s1).Some? && Run(n, s2).Some?
    requires FollowsScript(env, s1) && FollowsScript(env, s2)
    requires k <= |s1| && k <= |s2|
    ensures s1[..k] == s2[..k]
    decreases k
  {
    if k > 0 {
      SamePrefix(n, env, s1, s2, k - 1);
      PrefixRuns(n, s1, k - 1);
      PrefixRuns(n, s2, k - 1);
      PrefixRuns(n, s1, k);
      PrefixRuns(n, s2, k);
      FollowsScriptPrefix(env, s1, k - 1);
      FollowsScriptPrefix(env, s2, k - 1);
      var t := s1[..k - 1];
      NextEventUnique(n, env, Run(n, t).value, Replay(env, t).value, s1[k - 1], s2[k - 1]);
      assert s1[..k] == t + [s1[k - 1]];
      assert s2[..k] == s2[..k - 1] + [s2[k - 1]];
    }
  }

  /** The log of do_work is a function of n and the script: two complete executions
      against the same script produce the same log and return the same counters. */
  lemma ScriptedRunUnique(n: nat, env: Script, s1: seq<Event>, c1: Counters, s2: seq<Event>, c2: Counters)
    requires Accepts(n, s1, c1) && FollowsScript(env, s1)
    requires Accepts(n, s2, c2) && FollowsScript(env, s2)
    ensures s1 == s2 && c1 == c2
  {
    if |s1| < |s2| {
      EndsEarlier(n, env, s1, c1, s2, c2);
    } else if |s2| < |s1| {
      EndsEarlier(n, env, s2, c2, s1, c1);
    } else {
      SamePrefix(n, env, s1, s2, |s1|);
      assert s1 == s1[..|s1|] && s2 == s2[..|s2|];
    }
  }

  /** No complete log that follows a script is a proper prefix of another one. */
  lemma EndsEarlier(n: nat, env: Script, s1: seq<Event>, c1: Counters, s2: seq<Event>, c2: Counters)
    requires Accepts(n, s1, c1) && FollowsScript(env, s1)
    requires Accepts(n, s2, c2) && FollowsScript(env, s2)
    ensures |s2| <= |s1|
  {
    if |s1| < |s2| {
      SamePrefix(n, env, s1, s2, |s1|);
      assert s2[..|s1|] == s1;
      assert StateAt(n, s2, |s1|) == State(Exited, c1);
      Ends(n, s2, c2);
      assert false;
    }
  }

  /** The cursor counts the answers of each kind a log that follows the script has used. */
  lemma {:induction false} ReplayCounts(env: Script, s: seq<Event>)
    requires FollowsScript(env, s)
    ensures Replay(env, s).value == Cursor(|Polls(s)|, |RequestOutcomes(s)|, |Deliveries(s)|, |ResultOutcomes(s)|)
    decreases |s|
  {
    if s != [] {
      assert Replay(env, s) == ReplayThen(env, s[..|s| - 1], s[|s| - 1]);
      ReplayCounts(env, s[..|s| - 1]);
    }
  }

  /** A log follows the script exactly when the flag values and outcomes it records are,
      for each endpoint, the first answers its script gives, in order (answers past the
      end of a script being false or a timeout). */
  lemma {:induction false} FollowsScriptAnswers(env: Script, s: seq<Event>)
    ensures FollowsScript(env, s) <==>
              && Polls(s) == Answers(env.runningFlag, |Polls(s)|, false)
              && RequestOutcomes(s) == Answers(env.requestSends, |RequestOutcomes(s)|, Timeout)
              && Deliveries(s) == Answers(env.dataReceives, |Deliveries(s)|, ReceiveTimeout)
              && ResultOutcomes(s) == Answers(env.resultSends, |ResultOutcomes(s)|, Timeout)
    decreases |s|
  {
    if s != [] {
      var t := s[..|s| - 1];
      assert Replay(env, s) == ReplayThen(env, t, s[|s| - 1]);
      FollowsScriptAnswers(env, t);
      if FollowsScript(env, t) {
        ReplayCounts(env, t);
      }
      var e := s[|s| - 1];
      match e
      case Poll(b) =>
        SnocAnswers(Polls(t), b, env.runningFlag, false);
      case SendRequest(_, o) =>
        SnocAnswers(RequestOutcomes(t), o, env.requestSends, Timeout);
      case Receive(d) =>
        SnocAnswers(Deliveries(t), d, env.dataReceives, ReceiveTimeout);
      case SendResult(_, o) =>
        SnocAnswers(ResultOutcomes(t), o, env.resultSends, Timeout);
      case _ =>
    }
  }

  /** A sequence extended by x is the first answers of a script exactly when the sequence
      is, and x is the answer after them. */
  lemma SnocAnswers<T>(p: seq<T>, x: T, answers: seq<T>, exhausted: T)
    ensures (p + [x] == Answers(answers, |p| + 1, exhausted))
            <==> (p == Answers(answers, |p|, exhausted) && x == Answer(answers, |p|, exhausted))
  {
    var q := Answers(answers, |p| + 1, exhausted);
    assert q == Answers(answers, |p|, exhausted) + [Answer(answers, |p|, exhausted)];
    if p + [x] == q {
      assert (p + [x])[..|p|] == p;
      assert q[..|p|] == Answers(answers, |p|, exhausted);
    }
  }
}
