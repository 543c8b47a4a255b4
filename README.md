# FakeHLF worker loop

A model of `FakeHLF_PseudoCode::do_work`, the worker loop of a fake high-level-filter
stage. The stage asks a dispatcher for trigger records, receives them on a separate
data channel, and sends each one back unchanged as its "result". Each of the three
endpoint operations is bounded by a timeout. All of it runs under one cooperative
running flag.

The world outside the worker is a `Script` (`endpoints.dfy`). It gives, in order, the
successive values of the running flag and the successive outcomes of the request sender,
the data receiver and the result sender. A script is finite. Once exhausted, the flag
reads false and every endpoint call times out, so every execution ends.

The model has four files:

- `endpoints.dfy` (`Endpoints`): messages, outcomes and the script.
- `trace.dfy` (`WorkerTrace`): the events do_work produces and an event-driven state
  machine. The events are flag reads, endpoint calls with their outcomes, timeout
  warnings and the exit summary. The machine's phases are the program points of do_work
  at which the next event happens. `Run` plays a log through the machine, and `Replay`
  plays it against a script.
- `properties.dfy` (`TraceProperties`): what every log the machine accepts guarantees.
- `worker.dfy` (`FakeHlf`): do_work itself, as imperative code with the source's nested
  loops and locals. The loop conditions that end in `&& running_flag.load()` (lines 138,
  142 and 170) are written as a flag read followed by a `break` when it returns false;
  the `continue` after a timed-out request (line 127) is kept. The code is split into
  methods for the receive loop, the send loop and the batch loop. Each method's loop
  invariant says which machine state the log has reached at that program point, and
  that every state the method has passed through lies inside its loop (`StaysIn`), so
  each method returns at the first exit from its loop.

`DoWork` is proved to produce a log that the machine accepts and that follows the
script, and that log is the only one with both properties. The trace properties then
hold of that log.

The pseudocode does not compile as written. The model reads it as follows:

- `requestTRCount` (line 132) is the counter `requestedTRCount` declared on line 100.
- `TRsPerRequest` (line 193) is `TRsToRequestEachTime`.
- The undeclared `processedCount` (line 194) is left out of the summary, because the
  processing step is the identity and no such counter exists.

`TRsToRequestEachTime` is the constant 1 on line 98. The model takes it as a parameter
`n`, and every property holds for all `n`.

Three details of the code that the model follows as written:

- The catch block for a timed-out result send (lines 179-183) is empty, although its
  comment on line 181 says to complain loudly. No warning is emitted, and the send loop
  reads the flag again and retries the same record. Line 182 leaves open whether to
  retry or to move on to the next record, so the model keeps the retry the code does.
- The warnings of lines 125 and 158 are emitted on every timeout, whatever the next
  flag read returns.
- The summary of lines 192-195 reports requestCount, TRsPerRequest, receivedCount and
  sentCount. requestedTRCount is not part of it.

## Model

| member | source | states |
|---|---|---|
| FakeHlf.DoWork | FakeHLF_PseudoCode.cpp:94-198 | The log is accepted by the worker machine with the returned counters, and follows the script. The counters are the tally of successful operations. requestedTRCount = n·requestCount, received ≤ requested, sent ≤ received. The log ends with a false flag read and then the one summary, which reports the final counters. If and only if the script's first flag value is false, the log is exactly that read and a zero summary, and all counters are 0. Every accepted log that follows the same script is this log, with these counters. |
| FakeHlf.LoadRunningFlag | FakeHLF_PseudoCode.cpp:104 | A flag read returns the next answer of the flag script, and false once the script is exhausted. It appends one Poll event and advances the machine and the script cursor by that event. |
| FakeHlf.SendRequestMessage | FakeHLF_PseudoCode.cpp:119 | A request send gets the next outcome of the request-sender script, and a timeout once that script is exhausted. It appends the call with its outcome and advances the machine and the cursor. |
| FakeHlf.ReceiveRecord | FakeHLF_PseudoCode.cpp:147 | A receive gets the next delivery of the data-receiver script: a record, or a timeout. It appends it and advances the machine and the cursor. |
| FakeHlf.SendResultMessage | FakeHLF_PseudoCode.cpp:175 | A result send gets the next outcome of the result-sender script. It appends the call with the record sent and advances the machine and the cursor. |
| FakeHlf.Emit | FakeHLF_PseudoCode.cpp:123-126 | A warning (the request warning of lines 123-126 or the receive warning of lines 156-159), or the summary of lines 191-196, is appended and uses no script answer. |
| FakeHlf.AwaitRecord | FakeHLF_PseudoCode.cpp:140-161 | From the receive test with left > 0 records owed, the loop either ends on a received record, at the forwarding test with left-1 owed and receivedCount+1, or it ends on a false flag read, back at the batch test with left and the counters unchanged. The log only grows, and every state strictly between entry and return is inside the receive loop, so the method returns at the loop's first exit. At least one flag value is used. |
| FakeHlf.ForwardRecord | FakeHLF_PseudoCode.cpp:169-184 | From the forwarding test of a record, the loop ends at the batch test with the same number owed. sentCount is raised by one exactly when the record was sent, and nothing else changes. The log only grows, and every state strictly between entry and return is inside the send loop, so the method returns at the loop's first exit. |
| FakeHlf.ReceiveBatch | FakeHLF_PseudoCode.cpp:137-186 | From the start of a batch of n records, the loop ends back at the outer flag test. requestCount and requestedTRCount are unchanged, and received and sent have not decreased. The log only grows, and every state strictly between entry and return is inside the batch loop, so the method returns when control first gets back to line 104. |
| TraceProperties.StepConsistent | FakeHLF_PseudoCode.cpp:99-186 | Every step of do_work keeps the invariant of its locals. requestedTRCount = n·requestCount. left stays in 1..n while a record is awaited and below n while one is forwarded. Received plus still owed never exceeds requested. Sent plus the record in hand never exceeds received. |
| TraceProperties.RunConsistent | FakeHLF_PseudoCode.cpp:99-186 | Every state reached from the entry of do_work satisfies that invariant. |
| TraceProperties.RunTally | FakeHLF_PseudoCode.cpp:131-177 | In every reachable state, the counters are the count of successful requests (and n per request for requestedTRCount), successful receives and successful sends in the log so far. |
| TraceProperties.AcceptedCounters | FakeHLF_PseudoCode.cpp:99-198 | At exit, the counters are the tally of the log, requestedTRCount = n·requestCount, received ≤ requested and sent ≤ received. |
| TraceProperties.ConsistentAtEveryPoint | FakeHLF_PseudoCode.cpp:104-186 | At every point of a complete run, including every test of the outer loop, the invariant holds and the counters are the tally of the log up to that point. |
| TraceProperties.TallyNeverDecreases | FakeHLF_PseudoCode.cpp:131-177 | Counting over a longer log never gives a smaller counter. |
| TraceProperties.CountersNeverDecrease | FakeHLF_PseudoCode.cpp:131-177 | Between any two points of a run no counter decreases, and each event raises the counters by exactly what its success is worth. |
| TraceProperties.RequestTimeoutWarnsOnce | FakeHLF_PseudoCode.cpp:117-128 | A timed-out request is followed by exactly one request-destination warning and then the outer flag test, with the counters unchanged. Every such warning follows a timed-out request. |
| TraceProperties.ReceiveTimeoutWarnsOnce | FakeHLF_PseudoCode.cpp:145-160 | A timed-out receive is followed by exactly one data-source warning and then the receive test with the same number owed and the counters unchanged. Every such warning follows a timed-out receive. |
| TraceProperties.ResultTimeoutRetriesSilently | FakeHLF_PseudoCode.cpp:170-183 | A timed-out result send is followed by a flag read with the counters unchanged. If that read is true, the same record is sent again. No warning ever names the result destination. |
| TraceProperties.CallsFollowTrueReads | FakeHLF_PseudoCode.cpp:104-175 | Every endpoint call comes right after a flag read that returned true. |
| TraceProperties.RunForwardsLastDelivered | FakeHLF_PseudoCode.cpp:147-175 | While a record is being forwarded, it is the record most recently received. |
| TraceProperties.ForwardsReceivedRecord | FakeHLF_PseudoCode.cpp:140-177 | Every result sent is exactly the record of the latest successful receive before it. |
| TraceProperties.LeftToReceiveCountsDown | FakeHLF_PseudoCode.cpp:137-149 | trigRecLeftToReceive becomes n on each successful request and drops by one on each successful receive, and nothing else changes it. When the flag reads false at the test of line 138, the remainder is discarded. Every request is sent with nothing left over. |
| TraceProperties.CancelledAtFirstTest | FakeHLF_PseudoCode.cpp:104-196 | A run starts with a flag read. That read is false if and only if the whole log is the read and a zero summary, in which case the counters are 0. |
| TraceProperties.SummaryOnceAtExit | FakeHLF_PseudoCode.cpp:191-196 | The summary is the last event and the only one, right after the outer flag test read false, and it reports the final requestCount, n, receivedCount and sentCount. |
| TraceProperties.NextEventUnique | FakeHLF_PseudoCode.cpp:104-196 | At every program point of do_work, the state and the answers of the script used so far fix the next event. |
| TraceProperties.ScriptedRunUnique | FakeHLF_PseudoCode.cpp:94-198 | Two complete logs that follow the same script are equal and end with the same counters: the behaviour of do_work is a function of n and the script. |
| TraceProperties.FirstReadIsScripted | FakeHLF_PseudoCode.cpp:104 | In a log that follows the script, the first flag read returns the script's first flag value. |
| TraceProperties.FollowsScriptAnswers | FakeHLF_PseudoCode.cpp:104-175 | A log follows the script if and only if, for the flag and for each endpoint, the values it records are the first answers of that script, in order. |

## Left out

- The constructor, `init`, `do_start`, `do_stop` and the worker thread: the loop's body starts at do_work's entry, and the running flag is a script of values.
- Real time and the chrono timeout durations: a timeout is an answer of the script, not an elapsed duration.
- The text of the warnings and of the summary: a warning records only the endpoint it names, the summary only the numbers it reports.
- The trace-level `TLOG` messages: they do not change the worker's state.
- The request's reply address and acceptable-type mask (lines 108-113): only the number of records asked for is modelled.
- The processing of a record: the source sends the received record back unchanged, and so does the model.
- FakeHlf.DoWork: the counters are unbounded naturals, so `int` overflow after 2^31 successes is not modelled.
- FakeHlf.DoWork: endpoint calls either succeed or time out. Any other exception, which would end do_work without the summary, is not modelled. Only TransportTimeoutExpired is caught (lines 121, 151, 179); exceptions from `get_config` and `MessageFactory::create` (lines 108-111) are not modelled either.
- FakeHlf.DoWork: concurrency with the thread that clears the flag is not modelled beyond the flag's script of successive values.
- Module registration and the remaining members of FakeHLF_PseudoCode: they are not part of this model.
