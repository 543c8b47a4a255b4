/** The outside world of the FakeHLF worker: the messages it exchanges, the three
    timeout-bounded endpoints it uses, and a finite script that answers every read of
    the running flag and every endpoint call, in order. */
module Endpoints {

  /** What a timeout-bounded send returns: the message went out, or the deadline
      passed (TransportTimeoutExpired). */
  datatype Outcome = Ok | Timeout

  /** A trigger record; its contents are opaque to the worker. */
  datatype TriggerRecord = TriggerRecord(payload: seq<bv8>)

  /** The record a default-constructed TriggerRecord holds before a receive fills it. */
  const EMPTY_RECORD := TriggerRecord([])

  /** What a timeout-bounded receive returns: a record, or the deadline passed. */
  datatype Delivery = Delivered(record: TriggerRecord) | ReceiveTimeout

  /** A request for trigger records. Only the number of records asked for is kept;
      the reply address and the acceptable-type mask are opaque and left out. */
  datatype TriggerRecordRequest = TriggerRecordRequest(numberOfRecords: nat)

  /** The three endpoints: where requests go, where records come from, where results go. */
  datatype Endpoint = RequestDestination | DataSource | ResultDestination

  /** The answers the outside world gives, in order: successive values of the running
      flag, and the successive outcomes of the request sender, the data receiver and
      the result sender. */
  datatype Script = Script(
    runningFlag: seq<bool>,
    requestSends: seq<Outcome>,
    dataReceives: seq<Delivery>,
    resultSends: seq<Outcome>)

  /** The k-th answer of a script; once the script is exhausted every answer is
      `exhausted` (the flag reads false, an endpoint times out). */
  function Answer<T>(answers: seq<T>, k: nat, exhausted: T): T
  {
    if k < |answers| then answers[k] else exhausted
  }

  /** The first k answers of a script, padded with `exhausted` past its end. */
  function Answers<T>(answers: seq<T>, k: nat, exhausted: T): (r: seq<T>)
    ensures |r| == k
    ensures forall j :: 0 <= j < k ==> r[j] == (if j < |answers| then answers[j] else exhausted)
    ensures k <= |answers| ==> r == answers[..k]
  {
    if k == 0 then [] else Answers(answers, k - 1, exhausted) + [Answer(answers, k - 1, exhausted)]
  }
}
