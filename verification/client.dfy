/** The submitting client (user_agent/userAgent.py and its swap variant
    user_agent/userAgentswap.py, which differ only in the default reason):
    the request body, the approval test on the reply, and the retry loop
    around the POST. The HTTP exchange and the chain submission are oracles;
    sleeping is recorded as the list of delays slept. */
module Client {
  import opened Wrappers
  import opened Json
  import Text
  import Numerals
  import Bytes
  import Schemas
  import Routes

  /** Default reasons when `TRANSACTION_REASON` is unset. */
  const TransferReason: string := "need to transfer all EGLD, to start a new wallet"
  const SwapReason: string := "need to swap EGLD to ASH token"

  /** What the client reads off the signed transaction: sender and receiver
      addresses (as text), the raw data bytes and the amount in atomic units. */
  datatype ClientTx = ClientTx(sender: string, receiver: string, data: seq<Bytes.byte>, value: nat)

  /** The `data` text: empty bytes are "", anything else is decoded as UTF-8
      (`None`: the decode raises before any request is made). */
  function DataText(data: seq<Bytes.byte>): Option<string> {
    if |data| == 0 then Some("") else Bytes.DecodeUtf8(data)
  }

  /** `tx_data`: one transfer with string fields, the sender as custody
      address, "EGLD" as token, and the reason from the environment or the default. */
  function RequestBody(tx: ClientTx, reasonEnv: Option<string>, defaultReason: string): (r: Option<JsonValue>)
    ensures r.Some? <==> DataText(tx.data).Some?
    ensures r.Some? ==> r.value == Routes.SerializeTransaction(Schemas.TransactionRequest(
      [Schemas.Transaction(tx.receiver, DataText(tx.data).value, Numerals.ShowDecimal(tx.value))],
      tx.sender, "EGLD", reasonEnv.GetOr(defaultReason)))
  {
    match DataText(tx.data)
    case None => None
    case Some(text) =>
      var entry := Schemas.Transaction(tx.receiver, text, Numerals.ShowDecimal(tx.value));
      assert Routes.EntriesJson([entry]) == [Routes.EntryJson(entry)];
      Some(JObject(map[
        "safeAddress" := JStr(tx.sender),
        "erc20TokenAddress" := JStr("EGLD"),
        "reason" := JStr(reasonEnv.GetOr(defaultReason)),
        "transactions" := JArray([JObject(map[
          "to" := JStr(tx.receiver),
          "data" := JStr(text),
          "value" := JStr(Numerals.ShowDecimal(tx.value))])])]))
  }

  /** The gateway reads the client's body back as exactly the request the client meant. */
  lemma GatewayReadsRequestBody(tx: ClientTx, reasonEnv: Option<string>, defaultReason: string)
    requires DataText(tx.data).Some?
    ensures Routes.ParseRequest(RequestBody(tx, reasonEnv, defaultReason).value) == Some(Schemas.TransactionRequest(
      [Schemas.Transaction(tx.receiver, DataText(tx.data).value, Numerals.ShowDecimal(tx.value))],
      tx.sender, "EGLD", reasonEnv.GetOr(defaultReason)))
  {
    Routes.SerializeRoundTrip(Schemas.TransactionRequest(
      [Schemas.Transaction(tx.receiver, DataText(tx.data).value, Numerals.ShowDecimal(tx.value))],
      tx.sender, "EGLD", reasonEnv.GetOr(defaultReason)));
  }

  /** `'APPROVED' in response_data.get('message', '')`: a substring test on a
      string, element membership on a list, key membership on a dict; any
      other message, or a reply that is not a dict, raises (`Err`). */
  function ApprovalCheck(reply: JsonValue): (r: Result<bool, string>)
    ensures !reply.JObject? ==> r.Err?
    ensures reply.JObject? && "message" !in reply.fields ==> r == Ok(false)
    ensures reply.JObject? && "message" in reply.fields && reply.fields["message"].JStr? ==>
      r == Ok(Text.Contains(reply.fields["message"].s, "APPROVED"))
    ensures r == Ok(true) ==> reply.JObject? && "message" in reply.fields
  {
    if !reply.JObject? then Err("AttributeError: '" + Routes.TypeName(reply) + "' object has no attribute 'get'")
    else
      match if "message" in reply.fields then reply.fields["message"] else JStr("")
      case JStr(s) => Ok(Text.Contains(s, "APPROVED"))
      case JArray(items) => Ok(JStr("APPROVED") in items)
      case JObject(f) => Ok("APPROVED" in f)
      case other => Err("TypeError: argument of type '" + Routes.TypeName(other) + "' is not iterable")
  }

  /** How one POST ended: a decoded reply, a read timeout (the only failure
      that is retried), or any other exception. The HTTP side is given as the
      outcome each of the three possible attempts would have. */
  datatype PostOutcome = Replied(body: JsonValue) | ReadTimedOut | PostFailed(error: string)

  /** How the chain submission ended. */
  datatype ChainOutcome = Sent | SendFailed(error: string)

  /** The exception that escapes `send_transaction_to_api`. */
  datatype Failure = ReadTimeout | Raised(error: string)

  /** The whole call: the reply returned or the exception raised, how many
      POSTs were made, the delays slept between them, and whether the
      transaction was handed to the chain. */
  datatype Outcome = Outcome(result: Result<JsonValue, Failure>, attempts: nat, sleeps: seq<nat>, submitted: bool)

  const MaxRetries: nat := 3

  /** The delay slept after the `k`-th timed-out attempt: 2 seconds, doubling each time. */
  function Backoff(k: nat): nat {
    if k == 0 then 2 else 2 * Backoff(k - 1)
  }

  /** The end of an attempt that got a reply: a rejection returns the reply
      without touching the chain; an approval submits the transaction and
      returns the reply, unless the submission raises. */
  function Conclude(body: JsonValue, chain: ChainOutcome): (r: (Result<JsonValue, Failure>, bool))
    ensures r.1 <==> ApprovalCheck(body) == Ok(true)
    ensures ApprovalCheck(body) == Ok(false) ==> r.0 == Ok(body)
    ensures ApprovalCheck(body) == Ok(true) ==> (r.0 == Ok(body) <==> chain.Sent?)
    ensures ApprovalCheck(body).Err? ==> r.0 == Err(Raised(ApprovalCheck(body).error))
    ensures r.0.Err? ==> r.0.error.Raised?
  {
    match ApprovalCheck(body)
    case Err(e) => (Err(Raised(e)), false)
    case Ok(approved) =>
      if !approved then (Ok(body), false)
      else if chain.Sent? then (Ok(body), true)
      else (Err(Raised(chain.error)), true)
  }

  /** How the call ends when the attempt that made `attempts` POSTs is not retried. */
  function Stopped(outcome: PostOutcome, chain: ChainOutcome, attempts: nat, sleeps: seq<nat>): Outcome {
    match outcome
    case ReadTimedOut => Outcome(Err(ReadTimeout), attempts, sleeps, false)
    case PostFailed(e) => Outcome(Err(Raised(e)), attempts, sleeps, false)
    case Replied(body) =>
      var (res, sub) := Conclude(body, chain);
      Outcome(res, attempts, sleeps, sub)
  }

  /** Which attempt ends the loop and what was slept before it. */
  datatype Schedule = Schedule(attempts: nat, sleeps: seq<nat>)

  /** The loop from attempt `k` on, as a reference definition: a read
      timeout that is not the last attempt sleeps its delay and goes on;
      anything else ends the loop. */
  function ScheduleFrom(posts: seq<PostOutcome>, k: nat): (s: Schedule)
    requires |posts| == MaxRetries && k < MaxRetries
    ensures k < s.attempts <= MaxRetries
    ensures |s.sleeps| == s.attempts - 1 - k
    decreases MaxRetries - k
  {
    if posts[k].ReadTimedOut? && k < MaxRetries - 1 then
      var rest := ScheduleFrom(posts, k + 1);
      Schedule(rest.attempts, [Backoff(k)] + rest.sleeps)
    else Schedule(k + 1, [])
  }

  /** The whole call: the schedule, then the attempt that ends it decides
      the outcome. The chain sees the transaction only after an approved
      reply; a rejected reply is still returned, with nothing submitted; a
      successful call returns the last reply. */
  function Call(posts: seq<PostOutcome>, chain: ChainOutcome): (o: Outcome)
    requires |posts| == MaxRetries
    ensures 1 <= o.attempts <= MaxRetries
    ensures var last := posts[o.attempts - 1];
      (o.submitted <==> last.Replied? && ApprovalCheck(last.body) == Ok(true))
      && (last.Replied? && ApprovalCheck(last.body) == Ok(false) ==> o.result == Ok(last.body) && !o.submitted)
      && (o.result.Ok? ==> last == Replied(o.result.value))
  {
    var s := ScheduleFrom(posts, 0);
    Stopped(posts[s.attempts - 1], chain, s.attempts, s.sleeps)
  }

  /** What the loop from attempt `k` does: the delays double from attempt
      `k`'s, every attempt before the last timed out, and the last one did
      not time out unless it was the third. */
  lemma {:induction false} ScheduleShape(posts: seq<PostOutcome>, k: nat)
    requires |posts| == MaxRetries && k < MaxRetries
    ensures var s := ScheduleFrom(posts, k);
      (forall i :: 0 <= i < |s.sleeps| ==> s.sleeps[i] == Backoff(k + i))
      && (forall j :: k <= j < s.attempts - 1 ==> posts[j].ReadTimedOut?)
      && (s.attempts < MaxRetries ==> !posts[s.attempts - 1].ReadTimedOut?)
    decreases MaxRetries - k
  {
    if posts[k].ReadTimedOut? && k < MaxRetries - 1 {
      ScheduleShape(posts, k + 1);
      var rest := ScheduleFrom(posts, k + 1);
      var s := ScheduleFrom(posts, k);
      assert s.sleeps == [Backoff(k)] + rest.sleeps;
      forall i | 0 <= i < |s.sleeps|
        ensures s.sleeps[i] == Backoff(k + i)
      {
        if i > 0 {
          assert s.sleeps[i] == rest.sleeps[i - 1];
        }
      }
    }
  }

  /** `send_transaction_to_api`: the retry loop. */
  method SendTransactionToApi(posts: seq<PostOutcome>, chain: ChainOutcome) returns (o: Outcome)
    requires |posts| == MaxRetries
    ensures o == Call(posts, chain)
  {
    var attempt: nat := 0;
    var delay: nat := 2;
    var sleeps: seq<nat> := [];
    ghost var target := ScheduleFrom(posts, 0);
    while true
      invariant attempt < MaxRetries
      invariant delay == Backoff(attempt)
      invariant target.attempts == ScheduleFrom(posts, attempt).attempts
      invariant target.sleeps == sleeps + ScheduleFrom(posts, attempt).sleeps
      decreases MaxRetries - attempt
    {
      var outcome := posts[attempt];
      if outcome.ReadTimedOut? && attempt < MaxRetries - 1 {
        ghost var rest := ScheduleFrom(posts, attempt + 1);
        assert sleeps + ([delay] + rest.sleeps) == (sleeps + [delay]) + rest.sleeps;
        sleeps := sleeps + [delay];
        delay := delay * 2;
        attempt := attempt + 1;
      } else {
        assert sleeps + [] == sleeps;
        return Stopped(outcome, chain, attempt + 1, sleeps);
      }
    }
  }

  /** The schedule: at most three POSTs, every POST but the last timed out,
      the delays slept are 2 s then 4 s, and the third timeout is re-raised. */
  lemma RetrySchedule(posts: seq<PostOutcome>, chain: ChainOutcome)
    requires |posts| == MaxRetries
    ensures var o := Call(posts, chain);
      1 <= o.attempts <= 3
      && o.sleeps == [2, 4][..o.attempts - 1]
      && (forall j :: 0 <= j < o.attempts - 1 ==> posts[j] == ReadTimedOut)
      && (o.result == Err(ReadTimeout) <==> posts[0] == ReadTimedOut && posts[1] == ReadTimedOut && posts[2] == ReadTimedOut)
  {
    ScheduleShape(posts, 0);
    var o := Call(posts, chain);
    assert Backoff(0) == 2 && Backoff(1) == 4;
    if o.attempts == 2 {
      assert o.sleeps == [o.sleeps[0]];
    } else if o.attempts == 3 {
      assert o.sleeps == [o.sleeps[0], o.sleeps[1]];
    }
  }

  /** Any failure other than a read timeout ends the call at once. */
  lemma OtherFailuresNotRetried(posts: seq<PostOutcome>, chain: ChainOutcome, k: nat)
    requires |posts| == MaxRetries && k < MaxRetries && posts[k].PostFailed?
    requires forall j :: 0 <= j < k ==> posts[j].ReadTimedOut?
    ensures Call(posts, chain).attempts == k + 1
    ensures Call(posts, chain).result == Err(Raised(posts[k].error))
  {
    ScheduleShape(posts, 0);
  }
}
