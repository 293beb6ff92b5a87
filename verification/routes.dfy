/** The pure parts of the submission handler (app/routes.py): serialising a
    request, its identity, the envelope broadcast to analyzers, the request sent
    to the arbiter (tx agent) with its fallbacks, and the mapping of the
    arbiter's reply to the client's response. */
module Routes {
  import opened Wrappers
  import opened Json
  import opened Schemas
  import Numerals

  /** Deterministic functions the handler calls but the model does not interpret:
      `digest` is the hex SHA-256 of `json.dumps(d, sort_keys=True)`, `dumps` and
      `loads` are `json.dumps` / `json.loads` (`None` when decoding fails), and
      `repr` is `str()` of a list or dict. Objects are maps, so the key order
      `sort_keys` removes is not represented at all. */
  datatype Env = Env(
    digest: JsonValue -> string,
    dumps: JsonValue -> string,
    loads: string -> Option<JsonValue>,
    repr: JsonValue -> string)

  /** `json.loads(json.dumps(v)) == v`, and a dump is never the empty string. */
  ghost predicate CodecRoundTrips(env: Env) {
    forall v {:trigger env.dumps(v)} :: env.loads(env.dumps(v)) == Some(v) && env.dumps(v) != ""
  }

  function EntryJson(t: Transaction): JsonValue {
    JObject(map["to" := JStr(t.to), "data" := JStr(t.data), "value" := JStr(t.value)])
  }

  function EntriesJson(ts: seq<Transaction>): (items: seq<JsonValue>)
    ensures |items| == |ts|
    ensures forall i :: 0 <= i < |ts| ==> items[i] == EntryJson(ts[i])
  {
    seq(|ts|, i requires 0 <= i < |ts| => EntryJson(ts[i]))
  }

  /** `serialize_transaction`: exactly the four request keys, the transfers in
      order, each with exactly its three string fields. */
  function SerializeTransaction(req: TransactionRequest): (d: JsonValue)
    ensures d.JObject?
    ensures d.fields.Keys == {"transactions", "safeAddress", "erc20TokenAddress", "reason"}
    ensures d.fields["safeAddress"] == JStr(req.safeAddress)
    ensures d.fields["erc20TokenAddress"] == JStr(req.erc20TokenAddress)
    ensures d.fields["reason"] == JStr(req.reason)
    ensures d.fields["transactions"].JArray?
    ensures |d.fields["transactions"].items| == |req.transactions|
    ensures forall i :: 0 <= i < |req.transactions| ==>
      var e := d.fields["transactions"].items[i];
      e.JObject? && e.fields.Keys == {"to", "data", "value"}
      && e.fields["to"] == JStr(req.transactions[i].to)
      && e.fields["data"] == JStr(req.transactions[i].data)
      && e.fields["value"] == JStr(req.transactions[i].value)
  {
    JObject(map[
      "transactions" := JArray(EntriesJson(req.transactions)),
      "safeAddress" := JStr(req.safeAddress),
      "erc20TokenAddress" := JStr(req.erc20TokenAddress),
      "reason" := JStr(req.reason)])
  }

  function StrField(d: map<string, JsonValue>, key: string): Option<string> {
    if key in d && d[key].JStr? then Some(d[key].s) else None
  }

  function ParseEntry(e: JsonValue): Option<Transaction> {
    if !e.JObject? then None
    else
      match (StrField(e.fields, "to"), StrField(e.fields, "data"), StrField(e.fields, "value"))
      case (Some(to), Some(data), Some(value)) => Some(Transaction(to, data, value))
      case _ => None
  }

  function ParseEntries(items: seq<JsonValue>): Option<seq<Transaction>>
    decreases |items|
  {
    if |items| == 0 then Some([])
    else
      match (ParseEntry(items[0]), ParseEntries(items[1..]))
      case (Some(t), Some(ts)) => Some([t] + ts)
      case _ => None
  }

  /** Reading a serialised request back (the validation FastAPI applies to the body). */
  function ParseRequest(d: JsonValue): Option<TransactionRequest> {
    if !d.JObject? || "transactions" !in d.fields || !d.fields["transactions"].JArray? then None
    else
      match (ParseEntries(d.fields["transactions"].items), StrField(d.fields, "safeAddress"),
             StrField(d.fields, "erc20TokenAddress"), StrField(d.fields, "reason"))
      case (Some(ts), Some(sa), Some(tok), Some(reason)) => Some(TransactionRequest(ts, sa, tok, reason))
      case _ => None
  }

  lemma {:induction false} ParseEntriesOfSerialized(ts: seq<Transaction>)
    ensures ParseEntries(EntriesJson(ts)) == Some(ts)
    decreases |ts|
  {
    if |ts| > 0 {
      assert EntriesJson(ts)[1..] == EntriesJson(ts[1..]);
      ParseEntriesOfSerialized(ts[1..]);
      assert ts == [ts[0]] + ts[1..];
    }
  }

  /** Serialisation loses nothing: the request can be read back from it. */
  lemma SerializeRoundTrip(req: TransactionRequest)
    ensures ParseRequest(SerializeTransaction(req)) == Some(req)
  {
    ParseEntriesOfSerialized(req.transactions);
  }

  /** The identity (`transaction_hash`) of a request. */
  function TransactionHash(env: Env, req: TransactionRequest): string {
    env.digest(SerializeTransaction(req))
  }

  /** Identical requests share an identity; for a collision-free digest, any
      difference in transfers, their order, the addresses or the reason changes it. */
  lemma HashDeterminedByRequest(env: Env, r1: TransactionRequest, r2: TransactionRequest)
    requires forall a, b {:trigger env.digest(a), env.digest(b)} :: env.digest(a) == env.digest(b) ==> a == b
    ensures TransactionHash(env, r1) == TransactionHash(env, r2) <==> r1 == r2
  {
    if TransactionHash(env, r1) == TransactionHash(env, r2) {
      SerializeRoundTrip(r1);
      SerializeRoundTrip(r2);
    }
  }

  /** The envelope broadcast to analyzers: `{"type": "transaction", "data": {transactions, hash, safewallet}}`. */
  function TransactionMessage(req: TransactionRequest, hash: string): (m: JsonValue)
    ensures m.JObject? && m.fields.Keys == {"type", "data"}
    ensures m.fields["type"] == JStr("transaction")
    ensures m.fields["data"].JObject?
    ensures m.fields["data"].fields.Keys == {"transactions", "hash", "safewallet"}
    ensures m.fields["data"].fields["transactions"] == SerializeTransaction(req).fields["transactions"]
    ensures m.fields["data"].fields["hash"] == JStr(hash)
    ensures m.fields["data"].fields["safewallet"] == JStr(req.safeAddress)
  {
    var d := SerializeTransaction(req).fields;
    JObject(map["type" := JStr("transaction"),
                "data" := JObject(map["transactions" := d["transactions"], "hash" := JStr(hash),
                                      "safewallet" := d["safeAddress"]])])
  }

  /** What the arbiter request carries about the warning: the analyzer's
      message (`bot_reason`), its status tag, and the warning text itself. */
  datatype WarningFields = WarningFields(botReason: JsonValue, status: JsonValue, warning: Option<string>)

  /** The warning-parsing prologue of `send_to_tx_agent`: no (or empty) warning
      reads as the default `{"message": "None", "status": "approved"}`; a
      warning that is not a JSON object falls back to "None"/"approved" and the
      warning text is replaced by "nada". */
  function ParseWarning(env: Env, warning: Option<string>): (w: WarningFields)
    ensures warning.None? || warning == Some("") ==>
      w == WarningFields(JStr("None"), JStr("approved"), warning)
    ensures warning.Some? && warning.value != "" ==>
      match env.loads(warning.value)
      case Some(JObject(f)) => w == WarningFields(Get(f, "message"), Get(f, "status"), warning)
      case _ => w == WarningFields(JStr("None"), JStr("approved"), Some("nada"))
  {
    if warning.None? || warning.value == "" then WarningFields(JStr("None"), JStr("approved"), warning)
    else
      match env.loads(warning.value)
      case Some(JObject(f)) => WarningFields(Get(f, "message"), Get(f, "status"), warning)
      case _ => WarningFields(JStr("None"), JStr("approved"), Some("nada"))
  }

  /** The JSON body posted to the arbiter. */
  function AgentRequestBody(env: Env, req: TransactionRequest, warning: Option<string>): (body: JsonValue)
    ensures body.JObject?
    ensures body.fields.Keys == {"safeAddress", "erc20TokenAddress", "reason", "transactions",
                                 "bot_reason", "status", "warning"}
  {
    var d := SerializeTransaction(req).fields;
    var w := ParseWarning(env, warning);
    JObject(map[
      "safeAddress" := d["safeAddress"],
      "erc20TokenAddress" := d["erc20TokenAddress"],
      "reason" := d["reason"],
      "transactions" := d["transactions"],
      "bot_reason" := w.botReason,
      "status" := w.status,
      "warning" := match w.warning case Some(t) => JStr(t) case None => JNull])
  }

  /** On the gateway's own path the warning is a stored dict that was dumped to
      text: with a faithful codec the fallback is never taken, and the analyzer's
      message and status reach the arbiter unchanged. */
  lemma StoredWarningReachesArbiter(env: Env, stored: map<string, JsonValue>)
    requires CodecRoundTrips(env)
    ensures ParseWarning(env, Some(env.dumps(JObject(stored))))
            == WarningFields(Get(stored, "message"), Get(stored, "status"), Some(env.dumps(JObject(stored))))
  {
    assert env.loads(env.dumps(JObject(stored))) == Some(JObject(stored));
  }

  /** The arbiter request built from a stored warning carries the analyzer's
      own `message` as `bot_reason`, its `status`, and the dumped warning. */
  lemma EscalationCarriesWarning(env: Env, req: TransactionRequest, stored: map<string, JsonValue>)
    requires CodecRoundTrips(env)
    ensures var body := AgentRequestBody(env, req, Some(env.dumps(JObject(stored))));
      body.fields["bot_reason"] == Get(stored, "message")
      && body.fields["status"] == Get(stored, "status")
      && body.fields["warning"] == JStr(env.dumps(JObject(stored)))
  {
    StoredWarningReachesArbiter(env, stored);
  }

  /** How the call to the arbiter ended: a decoded JSON reply, a refused
      connection, or any other failure (timeout, undecodable reply, ...). */
  datatype AgentTransport = Delivered(reply: JsonValue) | ConnectFailed | OtherFailure(text: string)

  /** The value `send_to_tx_agent` returns; it never raises. */
  function AgentReply(t: AgentTransport): (r: JsonValue)
    ensures t.ConnectFailed? ==>
      r == JObject(map["status" := JStr("error"), "message" := JStr("txAgent no disponible")])
    ensures t.OtherFailure? ==> r == JObject(map["status" := JStr("error"), "message" := JStr(t.text)])
    ensures !t.Delivered? ==> "approval_status" !in r.fields && "llm_response" !in r.fields
  {
    match t
    case Delivered(j) => j
    case ConnectFailed => JObject(map["status" := JStr("error"), "message" := JStr("txAgent no disponible")])
    case OtherFailure(text) => JObject(map["status" := JStr("error"), "message" := JStr(text)])
  }

  /** The verdict when the wait is signalled and no warning is stored. */
  function NoWarningsReply(): JsonValue {
    JObject(map["status" := JStr("success"),
                "message" := JStr("Transaction APPROVED - No warnings detected"),
                "approval_status" := JStr("APPROVED"),
                "llm_response" := JStr("No warnings detected")])
  }

  /** The verdict when the 10-second wait runs out. */
  function TimeoutReply(): JsonValue {
    JObject(map["status" := JStr("success"),
                "message" := JStr("Transaction APPROVED - Timeout waiting for warnings"),
                "approval_status" := JStr("APPROVED"),
                "llm_response" := JStr("Timeout waiting for warnings")])
  }

  /** `str(v)` as an f-string renders a decoded value. */
  function Show(env: Env, v: JsonValue): string {
    match v
    case JStr(s) => s
    case JNull => "None"
    case JBool(b) => if b then "True" else "False"
    case JInt(n) => if n < 0 then "-" + Numerals.ShowDecimal(-n) else Numerals.ShowDecimal(n)
    case _ => env.repr(v)
  }

  /** Python's type name, as it appears in the `AttributeError` a non-dict reply raises. */
  function TypeName(v: JsonValue): string {
    match v
    case JNull => "NoneType"
    case JBool(_) => "bool"
    case JInt(_) => "int"
    case JStr(_) => "str"
    case JArray(_) => "list"
    case JObject(_) => "dict"
  }

  /** The approval tag the handler reads: `reply.get('approval_status', 'PENDING')`. */
  function ApprovalTag(env: Env, f: map<string, JsonValue>): string {
    if "approval_status" in f then Show(env, f["approval_status"]) else "PENDING"
  }

  /** The explanation the handler reads: `reply.get('llm_response', '')`. */
  function Explanation(env: Env, f: map<string, JsonValue>): string {
    if "llm_response" in f then Show(env, f["llm_response"]) else ""
  }

  /** The end of `process_agent_transaction`: a dict reply becomes a "success"
      response whose message carries the approval tag; anything else raises and
      becomes an HTTP 500. The tag itself is not a field of the response. */
  function Respond(env: Env, hash: string, reply: JsonValue): (r: Reply)
    ensures r.Responded? <==> reply.JObject?
    ensures r.Responded? ==>
      r.resp == TransactionResponse(
        "success",
        "Transaction " + ApprovalTag(env, reply.fields) + " - " + Explanation(env, reply.fields),
        hash)
    ensures r.HttpFailed? ==> r.error.code == 500
  {
    match reply
    case JObject(f) =>
      Responded(TransactionResponse("success", "Transaction " + ApprovalTag(env, f) + " - " + Explanation(env, f), hash))
    case _ =>
      HttpFailed(HttpError(500, "Error processing transaction: '" + TypeName(reply) + "' object has no attribute 'get'"))
  }

  /** Without any warning the client reads "Transaction APPROVED - No warnings detected". */
  lemma NoWarningsResponse(env: Env, hash: string)
    ensures Respond(env, hash, NoWarningsReply())
         == Responded(TransactionResponse("success", "Transaction " + "APPROVED" + " - " + "No warnings detected", hash))
  {
    var f := NoWarningsReply().fields;
    assert ApprovalTag(env, f) == "APPROVED";
    assert Explanation(env, f) == "No warnings detected";
  }

  /** After the wait runs out the client reads "Transaction APPROVED - Timeout waiting for warnings". */
  lemma TimeoutResponse(env: Env, hash: string)
    ensures Respond(env, hash, TimeoutReply())
         == Responded(TransactionResponse("success", "Transaction " + "APPROVED" + " - " + "Timeout waiting for warnings", hash))
  {
    var f := TimeoutReply().fields;
    assert ApprovalTag(env, f) == "APPROVED";
    assert Explanation(env, f) == "Timeout waiting for warnings";
  }

  /** An unreachable arbiter surfaces as "Transaction PENDING - " (no tag, no explanation). */
  lemma TransportFailureIsPending(env: Env, hash: string, t: AgentTransport)
    requires !t.Delivered?
    ensures Respond(env, hash, AgentReply(t)) == Responded(TransactionResponse("success", "Transaction PENDING - ", hash))
  {
  }
}
