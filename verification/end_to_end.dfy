/** How the pieces meet: what the client concludes from the gateway's
    response, and what the analyzers read from a request the client sent. */
module EndToEnd {
  import opened Wrappers
  import opened Json
  import Text
  import Numerals
  import Schemas
  import Routes
  import Analyzer
  import Client
  import BalanceBot
  import MantleBot
  import AshRisk
  import SwapPayload

  /** The text the client tests for "APPROVED" when the arbiter answered with a dict. */
  function ResponseMessage(env: Routes.Env, f: map<string, JsonValue>): string {
    "Transaction " + Routes.ApprovalTag(env, f) + " - " + Routes.Explanation(env, f)
  }

  /** The client approves a dict answer exactly when the response message
      contains "APPROVED"; an HTTP 500 body has no message and is never approved. */
  lemma ClientReadsResponse(env: Routes.Env, hash: string, reply: JsonValue)
    ensures Client.ApprovalCheck(Schemas.ResponseBody(Routes.Respond(env, hash, reply)))
      == if reply.JObject? then Ok(Text.Contains(ResponseMessage(env, reply.fields), "APPROVED")) else Ok(false)
  {
  }

  /** A tag of "APPROVED" makes the client submit, whatever the explanation. */
  lemma ApprovedTagIsApproved(env: Routes.Env, hash: string, f: map<string, JsonValue>)
    requires "approval_status" in f && f["approval_status"] == JStr("APPROVED")
    ensures Client.ApprovalCheck(Schemas.ResponseBody(Routes.Respond(env, hash, JObject(f)))) == Ok(true)
  {
    var rest := "APPROVED" + " - " + Routes.Explanation(env, f);
    assert Text.StartsWith(rest, "APPROVED");
    Text.ContainsInSuffix("Transaction ", rest, "APPROVED");
    assert ResponseMessage(env, f) == "Transaction " + rest;
  }

  /** The client tests the whole message, not the tag: an explanation that
      mentions "APPROVED" makes it submit a transaction the arbiter rejected. */
  lemma ExplanationOverridesTag(env: Routes.Env, hash: string, f: map<string, JsonValue>)
    requires "approval_status" in f && f["approval_status"] == JStr("REJECTED")
    requires "llm_response" in f && f["llm_response"].JStr? && Text.Contains(f["llm_response"].s, "APPROVED")
    ensures Client.ApprovalCheck(Schemas.ResponseBody(Routes.Respond(env, hash, JObject(f)))) == Ok(true)
  {
    var head := "Transaction " + "REJECTED" + " - ";
    Text.ContainsInSuffix(head, f["llm_response"].s, "APPROVED");
    assert ResponseMessage(env, f) == head + f["llm_response"].s;
  }

  /** Without warnings, or when the wait runs out, the gateway's answer approves. */
  lemma QuietBatchIsApproved(env: Routes.Env, hash: string)
    ensures Client.ApprovalCheck(Schemas.ResponseBody(Routes.Respond(env, hash, Routes.NoWarningsReply()))) == Ok(true)
    ensures Client.ApprovalCheck(Schemas.ResponseBody(Routes.Respond(env, hash, Routes.TimeoutReply()))) == Ok(true)
  {
    var f1 := Routes.NoWarningsReply().fields;
    var f2 := Routes.TimeoutReply().fields;
    assert "approval_status" in f1 && f1["approval_status"] == JStr("APPROVED");
    assert "approval_status" in f2 && f2["approval_status"] == JStr("APPROVED");
    ApprovedTagIsApproved(env, hash, f1);
    ApprovedTagIsApproved(env, hash, f2);
  }

  /** When the arbiter cannot be reached the client reads "Transaction PENDING - "
      and submits nothing. */
  lemma UnreachableArbiterIsNotApproved(env: Routes.Env, hash: string, t: Routes.AgentTransport)
    requires !t.Delivered?
    ensures Client.ApprovalCheck(Schemas.ResponseBody(Routes.Respond(env, hash, Routes.AgentReply(t)))) == Ok(false)
  {
    Routes.TransportFailureIsPending(env, hash, t);
    var message := "Transaction PENDING - ";
    assert forall i :: 0 <= i < |message| ==> message[i] != 'A';
    if Text.Contains(message, "APPROVED") {
      Text.ContainedCharsOccur(message, "APPROVED", 0);
    }
  }

  /** The request the client posts, as the gateway parses it. */
  function ClientRequest(tx: Client.ClientTx, reasonEnv: Option<string>, defaultReason: string): Schemas.TransactionRequest
    requires Client.DataText(tx.data).Some?
  {
    Schemas.TransactionRequest(
      [Schemas.Transaction(tx.receiver, Client.DataText(tx.data).value, Numerals.ShowDecimal(tx.value))],
      tx.sender, "EGLD", reasonEnv.GetOr(defaultReason))
  }

  /** The transfer list a bot walks for the client's request: the one
      transfer, with its destination and data, and an amount both balance
      analyzers read back as the amount the client signed. */
  lemma BotsSeeClientTransfer(tx: Client.ClientTx, reasonEnv: Option<string>, defaultReason: string, hash: string)
    requires Client.DataText(tx.data).Some?
    ensures Routes.ParseRequest(Client.RequestBody(tx, reasonEnv, defaultReason).value)
      == Some(ClientRequest(tx, reasonEnv, defaultReason))
    ensures var b := Analyzer.ReadBatch(Routes.TransactionMessage(ClientRequest(tx, reasonEnv, defaultReason), hash));
      b.Some? && b.value.safewallet == JStr(tx.sender) && b.value.hash == JStr(hash)
      && var items := Analyzer.TransferItems(b.value.transactions);
      |items| == 1 && items[0].JObject?
      && Analyzer.GetOr(items[0].fields, "to", JNull) == JStr(tx.receiver)
      && Analyzer.GetOr(items[0].fields, "data", JNull) == JStr(Client.DataText(tx.data).value)
      && BalanceBot.TransferValue(items[0].fields) == tx.value
      && MantleBot.TransferValue(items[0].fields) == tx.value
  {
    var req := ClientRequest(tx, reasonEnv, defaultReason);
    Client.GatewayReadsRequestBody(tx, reasonEnv, defaultReason);
    Analyzer.EnvelopeReadsBack(req, hash);
    BalanceBot.ParseValueShowDecimal(tx.value);
    MantleBot.ParseValueShowDecimal(tx.value);
  }

  /** The two balance analyzers read a hexadecimal amount differently: the
      native-balance bot reads "0x…" base 16, the MultiversX bot reads it as
      0, so only the first can flag a transfer written that way. */
  lemma BalanceBotsDisagreeOnHex(h: string)
    requires |h| > 0 && Numerals.AllHexDigits(h)
    ensures BalanceBot.ParseValue(JStr("0x" + h)) == Numerals.HexValue(h)
    ensures MantleBot.ParseValue(JStr("0x" + h)) == 0
  {
    BalanceBot.ParseValueHex(h);
    MantleBot.HexIsZero(h);
  }

  /** The swap client's payload reaches the swap analyzer intact and decodes
      to the ASH token. */
  lemma SwapPayloadReachesAnalyzer(tx: Client.ClientTx, reasonEnv: Option<string>, hash: string)
    requires Client.DataText(tx.data) == Some(SwapPayload.SwapData)
    ensures var b := Analyzer.ReadBatch(Routes.TransactionMessage(ClientRequest(tx, reasonEnv, Client.SwapReason), hash));
      b.Some?
      && var items := Analyzer.TransferItems(b.value.transactions);
      |items| == 1 && items[0].JObject?
      && Analyzer.GetOr(items[0].fields, "data", JNull) == JStr(SwapPayload.SwapData)
      && AshRisk.DecodeData(SwapPayload.SwapData) == Some((SwapPayload.TokenId, "0000000000"))
  {
    BotsSeeClientTransfer(tx, reasonEnv, Client.SwapReason, hash);
    SwapPayload.SwapPayloadDecodes();
  }
}
