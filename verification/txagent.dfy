/** The arbiter service (baiby_agent/txagent.py): turns a transaction and an
    optional analyzer warning into APPROVED or REJECTED. The language model
    and the audit-log database are oracles whose outcomes are inputs. */
module TxAgent {
  import opened Wrappers
  import opened Json
  import Text
  import Schemas

  /** The arbiter's request model; the last three fields are optional. */
  datatype AgentRequest = AgentRequest(
    safeAddress: string,
    erc20TokenAddress: string,
    reason: string,
    transactions: seq<Schemas.Transaction>,
    warning: Option<string>,
    botReason: Option<string>,
    status: Option<string>)

  /** What the chat-completion call produced: the reply text, or the text of the exception it raised. */
  datatype LlmOutcome = Completed(content: string) | LlmFailed(error: string)

  /** Whether one audit-log insert went through or raised. */
  datatype Insert = Inserted | InsertFailed(error: string)

  /** The decision rule of `analyze_with_llm`: the reply, stripped and upper-cased, starts with "YES". */
  predicate SaysYes(response: string) {
    Text.StartsWith(Text.Upper(Text.Strip(response)), "YES")
  }

  /** `SaysYes` in plain terms: after surrounding whitespace, the reply's first
      three characters spell "yes" in any mix of case. */
  lemma SaysYesMeansLeadingYes(response: string)
    ensures SaysYes(response) <==>
      var t := Text.Strip(response);
      |t| >= 3 && t[0] in "yY" && t[1] in "eE" && t[2] in "sS"
  {
    var t := Text.Strip(response);
    var u := Text.Upper(t);
    if |t| >= 3 {
      assert u[..3] == [u[0], u[1], u[2]];
      assert u[..3] == "YES" <==> u[0] == 'Y' && u[1] == 'E' && u[2] == 'S';
    }
  }

  /** `analyze_with_llm`: the decision and the text that explains it; any
      failure is a rejection carrying the error text. */
  function AnalyzeWithLlm(o: LlmOutcome): (r: (bool, string))
    ensures o.LlmFailed? ==> r == (false, o.error)
    ensures o.Completed? ==> r.1 == o.content && (r.0 <==> SaysYes(o.content))
  {
    match o
    case Completed(content) => (SaysYes(content), content)
    case LlmFailed(error) => (false, error)
  }

  /** The success body: status, message, approval tag, explanation, and an echo of the address and warning. */
  function VerdictBody(req: AgentRequest, approval: string, llmResponse: string): JsonValue {
    JObject(map[
      "status" := JStr("success"),
      "message" := JStr("Transaction " + approval + " - " + llmResponse),
      "approval_status" := JStr(approval),
      "llm_response" := JStr(llmResponse),
      "data" := JObject(map[
        "safeAddress" := JStr(req.safeAddress),
        "warning" := match req.warning case Some(w) => JStr(w) case None => JNull])])
  }

  /** The HTTP 500 a failed insert turns into (re-wrapped by the outer handler). */
  function DatabaseError(error: string): Schemas.HttpError {
    Schemas.HttpError(500, "Error processing transaction: 500: Error guardando en base de datos: " + error)
  }

  predicate HasWarning(req: AgentRequest) {
    req.warning.Some? && req.warning.value != ""
  }

  /** The approval tag and explanation for a request that carries a warning. */
  function Judge(req: AgentRequest, llm: LlmOutcome): (r: (string, string))
    ensures req.status != Some("warning") ==> r == ("APPROVED", "vacio")
    ensures req.status == Some("warning") ==>
      r.1 == AnalyzeWithLlm(llm).1
      && (r.0 == "APPROVED" <==> AnalyzeWithLlm(llm).0)
      && (r.0 == "REJECTED" <==> !AnalyzeWithLlm(llm).0)
  {
    if req.status == Some("warning") then
      var (proceed, text) := AnalyzeWithLlm(llm);
      (if proceed then "APPROVED" else "REJECTED", text)
    else ("APPROVED", "vacio")
  }

  /** `process_transaction`. Without a warning the verdict is APPROVED/"vacio"
      and nothing else is consulted; with one, the first insert must succeed,
      the model decides only when the status is "warning", and the second insert
      must succeed too; a failed insert is an HTTP 500 instead of a verdict. */
  function ProcessTransaction(req: AgentRequest, llm: LlmOutcome, first: Insert, second: Insert)
    : (r: Result<JsonValue, Schemas.HttpError>)
    ensures !HasWarning(req) ==> r == Ok(VerdictBody(req, "APPROVED", "vacio"))
    ensures HasWarning(req) && first.InsertFailed? ==> r == Err(DatabaseError(first.error))
    ensures HasWarning(req) && first.Inserted? && second.InsertFailed? ==> r == Err(DatabaseError(second.error))
    ensures HasWarning(req) && first.Inserted? && second.Inserted? ==>
      r == Ok(VerdictBody(req, Judge(req, llm).0, Judge(req, llm).1))
  {
    if !HasWarning(req) then Ok(VerdictBody(req, "APPROVED", "vacio"))
    else if first.InsertFailed? then Err(DatabaseError(first.error))
    else
      var (approval, text) := Judge(req, llm);
      if second.InsertFailed? then Err(DatabaseError(second.error))
      else Ok(VerdictBody(req, approval, text))
  }

  /** Every verdict body has status "success" and the message
      "Transaction {approval} - {llm_response}", and the approval is one of the two tags. */
  lemma VerdictShape(req: AgentRequest, llm: LlmOutcome, first: Insert, second: Insert)
    ensures var r := ProcessTransaction(req, llm, first, second);
      r.Ok? ==>
        var f := r.value.fields;
        f["status"] == JStr("success")
        && f["approval_status"] in {JStr("APPROVED"), JStr("REJECTED")}
        && f["message"] == JStr("Transaction " + f["approval_status"].s + " - " + f["llm_response"].s)
  {
  }

  /** The model's outcome matters only for a warning whose status is "warning". */
  lemma LlmConsultedOnlyOnWarningStatus(req: AgentRequest, llm1: LlmOutcome, llm2: LlmOutcome, first: Insert, second: Insert)
    requires !HasWarning(req) || req.status != Some("warning")
    ensures ProcessTransaction(req, llm1, first, second) == ProcessTransaction(req, llm2, first, second)
  {
  }
}
