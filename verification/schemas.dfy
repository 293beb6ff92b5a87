/** The request and response records of the review gateway (app/schemas.py)
    and the error a FastAPI handler turns into an HTTP error reply. */
module Schemas {
  import opened Json

  /** One transfer: destination, opaque payload and amount, all strings. */
  datatype Transaction = Transaction(to: string, data: string, value: string)

  /** A submission: the transfers (possibly none), the custody address, the
      token address and the free-text justification. */
  datatype TransactionRequest = TransactionRequest(
    transactions: seq<Transaction>,
    safeAddress: string,
    erc20TokenAddress: string,
    reason: string)

  /** The reply model: there is no approval field, so the approval tag can only
      travel inside `message`. */
  datatype TransactionResponse = TransactionResponse(
    status: string,
    message: string,
    transactionHash: string)

  /** `HTTPException(status_code, detail)`. */
  datatype HttpError = HttpError(code: int, detail: string)

  /** The JSON body FastAPI sends for a handler's outcome: the three response
      fields, or `{"detail": ...}` for an HTTP error. */
  function ResponseBody(r: Reply): (body: JsonValue)
    ensures body.JObject?
    ensures r.Responded? ==> body.fields.Keys == {"status", "message", "transaction_hash"}
                             && body.fields["message"] == JStr(r.resp.message)
    ensures r.HttpFailed? ==> body.fields.Keys == {"detail"}
  {
    match r
    case Responded(resp) =>
      JObject(map["status" := JStr(resp.status), "message" := JStr(resp.message),
                  "transaction_hash" := JStr(resp.transactionHash)])
    case HttpFailed(e) => JObject(map["detail" := JStr(e.detail)])
  }

  /** What an endpoint handler produces: a response record or an HTTP error. */
  datatype Reply = Responded(resp: TransactionResponse) | HttpFailed(error: HttpError)
}
