# bAIbysitter review gateway — a Dafny model

The system holds outgoing wallet transactions for review before they are
signed:

- A client posts a transaction to the **gateway**.
- The gateway broadcasts it over WebSocket to a set of **analyzer bots**.
- It then waits up to ten seconds for one of them to report a warning.
- If a warning arrives, the gateway hands it to the **arbiter** (the tx agent).
- The arbiter asks a language model whether to proceed.
- The client submits the transaction to the chain only if the gateway's reply
  says "APPROVED".

The model is functional. Records are immutable datatypes and every operation
is a pure function. The gateway is an explicit state machine whose steps are
the pieces of code that run between two `await`s. The network, the
database, the language model, the blockchain, SHA-256 and JSON encoding are
replaced by oracle parameters.

| module | models |
|---|---|
| `Schemas` | `app/schemas.py`: the request and response records; the JSON body of a reply |
| `Routes` | `app/routes.py`: serialisation, identity, envelope, the arbiter request with its fallbacks, the response mapping |
| `Registry` | `app/websocket_manager.py`: the connection list — `connect`, `disconnect`, `broadcast` |
| `Gateway` | `app/routes.py`, `app/websocket_manager.py`, `app/main.py` as one state machine over event traces |
| `TxAgent` | `baiby_agent/txagent.py`: the decision parser and the approval mapping |
| `Analyzer` | what the bots share: reading the envelope, walking the transfer list |
| `BalanceBot`, `MantleBot`, `AddressBot` | the three warning-emitting bots |
| `AshRisk`, `EvmRisk` | the two risk functions |
| `SwapPayload` | the swap client's fixed `composeTasks@` payload, decoded |
| `Client` | `user_agent/userAgent.py` and `user_agent/userAgentswap.py`: request body, approval test, retry schedule |
| `EndToEnd` | lemmas that connect the client, the gateway and the bots |
| `Text`, `Numerals`, `Bytes`, `Json`, `Floats`, `Wrappers` | Python string, integer, bytes, JSON and float semantics the above rely on |

### The gateway state machine

The state holds:

- the connection list and the analyzer loops still running;
- the stored warnings, keyed by whatever the analyzer sent as `transaction_hash`;
- the registry of pending waits (`active_transactions`);
- the set/unset flag of every `asyncio.Event`;
- the submission handlers.

A submission passes through these steps:

1. `Submit`: serialise the request, hash it, start the broadcast.
2. `BroadcastDone`: failed connections are pruned, then the wait is registered.
3. `Wake` or `Timeout`.
4. `AgentDone`: only when a warning was found at wake-up.

An analyzer connection is `Open`, then receives any number of messages, and
ends on the first failure. Any event may fall between two others. The
invariant `Gateway.Inv` holds after every trace.

The lemmas prove the behaviour the code actually has, including its quirks:

- A warning is stored even when nobody waits for it.
- The event is installed only after the broadcast, so a warning that arrives
  during the broadcast is stored but never wakes the handler. The handler
  times out and approves.
- A timeout ignores a warning that is already stored.
- Re-submitting the same request orphans the earlier waiter.
- The approval tag never appears as a field of the response. The client finds
  it by a substring test on the message, so any explanation that contains
  "APPROVED" makes the client submit.

Two consequences of how the code stores warnings:

- `process_warning` stores every warning it is given, including warnings for
  identities nobody waits for, and a later warning for the same identity
  overwrites the earlier one (app/websocket_manager.py:44).
- The woken handler reads the map when it resumes, not when it is signalled
  (app/routes.py:77). Between the two, another warning for the same identity
  can replace the first, or an earlier handler for the same identity can time
  out and pop it; `Gateway.Resume` then finds nothing and approves.

## Model

| member | source | states |
|---|---|---|
| Schemas.ResponseBody | app/schemas.py:23-26 | a response body has exactly `status`, `message` and `transaction_hash`; no approval field; an HTTP error body has only `detail` |
| Routes.SerializeTransaction | app/routes.py:18-30 | exactly the four request keys; the transfers in order, each with exactly its `to`/`data`/`value` strings |
| Routes.SerializeRoundTrip | app/routes.py:18-30 | nothing is lost: the request reads back from its serialisation |
| Routes.HashDeterminedByRequest | app/routes.py:111-113 | the identity depends only on the request; with a collision-free digest, equal identities mean equal requests |
| Routes.TransactionMessage | app/routes.py:116-123 | the envelope has type "transaction" and data {transactions, hash = identity, safewallet = safeAddress}, nothing else |
| Routes.ParseWarning | app/routes.py:35-42 | no or empty warning reads as "None"/"approved"; a warning that is not a JSON object falls back to "None"/"approved" with the warning replaced by "nada" |
| Routes.AgentRequestBody | app/routes.py:45-53 | the arbiter request has exactly the seven keys |
| Routes.StoredWarningReachesArbiter | app/routes.py:77-82 | with a faithful JSON codec a stored, dumped warning never takes the fallback |
| Routes.EscalationCarriesWarning | app/routes.py:45-53 | the arbiter receives the analyzer's own `message` as `bot_reason`, its `status`, and the dumped warning |
| Routes.AgentReply | app/routes.py:62-67 | a refused connection gives {"status":"error","message":"txAgent no disponible"}, any other failure its text; neither carries an approval tag or explanation |
| Routes.Respond | app/routes.py:131-142 | a dict reply becomes status "success" and "Transaction {tag or PENDING} - {llm_response or ''}"; anything else becomes HTTP 500 |
| Routes.NoWarningsResponse | app/routes.py:85-90 | a signalled wait with nothing stored answers "Transaction APPROVED - No warnings detected" |
| Routes.TimeoutResponse | app/routes.py:93-98 | a timed-out wait answers "Transaction APPROVED - Timeout waiting for warnings" |
| Routes.TransportFailureIsPending | app/routes.py:133 | an unreachable arbiter surfaces as "Transaction PENDING - " |
| Registry.Connect | app/websocket_manager.py:15-17 | appends exactly one entry at the end, with no de-duplication |
| Registry.Disconnect | app/websocket_manager.py:20-22 | removes one occurrence if present, otherwise changes nothing |
| Registry.DisconnectUndoesConnect | app/websocket_manager.py:15-22 | disconnecting a connection just registered restores the list |
| Registry.BroadcastPrunesFailed | app/websocket_manager.py:25-39 | every connection is attempted in order; afterwards the list is the old list minus the failed ones, survivors in order; failures never propagate |
| Registry.SurvivorsDistinct | app/websocket_manager.py:37-39 | pruning keeps a list without repeats without repeats |
| Registry.DisconnectDistinct | app/websocket_manager.py:20-22 | on a list without repeats, `disconnect` removes the connection entirely |
| Gateway.Init | app/websocket_manager.py:11-13 | the start-up state satisfies the invariant and has no connections, warnings or waits |
| Gateway.ProcessWarning | app/websocket_manager.py:41-49 | a falsy hash is ignored; otherwise the warning is stored or overwritten under its hash whether anybody waits or not, and only the event registered for it is set |
| Gateway.OnMessage | app/main.py:33-40 | only a dict of type "warning" reaches `process_warning`; other dicts change nothing; a non-dict or a raising warning ends the loop |
| Gateway.GetWarning | app/websocket_manager.py:51-52 | the stored warning for the identity, or none |
| Gateway.ClearWarning | app/websocket_manager.py:54-55 | removes that key only; every other entry is unchanged |
| Gateway.EndSession | app/main.py:44-45 | the loop ends and the connection is disconnected; nothing else changes |
| Gateway.Register | app/routes.py:69-72 | after the broadcast: failed connections gone; a fresh unset event registered under the identity, replacing any earlier one |
| Gateway.Finish | app/routes.py:100-102 | the registration and the stored warning for the identity are popped; other identities untouched |
| Gateway.Resume | app/routes.py:76-90 | on wake-up a stored non-empty warning is taken up for escalation with the registry and warnings untouched; otherwise the handler finishes with "no warnings", its registration and its identity's warning popped; only the woken handler changes and no event is touched |
| Gateway.StepPreservesInv | app/routes.py:69-102 | every step keeps the invariant: distinct connections, each registration owned by a live handler waiting on exactly that event, every warning stored under its own truthy hash |
| Gateway.RunPreservesInv | app/routes.py:69-102 | the invariant holds after every trace that can happen |
| Gateway.NothingPendingWhenAllFinished | app/routes.py:100-102 | once every handler has returned, nothing is registered |
| Gateway.CleanupOnEveryExit | app/routes.py:74-102 | whichever way a handler ends, its registration and stored warning are removed in that step; the ending says which exit was taken |
| Gateway.FinishedIsFinal | app/routes.py:129-136 | a handler that has returned never changes again |
| Gateway.OnlyTheRegisteredEventIsSet | app/websocket_manager.py:46-49 | events only go from unset to set, and only by a warning whose hash is registered with exactly that event |
| Gateway.UnclaimedWarningIsKept | app/websocket_manager.py:42-49 | a warning nobody waits for is stored anyway and sets nothing |
| Gateway.WakeEscalatesStoredWarning | app/routes.py:76-82 | on a signalled wake-up with a stored warning the handler escalates exactly that warning |
| Gateway.WakeWithoutWarningApproves | app/routes.py:76-90 | a signalled wake with nothing stored finishes the handler, pops its registration and warning, and answers "Transaction APPROVED - No warnings detected" |
| Gateway.TimedOutApproves | app/routes.py:91-98 | a timed-out handler answers "Transaction APPROVED - Timeout waiting for warnings" |
| Gateway.TimeoutIgnoresStoredWarning | app/routes.py:91-102 | a timeout ends the wait even with a warning stored, and that warning is discarded unread |
| Gateway.UnsignallableOnlyTimesOut | app/routes.py:71-76 | a waiter whose event no registration points to stays waiting or times out, whatever happens |
| Gateway.ResubmissionOrphansEarlierWaiter | app/routes.py:71-72 | registering the same identity again leaves the earlier waiter unsignallable |
| Gateway.BroadcastRaceStoresWarning | app/routes.py:126-129 | a warning arriving during the broadcast is stored, but the wait registered afterwards starts unset |
| Gateway.BroadcastRaceCannotWake | app/routes.py:126-129 | that warning never wakes the handler |
| Gateway.WarningDuringBroadcastIsMissed | app/routes.py:126-129 | the handler then times out and approves, and the warning is discarded unread |
| Gateway.ReceiveNeedsSession | app/main.py:30-35 | a message is read only on a connection registered first |
| Gateway.OtherMessagesIgnored | app/main.py:36-37 | messages of another type change nothing and the loop continues |
| Gateway.ErrorsEndSession | app/main.py:38-40 | a receive error, a non-dict message or an unhashable warning hash ends the loop |
| Gateway.EndedSessionIsUnregistered | app/main.py:44-45 | whenever a loop ends, its connection is out of the broadcast list |
| Gateway.ClearWarningIdempotent | app/websocket_manager.py:54-55 | clearing twice equals clearing once, and `get_warning` then finds nothing |
| Gateway.ClearWarningTouchesOnlyItsKey | app/websocket_manager.py:54-55 | clearing one identity leaves what `get_warning` finds for others unchanged |
| Gateway.ProcessedWarningIsFound | app/websocket_manager.py:42-52 | after processing, `get_warning` finds exactly that message under its hash |
| TxAgent.SaysYesMeansLeadingYes | baiby_agent/txagent.py:68-69 | the decision is true iff the stripped reply begins with "yes" in any case |
| TxAgent.AnalyzeWithLlm | baiby_agent/txagent.py:42-74 | a completed call decides by the "YES" rule and explains with the reply; any failure is (False, error text) |
| TxAgent.Judge | baiby_agent/txagent.py:95-98 | status "warning": APPROVED iff the model says yes, else REJECTED; any other status: APPROVED/"vacio" |
| TxAgent.ProcessTransaction | baiby_agent/txagent.py:76-143 | no or empty warning: APPROVED/"vacio" and nothing consulted; a failed insert is HTTP 500; otherwise the judged verdict |
| TxAgent.VerdictShape | baiby_agent/txagent.py:128-137 | every verdict has status "success", a tag in {APPROVED, REJECTED} and message "Transaction {tag} - {llm_response}" |
| TxAgent.LlmConsultedOnlyOnWarningStatus | baiby_agent/txagent.py:83-116 | the model's outcome matters only for a warning with status "warning" |
| Analyzer.ReadBatch | bots/test_bot_balance_thieft.py:71-74 | a transaction message yields its transfers (default empty), hash and safewallet; other messages yield nothing |
| Analyzer.EnvelopeReadsBack | app/routes.py:116-123 | the gateway's envelope reads back as the request's transfers, identity and custody address |
| Analyzer.FirstHit | bots/test_bot_malicious_address.py:82-104 | the loop with `break` stops at the first dict transfer that hits; every earlier one is a dict that does not |
| Analyzer.WalkAppend | bots/test_bot_balance_thieft_mantle.py:60-77 | the loop without `break` over a batch is the loop over its parts, while the first part holds only dicts |
| BalanceBot.ParseValue | bots/test_bot_balance_thieft.py:41-53 | a non-string amount reads as 0 |
| BalanceBot.ParseValueIgnoresFraction | bots/test_bot_balance_thieft.py:44 | everything from the first '.' is ignored |
| BalanceBot.ParseValueDecimal | bots/test_bot_balance_thieft.py:49-50 | a digit string without "0x" is read base 10 |
| BalanceBot.ParseValueShowDecimal | bots/test_bot_balance_thieft.py:49-50 | `str(n)` reads back as n |
| BalanceBot.ParseValueHex | bots/test_bot_balance_thieft.py:47-48 | a lowercase "0x" prefix is read base 16 |
| BalanceBot.UpperHexPrefixIsZero | bots/test_bot_balance_thieft.py:47-53 | "0X…" fails base 10 and reads as 0 |
| BalanceBot.OnMessage | bots/test_bot_balance_thieft.py:71-107 | at most one warning per batch; none without a transaction message or a safewallet |
| BalanceBot.WarnsOnFirstQualifying | bots/test_bot_balance_thieft.py:87-107 | a warning is sent iff some transfer reached qualifies; it is for the first such transfer and the only one sent |
| BalanceBot.NoQueryWithoutSafewallet | bots/test_bot_balance_thieft.py:78-80 | without a safewallet the balance service cannot influence the outcome: no warning |
| BalanceBot.ZeroNeverWarns | bots/test_bot_balance_thieft.py:93 | a transfer whose amount reads as 0 never warns |
| MantleBot.ParseValue | bots/test_bot_balance_thieft_mantle.py:26-32 | a non-string amount reads as 0 |
| MantleBot.ParseValueIgnoresFraction | bots/test_bot_balance_thieft_mantle.py:28 | everything from the first '.' is ignored |
| MantleBot.ParseValueShowDecimal | bots/test_bot_balance_thieft_mantle.py:29 | `str(n)` reads back as n |
| MantleBot.NonDigitIsZero | bots/test_bot_balance_thieft_mantle.py:28-32 | any non-digit before the first '.' makes the parse fail, giving 0 |
| MantleBot.HexIsZero | bots/test_bot_balance_thieft_mantle.py:28-32 | any "0x…" amount reads as 0 |
| MantleBot.ScanShape | bots/test_bot_balance_thieft_mantle.py:60-77 | at most one warning per transfer; none when the balance is not positive; each names the batch's hash |
| MantleBot.ScanAppend | bots/test_bot_balance_thieft_mantle.py:60-77 | no early break: the warnings of a batch are those of its parts, in order |
| MantleBot.ScanSingle | bots/test_bot_balance_thieft_mantle.py:61-74 | one transfer warns exactly when it qualifies |
| MantleBot.OnMessage | bots/test_bot_balance_thieft_mantle.py:50-77 | no warnings without a transaction message, a safewallet or a balance; otherwise one per qualifying transfer |
| AddressBot.FlaggedLabels | bots/test_bot_malicious_address.py:36-40 | no labels iff no entry is flagged (value "1", not `data_source`/`contract_address`) |
| AddressBot.FlaggedLabelsAppend | bots/test_bot_malicious_address.py:36-40 | the filter works entry by entry, keeping result order |
| AddressBot.FlaggedLabelsSingle | bots/test_bot_malicious_address.py:37-39 | an entry contributes its title-cased, underscore-free label exactly when flagged |
| AddressBot.CheckAddressSecurity | bots/test_bot_malicious_address.py:23-53 | flagged iff some category is flagged, with the prefix and labels joined by ", "; otherwise (False, ""); empty result or exception give False with an error text |
| AddressBot.LookupErrorsNeverFlag | bots/test_bot_malicious_address.py:31-33 | a failed lookup never reports a malicious address |
| AddressBot.OnMessage | bots/test_bot_malicious_address.py:72-104 | at most one warning per batch |
| AddressBot.WarnsOnFirstMalicious | bots/test_bot_malicious_address.py:82-104 | a warning is sent iff some transfer reached has a flagged destination; it is the first one and carries the labels |
| AshRisk.DecodeData | bots/risk_function_ash.py:15-44 | none without "composeTasks@" or with a second segment under 42 chars; else chars 8..41 with "00" pairs removed, hex- and UTF-8-decoded, and their last 10 chars |
| AshRisk.SecondSegmentExists | bots/risk_function_ash.py:23-25 | the `len(parts) < 2` guard never fires |
| AshRisk.Alias | bots/risk_function_ash.py:11-13 | "ASH-e3d1b7" maps to "ASH-a642d1"; every other identifier is unchanged |
| AshRisk.AssessRisk | bots/risk_function_ash.py:119-141 | above 0.4 HIGH, above 0.2 MEDIUM, else LOW; a non-zero amount of more than 1000 tokens forces HIGH, of more than 100 lifts LOW to MEDIUM, and of at most 100 keeps the volatility level; a missing volatility gives UNKNOWN |
| AshRisk.AmountNeverLowersRisk | bots/risk_function_ash.py:130-136 | the amount adjustment never lowers the volatility level |
| AshRisk.AssessRiskMonotone | bots/risk_function_ash.py:124-136 | the level never decreases as the volatility grows |
| AshRisk.Classify | bots/risk_function_ash.py:167-173 | at least 0.4 HIGH, at least 0.2 MEDIUM, else LOW |
| AshRisk.ThresholdsDisagreeAtBoundary | bots/risk_function_ash.py:168-173 | at exactly 0.4 and 0.2 the ladder and `assess_risk` disagree |
| AshRisk.CalculateAshRisk | bots/risk_function_ash.py:143-180 | none without an identifier, for a non-string name, when the `"prices"` test raises or the volatility stage fails; UNKNOWN when token info, market data, prices or the annual volatility is missing; otherwise the `>=` ladder of the annual volatility; a real level only from a successful market lookup and volatility |
| AshRisk.UnknownIffDataMissing | bots/risk_function_ash.py:149-165 | UNKNOWN exactly when an identifier was decoded and one of the lookups came back empty |
| SwapPayload.DecodeSecondSegment | bots/risk_function_ash.py:23-38 | decoding depends only on the second segment's window |
| SwapPayload.PaddingDropped | bots/risk_function_ash.py:36 | removing "00" pairs strips the padding and keeps the identifier's hex |
| SwapPayload.AmountField | bots/risk_function_ash.py:38 | the returned amount is the last 10 chars of the window |
| SwapPayload.SwapPayloadDecodes | user_agent/userAgentswap.py:110 | the swap client's hard-coded payload decodes to "ASH-e3d1b7" |
| EvmRisk.SelectorIsPrefix | bots/risk_function.py:12 | the selector is the first 8 chars, so the swap gate is a prefix test |
| EvmRisk.RecipientShape | bots/risk_function.py:14 | the recipient is "0x" plus the 40 chars 452..412 from the end when long enough; shorter calldata gives clamped slices |
| EvmRisk.AssessRisk | bots/risk_function.py:71-85 | at least 1.0 High, at least 0.5 Medium, else none; never "Low" |
| EvmRisk.AssessRiskMonotone | bots/risk_function.py:80-85 | the level is monotone in the volatility |
| EvmRisk.CalculateRisk | bots/risk_function.py:87-128 | none without the selector "8d80ff0a"; a market failure gives none; token-lookup and analysis errors escape |
| EvmRisk.NoLookupWithoutSwapSelector | bots/risk_function.py:92-94 | without the swap selector no service can change the result |
| EvmRisk.LevelNeedsMarketData | bots/risk_function.py:95-121 | a level comes only from successful lookups and a volatility of at least 0.5 |
| Client.RequestBody | user_agent/userAgent.py:43-52 | sender as `safeAddress`, "EGLD", the reason from the environment or the default, one transfer with string fields |
| Client.GatewayReadsRequestBody | user_agent/userAgent.py:43-52 | the gateway reads the body back as exactly that request |
| Client.ApprovalCheck | user_agent/userAgent.py:66-67 | approved iff the message contains "APPROVED"; a missing message is not approved |
| Client.Conclude | user_agent/userAgent.py:71-82 | the chain is called iff approved; a rejection returns the reply; a chain failure propagates |
| Client.Call | user_agent/userAgent.py:57-94 | 1 to 3 attempts; submitted iff the last reply is approved; a rejected reply is returned with nothing submitted |
| Client.ScheduleShape | user_agent/userAgent.py:84-91 | delays double from 2; every attempt but the last timed out; the last timed out only if it was the third |
| Client.SendTransactionToApi | user_agent/userAgentswap.py:62-102 | the retry loop computes exactly the reference schedule and outcome |
| Client.RetrySchedule | user_agent/userAgent.py:54-91 | at most three POSTs, delays 2 s then 4 s, and the timeout is re-raised iff all three timed out |
| Client.OtherFailuresNotRetried | user_agent/userAgent.py:92-94 | any other failure ends the call at once and propagates |
| EndToEnd.ClientReadsResponse | user_agent/userAgent.py:66-67 | the client approves a dict answer iff "Transaction {tag} - {explanation}" contains "APPROVED"; an HTTP 500 is never approved |
| EndToEnd.ApprovedTagIsApproved | app/routes.py:133 | the tag "APPROVED" makes the client submit, whatever the explanation |
| EndToEnd.ExplanationOverridesTag | app/routes.py:133 | a REJECTED verdict whose explanation contains "APPROVED" still makes the client submit |
| EndToEnd.QuietBatchIsApproved | app/routes.py:85-98 | no warnings, or a timeout, makes the client submit |
| EndToEnd.UnreachableArbiterIsNotApproved | app/routes.py:62-67 | a transport-error reply is never treated as approved |
| EndToEnd.BotsSeeClientTransfer | user_agent/userAgent.py:47-51 | the bots read the client's one transfer, and both balance bots read its amount as signed |
| EndToEnd.BalanceBotsDisagreeOnHex | bots/test_bot_balance_thieft.py:47-48 | a "0x…" amount is read base 16 by the native-balance bot but as 0 by the MultiversX bot |
| EndToEnd.SwapPayloadReachesAnalyzer | user_agent/userAgentswap.py:57 | the swap payload reaches the swap analyzer intact and decodes to the ASH token |
| Text.DropDoubleZerosLeavesNone | bots/risk_function_ash.py:36 | `replace('00', '')` leaves no "00" and changes nothing when there is none |
| Text.SplitJoin | bots/test_bot_balance_thieft.py:44 | `split` loses nothing, and no part contains the separator |
| Numerals.ParseShowDecimal | user_agent/userAgent.py:50 | `int(str(n)) == n` |
| Bytes.FromHexEncode | bots/risk_function_ash.py:36 | `bytes.fromhex` inverts hex encoding |
| Bytes.DecodeEncodeUtf8 | bots/risk_function_ash.py:37 | strict UTF-8 decoding inverts encoding |

## Left out

- I/O and the runtime: HTTP, WebSocket, FastAPI, CORS, uvicorn and asyncio (app/main.py:12-24, 47-52). Each `await` is a step boundary. The 10-second wait is the `Timeout` event. The 20-second arbiter timeout is one of the `Routes.AgentTransport` outcomes.
- Gateway.Step: `Timeout` is possible whenever a handler waits, even after its event was set. This follows the `wait_for` cancellation race, and no clock is modelled.
- Gateway.Step: the broadcast is one step. A `disconnect` by another loop while `broadcast` iterates the list can make Python skip an element; the model does not show that skip.
- Gateway.Step: a warning whose `transaction_hash` is `true` and one whose hash is `1` are one dict key in Python; the model keeps them as two keys. Neither can match a string identity, so no handler is affected.
- SHA-256 with `json.dumps(sort_keys=True)`, `json.dumps`/`json.loads` of a warning, and `str()` of a list or dict are oracles in `Routes.Env`. Lemmas assume a faithful round-trip or a collision-free digest where they need one.
- JSON numbers with a fraction are not represented in `Json.JsonValue`.
- Routes.ParseRequest: models only which fields must be strings. Pydantic's coercions and error payloads are left out.
- External services are oracle inputs: Supabase, OpenAI, GoPlus, CoinGecko, the MultiversX API and web3. For Supabase only success or failure of each insert is kept; the inserted rows are not.
- TxAgent.ProcessTransaction: the three-second sleep on the path where the status is not "warning" is left out, because no clock is modelled.
- Floating point: a volatility is `Floats.Float`, a real or NaN. The balance bot's `value > balance * 0.99` and the mantle bot's `value / balance >= 0.9` are oracle predicates. The mantle bot's percentage message is an oracle text. The pandas/numpy volatility stage is an oracle outcome.
- AshRisk.AssessRisk: `amount / 1e18` is exact real division, so float rounding at the 100 and 1000 token edges is not modelled.
- BalanceBot.ParseValue: reads a plain digit grammar. `int()`'s sign, surrounding whitespace, underscores and non-ASCII digits are not accepted, so such amounts read as 0 here.
- MantleBot.ParseValue: the same digit-only grammar as the balance bot's parser.
- AddressBot.FlaggedLabels: `str.title()`, and the `upper()`/`lower()` used elsewhere, are modelled for ASCII letters only. Non-ASCII case mapping is left out.
- Client.Call: the HTTP exchange is the outcome each of the three attempts would have. A connect timeout or an undecodable reply counts as a non-retried failure. Every chain-send exception is one `SendFailed`.
- Wallet and chain handling: keystore loading, signing, nonces, the float `AMOUNT * 10**18` and the chain call itself (user_agent/userAgent.py:22-40, 96-120; user_agent/userAgentswap.py:30-48, 104-132).
- The bots' outer loops: reconnection, `JSONDecodeError` and closed connections. A bot is modelled as a function from one decoded message to the warnings it sends.
- Excluded files, which hold no logic beyond the above:
  - user_agent/interactive_terminal.py: menus and subprocesses;
  - app/config.py: settings only;
  - bots/test_bot_warning.py and bots/balance_test.py: unconditional warnings;
  - bots/test_bot_swap_risk.py and bots/test_bot_swap_xexchange.py: socket loops that only call the modelled risk functions;
  - bots/test_bot_balance_multiversx.py: float-only logic.
- Logging and `print`.
