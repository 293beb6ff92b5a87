/** What the analyzer bots share (bots/test_bot_balance_thieft.py,
    bots/test_bot_balance_thieft_mantle.py, bots/test_bot_malicious_address.py):
    reading a broadcast envelope and walking its transfer list. Inside a bot's
    receive loop any exception is caught and the next message is awaited, so a
    message whose handling raises simply yields no (further) warnings. */
module Analyzer {
  import opened Wrappers
  import opened Json
  import Routes
  import Schemas

  /** `d.get(key, default)`: the default only when the key is absent (a
      present `null` is `None`). */
  function GetOr(d: map<string, JsonValue>, key: string, default: JsonValue): JsonValue {
    if key in d then d[key] else default
  }

  /** The three things a bot reads from a transaction message. */
  datatype Batch = Batch(transactions: JsonValue, hash: JsonValue, safewallet: JsonValue)

  /** `data.get("type") == "transaction"`, then `data.get("data", {})` and its
      `transactions` (default `[]`), `hash` and `safewallet`. `None` when the
      message is not a transaction message or the reads raise (a non-dict
      message, or a `data` entry that is not a dict). */
  function ReadBatch(msg: JsonValue): (r: Option<Batch>)
    ensures r.Some? <==>
      msg.JObject? && Get(msg.fields, "type") == JStr("transaction")
      && ("data" in msg.fields ==> msg.fields["data"].JObject?)
    ensures r.Some? && "data" !in msg.fields ==> r.value == Batch(JArray([]), JNull, JNull)
    ensures r.Some? && "data" in msg.fields ==>
      var p := msg.fields["data"].fields;
      r.value.hash == Get(p, "hash") && r.value.safewallet == Get(p, "safewallet")
      && ("transactions" in p ==> r.value.transactions == p["transactions"])
      && ("transactions" !in p ==> r.value.transactions == JArray([]))
  {
    if !msg.JObject? || Get(msg.fields, "type") != JStr("transaction") then None
    else
      var payload := GetOr(msg.fields, "data", JObject(map[]));
      if !payload.JObject? then None
      else
        Some(Batch(GetOr(payload.fields, "transactions", JArray([])),
                   Get(payload.fields, "hash"), Get(payload.fields, "safewallet")))
  }

  /** The elements `for tx in transactions` visits before anything can be
      sent: a list's elements. Iterating a dict or a string yields strings,
      whose `.get` raises at the first one, and anything else raises at once,
      so none of those can produce a warning. */
  function TransferItems(v: JsonValue): seq<JsonValue> {
    if v.JArray? then v.items else []
  }

  /** The envelope the gateway broadcasts reads back as the request's
      transfers, its identity and its custody address. */
  lemma EnvelopeReadsBack(req: Schemas.TransactionRequest, hash: string)
    ensures ReadBatch(Routes.TransactionMessage(req, hash))
      == Some(Batch(JArray(Routes.EntriesJson(req.transactions)), JStr(hash), JStr(req.safeAddress)))
    ensures TransferItems(ReadBatch(Routes.TransactionMessage(req, hash)).value.transactions)
      == Routes.EntriesJson(req.transactions)
  {
  }

  /** The index the bots with an early `break` stop at: the first element for
      which `hit` holds, provided every element up to it is a dict (the first
      non-dict makes `tx.get` raise and ends the walk). */
  function FirstHit(items: seq<JsonValue>, hit: map<string, JsonValue> -> bool): (r: Option<nat>)
    ensures r.Some? ==>
      r.value < |items| && items[r.value].JObject? && hit(items[r.value].fields)
      && forall j :: 0 <= j < r.value ==> items[j].JObject? && !hit(items[j].fields)
    ensures r.None? ==>
      forall i :: 0 <= i < |items| && (forall j :: 0 <= j < i ==> items[j].JObject?) ==>
        items[i].JObject? ==> !hit(items[i].fields)
    decreases |items|
  {
    if |items| == 0 || !items[0].JObject? then None
    else if hit(items[0].fields) then Some(0)
    else
      match FirstHit(items[1..], hit)
      case None => None
      case Some(k) => Some(k + 1)
  }

  /** The loop of the bots without a `break`: every dict transfer contributes
      `emit(tx)`, in order, and the first non-dict element raises and ends
      the walk. */
  function Walk<T>(items: seq<JsonValue>, emit: map<string, JsonValue> -> seq<T>): seq<T>
    decreases |items|
  {
    if |items| == 0 || !items[0].JObject? then []
    else emit(items[0].fields) + Walk(items[1..], emit)
  }

  /** Walking a batch is walking its parts, as long as the first part holds only dicts. */
  lemma {:induction false} WalkAppend<T>(a: seq<JsonValue>, b: seq<JsonValue>, emit: map<string, JsonValue> -> seq<T>)
    requires forall i :: 0 <= i < |a| ==> a[i].JObject?
    ensures Walk(a + b, emit) == Walk(a, emit) + Walk(b, emit)
    decreases |a|
  {
    if |a| == 0 {
      assert a + b == b;
    } else {
      var ab := a + b;
      assert ab[0] == a[0];
      assert ab[1..] == a[1..] + b;
      WalkAppend(a[1..], b, emit);
      var x, y := Walk(a[1..], emit), Walk(b, emit);
      assert emit(a[0].fields) + (x + y) == (emit(a[0].fields) + x) + y;
    }
  }

  /** A transfer contributing at most one output makes at most one output per element. */
  lemma {:induction false} WalkAtMostOneEach<T>(items: seq<JsonValue>, emit: map<string, JsonValue> -> seq<T>)
    requires forall tx :: |emit(tx)| <= 1
    ensures |Walk(items, emit)| <= |items|
    decreases |items|
  {
    if |items| > 0 && items[0].JObject? {
      WalkAtMostOneEach(items[1..], emit);
    }
  }

  /** Whatever every contribution satisfies, the whole output satisfies. */
  lemma {:induction false} WalkKeeps<T>(items: seq<JsonValue>, emit: map<string, JsonValue> -> seq<T>, p: T -> bool)
    requires forall tx, x :: x in emit(tx) ==> p(x)
    ensures forall x :: x in Walk(items, emit) ==> p(x)
    decreases |items|
  {
    if |items| > 0 && items[0].JObject? {
      WalkKeeps(items[1..], emit, p);
    }
  }

  /** When no transfer contributes anything, the walk outputs nothing. */
  lemma {:induction false} WalkSilent<T>(items: seq<JsonValue>, emit: map<string, JsonValue> -> seq<T>)
    requires forall tx :: emit(tx) == []
    ensures Walk(items, emit) == []
    decreases |items|
  {
    if |items| > 0 && items[0].JObject? {
      WalkSilent(items[1..], emit);
    }
  }
}
