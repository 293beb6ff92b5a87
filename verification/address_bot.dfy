/** The malicious-destination analyzer (bots/test_bot_malicious_address.py):
    it asks an address-security service about each destination and warns, at
    most once per batch, about the first flagged one. The service and the
    clock are oracles. */
module AddressBot {
  import opened Wrappers
  import opened Json
  import Text
  import Analyzer

  /** What the security lookup gives: the text of the exception it raised, or
      the entries of its result object in order (empty when the reply had no
      result). */
  datatype Lookup = LookupRaised(text: string) | LookupResult(entries: seq<(string, JsonValue)>)

  /** A category counts when its value is the string "1" and it is not one of
      the two bookkeeping keys. */
  predicate IsFlagged(entry: (string, JsonValue)) {
    entry.1 == JStr("1") && entry.0 != "data_source" && entry.0 != "contract_address"
  }

  /** `category.replace("_", " ").title()`. */
  function Label(category: string): string {
    Text.Title(Text.ReplaceChar(category, '_', ' '))
  }

  /** The labels of the flagged categories, in result order. */
  function FlaggedLabels(entries: seq<(string, JsonValue)>): (labels: seq<string>)
    ensures |labels| <= |entries|
    ensures labels == [] <==> forall i :: 0 <= i < |entries| ==> !IsFlagged(entries[i])
    decreases |entries|
  {
    if |entries| == 0 then []
    else (if IsFlagged(entries[0]) then [Label(entries[0].0)] else []) + FlaggedLabels(entries[1..])
  }

  /** The filter works entry by entry, keeping result order. */
  lemma {:induction false} FlaggedLabelsAppend(a: seq<(string, JsonValue)>, b: seq<(string, JsonValue)>)
    ensures FlaggedLabels(a + b) == FlaggedLabels(a) + FlaggedLabels(b)
    decreases |a|
  {
    if |a| == 0 {
      assert a + b == b;
    } else {
      var head := if IsFlagged(a[0]) then [Label(a[0].0)] else [];
      assert (a + b)[0] == a[0];
      assert (a + b)[1..] == a[1..] + b;
      assert FlaggedLabels(a + b) == head + FlaggedLabels(a[1..] + b);
      FlaggedLabelsAppend(a[1..], b);
      assert head + (FlaggedLabels(a[1..]) + FlaggedLabels(b)) == (head + FlaggedLabels(a[1..])) + FlaggedLabels(b);
    }
  }

  /** One entry contributes its label exactly when it is flagged. */
  lemma FlaggedLabelsSingle(entry: (string, JsonValue))
    ensures FlaggedLabels([entry]) == if IsFlagged(entry) then [Label(entry.0)] else []
  {
    assert [entry][1..] == [];
  }

  const FlaggedPrefix: string := "Warning: destination address is flagged with these categories: "

  /** `check_address_security`: flagged categories make a warning listing
      their labels; none give `(False, "")`; an empty result or an exception
      gives `False` with an error text. */
  function CheckAddressSecurity(lookup: Lookup): (r: (bool, string))
    ensures lookup.LookupRaised? ==> r == (false, "Error checking address: " + lookup.text)
    ensures lookup.LookupResult? && lookup.entries == [] ==> r == (false, "Error: No result data")
    ensures lookup.LookupResult? && lookup.entries != [] ==>
      (r.0 <==> exists i :: 0 <= i < |lookup.entries| && IsFlagged(lookup.entries[i]))
      && (r.0 ==> r.1 == FlaggedPrefix + Text.Join(FlaggedLabels(lookup.entries), ", "))
      && (!r.0 ==> r.1 == "")
  {
    match lookup
    case LookupRaised(text) => (false, "Error checking address: " + text)
    case LookupResult(entries) =>
      if entries == [] then (false, "Error: No result data")
      else
        var labels := FlaggedLabels(entries);
        if labels != [] then (true, FlaggedPrefix + Text.Join(labels, ", "))
        else (false, "")
  }

  /** A lookup that fails never reports a malicious address. */
  lemma LookupErrorsNeverFlag(lookup: Lookup)
    requires lookup.LookupRaised? || lookup.entries == []
    ensures !CheckAddressSecurity(lookup).0
  {
  }

  /** The services the bot consults: the security lookup for a destination, and the clock. */
  datatype Oracles = Oracles(lookup: JsonValue -> Lookup, timestamp: string)

  /** A transfer triggers the warning when its destination is present and the lookup flags it. */
  predicate Malicious(o: Oracles, tx: map<string, JsonValue>) {
    var to := Analyzer.GetOr(tx, "to", JNull);
    Truthy(to) && CheckAddressSecurity(o.lookup(to)).0
  }

  function Warning(o: Oracles, hash: JsonValue, message: string): JsonValue {
    JObject(map[
      "type" := JStr("warning"),
      "message" := JStr(message),
      "transaction_hash" := hash,
      "status" := JStr("warning"),
      "timestamp" := JStr(o.timestamp)])
  }

  /** The warnings one received message makes the bot send: transfers with no
      destination are skipped, and the first malicious destination is
      reported with the lookup's message, then the loop stops. */
  function OnMessage(o: Oracles, msg: JsonValue): (sent: seq<JsonValue>)
    ensures |sent| <= 1
    ensures Analyzer.ReadBatch(msg).None? ==> sent == []
  {
    match Analyzer.ReadBatch(msg)
    case None => []
    case Some(b) =>
      var items := Analyzer.TransferItems(b.transactions);
      match Analyzer.FirstHit(items, tx => Malicious(o, tx))
      case None => []
      case Some(i) =>
        [Warning(o, b.hash, CheckAddressSecurity(o.lookup(Analyzer.GetOr(items[i].fields, "to", JNull))).1)]
  }

  /** A warning is sent exactly when some transfer, reached before any
      non-dict element, has a destination the lookup flags; it is the first
      such transfer, earlier transfers without a destination were skipped, and
      the message names the flagged categories. */
  lemma WarnsOnFirstMalicious(o: Oracles, msg: JsonValue)
    requires Analyzer.ReadBatch(msg).Some?
    ensures var b := Analyzer.ReadBatch(msg).value;
      var items := Analyzer.TransferItems(b.transactions);
      (OnMessage(o, msg) != [] <==>
        exists i :: 0 <= i < |items| && (forall j :: 0 <= j < i ==> items[j].JObject?)
                    && items[i].JObject? && Malicious(o, items[i].fields))
      && (OnMessage(o, msg) != [] ==>
        exists i :: 0 <= i < |items| && items[i].JObject? && Malicious(o, items[i].fields)
          && (forall j :: 0 <= j < i ==> items[j].JObject? && !Malicious(o, items[j].fields))
          && var lookup := o.lookup(items[i].fields["to"]);
          lookup.LookupResult?
          && OnMessage(o, msg) == [Warning(o, b.hash, FlaggedPrefix + Text.Join(FlaggedLabels(lookup.entries), ", "))])
  {
    var b := Analyzer.ReadBatch(msg).value;
    var items := Analyzer.TransferItems(b.transactions);
    var hit := tx => Malicious(o, tx);
    var k := Analyzer.FirstHit(items, hit);
    if k.Some? {
      assert hit(items[k.value].fields);
    } else {
      forall i | 0 <= i < |items| && (forall j :: 0 <= j < i ==> items[j].JObject?) && items[i].JObject?
        ensures !Malicious(o, items[i].fields)
      {
        assert !hit(items[i].fields);
      }
    }
  }
}
