/** The native-balance drain analyzer (bots/test_bot_balance_thieft.py): it
    warns, at most once per batch, about the first transfer whose amount
    would empty the custody wallet. The balance query, the float comparison
    `value > balance * 0.99` and the clock are oracles. */
module BalanceBot {
  import opened Wrappers
  import opened Json
  import Text
  import Numerals
  import Analyzer

  /** `parse_value`: everything from the first '.' is dropped; a "0x" prefix
      means base 16 (Python's `int(s, 16)` accepts that prefix), anything else
      base 10; a non-string or an unparsable text is 0. */
  function ParseValue(v: JsonValue): (r: nat)
    ensures !v.JStr? ==> r == 0
  {
    if !v.JStr? then 0
    else
      var clean := Text.Split(v.s, '.')[0];
      if Text.StartsWith(clean, "0x") then Numerals.ParseHex(clean).GetOr(0)
      else Numerals.ParseDecimal(clean).GetOr(0)
  }

  /** Only the text before the first '.' matters. */
  lemma ParseValueIgnoresFraction(whole: string, fraction: string)
    requires '.' !in whole
    ensures ParseValue(JStr(whole + "." + fraction)) == ParseValue(JStr(whole))
  {
    Text.SplitAtFirst(whole, fraction, '.');
    Text.SplitHead(whole, '.');
    assert whole + "." + fraction == whole + ['.'] + fraction;
    assert Text.Split(whole, '.')[0] == whole;
  }

  /** A decimal numeral reads as its value; in particular `str(n)` reads back as `n`. */
  lemma ParseValueDecimal(s: string)
    requires |s| > 0 && Numerals.AllDigits(s) && !Text.StartsWith(s, "0x")
    ensures ParseValue(JStr(s)) == Numerals.DecimalValue(s)
  {
    assert forall i :: 0 <= i < |s| ==> s[i] != '.';
    Text.SplitWithoutSeparator(s, '.');
  }

  lemma ParseValueShowDecimal(n: nat)
    ensures ParseValue(JStr(Numerals.ShowDecimal(n))) == n
  {
    var s := Numerals.ShowDecimal(n);
    Numerals.ParseShowDecimal(n);
    assert !Text.StartsWith(s, "0x") by {
      assert Numerals.IsDigit(s[|s| - 1]);
    }
    ParseValueDecimal(s);
  }

  /** "0x" followed by hex digits reads as base 16. */
  lemma ParseValueHex(h: string)
    requires |h| > 0 && Numerals.AllHexDigits(h)
    ensures ParseValue(JStr("0x" + h)) == Numerals.HexValue(h)
  {
    var s := "0x" + h;
    assert forall i :: 0 <= i < |h| ==> h[i] != '.';
    assert '.' !in s;
    Text.SplitWithoutSeparator(s, '.');
    assert s[2..] == h;
  }

  /** An upper-case "0X" prefix is not recognised: base 10 fails on the 'X', giving 0. */
  lemma UpperHexPrefixIsZero(rest: string)
    ensures ParseValue(JStr("0X" + rest)) == 0
  {
    var s := "0X" + rest;
    Text.SplitHead(s, '.');
    var clean := Text.Split(s, '.')[0];
    assert clean == s[..|clean|];
    if |clean| >= 2 {
      assert clean[1] == 'X';
    }
  }

  /** The services the bot consults: the wallet's native balance
      (`get_native_balance` never raises: failures read as 0), the float test
      `value > balance * 0.99`, and the UTC clock as an ISO text. */
  datatype Oracles = Oracles(
    balance: JsonValue -> nat,
    drains: (nat, nat) -> bool,
    timestamp: string)

  /** The amount a transfer declares: its `value`, "0" when absent. */
  function TransferValue(tx: map<string, JsonValue>): nat {
    ParseValue(Analyzer.GetOr(tx, "value", JStr("0")))
  }

  /** A transfer triggers the warning when it drains the balance and moves a positive amount. */
  predicate Qualifies(o: Oracles, balance: nat, tx: map<string, JsonValue>) {
    var v := TransferValue(tx);
    o.drains(v, balance) && v > 0
  }

  /** The fixed opening of the drain warning's text. */
  const DrainText: string :=
    "\U{26A0}\U{FE0F} Posible vaciado de wallet detectado! La transacci\U{F3}n usa todo el balance nativo ("

  /** The warning text for a draining transfer of `value` wei. */
  function DrainMessage(value: nat): string {
    DrainText + Numerals.ShowDecimal(value) + " wei)"
  }

  /** The warning sent for a draining transfer of `value`. */
  function Warning(o: Oracles, b: Analyzer.Batch, balance: nat, value: nat): JsonValue {
    JObject(map[
      "type" := JStr("warning"),
      "message" := JStr(DrainMessage(value)),
      "transaction_hash" := b.hash,
      "status" := JStr("warning"),
      "safewallet" := b.safewallet,
      "current_balance" := JStr(Numerals.ShowDecimal(balance)),
      "tx_value" := JStr(Numerals.ShowDecimal(value)),
      "timestamp" := JStr(o.timestamp)])
  }

  /** The warnings one received message makes the bot send. */
  function OnMessage(o: Oracles, msg: JsonValue): (sent: seq<JsonValue>)
    ensures |sent| <= 1
    ensures Analyzer.ReadBatch(msg).None? ==> sent == []
    ensures Analyzer.ReadBatch(msg).Some? && !Truthy(Analyzer.ReadBatch(msg).value.safewallet) ==> sent == []
  {
    match Analyzer.ReadBatch(msg)
    case None => []
    case Some(b) =>
      if !Truthy(b.safewallet) then []
      else
        var balance := o.balance(b.safewallet);
        var items := Analyzer.TransferItems(b.transactions);
        match Analyzer.FirstHit(items, tx => Qualifies(o, balance, tx))
        case None => []
        case Some(i) => [Warning(o, b, balance, TransferValue(items[i].fields))]
  }

  /** A warning is sent exactly when some transfer, reached before any
      non-dict element, qualifies; it names the first such transfer's amount
      and the batch's identity, and is the only one sent. */
  lemma WarnsOnFirstQualifying(o: Oracles, msg: JsonValue)
    requires Analyzer.ReadBatch(msg).Some? && Truthy(Analyzer.ReadBatch(msg).value.safewallet)
    ensures var b := Analyzer.ReadBatch(msg).value;
      var balance := o.balance(b.safewallet);
      var items := Analyzer.TransferItems(b.transactions);
      (OnMessage(o, msg) != [] <==>
        exists i :: 0 <= i < |items| && (forall j :: 0 <= j < i ==> items[j].JObject?)
                    && items[i].JObject? && Qualifies(o, balance, items[i].fields))
      && (OnMessage(o, msg) != [] ==>
        exists i :: 0 <= i < |items| && items[i].JObject? && Qualifies(o, balance, items[i].fields)
          && (forall j :: 0 <= j < i ==> items[j].JObject? && !Qualifies(o, balance, items[j].fields))
          && OnMessage(o, msg) == [Warning(o, b, balance, TransferValue(items[i].fields))])
  {
    var b := Analyzer.ReadBatch(msg).value;
    var balance := o.balance(b.safewallet);
    var items := Analyzer.TransferItems(b.transactions);
    var hit := tx => Qualifies(o, balance, tx);
    var k := Analyzer.FirstHit(items, hit);
    if k.Some? {
      assert hit(items[k.value].fields);
    } else {
      forall i | 0 <= i < |items| && (forall j :: 0 <= j < i ==> items[j].JObject?) && items[i].JObject?
        ensures !Qualifies(o, balance, items[i].fields)
      {
        assert !hit(items[i].fields);
      }
    }
  }

  /** Without a custody address the balance is never queried: the balance
      service cannot influence the outcome. */
  lemma NoQueryWithoutSafewallet(o1: Oracles, o2: Oracles, msg: JsonValue)
    requires Analyzer.ReadBatch(msg).Some? && !Truthy(Analyzer.ReadBatch(msg).value.safewallet)
    ensures OnMessage(o1, msg) == OnMessage(o2, msg) == []
  {
  }

  /** A transfer of a zero (or unparsable) amount never qualifies, whatever the balance. */
  lemma ZeroNeverWarns(o: Oracles, balance: nat, tx: map<string, JsonValue>)
    requires TransferValue(tx) == 0
    ensures !Qualifies(o, balance, tx)
  {
  }
}
