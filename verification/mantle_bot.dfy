/** The MultiversX balance drain analyzer (bots/test_bot_balance_thieft_mantle.py):
    unlike the native-balance bot it warns once for every draining transfer of a
    batch. The account query, the float ratio test `value / balance >= 0.9`,
    the percentage text and the clock are oracles. */
module MantleBot {
  import opened Wrappers
  import opened Json
  import Text
  import Numerals
  import Analyzer

  /** `parse_value`: the text before the first '.' read as a decimal
      numeral; a non-string or an unparsable text (any "0x…" included) is 0. */
  function ParseValue(v: JsonValue): (r: nat)
    ensures !v.JStr? ==> r == 0
  {
    if !v.JStr? then 0 else Numerals.ParseDecimal(Text.Split(v.s, '.')[0]).GetOr(0)
  }

  /** Only the text before the first '.' matters. */
  lemma ParseValueIgnoresFraction(whole: string, fraction: string)
    requires '.' !in whole
    ensures ParseValue(JStr(whole + "." + fraction)) == ParseValue(JStr(whole))
  {
    Text.SplitAtFirst(whole, fraction, '.');
    Text.SplitWithoutSeparator(whole, '.');
    assert whole + "." + fraction == whole + ['.'] + fraction;
  }

  /** `str(n)` reads back as `n`. */
  lemma ParseValueShowDecimal(n: nat)
    ensures ParseValue(JStr(Numerals.ShowDecimal(n))) == n
  {
    var s := Numerals.ShowDecimal(n);
    Numerals.ParseShowDecimal(n);
    assert forall i :: 0 <= i < |s| ==> s[i] != '.';
    Text.SplitWithoutSeparator(s, '.');
  }

  /** Any non-digit before the first '.' makes the parse fail, so the amount reads as 0. */
  lemma NonDigitIsZero(s: string, k: nat)
    requires k < |s| && !Numerals.IsDigit(s[k])
    requires forall i :: 0 <= i <= k ==> s[i] != '.'
    ensures ParseValue(JStr(s)) == 0
  {
    Text.SplitHead(s, '.');
    var clean := Text.Split(s, '.')[0];
    assert clean == s[..|clean|];
    assert clean[k] == s[k];
  }

  /** A hexadecimal amount is not understood: it reads as 0. */
  lemma HexIsZero(rest: string)
    ensures ParseValue(JStr("0x" + rest)) == 0
  {
    NonDigitIsZero("0x" + rest, 1);
  }

  /** The services the bot consults: the account balance for a custody
      address (`None` when the address parse or the query raises), the float
      test `value / balance >= 0.9`, the message text for a draining transfer
      (it prints the ratio as a float percentage), and the clock. */
  datatype Oracles = Oracles(
    balance: JsonValue -> Option<int>,
    drains: (nat, int) -> bool,
    describe: (nat, int) -> string,
    timestamp: string)

  /** The amount a transfer declares: its `value`, "0" when absent. */
  function TransferValue(tx: map<string, JsonValue>): nat {
    ParseValue(Analyzer.GetOr(tx, "value", JStr("0")))
  }

  /** A transfer warns when the balance is positive and the transfer drains it. */
  predicate Qualifies(o: Oracles, balance: int, tx: map<string, JsonValue>) {
    balance > 0 && o.drains(TransferValue(tx), balance)
  }

  function Warning(o: Oracles, hash: JsonValue, balance: int, value: nat): JsonValue {
    JObject(map[
      "type" := JStr("warning"),
      "message" := JStr(o.describe(value, balance)),
      "transaction_hash" := hash,
      "status" := JStr("warning"),
      "timestamp" := JStr(o.timestamp)])
  }

  /** What one dict transfer contributes: its warning when it qualifies. */
  function Emitted(o: Oracles, hash: JsonValue, balance: int, tx: map<string, JsonValue>): seq<JsonValue> {
    if Qualifies(o, balance, tx) then [Warning(o, hash, balance, TransferValue(tx))] else []
  }

  /** The loop over the transfers: one warning per qualifying transfer, in
      order, with no early exit; a non-dict element raises and ends the walk. */
  function Scan(o: Oracles, hash: JsonValue, balance: int, items: seq<JsonValue>): seq<JsonValue> {
    Analyzer.Walk(items, tx => Emitted(o, hash, balance, tx))
  }

  /** At most one warning per transfer, none when the balance is not positive,
      and every warning names the batch it was raised for. */
  lemma ScanShape(o: Oracles, hash: JsonValue, balance: int, items: seq<JsonValue>)
    ensures var sent := Scan(o, hash, balance, items);
      |sent| <= |items|
      && (balance <= 0 ==> sent == [])
      && forall k :: 0 <= k < |sent| ==> sent[k].JObject? && Get(sent[k].fields, "transaction_hash") == hash
  {
    var emit := tx => Emitted(o, hash, balance, tx);
    var sent := Scan(o, hash, balance, items);
    Analyzer.WalkAtMostOneEach(items, emit);
    var names := (w: JsonValue) => w.JObject? && Get(w.fields, "transaction_hash") == hash;
    forall tx, x | x in emit(tx)
      ensures names(x)
    {
      assert x == Warning(o, hash, balance, TransferValue(tx));
    }
    Analyzer.WalkKeeps(items, emit, names);
    assert forall k :: 0 <= k < |sent| ==> sent[k] in sent;
    if balance <= 0 {
      Analyzer.WalkSilent(items, emit);
    }
  }

  /** The warnings of a batch are the warnings of its parts, as long as the
      first part holds only dicts. */
  lemma ScanAppend(o: Oracles, hash: JsonValue, balance: int, a: seq<JsonValue>, b: seq<JsonValue>)
    requires forall i :: 0 <= i < |a| ==> a[i].JObject?
    ensures Scan(o, hash, balance, a + b) == Scan(o, hash, balance, a) + Scan(o, hash, balance, b)
  {
    Analyzer.WalkAppend(a, b, tx => Emitted(o, hash, balance, tx));
  }

  /** One transfer warns exactly when it qualifies. */
  lemma ScanSingle(o: Oracles, hash: JsonValue, balance: int, tx: map<string, JsonValue>)
    ensures Scan(o, hash, balance, [JObject(tx)]) ==
      if Qualifies(o, balance, tx) then [Warning(o, hash, balance, TransferValue(tx))] else []
  {
    var emit := tx => Emitted(o, hash, balance, tx);
    assert [JObject(tx)][1..] == [];
    assert Analyzer.Walk([JObject(tx)], emit) == emit(tx) + Analyzer.Walk([], emit);
  }

  /** The warnings one received message makes the bot send. */
  function OnMessage(o: Oracles, msg: JsonValue): (sent: seq<JsonValue>)
    ensures Analyzer.ReadBatch(msg).None? ==> sent == []
    ensures Analyzer.ReadBatch(msg).Some? && !Truthy(Analyzer.ReadBatch(msg).value.safewallet) ==> sent == []
    ensures Analyzer.ReadBatch(msg).Some? && Truthy(Analyzer.ReadBatch(msg).value.safewallet) ==>
      var b := Analyzer.ReadBatch(msg).value;
      match o.balance(b.safewallet)
      case None => sent == []
      case Some(balance) => sent == Scan(o, b.hash, balance, Analyzer.TransferItems(b.transactions))
  {
    match Analyzer.ReadBatch(msg)
    case None => []
    case Some(b) =>
      if !Truthy(b.safewallet) then []
      else
        match o.balance(b.safewallet)
        case None => []
        case Some(balance) => Scan(o, b.hash, balance, Analyzer.TransferItems(b.transactions))
  }
}
