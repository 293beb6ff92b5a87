/** The EVM swap risk rule (bots/risk_function.py): calldata slicing, the
    selector gate, and a volatility threshold ladder. The CoinGecko lookups
    and the pandas volatility computation are oracles. */
module EvmRisk {
  import opened Wrappers
  import opened Json
  import opened Floats
  import Text

  /** Python's `s[i:j]` (step 1): a negative bound counts from the end, and
      both bounds are clamped to the string, so slicing never fails. */
  function PySlice(s: string, i: int, j: int): (r: string)
    ensures |r| <= |s|
  {
    var lo := if i < 0 then (if |s| + i < 0 then 0 else |s| + i) else (if i > |s| then |s| else i);
    var hi := if j < 0 then (if |s| + j < 0 then 0 else |s| + j) else (if j > |s| then |s| else j);
    if lo >= hi then [] else s[lo..hi]
  }

  /** `calldata[:8]`: the function selector, four bytes in hex. */
  function Selector(calldata: string): string {
    PySlice(calldata, 0, 8)
  }

  /** `"0x" + calldata[-452:-412]`: the recipient address. */
  function Recipient(calldata: string): string {
    "0x" + PySlice(calldata, -452, -412)
  }

  /** The selector is the first eight characters (all of them when there are
      fewer), so the swap gate is a prefix test. */
  lemma SelectorIsPrefix(calldata: string)
    ensures |calldata| >= 8 ==> Selector(calldata) == calldata[..8]
    ensures |calldata| < 8 ==> Selector(calldata) == calldata
    ensures Selector(calldata) == SwapSelector <==> Text.StartsWith(calldata, SwapSelector)
  {
  }

  /** The recipient is 42 characters, taken from 452 to 412 characters before
      the end, when the calldata is long enough; it shrinks to a shorter tail,
      down to a bare "0x", as the calldata gets shorter. */
  lemma RecipientShape(calldata: string)
    ensures var n := |calldata|;
      n >= 452 ==> |Recipient(calldata)| == 42 && Recipient(calldata) == "0x" + calldata[n - 452..n - 412]
    ensures var n := |calldata|;
      412 < n < 452 ==> Recipient(calldata) == "0x" + calldata[..n - 412]
    ensures |calldata| <= 412 ==> Recipient(calldata) == "0x"
  {
  }

  /** The selector of a Safe `multiSend` call, the only one that is assessed. */
  const SwapSelector: string := "8d80ff0a"

  /** The two levels the rule can return; the docstring's "Low" is never produced. */
  datatype EvmLevel = Medium | High

  /** `assess_risk(annual_vol)`: at least 1.0 is High, at least 0.5 Medium,
      anything else (NaN included) `None`. */
  function AssessRisk(v: Float): (r: Option<EvmLevel>)
    ensures r == Some(High) <==> AtLeast(v, 1.0)
    ensures r == Some(Medium) <==> AtLeast(v, 0.5) && !AtLeast(v, 1.0)
    ensures r.None? <==> !AtLeast(v, 0.5)
  {
    if AtLeast(v, 1.0) then Some(High) else if AtLeast(v, 0.5) then Some(Medium) else None
  }

  /** No level (0), Medium (1), High (2). */
  function Severity(r: Option<EvmLevel>): nat {
    match r
    case None => 0
    case Some(Medium) => 1
    case Some(High) => 2
  }

  /** A larger volatility never gives a lower level. */
  lemma AssessRiskMonotone(a: real, b: real)
    requires a <= b
    ensures Severity(AssessRisk(Num(a))) <= Severity(AssessRisk(Num(b)))
  {
  }

  /** The services `calculate_risk` consults. `tokenId` is the contract lookup
      (`Ok(JNull)` for a non-200 reply, `Err` when the request or the `id`
      read raises); `market` is the market-chart lookup (`Err` when it
      raises); `analysis` is everything after it (the pandas frame, the
      volatility and the latest market-cap and volume reads), which yields the
      annual volatility or raises. */
  datatype Oracles = Oracles(
    tokenId: string -> Result<JsonValue, string>,
    market: JsonValue -> Result<JsonValue, string>,
    analysis: JsonValue -> Result<Float, string>)

  /** `calculate_risk`: `Ok(level)` for a return value, `Err` for an exception
      that escapes. Only the market lookup sits inside a `try`, and its failure
      is swallowed as `None`. */
  function CalculateRisk(calldata: string, o: Oracles): (r: Result<Option<EvmLevel>, string>)
    ensures Selector(calldata) != SwapSelector ==> r == Ok(None)
    ensures Selector(calldata) == SwapSelector ==>
      var token := o.tokenId(Recipient(calldata));
      (token.Err? ==> r == Err(token.error))
      && (token.Ok? && o.market(token.value).Err? ==> r == Ok(None))
      && (token.Ok? && o.market(token.value).Ok? ==>
            var vol := o.analysis(o.market(token.value).value);
            r == (if vol.Err? then Err(vol.error) else Ok(AssessRisk(vol.value))))
  {
    if Selector(calldata) != SwapSelector then Ok(None)
    else
      match o.tokenId(Recipient(calldata))
      case Err(e) => Err(e)
      case Ok(token) =>
        match o.market(token)
        case Err(_) => Ok(None)
        case Ok(data) =>
          match o.analysis(data)
          case Err(e) => Err(e)
          case Ok(annual) => Ok(AssessRisk(annual))
  }

  /** Without the swap selector nothing is looked up: the services' answers
      cannot change the outcome. */
  lemma NoLookupWithoutSwapSelector(calldata: string, o1: Oracles, o2: Oracles)
    requires !Text.StartsWith(calldata, SwapSelector)
    ensures CalculateRisk(calldata, o1) == CalculateRisk(calldata, o2) == Ok(None)
  {
    SelectorIsPrefix(calldata);
  }

  /** A returned level is always backed by a successful market lookup and
      analysis, and it is never a "Low". */
  lemma LevelNeedsMarketData(calldata: string, o: Oracles)
    requires CalculateRisk(calldata, o).Ok? && CalculateRisk(calldata, o).value.Some?
    ensures Text.StartsWith(calldata, SwapSelector)
    ensures var token := o.tokenId(Recipient(calldata));
      token.Ok? && o.market(token.value).Ok?
      && o.analysis(o.market(token.value).value).Ok?
      && AtLeast(o.analysis(o.market(token.value).value).value, 0.5)
  {
    SelectorIsPrefix(calldata);
  }
}
