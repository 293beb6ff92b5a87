/** The MultiversX swap analyzer's risk function (bots/risk_function_ash.py):
    decoding the token out of a `composeTasks@` payload, the token alias table,
    the volatility/amount rule `assess_risk`, and the lookup ladder of
    `calculate_ash_risk`. The token API, the market API and the pandas
    volatility computation are oracles. */
module AshRisk {
  import opened Wrappers
  import opened Json
  import opened Floats
  import Text
  import Bytes

  const ComposePrefix: string := "composeTasks@"

  /** `decode_data`: `Some((identifier, amount_hex))`, or `None` where the source returns `(None, None)`.
      The identifier is the UTF-8 text of characters 8 to 41 of the second
      `@`-separated segment once every "00" is removed; `amount_hex` is the
      last 10 of those 34 characters. */
  function DecodeData(data: string): (r: Option<(string, string)>)
    ensures !Text.StartsWith(data, ComposePrefix) ==> r.None?
    ensures Text.StartsWith(data, ComposePrefix) ==>
      var parts := Text.Split(data, '@');
      |parts| >= 2
      && (|parts[1]| < 42 ==> r.None?)
      && (|parts[1]| >= 42 ==>
            var tokenHex := parts[1][8..42];
            r == match Bytes.FromHex(Text.DropDoubleZeros(tokenHex))
                 case None => None
                 case Some(bs) => match Bytes.DecodeUtf8(bs)
                                  case None => None
                                  case Some(id) => Some((id, tokenHex[24..])))
    ensures r.Some? ==> |r.value.1| == 10
  {
    if !Text.StartsWith(data, ComposePrefix) then None
    else
      var parts := Text.Split(data, '@');
      SecondSegmentExists(data);
      if |parts| < 2 then None
      else
        var part := parts[1];
        if |part| < 42 then None
        else
          var tokenHex := part[8..42];
          match Bytes.FromHex(Text.DropDoubleZeros(tokenHex))
          case None => None
          case Some(bs) =>
            match Bytes.DecodeUtf8(bs)
            case None => None
            case Some(id) => Some((id, tokenHex[24..]))
  }

  /** The `len(parts) < 2` guard never fires: the prefix itself contains an '@'. */
  lemma SecondSegmentExists(data: string)
    requires Text.StartsWith(data, ComposePrefix)
    ensures |Text.Split(data, '@')| >= 2
  {
    assert data[12] == '@';
    Text.SplitHasSecondPart(data, '@');
  }

  /** `TOKEN_MAPPINGS`. */
  const TokenMappings: map<string, string> := map["ASH-e3d1b7" := "ASH-a642d1"]

  /** `TOKEN_MAPPINGS.get(identifier, identifier)`. */
  function Alias(identifier: string): (r: string)
    ensures identifier == "ASH-e3d1b7" ==> r == "ASH-a642d1"
    ensures identifier != "ASH-e3d1b7" ==> r == identifier
  {
    if identifier in TokenMappings then TokenMappings[identifier] else identifier
  }

  datatype Level = Low | Medium | High | Unknown

  /** The order of the three risk levels. */
  function Rank(l: Level): nat
    requires l != Unknown
  {
    match l
    case Low => 0
    case Medium => 1
    case High => 2
  }

  /** `assess_risk(volatility, amount)`: strictly above 0.4 is HIGH, strictly
      above 0.2 MEDIUM, else LOW; a non-zero amount above 1000 tokens (units of
      10^18) forces HIGH and above 100 tokens raises LOW to MEDIUM. A missing
      volatility makes the comparison raise: UNKNOWN. */
  function AssessRisk(volatility: Option<Float>, amount: Option<real>): (r: Level)
    ensures volatility.None? <==> r == Unknown
    ensures volatility.Some? && amount.Some? && amount.value / 1000000000000000000.0 > 1000.0 ==> r == High
    ensures volatility.Some? && (amount.None? || amount.value == 0.0) ==>
      (r == High <==> Above(volatility.value, 0.4))
      && (r == Low <==> !Above(volatility.value, 0.2))
    ensures volatility.Some? && amount.Some? && amount.value != 0.0
            && amount.value / 1000000000000000000.0 <= 1000.0 ==>
      (r == High <==> Above(volatility.value, 0.4))
      && (r == Low <==> !Above(volatility.value, 0.2) && amount.value / 1000000000000000000.0 <= 100.0)
  {
    match volatility
    case None => Unknown
    case Some(v) =>
      var byVolatility := if Above(v, 0.4) then High else if Above(v, 0.2) then Medium else Low;
      if amount.Some? && amount.value != 0.0 then
        var tokens := amount.value / 1000000000000000000.0;
        if tokens > 1000.0 then High
        else if tokens > 100.0 && byVolatility != High then Medium
        else byVolatility
      else byVolatility
  }

  /** The amount adjustment never lowers the level the volatility alone gives. */
  lemma AmountNeverLowersRisk(v: Float, amount: Option<real>)
    ensures Rank(AssessRisk(Some(v), amount)) >= Rank(AssessRisk(Some(v), None))
  {
  }

  /** The volatility level never decreases as the volatility grows. */
  lemma AssessRiskMonotone(a: real, b: real, amount: Option<real>)
    requires a <= b
    ensures Rank(AssessRisk(Some(Num(a)), amount)) <= Rank(AssessRisk(Some(Num(b)), amount))
  {
  }

  /** The level `calculate_ash_risk` derives from the annualised volatility:
      at least 0.4 is HIGH, at least 0.2 MEDIUM, else (NaN included) LOW. */
  function Classify(v: Float): (r: Level)
    ensures r != Unknown
    ensures r == High <==> AtLeast(v, 0.4)
    ensures r == Low <==> !AtLeast(v, 0.2)
  {
    if AtLeast(v, 0.4) then High else if AtLeast(v, 0.2) then Medium else Low
  }

  /** The two rules disagree exactly on the thresholds: at 0.4 the ladder says
      HIGH where `assess_risk` says MEDIUM, and at 0.2 MEDIUM where it says LOW. */
  lemma ThresholdsDisagreeAtBoundary()
    ensures Classify(Num(0.4)) == High && AssessRisk(Some(Num(0.4)), None) == Medium
    ensures Classify(Num(0.2)) == Medium && AssessRisk(Some(Num(0.2)), None) == Low
  {
  }

  /** What the pandas stage yields on the market data: an empty frame (no
      annual volatility), a value, or an exception. */
  datatype VolatilityOutcome = NoVolatility | Volatility(annual: Float) | VolatilityFailed

  /** The services `calculate_ash_risk` consults: `tokenApi` is the token
      lookup (a decoded 200 reply, `None` otherwise), `marketApi` the market
      chart lookup for a lower-cased name (likewise), `volatility` the pandas stage. */
  datatype Oracles = Oracles(
    tokenApi: string -> Option<JsonValue>,
    marketApi: string -> Option<JsonValue>,
    volatility: JsonValue -> VolatilityOutcome)

  /** `"prices" in data` for a truthy decoded value; `None` when the test raises. */
  function HasPrices(data: JsonValue): Option<bool> {
    match data
    case JObject(f) => Some("prices" in f)
    case JArray(items) => Some(JStr("prices") in items)
    case JStr(s) => Some(Text.Contains(s, "prices"))
    case _ => None
  }

  /** The token name `get_token_id_from_identifier` yields: `None` when the
      lookup failed or its reply is not a dict (`.get` raises), else the
      `name` entry, defaulting to "Unknown Token". */
  function TokenName(reply: Option<JsonValue>): Option<JsonValue> {
    match reply
    case Some(JObject(f)) => Some(if "name" in f then f["name"] else JStr("Unknown Token"))
    case _ => None
  }

  /** `calculate_ash_risk`: `None` (Python's None) without an identifier or on
      an exception, UNKNOWN when token info, market data or volatility is
      missing, otherwise the level of the annualised volatility. */
  function CalculateAshRisk(data: string, o: Oracles): (r: Option<Level>)
    ensures DecodeData(data).None? || DecodeData(data).value.0 == "" ==> r.None?
    ensures (DecodeData(data).Some? && DecodeData(data).value.0 != ""
             && TokenName(o.tokenApi(Alias(DecodeData(data).value.0))).None?) ==> r == Some(Unknown)
    // a name that is not a string makes the market lookup raise
    ensures (DecodeData(data).Some? && DecodeData(data).value.0 != ""
             && var name := TokenName(o.tokenApi(Alias(DecodeData(data).value.0)));
             name.Some? && !name.value.JStr?) ==> r.None?
    ensures (DecodeData(data).Some? && DecodeData(data).value.0 != ""
             && var name := TokenName(o.tokenApi(Alias(DecodeData(data).value.0)));
             name.Some? && name.value.JStr?) ==>
      var market := o.marketApi(Text.Lower(TokenName(o.tokenApi(Alias(DecodeData(data).value.0))).value.s));
      (market.None? || !Truthy(market.value) ==> r == Some(Unknown))
      && (market.Some? && Truthy(market.value) ==>
            (HasPrices(market.value).None? ==> r.None?)
            && (HasPrices(market.value) == Some(false) ==> r == Some(Unknown))
            && (HasPrices(market.value) == Some(true) ==>
                  (o.volatility(market.value).NoVolatility? ==> r == Some(Unknown))
                  && (o.volatility(market.value).VolatilityFailed? ==> r.None?)
                  && (o.volatility(market.value).Volatility? ==>
                        r == Some(Classify(o.volatility(market.value).annual)))))
    ensures r.Some? && r.value != Unknown ==>
      DecodeData(data).Some?
      && var name := TokenName(o.tokenApi(Alias(DecodeData(data).value.0)));
      name.Some? && name.value.JStr?
      && var market := o.marketApi(Text.Lower(name.value.s));
      market.Some? && o.volatility(market.value).Volatility?
      && r.value == Classify(o.volatility(market.value).annual)
  {
    match DecodeData(data)
    case None => None
    case Some((identifier, _)) =>
      if identifier == "" then None
      else
        match TokenName(o.tokenApi(Alias(identifier)))
        case None => Some(Unknown)
        case Some(name) =>
          if !name.JStr? then None
          else
            match o.marketApi(Text.Lower(name.s))
            case None => Some(Unknown)
            case Some(market) =>
              if !Truthy(market) then Some(Unknown)
              else
                match HasPrices(market)
                case None => None
                case Some(false) => Some(Unknown)
                case Some(true) =>
                  match o.volatility(market)
                  case NoVolatility => Some(Unknown)
                  case VolatilityFailed => None
                  case Volatility(v) => Some(Classify(v))
  }

  /** UNKNOWN means exactly that an identifier was decoded but a lookup came
      back empty: no token info, no (or falsy) market data, no "prices", or
      no annual volatility. */
  lemma UnknownIffDataMissing(data: string, o: Oracles)
    ensures CalculateAshRisk(data, o) == Some(Unknown) <==>
      DecodeData(data).Some? && DecodeData(data).value.0 != ""
      && var name := TokenName(o.tokenApi(Alias(DecodeData(data).value.0)));
      (name.None?
       || (name.value.JStr?
           && var market := o.marketApi(Text.Lower(name.value.s));
           (market.None? || !Truthy(market.value) || HasPrices(market.value) == Some(false)
            || (HasPrices(market.value) == Some(true) && o.volatility(market.value).NoVolatility?))))
  {
  }
}
