/** agents/underwriter.py, the parse paths: a strict reading of the model's output, a
    salvage of whatever object it contains, a fallback that declines; and the two attempts. */
module Parsing {
  import opened Models
  import opened Quantize
  import opened BidPolicies
  import opened Underwriter
  import opened Guardrails

  // ----- JSON values and Python's conversions of them -----

  /** A value of the salvaged object.  What `float` and `int` make of a text is part of the
      value: nothing when they raise. */
  datatype Json =
    | Null
    | Bool(b: bool)
    | Number(x: real)
    | Text(text: string, asFloat: Option<real>, asInt: Option<int>)
    | Compound(empty: bool)

  function Falsy(j: Json): bool {
    match j
    case Null => true
    case Bool(b) => !b
    case Number(x) => x == 0.0
    case Text(text, _, _) => text == ""
    case Compound(empty) => empty
  }

  function ToFloat(j: Json): Option<real> {
    match j
    case Null => None
    case Bool(b) => Some(if b then 1.0 else 0.0)
    case Number(x) => Some(x)
    case Text(_, f, _) => f
    case Compound(_) => None
  }

  function ToInt(j: Json): Option<int> {
    match j
    case Null => None
    case Bool(b) => Some(if b then 1 else 0)
    case Number(x) => Some(Truncate(x))
    case Text(_, _, i) => i
    case Compound(_) => None
  }

  /** `float(raw.get(key, absent) or instead)` */
  function FloatField(field: Option<Json>, absent: real, instead: real): Option<real> {
    match field
    case None => Some(if absent == 0.0 then instead else absent)
    case Some(j) => if Falsy(j) then Some(instead) else ToFloat(j)
  }

  /** `int(raw.get(key, absent) or instead)` */
  function IntField(field: Option<Json>, absent: int, instead: int): Option<int> {
    match field
    case None => Some(if absent == 0 then instead else absent)
    case Some(j) => if Falsy(j) then Some(instead) else ToInt(j)
  }

  // ----- salvage -----

  /** The salvaged object.  `word` is the decision as text, stripped and in lower case; the
      stipulations are already normalised to texts; `rationale` may be empty. */
  datatype Payload = Payload(
    word: Option<string>,
    apr: Option<Json>, term: Option<Json>, amount: Option<Json>, ltv: Option<Json>,
    cashDown: Option<Json>, reserve: Option<Json>, confidence: Option<Json>,
    stipulations: seq<string>, rationale: string)

  const EMPTY_PAYLOAD := Payload(None, None, None, None, None, None, None, None, [], "")

  function Alias(word: Option<string>): DecisionType {
    if word == None then Decline
    else if word.value in ["approve", "approved", "accept", "accepted", "yes"] then Approve
    else if word.value in ["counter", "counteroffer", "counter_offer", "counter-offer"] then Counter
    else Decline
  }

  /** A confidence above one is read as a percentage if it can be, then clamped. */
  function NormalConfidence(x: real): real {
    var share := if 1.0 < x <= 100.0 then x / 100.0 else x;
    if share < 0.0 then 0.0 else if 1.0 < share then 1.0 else share
  }

  function Micro(usdc: real): real {
    usdc * 1000000.0
  }

  /** `_coerce_decision_payload`: nothing when a conversion raises.  Amounts of the payload
      are in USDC, those of the result in micro-USDC. */
  function Coerced(raw: Payload, lender: string, req: BidRequest): Option<Decision> {
    var decision := Alias(raw.word);
    var confidence := FloatField(raw.confidence, 0.5, 0.5);
    var apr := FloatField(raw.apr, 0.0, 0.0);
    var amount := FloatField(raw.amount, req.loan as real / 1000000.0, 0.0);
    var term := IntField(raw.term, req.term, req.term);
    var ltv := IntField(raw.ltv, 10_000, 10_000);
    var cash := FloatField(raw.cashDown, 0.0, 0.0);
    var reserve := IntField(raw.reserve, 0, 0);
    if confidence.None? || apr.None? || amount.None? || term.None? || ltv.None? || cash.None? || reserve.None? then None
    else
      var band := AprBand(lender);
      var declined := decision == Decline;
      Some(Decision(
        decision,
        if declined then 0 else Clamp(band.lo, band.hi, Truncate(apr.value)),
        term.value,
        if declined then 0.0 else Micro(amount.value),
        ltv.value,
        if declined then 0.0 else Micro(cash.value),
        reserve.value,
        raw.stipulations,
        NormalConfidence(confidence.value),
        if raw.rationale == "" then "model output required normalization" else raw.rationale))
  }

  // ----- the parse paths -----

  /** The model's output: the decision it strictly is, if it validates as one, and the JSON
      object that can be cut out of it, if any. */
  datatype Content = Content(strict: Option<Decision>, salvage: Option<Payload>)
  {
    /** Strict validation only lets valid decisions through. */
    predicate Faithful() {
      strict.Some? ==> strict.value.Valid()
    }
  }

  function Salvaged(content: Content, lender: string, req: BidRequest): Option<Decision> {
    match content.salvage
    case None => None
    case Some(raw) =>
      match Coerced(raw, lender, req)
      case None => None
      case Some(d) => if d.Valid() then Some(d) else None
  }

  /** What goes into normalisation; nothing when parsing raises. */
  function Parsed(content: Content, lender: string, req: BidRequest, allowFallback: bool): Option<Decision> {
    if content.strict.Some? then content.strict
    else if Salvaged(content, lender, req).Some? then Salvaged(content, lender, req)
    else if allowFallback then
      match Coerced(EMPTY_PAYLOAD, lender, req)
      case None => None
      case Some(d) => if d.Valid() then Some(d) else None
    else None
  }

  /** `_parse_decision`. */
  method ParseDecision(content: Content, lender: string, req: BidRequest, allowFallback: bool)
    returns (r: Option<Decision>)
    ensures r == match Parsed(content, lender, req, allowFallback)
                 case None => None
                 case Some(d) => Some(Normalized(d, lender, req))
  {
    var parsed: Option<Decision> := content.strict;
    if parsed.None? && content.salvage.Some? {
      parsed := Coerced(content.salvage.value, lender, req);
      if parsed.Some? && !parsed.value.Valid() {
        parsed := None;
      }
    }
    if parsed.None? {
      if !allowFallback {
        return None;
      }
      parsed := Coerced(EMPTY_PAYLOAD, lender, req);
      if parsed.None? || !parsed.value.Valid() {
        return None;
      }
    }
    var d := NormalizeDecision(parsed.value, lender, req);
    return Some(d);
  }

  /** An answer of the inference endpoint, or none when the call fails. */
  type Reply = Option<Content>

  /** Which attempt decides: the first if it parses as it is, else the second. */
  function Evaluated(first: Reply, second: Reply, lender: string, req: BidRequest): Option<Decision> {
    var one := if first.Some? then Parsed(first.value, lender, req, false) else None;
    var two := if second.Some? then Parsed(second.value, lender, req, true) else None;
    if one.Some? then Some(Normalized(one.value, lender, req))
    else if two.Some? then Some(Normalized(two.value, lender, req))
    else None
  }

  /** `Underwriter.evaluate`: two attempts, the second allowed to fall back. */
  method Evaluate(replies: seq<Reply>, lender: string, req: BidRequest) returns (r: Option<Decision>)
    requires |replies| == 2
    ensures r == Evaluated(replies[0], replies[1], lender, req)
  {
    var attempt := 0;
    while attempt < 2
      invariant 0 <= attempt <= 2
      invariant 0 < attempt ==> (replies[0].None? || Parsed(replies[0].value, lender, req, false).None?)
      invariant 1 < attempt ==> (replies[1].None? || Parsed(replies[1].value, lender, req, true).None?)
    {
      if replies[attempt].Some? {
        r := ParseDecision(replies[attempt].value, lender, req, attempt == 1);
        if r.Some? {
          return;
        }
      }
      attempt := attempt + 1;
    }
    return None;
  }

  // ----- what comes out -----

  /** The fallback always succeeds, and declines. */
  lemma FallbackDeclines(lender: string, req: BidRequest)
    requires req.Valid()
    ensures var d := Coerced(EMPTY_PAYLOAD, lender, req);
            d.Some? && d.value.Valid() && d.value.decision == Decline
  {
  }

  /** Whatever is parsed satisfies the decision schema. */
  lemma ParsedIsValid(content: Content, lender: string, req: BidRequest, allowFallback: bool)
    requires content.Faithful()
    ensures var d := Parsed(content, lender, req, allowFallback); d.Some? ==> d.value.Valid()
  {
  }

  /** Underwriting fails exactly when the second call does, after the first call failed or
      its output could neither be read strictly nor salvaged. */
  lemma EvaluationFailsExactly(first: Reply, second: Reply, lender: string, req: BidRequest)
    requires req.Valid()
    ensures Evaluated(first, second, lender, req).None? <==>
            && second.None?
            && (first.None? || (first.value.strict.None? && Salvaged(first.value, lender, req).None?))
  {
    FallbackDeclines(lender, req);
  }

  /** `_build_bid_create`. */
  function BuildBidCreate(lender: string, d: Decision): BidCreate {
    BidCreate(lender, d, None)
  }

  lemma NormalizedIsPostable(d: Decision, lender: string, req: BidRequest)
    requires d.Valid() && req.Valid() && d.decision != Decline
    ensures BuildBidCreate(lender, Normalized(d, lender, req)).Valid()
  {
    TablesAreSound(lender, req.reserveBps);
    NormalizedFitsSheet(d, lender, req);
  }

  /** Whatever the model answers, on whichever attempt and parse path, an approval (or a
      counter) that comes out satisfies every bound of the bid schemas -- the strictly
      positive amount included, which the decision schema does not ask for -- and stays
      within the lender's sheet; a decline carries no amount. */
  lemma EveryApprovalIsPostable(first: Reply, second: Reply, lender: string, req: BidRequest)
    requires req.Valid()
    requires (first.Some? ==> first.value.Faithful()) && (second.Some? ==> second.value.Faithful())
    requires Evaluated(first, second, lender, req).Some?
    ensures var d := Evaluated(first, second, lender, req).value;
            if d.decision == Decline then d.maxAmount == 0.0 && d.aprBps == 0 && d.term == req.term
            else
              BuildBidCreate(lender, d).Valid() && FitsSheet(d, lender, req)
  {
    var one := if first.Some? then Parsed(first.value, lender, req, false) else None;
    var d := if one.Some? then one.value else Parsed(second.value, lender, req, true).value;
    if first.Some? {
      ParsedIsValid(first.value, lender, req, false);
    }
    if second.Some? {
      ParsedIsValid(second.value, lender, req, true);
    }
    if d.decision != Decline {
      NormalizedIsPostable(d, lender, req);
      NormalizedFitsSheet(d, lender, req);
    }
  }
}
