/** What the salvage of a model's output reads, and which reading decides. */
module Salvage {
  import opened Models
  import opened Quantize
  import opened BidPolicies
  import opened Underwriter
  import opened Parsing

  // ----- the decision word -----

  /** The words that salvage takes for an approval, and for a counter-offer; every other word,
      and a missing one, is a decline. */
  lemma WordDecides(raw: Payload, lender: string, req: BidRequest)
    requires Coerced(raw, lender, req).Some?
    ensures var d := Coerced(raw, lender, req).value.decision;
            && (d == Approve <==>
               raw.word in {Some("approve"), Some("approved"), Some("accept"), Some("accepted"), Some("yes")})
            && (d == Counter <==>
                  raw.word in {Some("counter"), Some("counteroffer"), Some("counter_offer"), Some("counter-offer")})
  {
  }

  // ----- a spelled decision -----

  function Spell(d: DecisionType): string {
    match d
    case Approve => "approve"
    case Decline => "decline"
    case Counter => "counter"
  }

  /** The payload that says exactly what a decision says: numbers as numbers, amounts in
      USDC. */
  function Spelled(d: Decision): Payload {
    Payload(
      Some(Spell(d.decision)),
      Some(Number(d.aprBps as real)),
      Some(Number(d.term as real)),
      Some(Number(d.maxAmount / 1000000.0)),
      Some(Number(d.maxLtvBps as real)),
      Some(Number(d.cashDown / 1000000.0)),
      Some(Number(d.reserveBps as real)),
      Some(Number(d.confidence)),
      d.stipulations,
      d.rationale)
  }

  lemma WholeNumberIsRead(n: int, absent: int, instead: int)
    requires n != 0 || instead == 0
    ensures IntField(Some(Number(n as real)), absent, instead) == Some(n)
  {
  }

  /** Salvage agrees with the strict reading: an offer that is spelled out is read as itself.
      (A confidence or a loan-to-value of zero, or an empty rationale, would be taken for a
      missing one.) */
  lemma SpelledOfferIsRead(d: Decision, lender: string, req: BidRequest)
    requires d.Valid() && d.decision != Decline
    requires AprBand(lender).lo <= d.aprBps <= AprBand(lender).hi
    requires d.maxLtvBps != 0 && d.confidence != 0.0 && d.rationale != ""
    ensures Coerced(Spelled(d), lender, req) == Some(d)
  {
    TablesAreSound(lender, 0);
    WholeNumberIsRead(d.term, req.term, req.term);
    WholeNumberIsRead(d.maxLtvBps, 10_000, 10_000);
    WholeNumberIsRead(d.reserveBps, 0, 0);
    AprIsRead(d.aprBps);
    AmountIsRead(d.maxAmount, req.loan as real / 1000000.0);
    AmountIsRead(d.cashDown, 0.0);
    SharesAreRead(d.confidence);
  }

  lemma AprIsRead(apr: int)
    ensures FloatField(Some(Number(apr as real)), 0.0, 0.0) == Some(apr as real) && Truncate(apr as real) == apr
  {
  }

  lemma AmountIsRead(amount: real, absent: real)
    ensures FloatField(Some(Number(amount / 1000000.0)), absent, 0.0).Some?
    ensures Micro(FloatField(Some(Number(amount / 1000000.0)), absent, 0.0).value) == amount
  {
  }

  /** So which of the two readings it comes by makes no difference. */
  lemma SpelledOfferParsesAlike(d: Decision, lender: string, req: BidRequest)
    requires d.Valid() && d.decision != Decline
    requires AprBand(lender).lo <= d.aprBps <= AprBand(lender).hi
    requires d.maxLtvBps != 0 && d.confidence != 0.0 && d.rationale != ""
    ensures Parsed(Content(None, Some(Spelled(d))), lender, req, false) ==
            Parsed(Content(Some(d), None), lender, req, false)
  {
    SpelledOfferIsRead(d, lender, req);
  }

  /** A decline that is spelled out is read as one that offers nothing. */
  lemma SpelledDeclineIsCleared(d: Decision, lender: string, req: BidRequest)
    requires d.Valid() && d.decision == Decline
    requires d.maxLtvBps != 0 && d.confidence != 0.0 && d.rationale != ""
    ensures Coerced(Spelled(d), lender, req) == Some(d.(aprBps := 0, maxAmount := 0.0, cashDown := 0.0))
  {
    WholeNumberIsRead(d.term, req.term, req.term);
    WholeNumberIsRead(d.maxLtvBps, 10_000, 10_000);
    WholeNumberIsRead(d.reserveBps, 0, 0);
    SharesAreRead(d.confidence);
  }

  lemma SharesAreRead(x: real)
    requires 0.0 <= x <= 1.0
    ensures NormalConfidence(x) == x
  {
  }

  // ----- what is missing or out of range -----

  /** A field that is missing, or holds nothing, gets its default; only a missing amount is
      the loan, an empty one is nothing. */
  lemma MissingFieldsDefault(lender: string, req: BidRequest, reason: string)
    requires 0 < req.loan && 0 < req.term
    ensures var word := Some("approve");
            var missing := Coerced(EMPTY_PAYLOAD.(word := word, rationale := reason), lender, req);
            var empty := Coerced(Payload(word, Some(Null), Some(Null), Some(Null), Some(Null), Some(Null), Some(Null),
                                         Some(Null), [], reason), lender, req);
            && missing.Some? && empty.Some?
            && missing.value.aprBps == AprBand(lender).lo && missing.value.term == req.term
            && missing.value.maxAmount == req.loan as real && missing.value.maxLtvBps == 10_000
            && missing.value.cashDown == 0.0 && missing.value.reserveBps == 0 && missing.value.confidence == 0.5
            && missing.value.stipulations == []
            && (reason != "" ==> missing.value.rationale == reason)
            && (reason == "" ==> missing.value.rationale == "model output required normalization")
            && empty == Some(missing.value.(maxAmount := 0.0))
  {
    TablesAreSound(lender, 0);
    assert Micro(req.loan as real / 1000000.0) == req.loan as real;
  }

  /** Numbers lose their fraction where a whole one is wanted, towards zero; true counts as
      one, false as nothing; a text is the number it spells. */
  lemma OtherValuesAreRead(x: real, text: string, f: real, i: int)
    requires text != ""
    ensures x != 0.0 ==> IntField(Some(Number(x)), 7, 7) == Some(Truncate(x))
    ensures FloatField(Some(Bool(true)), 7.0, 7.0) == Some(1.0) && IntField(Some(Bool(true)), 7, 7) == Some(1)
    ensures FloatField(Some(Bool(false)), 7.0, 8.0) == Some(8.0) && IntField(Some(Bool(false)), 7, 8) == Some(8)
    ensures ToFloat(Bool(false)) == Some(0.0) && ToInt(Bool(false)) == Some(0)
    ensures FloatField(Some(Text(text, Some(f), Some(i))), 7.0, 7.0) == Some(f)
    ensures IntField(Some(Text(text, Some(f), Some(i))), 7, 7) == Some(i)
    ensures FloatField(None, 7.0, 8.0) == Some(7.0) && IntField(None, 7, 8) == Some(7)
    ensures FloatField(None, 0.0, 8.0) == Some(8.0) && IntField(None, 0, 8) == Some(8)
  {
  }

  /** A confidence is a share of one, or a percentage if it is more than one and at most a
      hundred; anything beyond is held to the ends. */
  lemma ConfidenceIsRead(x: real)
    ensures 0.0 <= x <= 1.0 ==> NormalConfidence(x) == x
    ensures 1.0 < x <= 100.0 ==> NormalConfidence(x) * 100.0 == x
    ensures 100.0 < x ==> NormalConfidence(x) == 1.0
    ensures x < 0.0 ==> NormalConfidence(x) == 0.0
  {
  }

  /** The confidence of the result is that of the field, so read. */
  lemma ConfidenceFieldIsRead(raw: Payload, x: real, lender: string, req: BidRequest)
    requires x != 0.0 && Coerced(raw.(confidence := Some(Number(x))), lender, req).Some?
    ensures Coerced(raw.(confidence := Some(Number(x))), lender, req).value.confidence == NormalConfidence(x)
  {
  }

  /** Salvage clamps an APR; it undoes no drift. */
  lemma SalvagedAprIsClamped(raw: Payload, apr: int, lender: string, req: BidRequest)
    requires apr != 0 && Coerced(raw.(apr := Some(Number(apr as real))), lender, req).Some?
    requires Coerced(raw.(apr := Some(Number(apr as real))), lender, req).value.decision != Decline
    ensures var band, read :=
              AprBand(lender), Coerced(raw.(apr := Some(Number(apr as real))), lender, req).value.aprBps;
            && (apr < band.lo ==> read == band.lo)
            && (band.hi < apr ==> read == band.hi)
            && (band.lo <= apr <= band.hi ==> read == apr)
  {
    TablesAreSound(lender, 0);
  }

  /** A field that holds something no number can be made of fails the salvage; what cannot be
      falsy and yet no number is a non-empty list or object, or a text that is none. */
  predicate NoFloat(field: Option<Json>) {
    field.Some? && (field.value == Compound(false)
                    || (field.value.Text? && field.value.text != "" && field.value.asFloat == None))
  }

  predicate NoInt(field: Option<Json>) {
    field.Some? && (field.value == Compound(false)
                    || (field.value.Text? && field.value.text != "" && field.value.asInt == None))
  }

  lemma SalvageFailsExactly(raw: Payload, lender: string, req: BidRequest)
    ensures Coerced(raw, lender, req).None? <==>
            || NoFloat(raw.apr) || NoFloat(raw.amount) || NoFloat(raw.cashDown) || NoFloat(raw.confidence)
            || NoInt(raw.term) || NoInt(raw.ltv) || NoInt(raw.reserve)
  {
  }

  // ----- which reading decides -----

  /** What validates strictly is read strictly, whatever object could be cut out of it. */
  lemma StrictReadingWins(content: Content, lender: string, req: BidRequest, allowFallback: bool)
    requires content.strict.Some?
    ensures Parsed(content, lender, req, allowFallback) == content.strict
  {
  }

  /** Otherwise salvage decides, if what it makes is valid; and only then the fallback. */
  lemma SalvageIsNext(content: Content, lender: string, req: BidRequest, allowFallback: bool)
    requires req.Valid() && content.strict.None?
    ensures var salvaged := if content.salvage.Some? then Coerced(content.salvage.value, lender, req) else None;
            && (salvaged.Some? && salvaged.value.Valid() ==> Parsed(content, lender, req, allowFallback) == salvaged)
            && (!(salvaged.Some? && salvaged.value.Valid()) ==>
                  if allowFallback then
                    && Parsed(content, lender, req, true).Some?
                    && Parsed(content, lender, req, true).value.decision == Decline
                  else Parsed(content, lender, req, false) == None)
  {
    FallbackDeclines(lender, req);
  }

  /** A first answer that can be read decides, whatever the second would be. */
  lemma FirstReadableDecides(first: Reply, second: Reply, lender: string, req: BidRequest)
    requires first.Some? && Parsed(first.value, lender, req, false).Some?
    ensures Evaluated(first, second, lender, req) ==
            Some(Normalized(Parsed(first.value, lender, req, false).value, lender, req))
  {
  }

  /** If it cannot, the second decides, with the fallback allowed. */
  lemma SecondDecidesNext(first: Reply, second: Reply, lender: string, req: BidRequest)
    requires first.None? || Parsed(first.value, lender, req, false).None?
    ensures Evaluated(first, second, lender, req) ==
            if second.Some? && Parsed(second.value, lender, req, true).Some?
            then Some(Normalized(Parsed(second.value, lender, req, true).value, lender, req)) else None
  {
  }
}
