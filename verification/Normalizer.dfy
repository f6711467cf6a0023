/** What normalisation does to a decision, field by field: the properties that tell it from
    any other way of fitting the lender's sheet. */
module Normalizer {
  import opened Models
  import opened Quantize
  import opened BidPolicies
  import opened Underwriter
  import opened Guardrails

  // ----- APR -----

  /** An APR that drifted by one or two decimal places is read as it was meant. */
  lemma DriftIsUndone(band: Band, apr: int)
    requires 0 < band.lo <= apr <= band.hi < 10 * apr
    ensures NormalApr(band, 10 * apr) == apr && NormalApr(band, 100 * apr) == apr
  {
    RoundingFixesGrid(apr);
    RoundingFixesGrid(10 * apr);
    assert (10 * apr) as real / 10.0 == apr as real;
    assert (100 * apr) as real / 100.0 == apr as real;
    assert (100 * apr) as real / 10.0 == (10 * apr) as real;
  }

  /** What becomes of an APR outside the band: below it, the lower end; above it, a tenth of
      it if that rounds into the band, else a hundredth if that does, else the upper end. */
  lemma AprOutsideBand(band: Band, apr: int)
    requires band.lo < band.hi
    ensures var tenth, hundredth := RoundHalfEven(apr as real / 10.0), RoundHalfEven(apr as real / 100.0);
            && (apr < band.lo ==> NormalApr(band, apr) == band.lo)
            && (band.hi < apr && band.lo <= tenth <= band.hi ==> NormalApr(band, apr) == tenth)
            && (band.hi < apr && !(band.lo <= tenth <= band.hi) && band.lo <= hundredth <= band.hi ==>
                  NormalApr(band, apr) == hundredth)
            && (band.hi < apr && !(band.lo <= tenth <= band.hi) && !(band.lo <= hundredth <= band.hi) ==>
                  NormalApr(band, apr) == band.hi)
  {
  }

  // ----- reserve -----

  /** Under a cap a positive reserve is kept up to the cap, a negative one is dropped, and a
      zero one stands for the default, held to the same range. */
  lemma ReserveUnderCap(maxBps: int, defaultBps: int, proposed: int)
    requires 0 < maxBps
    ensures var reserve := NormalReserve(CapToRequest(maxBps, defaultBps), proposed);
            && (0 < proposed <= maxBps ==> reserve == proposed)
            && (maxBps < proposed ==> reserve == maxBps)
            && (proposed < 0 ==> reserve == 0)
            && (proposed == 0 && 0 <= defaultBps <= maxBps ==> reserve == defaultBps)
            && (proposed == 0 && maxBps < defaultBps ==> reserve == maxBps)
            && (proposed == 0 && defaultBps < 0 ==> reserve == 0)
  {
  }

  // ----- the rest of the decision -----

  /** An approval or a counter keeps all but its APR, its reserve and its amount. */
  lemma OfferKeepsTheRest(d: Decision, lender: string, req: BidRequest)
    requires d.decision != Decline
    ensures var n := Normalized(d, lender, req);
            && n.decision == d.decision && n.term == d.term && n.maxLtvBps == d.maxLtvBps && n.cashDown == d.cashDown
            && n.stipulations == d.stipulations && n.confidence == d.confidence && n.rationale == d.rationale
            && n.reserveBps == NormalReserve(ReservePolicyOf(lender, req.reserveBps), d.reserveBps)
            && n.aprBps == NormalApr(AprBand(lender), d.aprBps)
            && n.maxAmount == NormalAmount(AmountPolicyOf(lender), req, d.maxAmount) as real
  {
  }

  /** A decline offers nothing and is for the term that was asked for. */
  lemma DeclineOffersNothing(d: Decision, lender: string, req: BidRequest)
    requires d.decision == Decline
    ensures var n := Normalized(d, lender, req);
            && n.decision == Decline && n.aprBps == 0 && n.maxAmount == 0.0 && n.cashDown == 0.0 && n.term == req.term
            && n.maxLtvBps == d.maxLtvBps && n.stipulations == d.stipulations
            && n.confidence == d.confidence && n.rationale == d.rationale
            && n.reserveBps == NormalReserve(ReservePolicyOf(lender, req.reserveBps), d.reserveBps)
  {
  }

  // ----- the multiplier and the ceiling -----

  /** The multiplier of a new car on a term that carries no penalty goes by the score: its
      steps are at 620 and 740. */
  lemma MultiplierByScore(policy: AmountPolicy, req: BidRequest)
    requires req.vehicle == New && req.term <= 72
    ensures 740 <= req.fico ==> Multiplier(policy, req) == policy.highFico
    ensures 620 <= req.fico < 740 ==> Multiplier(policy, req) == policy.standard
    ensures req.fico < 620 ==> Multiplier(policy, req) == policy.lowFico
  {
  }

  /** A term of more than 72 months costs the penalty, but never goes below par; a used car
      costs two points more, on the same floor; an electric one earns a point. */
  lemma MultiplierByTermAndVehicle(policy: AmountPolicy, req: BidRequest)
    requires Sound(policy) && req.vehicle == New
    ensures var m, short := Multiplier(policy, req), Multiplier(policy, req.(term := 72));
            && (req.term <= 72 ==> m == short)
            && (72 < req.term && short < 1.0 + policy.termPenaltyBps as real / 10000.0 ==> m == 1.0)
            && (72 < req.term && 1.0 + policy.termPenaltyBps as real / 10000.0 <= short ==>
                  m == short - policy.termPenaltyBps as real / 10000.0)
            && (m < 1.02 ==> Multiplier(policy, req.(vehicle := Used)) == 1.0)
            && (1.02 <= m ==> Multiplier(policy, req.(vehicle := Used)) == m - 0.02)
            && Multiplier(policy, req.(vehicle := Ev)) == m + 0.01
  {
  }

  /** The ceiling is the multiple of the loan, rounded to the micro-USDC, unless a hard cap is
      less. */
  lemma CeilingIsMultipleOrCap(policy: AmountPolicy, req: BidRequest)
    ensures var multiple := RoundHalfEven(Times(req.loan as real, Multiplier(policy, req)));
            && (policy.hardCap.None? ==> Ceiling(policy, req) == multiple)
            && (policy.hardCap.Some? && multiple <= policy.hardCap.value ==> Ceiling(policy, req) == multiple)
            && (policy.hardCap.Some? && policy.hardCap.value < multiple ==>
               Ceiling(policy, req) == policy.hardCap.value)
  {
  }

  // ----- the sheets -----

  /** The most each lender allows on 20,000 USDC for a new car over 60 months, at a low, a
      middling and a high score; and the cap of the one that has one. */
  lemma SheetsOnTwentyThousand(low: BidRequest, middling: BidRequest, high: BidRequest)
    requires forall r :: r in [low, middling, high] ==> r.loan == 20_000 * MICRO && r.term == 60 && r.vehicle == New
    requires low.fico == 600 && middling.fico == 700 && high.fico == 760
    ensures SheetIs("prime-bank", low, middling, high, 20_400, 21_600, 23_000)
    ensures SheetIs("mid-market", low, middling, high, 20_000, 21_200, 22_000)
    ensures SheetIs("subprime", low, middling, high, 24_000, 25_600, 26_000)
    ensures SheetIs("used-only-cu", low, middling, high, 20_000, 21_600, 23_000)
    ensures SheetIs("ev-captive", low, middling, high, 20_000, 20_600, 21_200)
    ensures SheetIs("anyone else", low, middling, high, 21_000, 21_000, 21_000)
    ensures MaxAllowed("subprime", middling.(loan := 45_000 * MICRO)) == 50_000 * MICRO
  {
    assert low in [low, middling, high] && middling in [low, middling, high] && high in [low, middling, high];
    SheetOf("prime-bank", low, middling, high);
    SheetOf("mid-market", low, middling, high);
    SheetOf("subprime", low, middling, high);
    SheetOf("used-only-cu", low, middling, high);
    SheetOf("ev-captive", low, middling, high);
    SheetOf("anyone else", low, middling, high);
    RoundingFixesGrid(57_600 * MICRO);
    CeilingIsMultipleOrCap(AmountPolicyOf("subprime"), middling.(loan := 45_000 * MICRO));
  }

  predicate SheetIs(lender: string, low: BidRequest, middling: BidRequest, high: BidRequest, a: int, b: int, c: int) {
    && MaxAllowed(lender, low) == a * MICRO
    && MaxAllowed(lender, middling) == b * MICRO
    && MaxAllowed(lender, high) == c * MICRO
  }

  lemma SheetOf(lender: string, low: BidRequest, middling: BidRequest, high: BidRequest)
    requires forall r :: r in [low, middling, high] ==> r.loan == 20_000 * MICRO && r.term == 60 && r.vehicle == New
    requires low.fico == 600 && middling.fico == 700 && high.fico == 760
    ensures var p := AmountPolicyOf(lender);
            && MaxAllowed(lender, low) == Cap(RoundHalfEven(20_000_000_000.0 * p.lowFico), p.hardCap)
            && MaxAllowed(lender, middling) == Cap(RoundHalfEven(20_000_000_000.0 * p.standard), p.hardCap)
            && MaxAllowed(lender, high) == Cap(RoundHalfEven(20_000_000_000.0 * p.highFico), p.hardCap)
  {
    assert low in [low, middling, high] && middling in [low, middling, high] && high in [low, middling, high];
  }

  /** The same on a term of 84 months, which carries the penalty: a middling and a high
      score. */
  lemma SheetsOnLongTerm(middling: BidRequest, high: BidRequest)
    requires forall r :: r in [middling, high] ==> r.loan == 20_000 * MICRO && r.term == 84 && r.vehicle == New
    requires middling.fico == 700 && high.fico == 760
    ensures LongSheetIs("prime-bank", middling, high, 20_600, 22_000)
    ensures LongSheetIs("mid-market", middling, high, 20_200, 21_000)
    ensures LongSheetIs("subprime", middling, high, 25_000, 25_400)
    ensures LongSheetIs("used-only-cu", middling, high, 20_600, 22_000)
    ensures LongSheetIs("ev-captive", middling, high, 20_000, 20_400)
    ensures LongSheetIs("anyone else", middling, high, 21_000, 21_000)
  {
    LongSheetOf("prime-bank", middling, high);
    LongSheetOf("mid-market", middling, high);
    LongSheetOf("subprime", middling, high);
    LongSheetOf("used-only-cu", middling, high);
    LongSheetOf("ev-captive", middling, high);
    LongSheetOf("anyone else", middling, high);
  }

  predicate LongSheetIs(lender: string, middling: BidRequest, high: BidRequest, a: int, b: int) {
    MaxAllowed(lender, middling) == a * MICRO && MaxAllowed(lender, high) == b * MICRO
  }

  lemma LongSheetOf(lender: string, middling: BidRequest, high: BidRequest)
    requires forall r :: r in [middling, high] ==> r.loan == 20_000 * MICRO && r.term == 84 && r.vehicle == New
    requires middling.fico == 700 && high.fico == 760
    ensures var p := AmountPolicyOf(lender);
            var penalty := p.termPenaltyBps as real / 10000.0;
            && MaxAllowed(lender, middling) ==
               Cap(RoundHalfEven(20_000_000_000.0 * AtLeastPar(p.standard - penalty)), p.hardCap)
            && MaxAllowed(lender, high) ==
               Cap(RoundHalfEven(20_000_000_000.0 * AtLeastPar(p.highFico - penalty)), p.hardCap)
  {
    assert middling in [middling, high] && high in [middling, high];
  }

  /** What each lender makes of an APR of one basis point and of one far too high, and of a
      reserve of 500 basis points, and of none on a request for 50. */
  lemma SheetsAtTheEnds(r: BidRequest)
    requires r.reserveBps == 50
    ensures EndsAre("prime-bank", r, 499, 1800, 200, 200)
    ensures EndsAre("mid-market", r, 169, 1600, 125, 75)
    ensures EndsAre("subprime", r, 995, 3000, 0, 0)
    ensures EndsAre("used-only-cu", r, 499, 1600, 150, 150)
    ensures EndsAre("ev-captive", r, 449, 900, 0, 0)
    ensures EndsAre("anyone else", r, 300, 3600, 200, 50)
  {
  }

  predicate EndsAre(lender: string, r: BidRequest, lo: int, hi: int, reserve: int, unasked: int) {
    && NormalApr(AprBand(lender), 1) == lo && NormalApr(AprBand(lender), 1_000_000) == hi
    && NormalReserve(ReservePolicyOf(lender, r.reserveBps), 500) == reserve
    && NormalReserve(ReservePolicyOf(lender, r.reserveBps), 0) == unasked
  }
}
