/** What the guardrails of the underwriter guarantee, and when a second pass through them
    changes nothing. */
module Guardrails {
  import opened Models
  import opened Quantize
  import opened BidPolicies
  import opened Underwriter

  predicate Sound(p: AmountPolicy) {
    && 1.0 <= p.lowFico <= p.standard <= p.highFico
    && 0 <= p.termPenaltyBps
    && (p.hardCap.Some? ==> 1 <= p.hardCap.value)
  }

  /** The smaller of the requested loan and the lender's hard cap. */
  function LoanOrCap(policy: AmountPolicy, req: BidRequest): int {
    Cap(req.loan, policy.hardCap)
  }

  // ----- the ceiling -----

  lemma MultiplierIsAtLeastPar(policy: AmountPolicy, req: BidRequest)
    requires Sound(policy)
    ensures 1.0 <= Multiplier(policy, req)
  {
  }

  lemma TimesAtLeast(x: real, factor: real)
    requires 0.0 <= x && 1.0 <= factor
    ensures x <= Times(x, factor)
  {
    ProductIsMonotone(1.0, factor, x);
  }

  lemma CeilingCoversLoan(policy: AmountPolicy, req: BidRequest)
    requires Sound(policy) && 1 <= req.loan
    ensures 1 <= LoanOrCap(policy, req) <= Ceiling(policy, req) <= RoundHalfEven(Multiple(policy, req))
    ensures req.loan as real <= Multiple(policy, req)
  {
    MultiplierIsAtLeastPar(policy, req);
    TimesAtLeast(req.loan as real, Multiplier(policy, req));
    RoundingKeepsGridBounds(Multiple(policy, req), req.loan, 0);
  }

  function VehicleRank(v: VehicleType): int {
    match v
    case Used => 0
    case New => 1
    case Ev => 2
  }

  lemma MultiplierIsMonotone(policy: AmountPolicy, a: BidRequest, b: BidRequest)
    requires Sound(policy)
    requires a.fico <= b.fico && b.term <= a.term && VehicleRank(a.vehicle) <= VehicleRank(b.vehicle)
    ensures Multiplier(policy, a) <= Multiplier(policy, b)
  {
  }

  /** The most a lender may approve never falls when the loan or the score grows, the term
      shortens, or the vehicle goes from used to new to electric: for the lenders of the
      tables and for any other, through penalty, floors, rounding and hard cap. */
  lemma MaxAllowedIsMonotone(lender: string, a: BidRequest, b: BidRequest)
    requires 1 <= a.loan <= b.loan && a.fico <= b.fico && b.term <= a.term
    requires VehicleRank(a.vehicle) <= VehicleRank(b.vehicle)
    ensures MaxAllowed(lender, a) <= MaxAllowed(lender, b)
  {
    TablesAreSound(lender, 0);
    CeilingIsMonotone(AmountPolicyOf(lender), a, b);
  }

  lemma CeilingIsMonotone(policy: AmountPolicy, a: BidRequest, b: BidRequest)
    requires Sound(policy)
    requires 1 <= a.loan <= b.loan && a.fico <= b.fico && b.term <= a.term
    requires VehicleRank(a.vehicle) <= VehicleRank(b.vehicle)
    ensures Ceiling(policy, a) <= Ceiling(policy, b)
  {
    MultiplierIsMonotone(policy, a, b);
    MultiplierIsAtLeastPar(policy, a);
    TimesIsMonotone(a.loan as real, b.loan as real, Multiplier(policy, a), Multiplier(policy, b));
    RoundingIsMonotone(Multiple(policy, a), Multiple(policy, b));
  }

  // ----- the amount -----

  /** What the reassignments come to: a proposal up to one percent over the loan gets the
      ceiling, any larger one the smaller of itself and the ceiling, rounded. */
  lemma AmountShape(proposed: real, loan: int, multiple: real, ceiling: int)
    requires 1 <= loan && ceiling <= RoundHalfEven(multiple)
    ensures AmountFrom(proposed, loan, multiple, ceiling) ==
            if proposed <= loan as real * 1.01 then ceiling
            else RoundHalfEven(Least(proposed, ceiling as real))
  {
    RoundingFixesGrid(ceiling);
    RoundingKeepsGridBounds(multiple, 0, ceiling);
  }

  /** An approved (or countered) amount is never less than the loan, unless the hard cap is,
      and never more than the ceiling; nor is it less than the proposal, as far as the
      ceiling allows. */
  lemma AmountIsBounded(policy: AmountPolicy, req: BidRequest, proposed: real)
    requires Sound(policy) && 1 <= req.loan
    ensures LoanOrCap(policy, req) <= NormalAmount(policy, req, proposed) <= Ceiling(policy, req)
    ensures RoundHalfEven(Least(proposed, Ceiling(policy, req) as real)) <= NormalAmount(policy, req, proposed)
  {
    var ceiling := Ceiling(policy, req);
    CeilingCoversLoan(policy, req);
    AmountShape(proposed, req.loan, Multiple(policy, req), ceiling);
    RoundingKeepsGridBounds(Least(proposed, ceiling as real), LoanOrCap(policy, req), ceiling);
  }

  /** A rounded amount that is normalised again stays what it is -- unless the proposal sat
      just above one percent over the loan, was rounded down to it or below, and so is
      taken for a near-par proposal the second time. */
  lemma AmountIsStable(proposed: real, loan: int, multiple: real, ceiling: int)
    requires 1 <= loan && ceiling <= RoundHalfEven(multiple)
    ensures var once := AmountFrom(proposed, loan, multiple, ceiling);
            AmountFrom(once as real, loan, multiple, ceiling) == once <==> AmountSettles(proposed, loan, ceiling)
  {
    var once := AmountFrom(proposed, loan, multiple, ceiling);
    AmountShape(proposed, loan, multiple, ceiling);
    AmountShape(once as real, loan, multiple, ceiling);
    RoundingFixesGrid(once);
    RoundingFixesGrid(ceiling);
    RoundingKeepsGridBounds(proposed, ceiling, ceiling);
  }

  predicate AmountSettles(proposed: real, loan: int, ceiling: int) {
    || proposed <= loan as real * 1.01
    || loan as real * 1.01 < RoundHalfEven(proposed) as real
    || ceiling <= RoundHalfEven(proposed)
  }

  // ----- APR and reserve -----

  lemma AprIsInBand(band: Band, apr: int)
    requires band.lo < band.hi
    ensures band.lo <= NormalApr(band, apr) <= band.hi
    ensures NormalApr(band, NormalApr(band, apr)) == NormalApr(band, apr)
    ensures band.lo <= apr <= band.hi ==> NormalApr(band, apr) == apr
  {
  }

  predicate ReserveSettles(policy: ReservePolicy, proposed: int) {
    policy.Fixed? || 0 <= proposed || policy.defaultBps <= 0
  }

  lemma ReserveIsStable(policy: ReservePolicy, proposed: int)
    requires policy.CapToRequest? ==> 0 < policy.maxBps
    ensures var once := NormalReserve(policy, proposed);
            NormalReserve(policy, once) == once <==> ReserveSettles(policy, proposed)
    ensures policy.Fixed? ==> NormalReserve(policy, proposed) == policy.bps
    ensures policy.CapToRequest? ==> 0 <= NormalReserve(policy, proposed) <= policy.maxBps
  {
  }

  // ----- the whole decision -----

  predicate Settles(d: Decision, lender: string, req: BidRequest) {
    && ReserveSettles(ReservePolicyOf(lender, req.reserveBps), d.reserveBps)
    && (d.decision == Decline || AmountSettles(d.maxAmount, req.loan, MaxAllowed(lender, req)))
  }

  /** Exactly when a second normalisation changes nothing: the reserve is fixed, was not
      negative, or has no positive default to fall back on; and, unless the decision is a
      decline, the proposed amount is not one of those that rounding moves to near-par. */
  lemma NormalizingTwice(d: Decision, lender: string, req: BidRequest)
    requires 1 <= req.loan
    ensures Normalized(Normalized(d, lender, req), lender, req) == Normalized(d, lender, req) <==>
              Settles(d, lender, req)
  {
    TablesAreSound(lender, req.reserveBps);
    var policy := AmountPolicyOf(lender);
    CeilingCoversLoan(policy, req);
    AprIsInBand(AprBand(lender), d.aprBps);
    ReserveIsStable(ReservePolicyOf(lender, req.reserveBps), d.reserveBps);
    AmountIsStable(d.maxAmount, req.loan, Multiple(policy, req), Ceiling(policy, req));
  }

  /** In particular for every proposal in whole micro-USDC with a reserve that is not
      negative, whatever the request and the lender. */
  lemma NormalizingIsIdempotentOnGrid(d: Decision, lender: string, req: BidRequest, micro: int)
    requires 1 <= req.loan && d.maxAmount == micro as real && 0 <= d.reserveBps
    ensures Normalized(Normalized(d, lender, req), lender, req) == Normalized(d, lender, req)
  {
    NormalizingTwice(d, lender, req);
    RoundingFixesGrid(micro);
  }

  /** In every schema-valid request the first pass turns a negative reserve into none, and
      the second reads none as the default. */
  lemma NegativeReserveIsDefaultedTwice(d: Decision, req: BidRequest)
    requires d.Valid() && req.Valid() && d.reserveBps == -100
    ensures var once := Normalized(d, "prime-bank", req);
            once.reserveBps == 0 && Normalized(once, "prime-bank", req).reserveBps == 200
  {
  }

  /** On a loan of 100 micro-USDC a proposal of 101.3 is rounded to 101, which a second pass
      takes for near-par and lifts to the ceiling of 108. */
  lemma SubMicroProposalIsLiftedTwice(d: Decision, req: BidRequest)
    requires d.Valid() && d.decision == Approve && d.maxAmount == 101.3 && d.reserveBps == 0
    requires req.Valid() && req.loan == 100 && req.fico == 700 && req.term == 60 && req.vehicle == New
    ensures var once := Normalized(d, "prime-bank", req);
            once.maxAmount == 101.0 && Normalized(once, "prime-bank", req).maxAmount == 108.0
  {
    var policy := AmountPolicyOf("prime-bank");
    assert Multiple(policy, req) == 108.0;
    RoundingFixesGrid(108);
    RoundingIsUnique(101.3, 101);
    AmountShape(101.3, 100, 108.0, 108);
    AmountShape(101.0, 100, 108.0, 108);
  }

  /** The terms of a decision lie within the lender's sheet for a request: the amount
      between the loan, or a hard cap below it, and the most allowed; the APR in the band;
      the reserve as the policy has it. */
  predicate FitsSheet(d: Decision, lender: string, req: BidRequest) {
    && LoanOrCap(AmountPolicyOf(lender), req) as real <= d.maxAmount <= MaxAllowed(lender, req) as real
    && 1.0 <= d.maxAmount
    && AprBand(lender).lo <= d.aprBps <= AprBand(lender).hi
    && match ReservePolicyOf(lender, req.reserveBps)
       case Fixed(bps) => d.reserveBps == bps
       case CapToRequest(maxBps, _) => 0 <= d.reserveBps <= maxBps
  }

  /** Where a decision lands: on the sheet, and not below what was proposed as far as the
      ceiling allows. */
  lemma NormalizedFitsSheet(d: Decision, lender: string, req: BidRequest)
    requires 1 <= req.loan && d.decision != Decline
    ensures FitsSheet(Normalized(d, lender, req), lender, req)
    ensures RoundHalfEven(Least(d.maxAmount, MaxAllowed(lender, req) as real)) as real
            <= Normalized(d, lender, req).maxAmount
  {
    TablesAreSound(lender, req.reserveBps);
    var policy := AmountPolicyOf(lender);
    CeilingCoversLoan(policy, req);
    AmountIsBounded(policy, req, d.maxAmount);
    AprIsInBand(AprBand(lender), d.aprBps);
    ReserveIsStable(ReservePolicyOf(lender, req.reserveBps), d.reserveBps);
  }

  /** Exactly when a higher proposal ends up with a lower amount: the lower one is near par
      and lifted to the ceiling, the higher one is not, and rounds to less than the ceiling. */
  lemma ProposalOrderBreaksExactly(policy: AmountPolicy, req: BidRequest, low: real, high: real)
    requires Sound(policy) && 1 <= req.loan && low <= high
    ensures NormalAmount(policy, req, high) < NormalAmount(policy, req, low)
       <==> low <= req.loan as real * 1.01 < high && RoundHalfEven(high) < Ceiling(policy, req)
  {
    var ceiling := Ceiling(policy, req);
    CeilingCoversLoan(policy, req);
    AmountShape(low, req.loan, Multiple(policy, req), ceiling);
    AmountShape(high, req.loan, Multiple(policy, req), ceiling);
    RoundingIsMonotone(Least(low, ceiling as real), Least(high, ceiling as real));
    RoundingFixesGrid(ceiling);
    RoundingIsMonotone(Least(high, ceiling as real), high);
    RoundingKeepsGridBounds(high, ceiling, ceiling);
  }

  /** It does happen: on a loan of 100 micro-USDC with a ceiling of 108, a proposal of 103
      is left at 103 and one of 100 lifted to 108. */
  lemma LowProposalOvertakesHigher(req: BidRequest)
    requires req.Valid() && req.loan == 100 && req.fico == 700 && req.term == 60 && req.vehicle == New
    ensures var policy := AmountPolicyOf("prime-bank");
            NormalAmount(policy, req, 103.0) == 103 && NormalAmount(policy, req, 100.0) == 108
  {
    var policy := AmountPolicyOf("prime-bank");
    assert Multiple(policy, req) == 108.0;
    RoundingFixesGrid(108);
    RoundingFixesGrid(103);
    AmountShape(100.0, 100, 108.0, 108);
    AmountShape(103.0, 100, 108.0, 108);
  }
}
