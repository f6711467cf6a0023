/** agents/underwriter.py: from whatever the model answered to a decision that fits the
    lender's published sheet. */
module Underwriter {
  import opened Models
  import opened Quantize
  import opened BidPolicies

  // ----- the guardrails, one quantity at a time -----

  function Clamp(lo: int, hi: int, x: int): int {
    if hi < x then (if hi < lo then lo else hi) else if x < lo then lo else x
  }

  /** The reserve: a fixed one, or the proposed one capped, zero meaning the default. */
  function NormalReserve(policy: ReservePolicy, proposed: int): int {
    match policy
    case Fixed(bps) => bps
    case CapToRequest(maxBps, defaultBps) =>
      Clamp(0, maxBps, if proposed == 0 then defaultBps else proposed)
  }

  /** An APR above the band is read one, then two decimal places lower if that falls inside;
      whatever is left is clamped. */
  function NormalApr(band: Band, apr: int): int {
    var tenth, hundredth := RoundHalfEven(apr as real / 10.0), RoundHalfEven(apr as real / 100.0);
    if apr <= band.hi then Clamp(band.lo, band.hi, apr)
    else if band.lo <= tenth <= band.hi then tenth
    else if band.lo <= hundredth <= band.hi then hundredth
    else Clamp(band.lo, band.hi, apr)
  }

  function AtLeastPar(multiplier: real): real {
    if multiplier < 1.0 then 1.0 else multiplier
  }

  function Multiplier(policy: AmountPolicy, req: BidRequest): real {
    var byScore :=
      if req.fico >= 740 then policy.highFico
      else if req.fico < 620 then policy.lowFico
      else policy.standard;
    var byTerm := if req.term > 72 then AtLeastPar(byScore - policy.termPenaltyBps as real / 10000.0) else byScore;
    match req.vehicle
    case Used => AtLeastPar(byTerm - 0.02)
    case Ev => byTerm + 0.01
    case New => byTerm
  }

  function Cap(amount: int, hardCap: Option<int>): int {
    if hardCap.Some? && hardCap.value < amount then hardCap.value else amount
  }

  /** The full policy multiple of the loan, before rounding. */
  function Multiple(policy: AmountPolicy, req: BidRequest): real {
    Times(req.loan as real, Multiplier(policy, req))
  }

  /** The most a policy allows on a request, in micro-USDC. */
  function Ceiling(policy: AmountPolicy, req: BidRequest): int {
    Cap(RoundHalfEven(Multiple(policy, req)), policy.hardCap)
  }

  function MaxAllowed(lender: string, req: BidRequest): int {
    Ceiling(AmountPolicyOf(lender), req)
  }

  function Least(x: real, y: real): real {
    if x <= y then x else y
  }

  /** The amount, step by step as the code reassigns it: missing proposals become the loan,
      near-par ones the full policy multiple, and all are held to the ceiling. */
  function AmountFrom(proposed: real, loan: int, multiple: real, ceiling: int): int {
    var positive := if proposed <= 0.0 then loan as real else proposed;
    var lifted := if positive <= loan as real * 1.01 then multiple else positive;
    RoundHalfEven(Least(lifted, ceiling as real))
  }

  function NormalAmount(policy: AmountPolicy, req: BidRequest, proposed: real): int {
    AmountFrom(proposed, req.loan, Multiple(policy, req), Ceiling(policy, req))
  }

  function Normalized(d: Decision, lender: string, req: BidRequest): Decision {
    var reserve := NormalReserve(ReservePolicyOf(lender, req.reserveBps), d.reserveBps);
    if d.decision == Decline then
      d.(aprBps := 0, maxAmount := 0.0, cashDown := 0.0, term := req.term, reserveBps := reserve)
    else
      d.(aprBps := NormalApr(AprBand(lender), d.aprBps), reserveBps := reserve,
         maxAmount := NormalAmount(AmountPolicyOf(lender), req, d.maxAmount) as real)
  }

  /** `_normalize_decision`, as written. */
  method NormalizeDecision(d: Decision, lender: string, req: BidRequest) returns (r: Decision)
    ensures r == Normalized(d, lender, req)
  {
    var reserve: int;
    match ReservePolicyOf(lender, req.reserveBps) {
      case Fixed(bps) => reserve := bps;
      case CapToRequest(maxBps, defaultBps) =>
        reserve := if d.reserveBps == 0 then defaultBps else d.reserveBps;
        if maxBps < reserve {
          reserve := maxBps;
        }
        if reserve < 0 {
          reserve := 0;
        }
    }
    if d.decision == Decline {
      return d.(aprBps := 0, maxAmount := 0.0, cashDown := 0.0, term := req.term, reserveBps := reserve);
    }
    var apr := RescaleApr(AprBand(lender), d.aprBps);

    var amount := LimitAmount(AmountPolicyOf(lender), req, d.maxAmount);
    r := d.(aprBps := apr, reserveBps := reserve, maxAmount := amount as real);
  }

  /** The part of `_normalize_decision` that works out the amount. */
  method LimitAmount(policy: AmountPolicy, req: BidRequest, given: real) returns (amount: int)
    ensures amount == NormalAmount(policy, req, given)
  {
    var multiplier := ApplyAdjustments(policy, req);
    var multiple := Times(req.loan as real, multiplier);
    var ceiling := RoundHalfEven(multiple);
    if policy.hardCap.Some? && policy.hardCap.value < ceiling {
      ceiling := policy.hardCap.value;
    }
    var proposed := given;
    if proposed <= 0.0 {
      proposed := req.loan as real;
    }
    if proposed <= req.loan as real * 1.01 {
      proposed := multiple;
    }
    amount := RoundHalfEven(Least(proposed, ceiling as real));
  }

  /** The multiplier, adjusted for score, term and vehicle in turn. */
  method ApplyAdjustments(policy: AmountPolicy, req: BidRequest) returns (multiplier: real)
    ensures multiplier == Multiplier(policy, req)
  {
    multiplier := policy.standard;
    if req.fico >= 740 {
      multiplier := policy.highFico;
    } else if req.fico < 620 {
      multiplier := policy.lowFico;
    }
    if req.term > 72 {
      multiplier := AtLeastPar(multiplier - policy.termPenaltyBps as real / 10000.0);
    }
    if req.vehicle == Used {
      multiplier := AtLeastPar(multiplier - 0.02);
    } else if req.vehicle == Ev {
      multiplier := multiplier + 0.01;
    }
  }

  /** The factor loop: the first scaled value inside the band wins. */
  method RescaleApr(band: Band, given: int) returns (apr: int)
    ensures apr == NormalApr(band, given)
  {
    apr := given;
    if apr > band.hi {
      var factors := [10.0, 100.0];
      var i := 0;
      while i < |factors|
        invariant 0 <= i <= 2 && apr == given
        invariant forall k :: 0 <= k < i ==>
                    !(band.lo <= RoundHalfEven(given as real / factors[k]) <= band.hi)
      {
        var scaled := RoundHalfEven(apr as real / factors[i]);
        if band.lo <= scaled <= band.hi {
          assert i == 1 ==> factors[0] == 10.0;
          apr := scaled;
          return;
        }
        i := i + 1;
      }
      assert factors[0] == 10.0 && factors[1] == 100.0;
    }
    apr := Clamp(band.lo, band.hi, apr);
  }
}
