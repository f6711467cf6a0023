/** data/bid_policies.py: the per-lender tables the underwriter's guardrails read, with the
    defaults used for a lender that is in none of them. */
module BidPolicies {
  import opened Models

  const MICRO := 1_000_000

  /** The published APR band, in basis points. */
  datatype Band = Band(lo: int, hi: int)

  function AprBand(lender: string): Band {
    match lender
    case "prime-bank" => Band(499, 1800)
    case "mid-market" => Band(169, 1600)
    case "subprime" => Band(995, 3000)
    case "used-only-cu" => Band(499, 1600)
    case "ev-captive" => Band(449, 900)
    case _ => Band(300, 3600)
  }

  datatype ReservePolicy = Fixed(bps: int) | CapToRequest(maxBps: int, defaultBps: int)

  /** An unknown lender defaults to the reserve the request asks for. */
  function ReservePolicyOf(lender: string, requested: int): ReservePolicy {
    match lender
    case "prime-bank" => CapToRequest(200, 200)
    case "mid-market" => CapToRequest(125, 75)
    case "subprime" => Fixed(0)
    case "used-only-cu" => Fixed(150)
    case "ev-captive" => Fixed(0)
    case _ => CapToRequest(200, requested)
  }

  /** Multipliers of the requested loan by credit score, a deduction for long terms, and a
      hard cap in micro-USDC. */
  datatype AmountPolicy = AmountPolicy(
    lowFico: real, standard: real, highFico: real, termPenaltyBps: int, hardCap: Option<int>)

  function AmountPolicyOf(lender: string): AmountPolicy {
    match lender
    case "prime-bank" => AmountPolicy(1.02, 1.08, 1.15, 500, None)
    case "mid-market" => AmountPolicy(1.00, 1.06, 1.10, 500, None)
    case "subprime" => AmountPolicy(1.20, 1.28, 1.30, 300, Some(50_000 * MICRO))
    case "used-only-cu" => AmountPolicy(1.00, 1.08, 1.15, 500, None)
    case "ev-captive" => AmountPolicy(1.00, 1.03, 1.06, 400, None)
    case _ => AmountPolicy(1.05, 1.05, 1.05, 0, None)
  }

  /** What the guardrails rely on, for every lender in the tables and every other. */
  lemma TablesAreSound(lender: string, requested: int)
    ensures var band := AprBand(lender); 0 < band.lo < band.hi <= 10_000
    ensures match ReservePolicyOf(lender, requested)
            case Fixed(bps) => 0 <= bps <= 500
            case CapToRequest(maxBps, _) => 0 < maxBps <= 500
    ensures var p := AmountPolicyOf(lender);
            && 1.0 <= p.lowFico <= p.standard <= p.highFico <= 1.3
            && 0 <= p.termPenaltyBps
            && (p.hardCap.Some? ==> 1 <= p.hardCap.value)
  {
  }
}
