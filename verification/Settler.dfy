/** marketplace/settler.py: the win premium and its three-way split. */
module Settler {
  import opened Quantize
  import opened Wallets

  const DEALER_PCT := 0.70
  const RESERVE_PCT := 0.05

  /** All four amounts are whole micro-USDC. */
  datatype Splits = Splits(premium: int, dealer: int, marketplace: int, reserve: int)

  function DealerShare(premium: int): int {
    RoundHalfEven(premium as real * DEALER_PCT)
  }

  function ReserveShare(premium: int): int {
    RoundHalfEven(premium as real * RESERVE_PCT)
  }

  function MarketplaceShare(premium: int): int {
    RoundHalfEven((premium - DealerShare(premium) - ReserveShare(premium)) as real)
  }

  function WinPremium(loan: int, rate: real): int {
    RoundedProduct(loan as real, rate)
  }

  function SplitPremium(premium: int): Splits {
    Splits(premium, DealerShare(premium), MarketplaceShare(premium), ReserveShare(premium))
  }

  function ComputeSplits(loan: int, rate: real): Splits {
    SplitPremium(WinPremium(loan, rate))
  }

  /** What the marketplace keeps over and above a quarter of the premium, in 1/20 micro. */
  function RemainderExcess(premium: int): int {
    20 * MarketplaceShare(premium) - 5 * premium
  }

  lemma MarketplaceTakesRemainder(premium: int)
    ensures MarketplaceShare(premium) == premium - DealerShare(premium) - ReserveShare(premium)
  {
    RoundingFixesGrid(premium - DealerShare(premium) - ReserveShare(premium));
  }

  /** Forty micro-USDC more of premium moves the shares by exactly 28, 10 and 2: an even
      number for the two rounded ones, so the rounding pattern repeats. */
  lemma SharesHavePeriodForty(premium: int, k: int)
    ensures DealerShare(premium + 40 * k) == DealerShare(premium) + 28 * k
    ensures ReserveShare(premium + 40 * k) == ReserveShare(premium) + 2 * k
    ensures MarketplaceShare(premium + 40 * k) == MarketplaceShare(premium) + 10 * k
    ensures RemainderExcess(premium + 40 * k) == RemainderExcess(premium)
  {
    assert (premium + 40 * k) as real * DEALER_PCT == premium as real * DEALER_PCT + (2 * (14 * k)) as real;
    assert (premium + 40 * k) as real * RESERVE_PCT == premium as real * RESERVE_PCT + (2 * k) as real;
    RoundingShiftsByEven(premium as real * DEALER_PCT, 14 * k);
    RoundingShiftsByEven(premium as real * RESERVE_PCT, k);
    MarketplaceTakesRemainder(premium);
    MarketplaceTakesRemainder(premium + 40 * k);
  }

  /** One period, checked residue by residue. */
  lemma RemainderOverOnePeriod(premium: int)
    requires 0 <= premium < 40
    ensures -15 <= RemainderExcess(premium) <= 15
  {
    MarketplaceTakesRemainder(premium);
  }

  /** The marketplace's share is within three quarters of a micro-USDC of its 25 percent:
      tighter than the whole micro that two independent rounding errors would allow. */
  lemma MarketplaceWithinThreeQuarters(premium: int)
    ensures -0.75 <= MarketplaceShare(premium) as real - 0.25 * premium as real <= 0.75
  {
    var k, residue := premium / 40, premium % 40;
    SharesHavePeriodForty(residue, k);
    RemainderOverOnePeriod(residue);
    assert premium == residue + 40 * k;
  }

  lemma SharesOfPremium(premium: int)
    requires 0 <= premium
    ensures 0 <= DealerShare(premium) && 0 <= MarketplaceShare(premium) && 0 <= ReserveShare(premium)
    ensures DealerShare(premium) + MarketplaceShare(premium) + ReserveShare(premium) == premium
    ensures 0 < DealerShare(premium) && 0 < MarketplaceShare(premium) && 0 < ReserveShare(premium)
       <==> 11 <= premium
  {
    MarketplaceTakesRemainder(premium);
    MarketplaceWithinThreeQuarters(premium);
  }

  lemma SharesGrowWithPremium(p: int, q: int)
    requires p <= q
    ensures DealerShare(p) <= DealerShare(q) && ReserveShare(p) <= ReserveShare(q)
    ensures MarketplaceShare(p) <= MarketplaceShare(q) + 1
  {
    RoundingIsMonotone(p as real * DEALER_PCT, q as real * DEALER_PCT);
    RoundingIsMonotone(p as real * RESERVE_PCT, q as real * RESERVE_PCT);
    MarketplaceWithinThreeQuarters(p);
    MarketplaceWithinThreeQuarters(q);
  }

  lemma PremiumIsNonNegative(loan: int, rate: real)
    requires 0 <= loan && 0.0 <= rate
    ensures 0 <= WinPremium(loan, rate)
  {
    ProductIsMonotone(0.0, loan as real, rate);
    RoundingKeepsGridBounds(loan as real * rate, 0, 0);
  }

  lemma PremiumGrowsWithLoan(small: int, large: int, rate: real)
    requires small <= large && 0.0 <= rate
    ensures WinPremium(small, rate) <= WinPremium(large, rate)
  {
    RoundedProductIsMonotone(small as real, large as real, rate);
  }

  /** The three shares are never negative and add up to the premium, for every loan and
      rate the schema admits; and every leg is a positive amount, as a transfer demands,
      if and only if the premium is at least eleven micro-USDC. */
  lemma SplitsAreExact(loan: int, rate: real)
    requires 0 <= loan && 0.0 <= rate
    ensures var s := ComputeSplits(loan, rate);
            && 0 <= s.dealer && 0 <= s.marketplace && 0 <= s.reserve
            && s.dealer + s.marketplace + s.reserve == s.premium
            && (0 < s.dealer && 0 < s.marketplace && 0 < s.reserve <==> 11 <= s.premium)
  {
    PremiumIsNonNegative(loan, rate);
    SharesOfPremium(WinPremium(loan, rate));
  }

  /** A larger loan never lowers the premium, the dealer's share or the reserve; the
      marketplace's remainder can fall, but by one micro-USDC at most. */
  lemma SplitsGrowWithLoan(small: int, large: int, rate: real)
    requires small <= large && 0.0 <= rate
    ensures var s, t := ComputeSplits(small, rate), ComputeSplits(large, rate);
            && s.premium <= t.premium && s.dealer <= t.dealer && s.reserve <= t.reserve
            && s.marketplace <= t.marketplace + 1
  {
    PremiumGrowsWithLoan(small, large, rate);
    SharesGrowWithPremium(WinPremium(small, rate), WinPremium(large, rate));
  }

  /** The rounded shares, without reals: how far each is from its exact value, in tenths
      and twentieths of a micro-USDC. */
  lemma SharesInWholeNumbers(premium: int)
    ensures var d, r := 7 * premium - 10 * DealerShare(premium), premium - 20 * ReserveShare(premium);
            && -5 <= d <= 5 && -10 <= r <= 10
            && (d == 5 || d == -5 ==> DealerShare(premium) % 2 == 0)
            && (r == 10 || r == -10 ==> ReserveShare(premium) % 2 == 0)
            && RemainderExcess(premium) == 2 * d + r
  {
    MarketplaceTakesRemainder(premium);
  }

  /** Where, in one period of forty, the marketplace is half a micro-USDC or more above
      (below) its quarter. */
  predicate AtPeak(residue: int, excess: int) {
    && -15 <= excess <= 15
    && (10 <= excess ==> residue == 2 || residue == 6 || residue == 9 || residue == 10
                         || residue == 22 || residue == 26 || residue == 29)
    && (excess <= -10 ==> residue == 11 || residue == 14 || residue == 18 || residue == 30
                          || residue == 31 || residue == 34 || residue == 38)
    && (residue == 10 || residue == 29 ==> 10 <= excess)
    && (residue == 11 || residue == 30 ==> excess <= -10)
  }

  /** ... and where it is as far above (below) as it gets. */
  predicate AtExtreme(residue: int, excess: int) {
    && (residue == 9 || residue == 29 <==> excess == 15)
    && (residue == 11 || residue == 31 <==> excess == -15)
  }

  /** The rounding errors of one premium: of the dealer's share in tenths and of the
      reserve in twentieths of a micro-USDC. */
  lemma ErrorPeaks(premium: int, dealer: int, reserve: int)
    requires 0 <= premium < 40
    requires -5 <= 7 * premium - 10 * dealer <= 5 && -10 <= premium - 20 * reserve <= 10
    requires 7 * premium - 10 * dealer == -5 || 7 * premium - 10 * dealer == 5 ==> dealer % 2 == 0
    requires premium - 20 * reserve == -10 || premium - 20 * reserve == 10 ==> reserve % 2 == 0
    ensures AtPeak(premium, 2 * (7 * premium - 10 * dealer) + (premium - 20 * reserve))
  {
    assert dealer == (7 * premium + 5) / 10 || dealer == (7 * premium - 5) / 10;
    assert reserve == 0 || reserve == 1 || reserve == 2;
  }

  lemma ErrorExtremes(premium: int, dealer: int, reserve: int)
    requires 0 <= premium < 40
    requires -5 <= 7 * premium - 10 * dealer <= 5 && -10 <= premium - 20 * reserve <= 10
    requires 7 * premium - 10 * dealer == -5 || 7 * premium - 10 * dealer == 5 ==> dealer % 2 == 0
    requires premium - 20 * reserve == -10 || premium - 20 * reserve == 10 ==> reserve % 2 == 0
    ensures AtExtreme(premium, 2 * (7 * premium - 10 * dealer) + (premium - 20 * reserve))
  {
    assert dealer == (7 * premium + 5) / 10 || dealer == (7 * premium - 5) / 10;
    assert reserve == 0 || reserve == 1 || reserve == 2;
  }

  lemma ExcessPeaks(premium: int)
    ensures AtPeak(premium % 40, RemainderExcess(premium))
    ensures AtExtreme(premium % 40, RemainderExcess(premium))
  {
    var k, residue := premium / 40, premium % 40;
    assert premium == residue + 40 * k;
    SharesHavePeriodForty(residue, k);
    SharesInWholeNumbers(residue);
    ErrorPeaks(residue, DealerShare(residue), ReserveShare(residue));
    ErrorExtremes(residue, DealerShare(residue), ReserveShare(residue));
  }

  lemma NextResidue(premium: int)
    ensures (premium + 1) % 40 == if premium % 40 == 39 then 0 else premium % 40 + 1
  {
  }

  lemma SteepOnlyFromPeak(residue: int, residue': int, excess: int, next: int)
    requires 0 <= residue < 40 && residue' == if residue == 39 then 0 else residue + 1
    requires next - excess <= -25 || -5 <= next - excess
    requires AtPeak(residue, excess) && AtPeak(residue', next)
    ensures next - excess <= -25 <==> residue == 10 || residue == 29
  {
  }

  lemma FallIsSteep(premium: int, share: int, next: int)
    ensures var step := (20 * next - 5 * (premium + 1)) - (20 * share - 5 * premium);
            (next < share <==> step <= -25) && (share <= next <==> -5 <= step)
  {
  }

  /** Where one more micro-USDC of premium costs the marketplace one: at two residues of
      every forty, where the dealer's and the reserve's share round up together. */
  lemma MarketplaceFallsInOneStep(premium: int)
    ensures MarketplaceShare(premium + 1) < MarketplaceShare(premium)
       <==> premium % 40 == 10 || premium % 40 == 29
  {
    ExcessPeaks(premium);
    ExcessPeaks(premium + 1);
    NextResidue(premium);
    FallIsSteep(premium, MarketplaceShare(premium), MarketplaceShare(premium + 1));
    SteepOnlyFromPeak(premium % 40, (premium + 1) % 40, RemainderExcess(premium), RemainderExcess(premium + 1));
  }

  /** Two more micro-USDC cost it one from the two highest peaks, which the two lowest
      places follow. */
  lemma MarketplaceFallsInTwoSteps(premium: int)
    ensures MarketplaceShare(premium + 2) < MarketplaceShare(premium)
       <==> premium % 40 == 9 || premium % 40 == 29
  {
    ExcessPeaks(premium);
    ExcessPeaks(premium + 2);
    NextResidue(premium);
    NextResidue(premium + 1);
    assert 20 * MarketplaceShare(premium) == 5 * premium + RemainderExcess(premium);
    assert 20 * MarketplaceShare(premium + 2) == 5 * (premium + 2) + RemainderExcess(premium + 2);
  }

  /** From three micro-USDC on, more premium never costs it anything. */
  lemma MarketplaceRecoversFromThree(p: int, q: int)
    requires p + 3 <= q
    ensures MarketplaceShare(p) <= MarketplaceShare(q)
  {
    MarketplaceWithinThreeQuarters(p);
    MarketplaceWithinThreeQuarters(q);
  }

  predicate CostsTheMarketplace(p: int, q: int) {
    || (p % 40 == 9 && q == p + 2)
    || (p % 40 == 10 && q == p + 1)
    || (p % 40 == 29 && (q == p + 1 || q == p + 2))
  }

  /** Exactly when a larger premium leaves the marketplace less, for any two premiums. */
  lemma MarketplaceFallsExactly(p: int, q: int)
    requires p <= q
    ensures MarketplaceShare(q) < MarketplaceShare(p) <==> CostsTheMarketplace(p, q)
  {
    if p + 3 <= q {
      MarketplaceRecoversFromThree(p, q);
    } else {
      MarketplaceFallsInOneStep(p);
      MarketplaceFallsInTwoSteps(p);
    }
  }

  /** ... and for any two loans at any rate, by the premiums they come to. */
  lemma LargerLoanCostsMarketplaceExactly(small: int, large: int, rate: real)
    requires small <= large && 0.0 <= rate
    ensures ComputeSplits(large, rate).marketplace < ComputeSplits(small, rate).marketplace
       <==> CostsTheMarketplace(WinPremium(small, rate), WinPremium(large, rate))
  {
    PremiumGrowsWithLoan(small, large, rate);
    MarketplaceFallsExactly(WinPremium(small, rate), WinPremium(large, rate));
  }

  /** The fall in figures: a premium of 10 micro leaves the marketplace 3, one of 11 only 2. */
  lemma MarketplaceShareIsNotMonotone()
    ensures MarketplaceShare(10) == 3 && MarketplaceShare(11) == 2
  {
    MarketplaceTakesRemainder(10);
    MarketplaceTakesRemainder(11);
  }

  // ----- wallets -----

  datatype PayoutWallets = PayoutWallets(source: string, dealer: string, marketplace: string, reserve: string)

  datatype WalletError = NoMarketplaceWallet | NoReserveWallet | NoDealerWallet

  datatype Resolution = Resolved(wallets: PayoutWallets) | Unresolved(error: WalletError)

  /** Wallet identifiers from the settings and from wallets.json; missing means empty. */
  datatype WalletSettings = WalletSettings(
    marketplaceSetting: string, reserveSetting: string,
    marketplaceFile: string, reserveFile: string, dealerFile: string)

  function OrElse(first: string, second: string): string {
    if first != "" then first else second
  }

  function ResolvePayoutWallets(w: WalletSettings): Resolution {
    var marketplace := OrElse(w.marketplaceSetting, w.marketplaceFile);
    var reserve := OrElse(w.reserveSetting, w.reserveFile);
    if marketplace == "" then Unresolved(NoMarketplaceWallet)
    else if reserve == "" then Unresolved(NoReserveWallet)
    else if w.dealerFile == "" then Unresolved(NoDealerWallet)
    else Resolved(PayoutWallets(marketplace, w.dealerFile, marketplace, reserve))
  }

  function SettlementPayouts(w: PayoutWallets, s: Splits): seq<Payout> {
    [Payout(w.dealer, s.dealer), Payout(w.marketplace, s.marketplace), Payout(w.reserve, s.reserve)]
  }

  /** Resolution succeeds exactly when each of the three wallets is named somewhere.  The
      marketplace's and the reserve's are named by the settings, or else by the file, the
      dealer's by the file; and the wallet that pays is the one the marketplace's own cut
      returns to. */
  lemma ResolutionNamesWallets(w: WalletSettings)
    ensures ResolvePayoutWallets(w).Resolved? <==>
            && (w.marketplaceSetting != "" || w.marketplaceFile != "")
            && (w.reserveSetting != "" || w.reserveFile != "")
            && w.dealerFile != ""
    ensures ResolvePayoutWallets(w).Resolved? ==>
              var named := ResolvePayoutWallets(w).wallets;
              && named.source == named.marketplace
              && named.marketplace == (if w.marketplaceSetting != "" then w.marketplaceSetting else w.marketplaceFile)
              && named.reserve == (if w.reserveSetting != "" then w.reserveSetting else w.reserveFile)
              && named.dealer == w.dealerFile
  {
  }

  /** On a network that refuses nothing, the three-way payment goes through whole if and
      only if the premium is at least eleven micro-USDC. */
  lemma SettlementGoesThroughFromEleven(loan: int, rate: real, w: PayoutWallets, place: nat)
    requires 0 <= loan && 0.0 <= rate
    ensures LandedCount(SettlementPayouts(w, ComputeSplits(loan, rate)), place, {}) == 3
       <==> 11 <= WinPremium(loan, rate)
  {
    var s := ComputeSplits(loan, rate);
    var payouts := SettlementPayouts(w, s);
    SplitsAreExact(loan, rate);
    var n := LandedCount(payouts, place, {});
    assert 0 < n ==> Lands(payouts[0], place, {});
    assert 1 < n ==> Lands(payouts[1], place + 1, {});
    assert 2 < n ==> Lands(payouts[2], place + 2, {});
  }

  /** What a completed settlement does to every wallet: the three shares go in where they are
      meant to, and all of them come out of the wallet that pays. */
  lemma SettlementMovesShares(balances: Balances, w: PayoutWallets, s: Splits, wallet: string)
    ensures var after := LandAll(balances, TransfersTo(w.source, SettlementPayouts(w, s)));
            BalanceOf(after, wallet) ==
            BalanceOf(balances, wallet)
            + (if wallet == w.dealer then s.dealer else 0)
            + (if wallet == w.marketplace then s.marketplace else 0)
            + (if wallet == w.reserve then s.reserve else 0)
            - (if wallet == w.source then s.dealer + s.marketplace + s.reserve else 0)
  {
    var ts := TransfersTo(w.source, SettlementPayouts(w, s));
    assert ts[..2][..1][..0] == [];
    assert ts[..2][..1] == ts[..1] && ts[..1][..0] == [];
    var one := Land(balances, ts[0]);
    assert LandAll(balances, ts[..1]) == one;
    var two := Land(one, ts[1]);
    assert LandAll(balances, ts[..2]) == two;
    assert LandAll(balances, ts) == Land(two, ts[2]);
  }

  /** A completed settlement costs the marketplace's wallet exactly the dealer's share and
      the reserve: its own cut comes back to it.  (A dealer or reserve wallet that is the
      marketplace's own costs nothing.) */
  lemma SettlementCostsDealerPlusReserve(balances: Balances, w: PayoutWallets, s: Splits)
    requires w.source == w.marketplace
    ensures var after := LandAll(balances, TransfersTo(w.source, SettlementPayouts(w, s)));
            BalanceOf(after, w.source) ==
            BalanceOf(balances, w.source)
            - (if w.dealer != w.source then s.dealer else 0)
            - (if w.reserve != w.source then s.reserve else 0)
  {
    SettlementMovesShares(balances, w, s, w.source);
  }
}
