/** marketplace/routes/treasury.py: what the marketplace reports to have earned and paid.

    The report multiplies the sum of the settled loans by the rate and splits the product
    once; it never adds up the splits that were paid.  The two drift apart by rounding. */
module Treasury {
  import opened Models
  import opened Quantize
  import opened Settler
  import opened Ledger
  import Protocol
  import Interleaving

  datatype Stats = Stats(
    totalBids: nat,
    totalSettlements: nat,
    insertionFees: real,
    totals: Splits)

  /** The inner join of settlement rows with their requests, projected on the loan. */
  function JoinedLoans(rows: seq<Settlement>, requests: map<Id, BidRequest>): seq<int> {
    if rows == [] then []
    else
      var last := rows[|rows| - 1];
      JoinedLoans(rows[..|rows| - 1], requests)
      + (if last.request in requests then [requests[last.request].loan] else [])
  }

  function SumOf(loans: seq<int>): int {
    if loans == [] then 0 else SumOf(loans[..|loans| - 1]) + loans[|loans| - 1]
  }

  /** `get_treasury_stats`. */
  function TreasuryStats(store: Store, rate: real, insertionFee: real): Stats {
    var premium := RoundedProduct(SumOf(JoinedLoans(store.settlements, store.requests)) as real, rate);
    var dealer := RoundHalfEven(premium as real * 0.70);
    var reserve := RoundHalfEven(premium as real * 0.05);
    var marketplace := RoundHalfEven((premium - dealer - reserve) as real);
    Stats(|store.bids|, |store.settlements|, |store.bids| as real * insertionFee,
          Splits(premium, dealer, marketplace, reserve))
  }

  /** Nothing happened, nothing is reported. */
  lemma EmptyStoreReportsNothing(rate: real, fee: real)
    ensures TreasuryStats(Store(map[], map[], []), rate, fee) == Stats(0, 0, 0.0, Splits(0, 0, 0, 0))
  {
    RoundingFixesGrid(0);
    assert Times(0.0, rate) == 0.0;
  }

  /** Each bid filed adds one bid and exactly one fee to the report, and nothing else. */
  lemma FiledBidRaisesFees(store: Store, rate: real, fee: real, bid: Bid)
    requires bid.id !in store.bids
    ensures var before, after :=
              TreasuryStats(store, rate, fee), TreasuryStats(store.(bids := store.bids[bid.id := bid]), rate, fee);
            after == before.(totalBids := before.totalBids + 1, insertionFees := before.insertionFees + fee)
  {
    var n := |store.bids| as real;
    assert |store.bids[bid.id := bid]| == |store.bids| + 1;
    assert (n + 1.0) * fee == n * fee + fee;
  }

  /** Each settlement inserted adds one settlement to the report, and the loan of its request
      to the loans whose premium is split. */
  lemma InsertedRowRaisesSettlements(store: Store, rate: real, fee: real, row: Settlement)
    requires row.request in store.requests
    ensures var before, after :=
              TreasuryStats(store, rate, fee),
                TreasuryStats(store.(settlements := store.settlements + [row]), rate, fee);
            && after.totalSettlements == before.totalSettlements + 1
            && after.totalBids == before.totalBids && after.insertionFees == before.insertionFees
    ensures SumOf(JoinedLoans(store.settlements + [row], store.requests)) ==
            SumOf(JoinedLoans(store.settlements, store.requests)) + store.requests[row.request].loan
  {
    assert (store.settlements + [row])[..|store.settlements|] == store.settlements;
    var loans, loan := JoinedLoans(store.settlements, store.requests), store.requests[row.request].loan;
    assert (loans + [loan])[..|loans|] == loans;
  }

  // ----- the drift -----

  function Plus(s: Splits, t: Splits): Splits {
    Splits(s.premium + t.premium, s.dealer + t.dealer, s.marketplace + t.marketplace, s.reserve + t.reserve)
  }

  /** The splits of the loans, each computed on its own, added up. */
  function SumOfSplits(loans: seq<int>, rate: real): Splits {
    if loans == [] then Splits(0, 0, 0, 0)
    else Plus(SumOfSplits(loans[..|loans| - 1], rate), ComputeSplits(loans[|loans| - 1], rate))
  }

  /** `s` is within `n` roundings of the exact splits of an unrounded premium `x`. */
  predicate Near(s: Splits, x: real, n: nat) {
    && -0.5 * n as real <= s.premium as real - x <= 0.5 * n as real
    && -0.85 * n as real <= s.dealer as real - 0.70 * x <= 0.85 * n as real
    && -0.525 * n as real <= s.reserve as real - 0.05 * x <= 0.525 * n as real
    && -0.875 * n as real <= s.marketplace as real - 0.25 * x <= 0.875 * n as real
  }

  /** The unrounded premium. */
  function ExactPremium(loan: int, rate: real): real {
    loan as real * rate
  }

  function ExactTotal(loans: seq<int>, rate: real): real {
    if loans == [] then 0.0
    else ExactTotal(loans[..|loans| - 1], rate) + ExactPremium(loans[|loans| - 1], rate)
  }

  lemma {:induction false} ExactTotalIsSumTimesRate(loans: seq<int>, rate: real)
    ensures ExactTotal(loans, rate) == ExactPremium(SumOf(loans), rate)
  {
    if loans != [] {
      var a, b := SumOf(loans[..|loans| - 1]), loans[|loans| - 1];
      ExactTotalIsSumTimesRate(loans[..|loans| - 1], rate);
      assert (a + b) as real * rate == a as real * rate + b as real * rate;
    }
  }

  lemma PremiumIsNear(x: real)
    ensures Near(SplitPremium(RoundHalfEven(x)), x, 1)
  {
    MarketplaceWithinThreeQuarters(RoundHalfEven(x));
  }

  lemma OneSplitIsNear(loan: int, rate: real)
    ensures Near(ComputeSplits(loan, rate), ExactPremium(loan, rate), 1)
  {
    PremiumIsNear(ExactPremium(loan, rate));
  }

  lemma SumsAreNear(s: Splits, x: real, n: nat, t: Splits, y: real)
    requires Near(s, x, n) && Near(t, y, 1)
    ensures Near(Plus(s, t), x + y, n + 1)
  {
  }

  lemma {:induction false} SumOfSplitsIsNear(loans: seq<int>, rate: real)
    ensures Near(SumOfSplits(loans, rate), ExactTotal(loans, rate), |loans|)
  {
    if loans != [] {
      var init, last := loans[..|loans| - 1], loans[|loans| - 1];
      SumOfSplitsIsNear(init, rate);
      OneSplitIsNear(last, rate);
      SumsAreNear(SumOfSplits(init, rate), ExactTotal(init, rate), |init|, ComputeSplits(last, rate),
        ExactPremium(last, rate));
    }
  }

  /** How far apart two splits of the same exact premium can be. */
  predicate Drift(s: Splits, t: Splits, n: nat) {
    && -0.5 * n as real <= (s.premium - t.premium) as real <= 0.5 * n as real
    && -0.85 * n as real <= (s.dealer - t.dealer) as real <= 0.85 * n as real
    && -0.525 * n as real <= (s.reserve - t.reserve) as real <= 0.525 * n as real
    && -0.875 * n as real <= (s.marketplace - t.marketplace) as real <= 0.875 * n as real
  }

  lemma NearIsDrift(s: Splits, t: Splits, x: real, n: nat)
    requires Near(s, x, 1) && Near(t, x, n)
    ensures Drift(s, t, n + 1)
  {
  }

  lemma ReportSplitsTheSum(store: Store, rate: real, fee: real)
    ensures var totals := TreasuryStats(store, rate, fee).totals;
            && totals == ComputeSplits(SumOf(JoinedLoans(store.settlements, store.requests)), rate)
            && totals.dealer + totals.marketplace + totals.reserve == totals.premium
  {
    MarketplaceTakesRemainder(TreasuryStats(store, rate, fee).totals.premium);
  }

  lemma SplitOfSumDrifts(loans: seq<int>, rate: real)
    ensures Drift(ComputeSplits(SumOf(loans), rate), SumOfSplits(loans, rate), |loans| + 1)
  {
    OneSplitIsNear(SumOf(loans), rate);
    SumOfSplitsIsNear(loans, rate);
    ExactTotalIsSumTimesRate(loans, rate);
    NearIsDrift(ComputeSplits(SumOf(loans), rate), SumOfSplits(loans, rate), ExactTotal(loans, rate), |loans|);
  }

  /** For any settled loans and any rate: the reported figures are within (n + 1) roundings
      of the sums of the splits computed one by one -- half a micro-USDC a row for the
      premium, 0.85 for the dealers, 0.525 for the reserve, 0.875 for the marketplace --
      while the three reported parts add up to the reported total exactly. */
  lemma ReportedTotalsDriftByRounding(store: Store, rate: real, fee: real)
    ensures var loans := JoinedLoans(store.settlements, store.requests);
            var totals := TreasuryStats(store, rate, fee).totals;
            && Drift(totals, SumOfSplits(loans, rate), |loans| + 1)
            && totals.dealer + totals.marketplace + totals.reserve == totals.premium
  {
    ReportSplitsTheSum(store, rate, fee);
    SplitOfSumDrifts(JoinedLoans(store.settlements, store.requests), rate);
  }

  // ----- against the chain -----

  /** What the recorded transfers of the settlement rows paid out, part by part. */
  function PaidOut(rows: seq<Settlement>, chain: seq<Protocol.Leg>): Splits {
    if rows == [] then Splits(0, 0, 0, 0)
    else
      var last := rows[|rows| - 1];
      var dealer, marketplace, reserve :=
        AmountAt(chain, last.dealerTx), AmountAt(chain, last.marketplaceTx), AmountAt(chain, last.reserveTx);
      Plus(PaidOut(rows[..|rows| - 1], chain), Splits(dealer + marketplace + reserve, dealer, marketplace, reserve))
  }

  function AmountAt(chain: seq<Protocol.Leg>, place: nat): int {
    if place < |chain| then chain[place].payment.amount else 0
  }

  lemma RowPaidItsSplits(cfg: Protocol.Config, s: Protocol.State, row: Settlement)
    requires Interleaving.PaidFor(cfg, s, row)
    ensures var t := ComputeSplits(s.store.requests[row.request].loan, cfg.rate);
            && AmountAt(s.chain, row.dealerTx) == t.dealer
            && AmountAt(s.chain, row.marketplaceTx) == t.marketplace
            && AmountAt(s.chain, row.reserveTx) == t.reserve
            && t.dealer + t.marketplace + t.reserve == t.premium
  {
    MarketplaceTakesRemainder(WinPremium(s.store.requests[row.request].loan, cfg.rate));
  }

  lemma {:induction false} PaidOutIsSumOfSplits(cfg: Protocol.Config, s: Protocol.State, rows: seq<Settlement>)
    requires forall row :: row in rows ==> Interleaving.PaidFor(cfg, s, row)
    ensures var loans := JoinedLoans(rows, s.store.requests);
            |loans| == |rows| && PaidOut(rows, s.chain) == SumOfSplits(loans, cfg.rate)
  {
    if rows != [] {
      var init, last := rows[..|rows| - 1], rows[|rows| - 1];
      assert last in rows && forall row :: row in init ==> row in rows;
      PaidOutIsSumOfSplits(cfg, s, init);
      RowPaidItsSplits(cfg, s, last);
      var loans := JoinedLoans(rows, s.store.requests);
      assert loans == JoinedLoans(init, s.store.requests) + [s.store.requests[last.request].loan];
      assert loans[..|loans| - 1] == JoinedLoans(init, s.store.requests);
    }
  }

  /** At every moment of every run of the marketplace, whatever interleaves: the treasury's
      figures are within (n + 1) roundings of what its n settlements really paid out. */
  lemma TreasuryTracksChain(cfg: Protocol.Config, trace: seq<Protocol.State>, actions: seq<Protocol.Action>, i: nat,
                            fee: real)
    requires Protocol.Run(cfg, trace, actions) && i < |trace|
    ensures var s := trace[i];
            Drift(TreasuryStats(s.store, cfg.rate, fee).totals, PaidOut(s.store.settlements, s.chain),
              |s.store.settlements| + 1)
  {
    var s := trace[i];
    Interleaving.EveryRunKeepsInv(cfg, trace, actions, i);
    forall row | row in s.store.settlements
      ensures Interleaving.PaidFor(cfg, s, row)
    {
      assert Interleaving.SettlementOk(cfg, s, row);
    }
    PaidOutIsSumOfSplits(cfg, s, s.store.settlements);
    ReportedTotalsDriftByRounding(s.store, cfg.rate, fee);
  }
}
