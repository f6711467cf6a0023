/** marketplace/routes/settle.py, `accept_bid` run without interruption: the method as
    written, against what it makes of the ledger and the chain. */
module SettleRoute {
  import opened Models
  import opened Ledger
  import opened Settler
  import opened Wallets
  import opened Exclusive

  /** The code the handler answers with: the first check that fails decides. */
  function AcceptCode(store: Store, wallets: Resolution, rate: real, rid: Id, bid: Id,
                      place: nat, refused: Refusals): int {
    if rid !in store.requests then 404
    else if store.requests[rid].status != RequestOpen then 409
    else if !store.BidOf(bid, rid) then 404
    else if store.bids[bid].status != BidOpen then 409
    else if wallets.Unresolved? then 503
    else
      var payouts := SettlementPayouts(wallets.wallets, ComputeSplits(store.requests[rid].loan, rate));
      if LandedCount(payouts, place, refused) < 3 then 502 else 200
  }

  predicate WalletsNamed(settings: WalletSettings) {
    && (settings.marketplaceSetting != "" || settings.marketplaceFile != "")
    && (settings.reserveSetting != "" || settings.reserveFile != "")
    && settings.dealerFile != ""
  }

  /** When each answer is given: 404 for an unknown request or a bid that is not its own, 409
      for one of the two that is not open, 503 for a wallet that is named nowhere, 200 if the
      premium is worth eleven micro-USDC and the network refuses none of the three
      transfers, and 502 if not. */
  lemma AcceptAnswersExactly(store: Store, settings: WalletSettings, rate: real, rid: Id, bid: Id,
                             place: nat, refused: Refusals)
    requires 0.0 <= rate && (rid in store.requests ==> 0 <= store.requests[rid].loan)
    ensures var code := AcceptCode(store, ResolvePayoutWallets(settings), rate, rid, bid, place, refused);
            var open := rid in store.requests && store.requests[rid].status == RequestOpen;
            var bidOpen := store.BidOf(bid, rid) && store.bids[bid].status == BidOpen;
            var sent := open && 11 <= WinPremium(store.requests[rid].loan, rate)
                        && {place, place + 1, place + 2} !! refused;
            && (code == 404 <==> rid !in store.requests || (open && !store.BidOf(bid, rid)))
            && (code == 409 <==> (rid in store.requests && !open) || (open && store.BidOf(bid, rid) && !bidOpen))
            && (code == 503 <==> open && bidOpen && !WalletsNamed(settings))
            && (code == 200 <==> open && bidOpen && WalletsNamed(settings) && sent)
            && (code == 502 <==> open && bidOpen && WalletsNamed(settings) && !sent)
  {
    ResolutionNamesWallets(settings);
    if rid in store.requests && ResolvePayoutWallets(settings).Resolved? {
      var loan := store.requests[rid].loan;
      var payouts := SettlementPayouts(ResolvePayoutWallets(settings).wallets, ComputeSplits(loan, rate));
      SplitsAreExact(loan, rate);
      ThreeLandExactly(payouts, place, refused);
    }
  }

  lemma ThreeLandExactly(payouts: seq<Payout>, place: nat, refused: Refusals)
    requires |payouts| == 3
    ensures LandedCount(payouts, place, refused) == 3 <==>
            && 0 < payouts[0].amount && 0 < payouts[1].amount && 0 < payouts[2].amount
            && {place, place + 1, place + 2} !! refused
  {
    var n := LandedCount(payouts, place, refused);
    assert Lands(payouts[0], place + 0, refused) <==> 0 < payouts[0].amount && place !in refused;
    assert Lands(payouts[1], place + 1, refused) <==> 0 < payouts[1].amount && place + 1 !in refused;
    assert Lands(payouts[2], place + 2, refused) <==> 0 < payouts[2].amount && place + 2 !in refused;
  }

  /** The other open bids of the request, as far as `done` goes, marked lost. */
  function MarkLost(bids: map<Id, Bid>, rid: Id, winner: Id, done: set<Id>): map<Id, Bid> {
    map b | b in bids ::
      if b in done && b != winner && bids[b].request == rid && bids[b].status == BidOpen
      then bids[b].(status := Lost) else bids[b]
  }

  /** What a successful accept makes of the ledger. */
  function AcceptedStore(store: Store, row: Settlement): Store
    requires row.request in store.requests && row.winningBid in store.bids
  {
    var rid, winner := row.request, row.winningBid;
    Store(
      store.requests[rid := store.requests[rid].(status := Closed)],
      MarkLost(store.bids, rid, winner, store.bids.Keys)[winner := store.bids[winner].(status := Accepted)],
      store.settlements + [row])
  }

  lemma OneMoreLost(bids: map<Id, Bid>, rid: Id, winner: Id, done: set<Id>, b: Id)
    requires b in bids && b !in done
    ensures var marked := MarkLost(bids, rid, winner, done);
            MarkLost(bids, rid, winner, done + {b}) ==
            if b != winner && bids[b].request == rid && bids[b].status == BidOpen
            then marked[b := marked[b].(status := Lost)] else marked
  {
  }

  /** On the chain, three payouts that land move the shares. */
  lemma LandedPayoutsMoveShares(chain: Chain, settings: WalletSettings, w: PayoutWallets, splits: Splits)
    requires ResolvePayoutWallets(settings) == Resolved(w)
    ensures forall wallet ::
              BalanceOf(SendAll(chain, w.source, SettlementPayouts(w, splits)).balances, wallet) ==
              BalanceOf(chain.balances, wallet) + GainOf(wallet, settings, splits)
  {
    ResolutionNamesWallets(settings);
    SendAllAppends(chain, w.source, SettlementPayouts(w, splits));
    forall wallet
      ensures BalanceOf(SendAll(chain, w.source, SettlementPayouts(w, splits)).balances, wallet) ==
              BalanceOf(chain.balances, wallet) + GainOf(wallet, settings, splits)
    {
      SettlementMovesShares(chain.balances, w, splits, wallet);
    }
  }

  /** What a wallet gains by a settlement, going by what the settings and the file name: the
      dealer's wallet the dealer's share, the reserve wallet the reserve; the marketplace's
      pays for both. */
  function GainOf(wallet: string, settings: WalletSettings, splits: Splits): int {
    var marketplace := OrElse(settings.marketplaceSetting, settings.marketplaceFile);
    var reserve := OrElse(settings.reserveSetting, settings.reserveFile);
    (if wallet == settings.dealerFile then splits.dealer else 0)
    + (if wallet == reserve then splits.reserve else 0)
    - (if wallet == marketplace then splits.dealer + splits.reserve else 0)
  }

  /** `accept_bid`.  The wallets are those the settings name: a success pays the dealer's
      wallet exactly the dealer's share and the reserve wallet exactly the reserve, at the
      expense of the marketplace's, and leaves every other wallet as it was. */
  method AcceptBid(db: Database, network: Network, settings: WalletSettings, rate: real,
                   rid: Id, bid: Id, settlementId: Id, refused: Refusals)
    returns (code: int)
    requires db.Valid()
    modifies db, network
    ensures db.Valid()
    ensures var wallets := ResolvePayoutWallets(settings);
            code == AcceptCode(old(db.Contents()), wallets, rate, rid, bid, |old(network.log)|, refused)
    ensures code != 200 ==> db.Contents() == old(db.Contents())
    ensures code == 200 ==>
              var place := |old(network.log)|;
              var row := Settlement(settlementId, rid, bid, place, place + 1, place + 2);
              && rid in old(db.requests) && bid in old(db.bids)
              && db.Contents() == AcceptedStore(old(db.Contents()), row)
    ensures var wallets := ResolvePayoutWallets(settings);
            if code == 200 || code == 502 then
              && rid in old(db.requests) && wallets.Resolved?
              && var payouts := SettlementPayouts(wallets.wallets, ComputeSplits(old(db.requests)[rid].loan, rate));
              var landed := LandedCount(payouts, |old(network.log)|, refused);
              network.Contents() == SendAll(old(network.Contents()), wallets.wallets.source, payouts[..landed])
            else network.Contents() == old(network.Contents())
    ensures code == 200 ==>
              var splits := ComputeSplits(old(db.requests)[rid].loan, rate);
              && (forall wallet :: BalanceOf(network.balances, wallet) ==
                                   BalanceOf(old(network.balances), wallet) + GainOf(wallet, settings, splits))
              && var marketplace := OrElse(settings.marketplaceSetting, settings.marketplaceFile);
              var reserve := OrElse(settings.reserveSetting, settings.reserveFile);
              (marketplace != reserve && settings.dealerFile !in [marketplace, reserve] ==>
                 && BalanceOf(network.balances, settings.dealerFile) ==
                    BalanceOf(old(network.balances), settings.dealerFile) + splits.dealer
                 && BalanceOf(network.balances, reserve) == BalanceOf(old(network.balances), reserve) + splits.reserve)
  {
    var found := db.GetRequest(rid);
    if found.None? {
      return 404;
    }
    var request := found.value;
    if request.status != RequestOpen {
      return 409;
    }
    var target := db.GetBid(bid);
    if target.None? || target.value.request != rid {
      return 404;
    }
    if target.value.status != BidOpen {
      return 409;
    }
    ResolutionNamesWallets(settings);
    var wallets := ResolvePayoutWallets(settings);
    if wallets.Unresolved? {
      return 503;
    }
    var payouts := SettlementPayouts(wallets.wallets, ComputeSplits(request.loan, rate));
    ghost var start := network.Contents();
    var sent := network.BatchedTransfer(wallets.wallets.source, payouts, refused);
    if sent.Raised? {
      return 502;
    }
    LandedPayoutsMoveShares(start, settings, wallets.wallets, ComputeSplits(request.loan, rate));
    assert payouts[..3] == payouts;
    var hashes := sent.hashes;
    if |hashes| != 3 {
      return 502;
    }
    SettleAndClose(db, Settlement(settlementId, rid, bid, hashes[0], hashes[1], hashes[2]));
    return 200;
  }

  /** The ledger half: the settlement row, the winner, the losers, the request. */
  method SettleAndClose(db: Database, row: Settlement)
    requires db.Valid() && row.request in db.requests && row.winningBid in db.bids
    modifies db
    ensures db.Valid() && db.Contents() == AcceptedStore(old(db.Contents()), row)
  {
    var rid, winner := row.request, row.winningBid;
    db.SaveSettlement(row);
    var ok := db.UpdateBidStatus(winner, Accepted);
    var listed := db.ListBidsForRequest(rid);
    MarkOthersLost(db, rid, winner, listed);
    ok := db.UpdateRequestStatus(rid, Closed);
  }

  /** The loop over the request's bids: the other open ones are lost. */
  method MarkOthersLost(db: Database, rid: Id, winner: Id, listed: seq<Bid>)
    requires db.Valid() && ListsBidsOf(db.Contents(), rid, listed)
    modifies db
    ensures db.Valid()
    ensures db.Contents() == old(db.Contents()).(bids := MarkLost(old(db.bids), rid, winner, old(db.bids).Keys))
  {
    ghost var start, bids := db.Contents(), db.bids;
    ghost var done: set<Id> := {};
    assert MarkLost(bids, rid, winner, {}) == bids;
    for i := 0 to |listed|
      invariant db.Valid()
      invariant db.Contents() == start.(bids := MarkLost(bids, rid, winner, done))
      invariant forall b :: b in done <==> exists k :: 0 <= k < i && listed[k].id == b
    {
      var other := listed[i];
      assert other in listed;
      OneMoreLost(bids, rid, winner, done, other.id);
      if other.id != winner && other.status == BidOpen {
        var ok := db.UpdateBidStatus(other.id, Lost);
      }
      done := done + {other.id};
    }
    AllListedDone(start, rid, winner, listed, done);
  }

  lemma AllListedDone(store: Store, rid: Id, winner: Id, listed: seq<Bid>, done: set<Id>)
    requires ListsBidsOf(store, rid, listed)
    requires forall b :: b in store.bids ==> store.bids[b].id == b
    requires forall b :: b in done <==> exists k :: 0 <= k < |listed| && listed[k].id == b
    ensures MarkLost(store.bids, rid, winner, done) == MarkLost(store.bids, rid, winner, store.bids.Keys)
  {
    forall b | b in store.bids && store.bids[b].request == rid
      ensures b in done
    {
      assert store.bids[b] in listed;
    }
  }

  // ----- what a successful accept amounts to -----

  /** Accepting a bid of an open request that has only open bids and no settlement leaves
      exactly one settlement, its winner accepted, every other bid lost and the request
      closed; what the ledger holds about any other request does not change. */
  lemma AcceptedStoreIsQuietClosed(store: Store, row: Settlement, rid: Id)
    requires row.request in store.requests && store.BidOf(row.winningBid, row.request)
    requires ViewOf(store, row.request).QuietOpen()
    ensures ViewOf(AcceptedStore(store, row), row.request).QuietClosed()
    ensures ViewOf(AcceptedStore(store, row), row.request).rows == [row]
    ensures rid != row.request ==> ViewOf(AcceptedStore(store, row), rid) == ViewOf(store, rid)
  {
    MatchingAfterInsert(store.settlements, row, row.request);
    MatchingAfterInsert(store.settlements, row, rid);
    var v, v' := ViewOf(store, row.request), ViewOf(AcceptedStore(store, row), row.request);
    forall b | b in v'.bids && b != row.winningBid
      ensures v'.bids[b] == Lost
    {
      assert v.bids[b] == BidOpen;
    }
    if rid != row.request {
      assert ViewOf(AcceptedStore(store, row), rid).bids == ViewOf(store, rid).bids;
    }
  }
}
