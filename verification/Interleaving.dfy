/** What holds in every interleaving of the handlers, with any of them abandoned between
    two transactions: the safety that does not depend on one handler at a time.  */
module Interleaving {
  import opened Models
  import opened Ledger
  import opened Settler
  import opened Wallets
  import opened Protocol

  // ----- the invariant -----

  /** The leg of handler `h` at `place`: landed, positive, and exactly the computed share. */
  predicate PaidLeg(cfg: Config, chain: seq<Leg>, h: Id, hash: nat, place: nat, loan: int) {
    && cfg.payout.Some?
    && hash < |chain|
    && chain[hash] == LegOf(cfg, h, place, loan)
    && 0 < chain[hash].payment.amount
  }

  predicate PaidFor(cfg: Config, s: State, row: Settlement) {
    && row.request in s.store.requests
    && var loan := s.store.requests[row.request].loan;
    && PaidLeg(cfg, s.chain, row.id, row.dealerTx, 0, loan)
    && PaidLeg(cfg, s.chain, row.id, row.marketplaceTx, 1, loan)
    && PaidLeg(cfg, s.chain, row.id, row.reserveTx, 2, loan)
  }

  /** A closed request has a settlement. */
  ghost predicate RequestsOk(store: Store) {
    forall r :: r in store.requests ==>
      && 1 <= store.requests[r].loan
      && store.requests[r].status != FundedPending
      && (store.requests[r].status == Closed ==> store.Settled(r))
  }

  ghost predicate NamedWinner(store: Store, b: Id) {
    exists row :: row in store.settlements && row.winningBid == b
  }

  ghost predicate BeatenBy(store: Store, rid: Id, b: Id) {
    exists row :: row in store.settlements && row.request == rid && row.winningBid != b
  }

  /** An accepted bid has a settlement naming it; a lost bid has a settlement of its own
      request naming another bid. */
  ghost predicate BidsOk(store: Store) {
    forall b :: b in store.bids ==>
      && store.bids[b].request in store.requests
      && (store.bids[b].status == Accepted ==> NamedWinner(store, b))
      && (store.bids[b].status == Lost ==> BeatenBy(store, store.bids[b].request, b))
  }

  /** Every settlement names a bid of its own request, was inserted by a handler accepting
      that bid, and was paid for by that handler; no handler inserts two. */
  ghost predicate SettlementsOk(cfg: Config, s: State) {
    && (forall row :: row in s.store.settlements ==> SettlementOk(cfg, s, row))
    && (forall i, j :: 0 <= i < j < |s.store.settlements| ==>
          s.store.settlements[i].id != s.store.settlements[j].id)
  }

  predicate SettlementOk(cfg: Config, s: State, row: Settlement) {
    && s.store.BidOf(row.winningBid, row.request)
    && PaidFor(cfg, s, row)
    && row.id in s.handlers
    && Inserted(s.handlers[row.id], row)
  }

  predicate Inserted(hd: Handler, row: Settlement) {
    && hd.Accepting? && hd.request == row.request && hd.bid == row.winningBid
    && (hd.PastSettlement() || hd.pc.AcceptAbandoned?)
  }

  ghost predicate SettledBy(store: Store, h: Id, rid: Id, bid: Id) {
    exists row :: row in store.settlements && row.id == h && row.request == rid && row.winningBid == bid
  }

  ghost predicate HandlerOk(cfg: Config, s: State, h: Id, hd: Handler) {
    match hd
    case Creating(rid, _, pc) => pc == Insert ==> rid in s.store.requests
    case Accepting(rid, bid, pc) =>
      && (hd.PastSettlement() ==> SettledBy(s.store, h, rid, bid))
      && (!hd.PastSettlement() && !pc.AcceptAbandoned? ==> forall row :: row in s.store.settlements ==> row.id != h)
      && match pc
         case CheckBid(loan) => rid in s.store.requests && s.store.requests[rid].loan == loan
         case Pay(loan, hashes) =>
           && rid in s.store.requests && s.store.requests[rid].loan == loan
           && s.store.BidOf(bid, rid)
           && |hashes| <= 3
           && forall i :: 0 <= i < |hashes| ==> PaidLeg(cfg, s.chain, h, hashes[i], i, loan)
         case MarkLosers(rest) => forall b :: b in rest ==> s.store.BidOf(b, rid) && b != bid
         case AcceptReplied(code) => code in {200, 404, 409, 502, 503}
         case _ => true
  }

  ghost predicate HandlersOk(cfg: Config, s: State) {
    forall h :: h in s.handlers ==> HandlerOk(cfg, s, h, s.handlers[h])
  }

  ghost predicate Inv(cfg: Config, s: State) {
    RequestsOk(s.store) && BidsOk(s.store) && SettlementsOk(cfg, s) && HandlersOk(cfg, s)
  }

  // ----- what no step undoes -----

  /** Rows are never deleted and only their status changes; no closed request reopens, no
      bid returns to open; settlement rows and landed transfers stay for good. */
  ghost predicate Grows(s: State, s': State) {
    && (forall r :: r in s.store.requests ==>
          && r in s'.store.requests
          && s'.store.requests[r] == s.store.requests[r].(status := s'.store.requests[r].status)
          && (s.store.requests[r].status == Closed ==> s'.store.requests[r].status == Closed))
    && (forall b :: b in s.store.bids ==>
          && b in s'.store.bids
          && s'.store.bids[b] == s.store.bids[b].(status := s'.store.bids[b].status)
          && (s.store.bids[b].status != BidOpen ==> s'.store.bids[b].status != BidOpen))
    && s.store.settlements <= s'.store.settlements
    && s.chain <= s'.chain
    && (forall h :: h in s.handlers ==> h in s'.handlers)
  }

  lemma GrowsIsTransitive(s: State, t: State, u: State)
    requires Grows(s, t) && Grows(t, u)
    ensures Grows(s, u)
  {
  }

  lemma PrefixMembers(s: State, s': State)
    requires Grows(s, s')
    ensures forall row :: row in s.store.settlements ==> row in s'.store.settlements
  {
    assert s'.store.settlements[..|s.store.settlements|] == s.store.settlements;
  }

  lemma PaidLegStays(cfg: Config, s: State, s': State, h: Id, hash: nat, place: nat, loan: int)
    requires Grows(s, s') && PaidLeg(cfg, s.chain, h, hash, place, loan)
    ensures PaidLeg(cfg, s'.chain, h, hash, place, loan)
  {
  }

  /** A handler's own facts survive whatever another handler does. */
  lemma HandlerOkStays(cfg: Config, s: State, s': State, h: Id, hd: Handler)
    requires Grows(s, s') && HandlerOk(cfg, s, h, hd)
    requires forall row :: row in s'.store.settlements && row.id == h ==> row in s.store.settlements
    ensures HandlerOk(cfg, s', h, hd)
  {
    PrefixMembers(s, s');
    if hd.Accepting? && hd.pc.Pay? {
      forall i | 0 <= i < |hd.pc.hashes|
        ensures PaidLeg(cfg, s'.chain, h, hd.pc.hashes[i], i, hd.pc.loan)
      {
        PaidLegStays(cfg, s, s', h, hd.pc.hashes[i], i, hd.pc.loan);
      }
    }
  }

  /** Only handler `h` moved, and only it may have inserted a settlement row. */
  ghost predicate OnlyMoved(s: State, s': State, h: Id) {
    && (forall k :: k in s'.handlers && k != h ==> k in s.handlers && s'.handlers[k] == s.handlers[k])
    && (forall row :: row in s'.store.settlements && row.id != h ==> row in s.store.settlements)
  }

  lemma OthersStay(cfg: Config, s: State, s': State, h: Id)
    requires HandlersOk(cfg, s) && Grows(s, s') && OnlyMoved(s, s', h)
    requires h in s'.handlers ==> HandlerOk(cfg, s', h, s'.handlers[h])
    ensures HandlersOk(cfg, s')
  {
    forall k | k in s'.handlers
      ensures HandlerOk(cfg, s', k, s'.handlers[k])
    {
      if k != h {
        HandlerOkStays(cfg, s, s', k, s'.handlers[k]);
      }
    }
  }

  /** Old settlement rows keep what they had, as long as the handler that inserted a row
      stays past it. */
  lemma SettlementsStay(cfg: Config, s: State, s': State, h: Id)
    requires SettlementsOk(cfg, s) && Grows(s, s') && OnlyMoved(s, s', h)
    requires s'.store.settlements == s.store.settlements
    requires h in s'.handlers ==> forall row :: row in s.store.settlements && row.id == h ==>
              Inserted(s'.handlers[h], row)
    ensures SettlementsOk(cfg, s')
  {
    forall row | row in s'.store.settlements
      ensures SettlementOk(cfg, s', row)
    {
      assert SettlementOk(cfg, s, row);
      var loan := s.store.requests[row.request].loan;
      PaidLegStays(cfg, s, s', row.id, row.dealerTx, 0, loan);
      PaidLegStays(cfg, s, s', row.id, row.marketplaceTx, 1, loan);
      PaidLegStays(cfg, s, s', row.id, row.reserveTx, 2, loan);
    }
  }

  // ----- one step at a time -----

  /** Steps that leave the store as it is. */
  lemma QuietStep(cfg: Config, s: State, s': State, h: Id)
    requires Inv(cfg, s) && s'.store == s.store && s.chain <= s'.chain
    requires h in s'.handlers && s'.handlers == s.handlers[h := s'.handlers[h]]
    requires HandlerOk(cfg, s', h, s'.handlers[h])
    requires forall row :: row in s.store.settlements && row.id == h ==> Inserted(s'.handlers[h], row)
    ensures Inv(cfg, s') && Grows(s, s')
  {
    OthersStay(cfg, s, s', h);
    SettlementsStay(cfg, s, s', h);
  }

  lemma PublishStep(cfg: Config, s: State, rid: Id, request: BidRequest, s': State)
    requires Inv(cfg, s) && Step(cfg, s, Publish(rid, request), s')
    ensures Inv(cfg, s') && Grows(s, s')
  {
    forall h | h in s'.handlers
      ensures HandlerOk(cfg, s', h, s'.handlers[h])
    {
      HandlerOkStays(cfg, s, s', h, s.handlers[h]);
    }
    forall row | row in s'.store.settlements
      ensures SettlementOk(cfg, s', row)
    {
      assert SettlementOk(cfg, s, row);
    }
    forall r | r in s'.store.requests && s'.store.requests[r].status == Closed
      ensures s'.store.Settled(r)
    {
      assert s.store.Settled(r);
    }
    forall b | b in s'.store.bids
      ensures s'.store.bids[b].status == Accepted ==> NamedWinner(s'.store, b)
      ensures s'.store.bids[b].status == Lost ==> BeatenBy(s'.store, s'.store.bids[b].request, b)
    {
      assert s.store.bids[b].status == Accepted ==> NamedWinner(s.store, b);
      assert s.store.bids[b].status == Lost ==> BeatenBy(s.store, s.store.bids[b].request, b);
    }
  }

  /** A new bid is open, so it needs no settlement; the others keep theirs. */
  lemma NewBidKeepsStoreOk(store: Store, b: Id, bid: Bid)
    requires RequestsOk(store) && BidsOk(store)
    requires bid.request in store.requests && bid.status == BidOpen
    ensures RequestsOk(store.(bids := store.bids[b := bid])) && BidsOk(store.(bids := store.bids[b := bid]))
  {
    var store' := store.(bids := store.bids[b := bid]);
    assert forall r :: store.Settled(r) ==> store'.Settled(r);
    assert forall x :: NamedWinner(store, x) ==> NamedWinner(store', x);
    assert forall r, x :: BeatenBy(store, r, x) ==> BeatenBy(store', r, x);
  }

  lemma InsertBidStep(cfg: Config, s: State, h: Id, c: Choice, s': State)
    requires Inv(cfg, s) && Step(cfg, s, Advance(h, c), s')
    requires s.handlers[h].Creating? && s.handlers[h].createPc == Insert
    ensures Inv(cfg, s') && Grows(s, s')
  {
    assert HandlerOk(cfg, s, h, s.handlers[h]);
    NewBidKeepsStoreOk(s.store, c.newId, s'.store.bids[c.newId]);
    CreatorHasNoRow(cfg, s, h);
    InsertBidKeepsRest(cfg, s, h, c, s');
  }

  lemma InsertBidKeepsRest(cfg: Config, s: State, h: Id, c: Choice, s': State)
    requires SettlementsOk(cfg, s) && HandlersOk(cfg, s) && Step(cfg, s, Advance(h, c), s')
    requires s.handlers[h].Creating? && s.handlers[h].createPc == Insert
    requires forall row :: row in s.store.settlements ==> row.id != h
    ensures Grows(s, s') && SettlementsOk(cfg, s') && HandlersOk(cfg, s')
  {
    assert Grows(s, s');
    OthersStay(cfg, s, s', h);
    SettlementsStay(cfg, s, s', h);
  }

  /** Settlement rows once found are still there to be found. */
  lemma WitnessesStay(s: State, s': State)
    requires Grows(s, s')
    ensures forall r {:trigger s'.store.Settled(r)} :: s.store.Settled(r) ==> s'.store.Settled(r)
    ensures forall b {:trigger NamedWinner(s'.store, b)} :: NamedWinner(s.store, b) ==> NamedWinner(s'.store, b)
    ensures forall r, b {:trigger BeatenBy(s'.store, r, b)} :: BeatenBy(s.store, r, b) ==> BeatenBy(s'.store, r, b)
  {
    PrefixMembers(s, s');
  }

  lemma NewRowIsPaid(cfg: Config, s: State, h: Id, hd: Handler, s': State, row: Settlement)
    requires HandlerOk(cfg, s, h, hd) && hd.Accepting? && hd.pc.Pay? && |hd.pc.hashes| == 3
    requires row == Settlement(h, hd.request, hd.bid, hd.pc.hashes[0], hd.pc.hashes[1], hd.pc.hashes[2])
    requires s'.chain == s.chain && s'.store.requests == s.store.requests && s'.store.bids == s.store.bids
    requires h in s'.handlers && s'.handlers[h] == Accepting(hd.request, hd.bid, MarkWinner)
    ensures SettlementOk(cfg, s', row)
  {
    assert PaidLeg(cfg, s.chain, h, hd.pc.hashes[0], 0, hd.pc.loan);
    assert PaidLeg(cfg, s.chain, h, hd.pc.hashes[1], 1, hd.pc.loan);
    assert PaidLeg(cfg, s.chain, h, hd.pc.hashes[2], 2, hd.pc.loan);
  }

  /** The settlement row goes in: all three legs have landed. */
  lemma SettleStep(cfg: Config, s: State, h: Id, hd: Handler, row: Settlement, s': State)
    requires Inv(cfg, s) && h in s.handlers && s.handlers[h] == hd
    requires hd.Accepting? && hd.pc.Pay? && |hd.pc.hashes| == 3
    requires row == Settlement(h, hd.request, hd.bid, hd.pc.hashes[0], hd.pc.hashes[1], hd.pc.hashes[2])
    requires s' == State(s.store.(settlements := s.store.settlements + [row]), s.chain,
                         s.handlers[h := Accepting(hd.request, hd.bid, MarkWinner)])
    ensures Inv(cfg, s') && Grows(s, s')
  {
    assert HandlerOk(cfg, s, h, hd);
    NewRowIsPaid(cfg, s, h, hd, s', row);
    RowGoesIn(cfg, s, h, row, s');
    assert Grows(s, s');
    WitnessesStay(s, s');
    assert row in s'.store.settlements;
    assert SettledBy(s'.store, h, hd.request, hd.bid);
    OthersStay(cfg, s, s', h);
  }

  lemma RowGoesIn(cfg: Config, s: State, h: Id, row: Settlement, s': State)
    requires SettlementsOk(cfg, s) && SettlementOk(cfg, s', row)
    requires row.id == h && forall r :: r in s.store.settlements ==> r.id != h
    requires s'.store == s.store.(settlements := s.store.settlements + [row]) && s'.chain == s.chain
    requires h in s'.handlers && s'.handlers == s.handlers[h := s'.handlers[h]]
    ensures SettlementsOk(cfg, s')
  {
    forall r | r in s'.store.settlements
      ensures SettlementOk(cfg, s', r)
    {
      assert r in s.store.settlements ==> SettlementOk(cfg, s, r);
    }
  }

  /** A status write by a handler that is, and stays, past its settlement. */
  lemma StatusStep(cfg: Config, s: State, h: Id, hd: Handler, hd': Handler, store': Store)
    requires Inv(cfg, s) && h in s.handlers && s.handlers[h] == hd
    requires hd.PastSettlement() && hd'.PastSettlement() && hd'.request == hd.request && hd'.bid == hd.bid
    requires store'.settlements == s.store.settlements
    requires Grows(s, State(store', s.chain, s.handlers[h := hd']))
    requires RequestsOk(store') && BidsOk(store')
    requires hd'.pc.MarkLosers? ==> forall b :: b in hd'.pc.rest ==> store'.BidOf(b, hd.request) && b != hd.bid
    ensures Inv(cfg, State(store', s.chain, s.handlers[h := hd']))
  {
    var s' := State(store', s.chain, s.handlers[h := hd']);
    assert HandlerOk(cfg, s, h, hd);
    assert SettledBy(store', h, hd.request, hd.bid);
    OthersStay(cfg, s, s', h);
    StatusKeepsSettlements(cfg, s, h, hd', s');
  }

  lemma StatusKeepsSettlements(cfg: Config, s: State, h: Id, hd': Handler, s': State)
    requires SettlementsOk(cfg, s) && Grows(s, s') && h in s.handlers && s.handlers[h].Accepting?
    requires s'.store.settlements == s.store.settlements && s'.handlers == s.handlers[h := hd']
    requires hd'.PastSettlement() && hd'.request == s.handlers[h].request && hd'.bid == s.handlers[h].bid
    ensures SettlementsOk(cfg, s')
  {
    forall row | row in s.store.settlements && row.id == h
      ensures Inserted(hd', row)
    {
      assert SettlementOk(cfg, s, row);
    }
    SettlementsStay(cfg, s, s', h);
  }

  lemma MarkBidStep(cfg: Config, s: State, h: Id, hd: Handler, hd': Handler, b: Id, status: BidStatus)
    requires Inv(cfg, s) && h in s.handlers && s.handlers[h] == hd
    requires hd.PastSettlement() && hd'.PastSettlement() && hd'.request == hd.request && hd'.bid == hd.bid
    requires b in s.store.bids && status != BidOpen
    requires status == Accepted ==> NamedWinner(s.store, b)
    requires status == Lost ==> BeatenBy(s.store, s.store.bids[b].request, b)
    requires hd'.pc.MarkLosers? ==> forall x :: x in hd'.pc.rest ==> s.store.BidOf(x, hd.request) && x != hd.bid
    ensures var s' := State(s.store.SetBidStatus(b, status), s.chain, s.handlers[h := hd']);
            Inv(cfg, s') && Grows(s, s')
  {
    var s' := State(s.store.SetBidStatus(b, status), s.chain, s.handlers[h := hd']);
    MarkedBidOk(s, s', b, status);
    StatusStep(cfg, s, h, hd, hd', s'.store);
  }

  lemma MarkedBidOk(s: State, s': State, b: Id, status: BidStatus)
    requires RequestsOk(s.store) && BidsOk(s.store)
    requires b in s.store.bids && status != BidOpen
    requires status == Accepted ==> NamedWinner(s.store, b)
    requires status == Lost ==> BeatenBy(s.store, s.store.bids[b].request, b)
    requires s'.store == s.store.SetBidStatus(b, status) && s'.chain == s.chain
    requires forall h :: h in s.handlers ==> h in s'.handlers
    ensures Grows(s, s') && RequestsOk(s'.store) && BidsOk(s'.store)
  {
    assert Grows(s, s');
    WitnessesStay(s, s');
  }

  /** The row a handler past its settlement inserted. */
  lemma RowOf(cfg: Config, s: State, h: Id, hd: Handler) returns (row: Settlement)
    requires Inv(cfg, s) && h in s.handlers && s.handlers[h] == hd && hd.PastSettlement()
    ensures row in s.store.settlements && row.id == h && row.request == hd.request && row.winningBid == hd.bid
    ensures SettlementOk(cfg, s, row)
  {
    assert HandlerOk(cfg, s, h, hd);
    row :| row in s.store.settlements && row.id == h && row.request == hd.request && row.winningBid == hd.bid;
  }

  lemma CloseStep(cfg: Config, s: State, h: Id, hd: Handler, hd': Handler)
    requires Inv(cfg, s) && h in s.handlers && s.handlers[h] == hd
    requires hd.PastSettlement() && hd' == Accepting(hd.request, hd.bid, AcceptReplied(200))
    ensures hd.request in s.store.requests
    ensures var s' := State(s.store.SetRequestStatus(hd.request, Closed), s.chain, s.handlers[h := hd']);
            Inv(cfg, s') && Grows(s, s')
  {
    var row := RowOf(cfg, s, h, hd);
    var s' := State(s.store.SetRequestStatus(hd.request, Closed), s.chain, s.handlers[h := hd']);
    assert s.store.Settled(hd.request);
    ClosingKeepsStoreOk(s.store, hd.request);
    ClosingGrows(s, hd.request, s');
    StatusStep(cfg, s, h, hd, hd', s'.store);
  }

  lemma ClosingGrows(s: State, rid: Id, s': State)
    requires rid in s.store.requests && s'.store == s.store.SetRequestStatus(rid, Closed) && s'.chain == s.chain
    requires forall h :: h in s.handlers ==> h in s'.handlers
    ensures Grows(s, s')
  {
  }

  lemma ClosingKeepsStoreOk(store: Store, rid: Id)
    requires RequestsOk(store) && BidsOk(store) && rid in store.requests && store.Settled(rid)
    ensures RequestsOk(store.SetRequestStatus(rid, Closed)) && BidsOk(store.SetRequestStatus(rid, Closed))
  {
    var store' := store.SetRequestStatus(rid, Closed);
    assert forall r :: store.Settled(r) ==> store'.Settled(r);
    assert forall x :: NamedWinner(store, x) ==> NamedWinner(store', x);
    assert forall r, x :: BeatenBy(store, r, x) ==> BeatenBy(store', r, x);
  }

  /** The next leg lands. */
  lemma PayStep(cfg: Config, s: State, h: Id, hd: Handler, s': State)
    requires Inv(cfg, s) && h in s.handlers && s.handlers[h] == hd
    requires hd.Accepting? && hd.pc.Pay? && |hd.pc.hashes| < 3 && cfg.payout.Some?
    requires 0 < LegAmount(ComputeSplits(hd.pc.loan, cfg.rate), |hd.pc.hashes|)
    requires s' == State(s.store, s.chain + [LegOf(cfg, h, |hd.pc.hashes|, hd.pc.loan)],
                         s.handlers[h := Accepting(hd.request, hd.bid, Pay(hd.pc.loan, hd.pc.hashes + [|s.chain|]))])
    ensures Inv(cfg, s') && Grows(s, s')
  {
    var hashes' := hd.pc.hashes + [|s.chain|];
    assert HandlerOk(cfg, s, h, hd);
    forall i | 0 <= i < |hashes'|
      ensures PaidLeg(cfg, s'.chain, h, hashes'[i], i, hd.pc.loan)
    {
      assert i < |hd.pc.hashes| ==> PaidLeg(cfg, s.chain, h, hd.pc.hashes[i], i, hd.pc.loan);
    }
    QuietStep(cfg, s, s', h);
  }

  /** The steps of accept_bid that only read, or whose transfer fails. */
  lemma ReadStep(cfg: Config, s: State, h: Id, hd: Handler, pc': AcceptPc)
    requires Inv(cfg, s) && h in s.handlers && s.handlers[h] == hd && hd.Accepting?
    requires
      || (hd.pc.Fetch? && pc' == FetchStep(s.store, hd.request))
      || (hd.pc.CheckBid? && pc' == CheckBidStep(cfg, s.store, hd.request, hd.bid, hd.pc.loan))
      || (hd.pc.Pay? && pc' == AcceptReplied(502))
      || (hd.pc.Snapshot? && pc'.MarkLosers? && ListsOpenOthers(s.store, hd.request, hd.bid, pc'.rest))
    ensures var s' := At(s, h, Accepting(hd.request, hd.bid, pc'));
            Inv(cfg, s') && Grows(s, s')
  {
    var s' := At(s, h, Accepting(hd.request, hd.bid, pc'));
    ReadingIsOk(cfg, s, h, hd, pc');
    if hd.pc.Snapshot? {
      forall row | row in s.store.settlements && row.id == h
        ensures Inserted(s'.handlers[h], row)
      {
        assert SettlementOk(cfg, s, row);
      }
    }
    QuietStep(cfg, s, s', h);
  }

  /** Where a transaction that only reads takes its handler. */
  lemma ReadingIsOk(cfg: Config, s: State, h: Id, hd: Handler, pc': AcceptPc)
    requires HandlerOk(cfg, s, h, hd) && hd.Accepting?
    requires
      || (hd.pc.Fetch? && pc' == FetchStep(s.store, hd.request))
      || (hd.pc.CheckBid? && pc' == CheckBidStep(cfg, s.store, hd.request, hd.bid, hd.pc.loan))
      || (hd.pc.Pay? && pc' == AcceptReplied(502))
      || (hd.pc.Snapshot? && pc'.MarkLosers? && ListsOpenOthers(s.store, hd.request, hd.bid, pc'.rest))
    ensures var hd' := Accepting(hd.request, hd.bid, pc');
            && HandlerOk(cfg, At(s, h, hd'), h, hd')
            && (!hd.pc.Snapshot? ==> forall row :: row in s.store.settlements ==> row.id != h)
  {
  }

  lemma AcceptStep(cfg: Config, s: State, h: Id, c: Choice, s': State)
    requires Inv(cfg, s) && Step(cfg, s, Advance(h, c), s') && s.handlers[h].Accepting?
    ensures Inv(cfg, s') && Grows(s, s')
  {
    var hd := s.handlers[h];
    if hd.PastSettlement() {
      WritingStep(cfg, s, h, hd, c, s');
    } else if hd.pc.Pay? {
      assert HandlerOk(cfg, s, h, hd);
      var hashes := hd.pc.hashes;
      if |hashes| == 3 {
        SettleStep(cfg, s, h, hd, Settlement(h, hd.request, hd.bid, hashes[0], hashes[1], hashes[2]), s');
      } else if s'.handlers[h].pc.Pay? {
        PayStep(cfg, s, h, hd, s');
      } else {
        ReadStep(cfg, s, h, hd, AcceptReplied(502));
      }
    } else {
      ReadStep(cfg, s, h, hd, s'.handlers[h].pc);
    }
  }

  lemma WritingStep(cfg: Config, s: State, h: Id, hd: Handler, c: Choice, s': State)
    requires Inv(cfg, s) && h in s.handlers && s.handlers[h] == hd && hd.PastSettlement()
    requires AcceptMove(cfg, s, h, hd.request, hd.bid, hd.pc, c, s')
    ensures Inv(cfg, s') && Grows(s, s')
  {
    var row := RowOf(cfg, s, h, hd);
    if hd.pc.Snapshot? {
      ReadStep(cfg, s, h, hd, MarkLosers(c.order));
    } else if hd.pc.MarkWinner? {
      MarkBidStep(cfg, s, h, hd, s'.handlers[h], hd.bid, Accepted);
    } else if hd.pc.rest == [] {
      CloseStep(cfg, s, h, hd, s'.handlers[h]);
    } else {
      var loser := hd.pc.rest[0];
      assert HandlerOk(cfg, s, h, hd);
      assert loser in hd.pc.rest;
      assert BeatenBy(s.store, hd.request, loser);
      MarkBidStep(cfg, s, h, hd, s'.handlers[h], loser, Lost);
    }
  }

  lemma StepKeepsInv(cfg: Config, s: State, a: Action, s': State)
    requires Inv(cfg, s) && Step(cfg, s, a, s')
    ensures Inv(cfg, s') && Grows(s, s')
  {
    match a
    case Publish(rid, request) => PublishStep(cfg, s, rid, request, s');
    case BeginAccept(h, _, _) =>
      forall row | row in s.store.settlements
        ensures row.id != h
      {
        assert SettlementOk(cfg, s, row);
      }
      QuietStep(cfg, s, s', h);
    case BeginCreate(h, _, _) =>
      forall row | row in s.store.settlements
        ensures row.id != h
      {
        assert SettlementOk(cfg, s, row);
      }
      QuietStep(cfg, s, s', h);
    case Abandon(h) => AbandonStep(cfg, s, h, s');
    case Advance(h, c) =>
      match s.handlers[h] {
        case Creating(_, _, pc) =>
          if pc == Insert {
            InsertBidStep(cfg, s, h, c, s');
          } else {
            CreatorHasNoRow(cfg, s, h);
            QuietStep(cfg, s, s', h);
          }
        case Accepting(_, _, _) => AcceptStep(cfg, s, h, c, s');
      }
  }

  lemma CreatorHasNoRow(cfg: Config, s: State, h: Id)
    requires Inv(cfg, s) && h in s.handlers && s.handlers[h].Creating?
    ensures forall row :: row in s.store.settlements ==> row.id != h
  {
    forall row | row in s.store.settlements
      ensures row.id != h
    {
      assert SettlementOk(cfg, s, row);
    }
  }

  lemma AbandonStep(cfg: Config, s: State, h: Id, s': State)
    requires Inv(cfg, s) && Step(cfg, s, Abandon(h), s')
    ensures Inv(cfg, s') && Grows(s, s')
  {
    forall row | row in s.store.settlements && row.id == h
      ensures Inserted(s'.handlers[h], row)
    {
      assert SettlementOk(cfg, s, row);
    }
    QuietStep(cfg, s, s', h);
  }

  // ----- whole runs -----

  lemma {:induction false} PathKeepsInv(cfg: Config, trace: seq<State>, actions: seq<Action>, i: nat, j: nat)
    requires Path(cfg, trace, actions) && i <= j < |trace| && Inv(cfg, trace[i])
    ensures Inv(cfg, trace[j]) && Grows(trace[i], trace[j])
  {
    if i < j {
      PathKeepsInv(cfg, trace, actions, i, j - 1);
      StepKeepsInv(cfg, trace[j - 1], actions[j - 1], trace[j]);
      GrowsIsTransitive(trace[i], trace[j - 1], trace[j]);
    }
  }

  /** The safety of every run, whatever interleaves and whoever is abandoned: at each
      moment a closed request has a settlement, an accepted bid one naming it, a lost bid
      one of its own request naming another, every settlement a bid of its own request and
      three landed transfers of exactly the computed shares; and from one moment to any
      later one no closed request reopens, no bid returns to open, no row or transfer goes. */
  lemma EveryRunIsSafe(cfg: Config, trace: seq<State>, actions: seq<Action>, i: nat, j: nat)
    requires Run(cfg, trace, actions) && i <= j < |trace|
    ensures RequestsOk(trace[j].store) && BidsOk(trace[j].store) && SettlementsOk(cfg, trace[j])
    ensures Grows(trace[i], trace[j])
  {
    assert Inv(cfg, INITIAL);
    PathKeepsInv(cfg, trace, actions, 0, i);
    PathKeepsInv(cfg, trace, actions, i, j);
  }

  /** A transaction of accept_bid that changes the store puts the handler past its
      settlement. */
  lemma OnlySettledHandlersWrite(cfg: Config, s: State, h: Id, c: Choice, s': State)
    requires Inv(cfg, s) && Step(cfg, s, Advance(h, c), s') && s.handlers[h].Accepting?
    requires s'.store != s.store
    ensures s'.handlers[h].PastSettlement()
  {
    var hd := s.handlers[h];
    assert HandlerOk(cfg, s, h, hd);
    if hd.PastSettlement() {
      var row := RowOf(cfg, s, h, hd);
    }
  }

  lemma EveryRunKeepsInv(cfg: Config, trace: seq<State>, actions: seq<Action>, i: nat)
    requires Run(cfg, trace, actions) && i < |trace|
    ensures Inv(cfg, trace[i])
  {
    assert Inv(cfg, INITIAL);
    PathKeepsInv(cfg, trace, actions, 0, i);
  }

  lemma WriterLeavesRow(cfg: Config, s: State, h: Id, c: Choice, s': State, t: State)
    requires Inv(cfg, s) && Step(cfg, s, Advance(h, c), s') && s.handlers[h].Accepting?
    requires Inv(cfg, s') && Grows(s', t)
    ensures s'.store != s.store ==> exists row :: row in t.store.settlements && row.id == h
  {
    if s'.store != s.store {
      OnlySettledHandlersWrite(cfg, s, h, c, s');
      var row := RowOf(cfg, s', h, s'.handlers[h]);
      PrefixMembers(s', t);
      assert row in t.store.settlements;
    }
  }

  lemma FailedHasNoRow(cfg: Config, s: State, h: Id)
    requires Inv(cfg, s) && h in s.handlers && s.handlers[h].Accepting?
    requires s.handlers[h].pc.AcceptReplied? && s.handlers[h].pc.code != 200
    ensures forall row :: row in s.store.settlements ==> row.id != h
  {
    assert HandlerOk(cfg, s, h, s.handlers[h]);
  }

  /** An accept that fails -- for any of its reasons, at any of its transactions, in any
      interleaving -- has changed nothing in the ledger. */
  lemma FailedAcceptWritesNothing(cfg: Config, trace: seq<State>, actions: seq<Action>, h: Id, i: nat, j: nat)
    requires Run(cfg, trace, actions) && i < j < |trace|
    requires actions[i].Advance? && actions[i].h == h
    requires h in trace[i].handlers && trace[i].handlers[h].Accepting?
    requires h in trace[j].handlers && trace[j].handlers[h].Accepting?
    requires trace[j].handlers[h].pc.AcceptReplied? && trace[j].handlers[h].pc.code != 200
    ensures trace[i + 1].store == trace[i].store
  {
    EveryRunKeepsInv(cfg, trace, actions, i);
    EveryRunKeepsInv(cfg, trace, actions, j);
    FailedHasNoRow(cfg, trace[j], h);
    PathKeepsInv(cfg, trace, actions, i, i + 1);
    PathKeepsInv(cfg, trace, actions, i + 1, j);
    WriterLeavesRow(cfg, trace[i], h, actions[i].choice, trace[i + 1], trace[j]);
  }

  // ----- once a request is closed -----

  /** Where a handler can get to that reaches the request's door after it closed. */
  predicate ShutOut(s: State, h: Id, rid: Id) {
    h in s.handlers && s.handlers[h].request == rid ==>
      match s.handlers[h]
      case Accepting(_, _, pc) => pc.Fetch? || pc == AcceptReplied(409) || pc.AcceptAbandoned?
      case Creating(_, _, pc) => pc.FetchForBid? || pc == CreateReplied(409) || pc.CreateAbandoned?
  }

  predicate IsClosed(store: Store, rid: Id) {
    rid in store.requests && store.requests[rid].status == Closed
  }

  lemma StepKeepsShutOut(cfg: Config, s: State, a: Action, s': State, h: Id, rid: Id)
    requires Step(cfg, s, a, s') && IsClosed(s.store, rid) && ShutOut(s, h, rid)
    ensures ShutOut(s', h, rid)
  {
  }

  lemma ClosedStays(cfg: Config, trace: seq<State>, actions: seq<Action>, rid: Id, i: nat, j: nat)
    requires Path(cfg, trace, actions) && i <= j < |trace| && Inv(cfg, trace[i])
    requires IsClosed(trace[i].store, rid)
    ensures IsClosed(trace[j].store, rid)
  {
    PathKeepsInv(cfg, trace, actions, i, j);
  }

  /** An accept or a bid that has not read the request when it closes -- or has not even
      begun -- is answered 409 if it is answered at all.  (A request whose accept was
      abandoned past its settlement row never closed, and is open to another.) */
  lemma {:induction false} LateHandlersAreShutOut(cfg: Config, trace: seq<State>, actions: seq<Action>,
                                                 rid: Id, h: Id, i: nat, j: nat)
    requires Path(cfg, trace, actions) && i <= j < |trace| && Inv(cfg, trace[i])
    requires IsClosed(trace[i].store, rid) && ShutOut(trace[i], h, rid)
    ensures ShutOut(trace[j], h, rid)
  {
    if i < j {
      LateHandlersAreShutOut(cfg, trace, actions, rid, h, i, j - 1);
      ClosedStays(cfg, trace, actions, rid, i, j - 1);
      StepKeepsShutOut(cfg, trace[j - 1], actions[j - 1], trace[j], h, rid);
    }
  }

  // ----- what was paid -----

  /** No transfer pays for two settlements. */
  lemma LegsAreNotShared(cfg: Config, s: State, i: nat, j: nat)
    requires Inv(cfg, s) && i < j < |s.store.settlements|
    ensures var r, t := s.store.settlements[i], s.store.settlements[j];
            {r.dealerTx, r.marketplaceTx, r.reserveTx} !! {t.dealerTx, t.marketplaceTx, t.reserveTx}
  {
    var r, t := s.store.settlements[i], s.store.settlements[j];
    assert SettlementOk(cfg, s, r) && SettlementOk(cfg, s, t);
  }

  /** Only a request whose premium is worth at least eleven micro-USDC is ever settled. */
  lemma SettledPremiumIsElevenOrMore(cfg: Config, s: State, row: Settlement)
    requires Inv(cfg, s) && row in s.store.settlements && 0.0 <= cfg.rate
    ensures row.request in s.store.requests
    ensures 11 <= WinPremium(s.store.requests[row.request].loan, cfg.rate)
  {
    assert SettlementOk(cfg, s, row);
    SplitsAreExact(s.store.requests[row.request].loan, cfg.rate);
  }

  datatype Detail = DetailNotFound | DetailFailed | Shown(row: Settlement, splits: Splits)

  /** The settlement of a request as reported: the splits are computed anew from the loan. */
  function SettlementDetail(store: Store, rid: Id, rate: real): Detail {
    match GetSettlement(store, rid)
    case NoRow => DetailNotFound
    case MultipleRows => DetailFailed
    case OneRow(row) =>
      if rid !in store.requests then DetailNotFound
      else Shown(row, ComputeSplits(store.requests[rid].loan, rate))
  }

  /** When a request's settlement is shown: exactly when the request has one row and no
      more, whatever has become of the request.  Without a row it is not found, with two the
      query fails. */
  lemma DetailIsShownExactly(store: Store, rid: Id, rate: real)
    requires rid in store.requests
    ensures var detail, rows := SettlementDetail(store, rid, rate), store.settlements;
            && (forall i :: 0 <= i < |rows| ==>
                  (OnlyRowOf(rows, rid, i) ==> detail == Shown(rows[i], ComputeSplits(store.requests[rid].loan, rate))))
            && (detail.Shown? ==> exists i :: 0 <= i < |rows| && rows[i] == detail.row && OnlyRowOf(rows, rid, i))
            && (detail.DetailNotFound? <==> forall i :: 0 <= i < |rows| ==> rows[i].request != rid)
            && (detail.DetailFailed? <==>
                  exists i, j :: 0 <= i < j < |rows| && rows[i].request == rid && rows[j].request == rid)
  {
    SettlementAnswers(store, rid);
  }

  /** Without its request no settlement is shown. */
  lemma DetailNeedsRequest(store: Store, rid: Id, rate: real)
    requires rid !in store.requests
    ensures !SettlementDetail(store, rid, rate).Shown?
  {
  }

  /** What is reported is what was paid: each reported share is the amount of the transfer
      whose hash the settlement records; and it is reported the same in every later state,
      as long as no second row of the request goes in. */
  lemma DetailReportsWhatWasPaid(cfg: Config, trace: seq<State>, actions: seq<Action>, rid: Id, i: nat, j: nat)
    requires Run(cfg, trace, actions) && i <= j < |trace|
    requires SettlementDetail(trace[i].store, rid, cfg.rate).Shown?
    ensures var Shown(row, splits) := SettlementDetail(trace[i].store, rid, cfg.rate);
            && row.request == rid && row in trace[j].store.settlements
            && cfg.payout.Some? && var w := cfg.payout.value; var chain := trace[j].chain;
            && row.dealerTx < |chain| && row.marketplaceTx < |chain| && row.reserveTx < |chain|
            && chain[row.dealerTx].payment == Transfer(w.source, w.dealer, splits.dealer)
            && chain[row.marketplaceTx].payment == Transfer(w.source, w.marketplace, splits.marketplace)
            && chain[row.reserveTx].payment == Transfer(w.source, w.reserve, splits.reserve)
    ensures var later := SettlementDetail(trace[j].store, rid, cfg.rate);
            if |trace[j].store.SettlementsOf(rid)| == 1 then later == SettlementDetail(trace[i].store, rid, cfg.rate)
            else later.DetailFailed? && 1 < |trace[j].store.SettlementsOf(rid)|
  {
    EveryRunIsSafe(cfg, trace, actions, i, j);
    PrefixMembers(trace[i], trace[j]);
    ShownIsRecorded(trace[i].store, rid, cfg.rate);
    var row := SettlementDetail(trace[i].store, rid, cfg.rate).row;
    assert SettlementOk(cfg, trace[j], row);
    ShownStaysShown(trace[i].store, trace[j].store, rid, cfg.rate);
  }

  lemma ShownStaysShown(store: Store, later: Store, rid: Id, rate: real)
    requires SettlementDetail(store, rid, rate).Shown?
    requires forall row :: row in store.settlements ==> row in later.settlements
    requires rid in store.requests && rid in later.requests && later.requests[rid].loan == store.requests[rid].loan
    ensures var detail := SettlementDetail(later, rid, rate);
            if |later.SettlementsOf(rid)| == 1 then detail == SettlementDetail(store, rid, rate)
            else detail.DetailFailed? && 1 < |later.SettlementsOf(rid)|
  {
    ShownIsRecorded(store, rid, rate);
    MatchingFinds(later.settlements, rid);
    var row := SettlementDetail(store, rid, rate).row;
    assert row in later.SettlementsOf(rid);
  }

  lemma ShownIsRecorded(store: Store, rid: Id, rate: real)
    requires SettlementDetail(store, rid, rate).Shown?
    ensures rid in store.requests
    ensures var row := SettlementDetail(store, rid, rate).row;
            row in store.settlements && row.request == rid && store.SettlementsOf(rid) == [row]
  {
    MatchingFinds(store.settlements, rid);
    var row := SettlementDetail(store, rid, rate).row;
    assert row in store.SettlementsOf(rid);
  }
}
