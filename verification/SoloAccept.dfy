/** The transactions of `accept_bid`, when nothing else runs between them: what they make of
    the ledger, place by place. */
module SoloAccept {
  import opened Models
  import opened Ledger
  import opened Settler
  import opened Protocol
  import opened SettleRoute

  ghost predicate SoloPath(cfg: Config, trace: seq<State>, actions: seq<Action>, h: Id) {
    && Path(cfg, trace, actions)
    && forall i {:trigger actions[i]} :: 0 <= i < |actions| ==> actions[i].Advance? && actions[i].h == h
  }

  function ResolutionOf(cfg: Config): Resolution {
    match cfg.payout
    case Some(w) => Resolved(w)
    case None => Unresolved(NoDealerWallet)
  }

  function Unpaid(cfg: Config, store: Store, rid: Id, bid: Id): int {
    AcceptCode(store, ResolutionOf(cfg), cfg.rate, rid, bid, 0, {})
  }

  predicate Acceptable(store: Store, rid: Id, bid: Id) {
    && rid in store.requests && store.requests[rid].status == RequestOpen
    && store.BidOf(bid, rid) && store.bids[bid].status == BidOpen
  }

  function WithWinner(store: Store, row: Settlement): Store
    requires row.winningBid in store.bids
  {
    store.(settlements := store.settlements + [row],
           bids := store.bids[row.winningBid := store.bids[row.winningBid].(status := Accepted)])
  }

  function WithLosers(store: Store, row: Settlement, rest: seq<Id>): Store
    requires row.winningBid in store.bids
  {
    var marked := MarkLost(store.bids, row.request, row.winningBid, store.bids.Keys - (set b | b in rest));
    store.(settlements := store.settlements + [row],
           bids := marked[row.winningBid := store.bids[row.winningBid].(status := Accepted)])
  }

  /** The ledger `now` as handler `h` has left it at each of its places, given what it was
      at the start.  `row` is the settlement it inserts, once it has. */
  ghost predicate Along(cfg: Config, start: Store, rid: Id, bid: Id, pc: AcceptPc, row: Settlement, now: Store) {
    match pc
    case Fetch => now == start
    case CheckBid(loan) =>
      && now == start
      && rid in start.requests && start.requests[rid].status == RequestOpen
    case Pay(_, hashes) => now == start && Acceptable(start, rid, bid) && |hashes| <= 3
    case MarkWinner =>
      && Acceptable(start, rid, bid) && row.request == rid && row.winningBid == bid
      && now == start.(settlements := start.settlements + [row])
    case Snapshot =>
      && Acceptable(start, rid, bid) && row.request == rid && row.winningBid == bid
      && now == WithWinner(start, row)
    case MarkLosers(rest) =>
      && Acceptable(start, rid, bid) && row.request == rid && row.winningBid == bid
      && now == WithLosers(start, row, rest)
      && (forall b :: b in rest ==> OpenOther(start, rid, bid, b))
      && (forall i, j :: 0 <= i < j < |rest| ==> rest[i] != rest[j])
    case AcceptReplied(code) =>
      if code == 200 then
        && Acceptable(start, rid, bid) && row.request == rid && row.winningBid == bid
        && now == AcceptedStore(start, row)
      else
        && now == start
        && (code == 502 || code == Unpaid(cfg, start, rid, bid))
    case AcceptAbandoned => true
  }

  lemma ListedStartsLosers(start: Store, row: Settlement, order: seq<Id>)
    requires Acceptable(start, row.request, row.winningBid)
    requires ListsOpenOthers(WithWinner(start, row), row.request, row.winningBid, order)
    ensures WithLosers(start, row, order) == WithWinner(start, row)
    ensures forall b :: b in order ==> OpenOther(start, row.request, row.winningBid, b)
  {
    forall b | b in start.bids && OpenOther(start, row.request, row.winningBid, b)
      ensures b in order
    {
      assert OpenOther(WithWinner(start, row), row.request, row.winningBid, b);
    }
    forall b | b in order
      ensures OpenOther(start, row.request, row.winningBid, b)
    {
      assert OpenOther(WithWinner(start, row), row.request, row.winningBid, b);
    }
  }

  lemma OneMoreLoser(start: Store, row: Settlement, rest: seq<Id>)
    requires row.winningBid in start.bids && rest != []
    requires OpenOther(start, row.request, row.winningBid, rest[0])
    requires forall i, j :: 0 <= i < j < |rest| ==> rest[i] != rest[j]
    ensures WithLosers(start, row, rest[1..]) == WithLosers(start, row, rest).SetBidStatus(rest[0], Lost)
  {
    assert rest == [rest[0]] + rest[1..];
    assert rest[0] !in rest[1..];
    var done := start.bids.Keys - (set b | b in rest);
    assert start.bids.Keys - (set b | b in rest[1..]) == done + {rest[0]};
    OneMoreLost(start.bids, row.request, row.winningBid, done, rest[0]);
  }

  lemma NoLosersLeft(start: Store, row: Settlement)
    requires row.request in start.requests && row.winningBid in start.bids
    ensures WithLosers(start, row, []).SetRequestStatus(row.request, Closed) == AcceptedStore(start, row)
  {
    assert start.bids.Keys - (set b | b in []) == start.bids.Keys;
  }

  function NewestRow(store: Store): Settlement
    requires store.settlements != []
  {
    store.settlements[|store.settlements| - 1]
  }

  /** The handler is about to insert its settlement row. */
  predicate Inserts(pc: AcceptPc) {
    pc.Pay? && |pc.hashes| == 3
  }

  /** One transaction further along. */
  lemma StepAlong(cfg: Config, start: Store, s: State, h: Id, c: Choice, s': State, row: Settlement)
    returns (row': Settlement)
    requires Step(cfg, s, Advance(h, c), s') && s.handlers[h].Accepting?
    requires Along(cfg, start, s.handlers[h].request, s.handlers[h].bid, s.handlers[h].pc, row, s.store)
    ensures h in s'.handlers && s'.handlers[h].Accepting?
    ensures s'.handlers[h].request == s.handlers[h].request && s'.handlers[h].bid == s.handlers[h].bid
    ensures Along(cfg, start, s.handlers[h].request, s.handlers[h].bid, s'.handlers[h].pc, row', s'.store)
    ensures if Inserts(s.handlers[h].pc) then s'.store.settlements != [] && row' == NewestRow(s'.store) else row' == row
  {
    row' := row;
    var hd := s.handlers[h];
    match hd.pc
    case Fetch =>
    case CheckBid(_) =>
    case Pay(_, hashes) =>
      if Inserts(hd.pc) {
        row' := NewestRow(s'.store);
      }
    case MarkWinner =>
    case Snapshot => ListedStartsLosers(start, row, c.order);
    case MarkLosers(rest) =>
      if rest == [] {
        NoLosersLeft(start, row);
      } else {
        assert rest[0] in rest;
        OneMoreLoser(start, row, rest);
      }
  }
}
