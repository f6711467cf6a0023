/** The protocol under the assumption its outcome depends on: at most one mutating handler
    in flight per request, and none abandoned.  Handlers of different requests still
    interleave freely.  */
module Exclusive {
  import opened Models
  import opened Ledger
  import opened Protocol
  import Interleaving
  import Settler

  ghost predicate Busy(s: State, rid: Id) {
    exists h :: InFlightOn(s, h, rid)
  }

  predicate InFlightOn(s: State, h: Id, rid: Id) {
    h in s.handlers && s.handlers[h].request == rid && s.handlers[h].InFlight()
  }

  ghost predicate ExclusiveStep(cfg: Config, s: State, a: Action, s': State) {
    && Step(cfg, s, a, s')
    && !a.Abandon?
    && (a.BeginAccept? || a.BeginCreate? ==> !Busy(s, a.rid))
  }

  ghost predicate ExclusiveRun(cfg: Config, trace: seq<State>, actions: seq<Action>) {
    && |trace| == |actions| + 1
    && trace[0] == INITIAL
    && forall i {:trigger actions[i]} :: 0 <= i < |actions| ==> ExclusiveStep(cfg, trace[i], actions[i], trace[i + 1])
  }

  // ----- one request at a time -----

  /** All the ledger holds about one request. */
  datatype View = View(status: Option<RequestStatus>, bids: map<Id, BidStatus>, rows: seq<Settlement>) {
    /** No accept has succeeded. */
    predicate QuietOpen() {
      && status == Some(RequestOpen)
      && rows == []
      && forall b :: b in bids ==> bids[b] == BidOpen
    }

    /** One accept has: one settlement row, its winner accepted, every other bid lost. */
    predicate QuietClosed() {
      && status == Some(Closed)
      && |rows| == 1
      && WonBy(rows[0].winningBid, [])
    }

    predicate Quiet() {
      QuietOpen() || QuietClosed()
    }

    /** Midway through marking: `winner` is accepted, the bids in `rest` are still open, all
        others are lost. */
    predicate WonBy(winner: Id, rest: seq<Id>) {
      && winner in bids && bids[winner] == Accepted && winner !in rest
      && forall b :: b in bids && b != winner ==> bids[b] == if b in rest then BidOpen else Lost
    }

    /** The settlement row is in, the request not yet closed. */
    predicate Settling(winner: Id) {
      && status == Some(RequestOpen)
      && |rows| == 1 && rows[0].winningBid == winner
    }
  }

  function ViewOf(store: Store, rid: Id): View {
    View(
      if rid in store.requests then Some(store.requests[rid].status) else None,
      map b | b in store.bids && store.bids[b].request == rid :: store.bids[b].status,
      store.SettlementsOf(rid))
  }

  /** What the view of its request is while a handler is in flight. */
  ghost predicate PhaseOk(v: View, hd: Handler) {
    match hd
    case Creating(_, _, pc) =>
      (match pc
       case FetchForBid => v.status.None? || v.Quiet()
       case Insert => v.QuietOpen()
       case _ => true)
    case Accepting(_, bid, pc) =>
      match pc
      case Fetch => v.status.None? || v.Quiet()
      case CheckBid(_) => v.QuietOpen()
      case Pay(_, _) => v.QuietOpen() && bid in v.bids
      case MarkWinner => v.Settling(bid) && bid in v.bids && forall b :: b in v.bids ==> v.bids[b] == BidOpen
      case Snapshot =>
        && v.Settling(bid) && bid in v.bids && v.bids[bid] == Accepted
        && forall b :: b in v.bids && b != bid ==> v.bids[b] == BidOpen
      case MarkLosers(rest) =>
        && v.Settling(bid) && v.WonBy(bid, rest)
        && (forall b :: b in rest ==> b in v.bids)
        && forall i, j :: 0 <= i < j < |rest| ==> rest[i] != rest[j]
      case _ => true
  }

  ghost predicate RequestOk(s: State, rid: Id) {
    && (forall h :: InFlightOn(s, h, rid) ==> PhaseOk(ViewOf(s.store, rid), s.handlers[h]))
    && (forall h, k :: InFlightOn(s, h, rid) && InFlightOn(s, k, rid) ==> h == k)
    && (rid in s.store.requests && !Busy(s, rid) ==> ViewOf(s.store, rid).Quiet())
  }

  // ----- how each write changes the views -----

  lemma BidStatusChangesOneView(store: Store, b: Id, status: BidStatus, rid: Id)
    requires b in store.bids
    ensures var v := ViewOf(store, rid);
            ViewOf(store.SetBidStatus(b, status), rid) ==
            if store.bids[b].request == rid then v.(bids := v.bids[b := status]) else v
  {
  }

  lemma RequestStatusChangesOneView(store: Store, r: Id, status: RequestStatus, rid: Id)
    requires r in store.requests
    ensures var v := ViewOf(store, rid);
            ViewOf(store.SetRequestStatus(r, status), rid) == if r == rid then v.(status := Some(status)) else v
  {
  }

  lemma NewBidChangesOneView(store: Store, bid: Bid, rid: Id)
    requires bid.id !in store.bids
    ensures var v := ViewOf(store, rid);
            ViewOf(store.(bids := store.bids[bid.id := bid]), rid) ==
            if bid.request == rid then v.(bids := v.bids[bid.id := bid.status]) else v
  {
  }

  lemma NewRowChangesOneView(store: Store, row: Settlement, rid: Id)
    ensures var v := ViewOf(store, rid);
            ViewOf(store.(settlements := store.settlements + [row]), rid) ==
            if row.request == rid then v.(rows := v.rows + [row]) else v
  {
    MatchingAfterInsert(store.settlements, row, rid);
  }

  // ----- one step -----

  /** Handler `h` moved, and what the view of its request became fits where it is now. */
  ghost predicate Fits(v': View, hd': Handler) {
    if hd'.InFlight() then PhaseOk(v', hd') else v'.status.Some? ==> v'.Quiet()
  }

  /** A step of handler `h` keeps the order of its own request when its new place fits the
      new view, and leaves every other request as it was. */
  lemma MoveKeepsOrder(s: State, s': State, h: Id, rid: Id)
    requires h in s'.handlers && s'.handlers == s.handlers[h := s'.handlers[h]]
    requires var own := s'.handlers[h].request;
             && (if h in s.handlers then InFlightOn(s, h, own) else !Busy(s, own))
             && (if rid == own then Fits(ViewOf(s'.store, rid), s'.handlers[h])
                 else ViewOf(s'.store, rid) == ViewOf(s.store, rid))
    requires RequestOk(s, rid)
    ensures RequestOk(s', rid)
  {
    assert forall k :: k != h ==> (InFlightOn(s', k, rid) <==> InFlightOn(s, k, rid));
    if rid != s'.handlers[h].request {
      assert Busy(s, rid) <==> Busy(s', rid);
    } else {
      assert forall k :: k != h ==> !InFlightOn(s, k, rid);
      assert Busy(s', rid) <==> InFlightOn(s', h, rid);
    }
  }

  lemma ReadingFits(cfg: Config, s: State, h: Id, c: Choice, s': State)
    requires Step(cfg, s, Advance(h, c), s') && s.handlers[h].Accepting?
    requires s.handlers[h].pc.Fetch? || s.handlers[h].pc.CheckBid? || s.handlers[h].pc.Snapshot?
    requires Interleaving.HandlerOk(cfg, s, h, s.handlers[h])
    requires PhaseOk(ViewOf(s.store, s.handlers[h].request), s.handlers[h])
    ensures h in s'.handlers && Fits(ViewOf(s'.store, s.handlers[h].request), s'.handlers[h])
  {
    var hd := s.handlers[h];
    if hd.pc.Snapshot? {
      SnapshotFits(s.store, hd.request, hd.bid, c.order);
    }
  }

  lemma PayingFits(cfg: Config, s: State, h: Id, c: Choice, s': State)
    requires Step(cfg, s, Advance(h, c), s') && s.handlers[h].Accepting? && s.handlers[h].pc.Pay?
    requires Interleaving.HandlerOk(cfg, s, h, s.handlers[h])
    requires PhaseOk(ViewOf(s.store, s.handlers[h].request), s.handlers[h])
    ensures h in s'.handlers && Fits(ViewOf(s'.store, s.handlers[h].request), s'.handlers[h])
  {
    var hd := s.handlers[h];
    var hashes := hd.pc.hashes;
    if |hashes| == 3 {
      RowFits(s.store, hd, Settlement(h, hd.request, hd.bid, hashes[0], hashes[1], hashes[2]));
    } else {
      LegFits(ViewOf(s.store, hd.request), hd, s'.handlers[h].pc);
    }
  }

  /** The settlement row goes in. */
  lemma RowFits(store: Store, hd: Handler, row: Settlement)
    requires hd.Accepting? && hd.pc.Pay? && PhaseOk(ViewOf(store, hd.request), hd)
    requires row.request == hd.request && row.winningBid == hd.bid
    ensures Fits(ViewOf(store.(settlements := store.settlements + [row]), hd.request),
              Accepting(hd.request, hd.bid, MarkWinner))
  {
    NewRowChangesOneView(store, row, hd.request);
  }

  /** A leg lands, or the accept is answered 502. */
  lemma LegFits(v: View, hd: Handler, pc': AcceptPc)
    requires hd.Accepting? && hd.pc.Pay? && PhaseOk(v, hd) && (pc'.Pay? || pc' == AcceptReplied(502))
    ensures Fits(v, Accepting(hd.request, hd.bid, pc'))
  {
  }

  lemma WinnerFits(cfg: Config, s: State, h: Id, c: Choice, s': State)
    requires Step(cfg, s, Advance(h, c), s') && s.handlers[h].Accepting? && s.handlers[h].pc.MarkWinner?
    requires Interleaving.HandlerOk(cfg, s, h, s.handlers[h])
    requires PhaseOk(ViewOf(s.store, s.handlers[h].request), s.handlers[h])
    ensures h in s'.handlers && Fits(ViewOf(s'.store, s.handlers[h].request), s'.handlers[h])
  {
    var hd := s.handlers[h];
    assert hd.bid in s.store.bids;
    BidStatusChangesOneView(s.store, hd.bid, Accepted, hd.request);
  }

  lemma ClosingFits(cfg: Config, s: State, h: Id, c: Choice, s': State)
    requires Step(cfg, s, Advance(h, c), s') && s.handlers[h].Accepting? && s.handlers[h].pc.MarkLosers?
    requires Interleaving.HandlerOk(cfg, s, h, s.handlers[h])
    requires PhaseOk(ViewOf(s.store, s.handlers[h].request), s.handlers[h])
    ensures h in s'.handlers && Fits(ViewOf(s'.store, s.handlers[h].request), s'.handlers[h])
  {
    var hd := s.handlers[h];
    LoserFits(s.store, hd.request, hd.bid, hd.pc.rest);
  }

  /** The view of handler `h`'s own request after its step. */
  lemma AcceptFits(cfg: Config, s: State, h: Id, c: Choice, s': State)
    requires Step(cfg, s, Advance(h, c), s') && s.handlers[h].Accepting? && s.handlers[h].InFlight()
    requires Interleaving.HandlerOk(cfg, s, h, s.handlers[h])
    requires PhaseOk(ViewOf(s.store, s.handlers[h].request), s.handlers[h])
    ensures h in s'.handlers && Fits(ViewOf(s'.store, s.handlers[h].request), s'.handlers[h])
  {
    match s.handlers[h].pc
    case Pay(_, _) => PayingFits(cfg, s, h, c, s');
    case MarkWinner => WinnerFits(cfg, s, h, c, s');
    case MarkLosers(_) => ClosingFits(cfg, s, h, c, s');
    case _ => ReadingFits(cfg, s, h, c, s');
  }

  /** The next loser is marked, or the request is closed. */
  lemma LoserFits(store: Store, rid: Id, bid: Id, rest: seq<Id>)
    requires PhaseOk(ViewOf(store, rid), Accepting(rid, bid, MarkLosers(rest)))
    requires forall b :: b in rest ==> store.BidOf(b, rid)
    ensures rest == [] && rid in store.requests ==>
              Fits(ViewOf(store.SetRequestStatus(rid, Closed), rid), Accepting(rid, bid, AcceptReplied(200)))
    ensures rest != [] && rest[0] in store.bids ==>
              Fits(ViewOf(store.SetBidStatus(rest[0], Lost), rid), Accepting(rid, bid, MarkLosers(rest[1..])))
    ensures rest == [] ==> rid in store.requests
    ensures rest != [] ==> rest[0] in store.bids
  {
    var v := ViewOf(store, rid);
    if rest == [] {
      RequestStatusChangesOneView(store, rid, Closed, rid);
    } else {
      assert rest[0] in v.bids;
      BidStatusChangesOneView(store, rest[0], Lost, rid);
      MarkedOneMore(v, bid, rest);
    }
  }

  lemma SnapshotFits(store: Store, rid: Id, bid: Id, order: seq<Id>)
    requires ListsOpenOthers(store, rid, bid, order)
    requires PhaseOk(ViewOf(store, rid), Accepting(rid, bid, Snapshot))
    ensures PhaseOk(ViewOf(store, rid), Accepting(rid, bid, MarkLosers(order)))
  {
  }

  lemma MarkedOneMore(v: View, winner: Id, rest: seq<Id>)
    requires rest != [] && v.WonBy(winner, rest) && rest[0] in v.bids
    requires forall i, j :: 0 <= i < j < |rest| ==> rest[i] != rest[j]
    ensures v.(bids := v.bids[rest[0] := Lost]).WonBy(winner, rest[1..])
    ensures forall i, j :: 0 <= i < j < |rest[1..]| ==> rest[1..][i] != rest[1..][j]
  {
    assert rest == [rest[0]] + rest[1..];
    assert rest[0] !in rest[1..];
  }

  lemma CreateFits(cfg: Config, s: State, h: Id, c: Choice, s': State)
    requires Step(cfg, s, Advance(h, c), s') && s.handlers[h].Creating? && s.handlers[h].InFlight()
    requires PhaseOk(ViewOf(s.store, s.handlers[h].request), s.handlers[h])
    ensures h in s'.handlers && Fits(ViewOf(s'.store, s.handlers[h].request), s'.handlers[h])
  {
    var hd := s.handlers[h];
    if hd.createPc == Insert {
      var body := hd.body;
      NewBidChangesOneView(s.store, Bid(c.newId, hd.request, body.lender, body.package, body.feeTx, c.now, BidOpen),
        hd.request);
    }
  }

  /** A transaction touches the view of one request only. */
  lemma AdvanceLeavesOtherViews(cfg: Config, s: State, h: Id, c: Choice, s': State, rid: Id)
    requires Step(cfg, s, Advance(h, c), s') && s.handlers[h].request != rid
    requires Interleaving.HandlerOk(cfg, s, h, s.handlers[h]) && Interleaving.Inv(cfg, s)
    ensures ViewOf(s'.store, rid) == ViewOf(s.store, rid)
  {
    match s.handlers[h]
    case Creating(own, body, pc) =>
      if pc == Insert {
        NewBidChangesOneView(s.store, Bid(c.newId, own, body.lender, body.package, body.feeTx, c.now, BidOpen), rid);
      }
    case Accepting(own, bid, pc) =>
      match pc {
        case Pay(_, hashes) =>
          if |hashes| == 3 {
            NewRowChangesOneView(s.store, Settlement(h, own, bid, hashes[0], hashes[1], hashes[2]), rid);
          }
        case MarkWinner =>
          var row := Interleaving.RowOf(cfg, s, h, s.handlers[h]);
          BidStatusChangesOneView(s.store, bid, Accepted, rid);
        case MarkLosers(rest) =>
          if rest == [] {
            var row := Interleaving.RowOf(cfg, s, h, s.handlers[h]);
            RequestStatusChangesOneView(s.store, own, Closed, rid);
          } else {
            assert rest[0] in rest;
            BidStatusChangesOneView(s.store, rest[0], Lost, rid);
          }
        case _ =>
      }
  }

  /** A request just published has no bid and no settlement. */
  lemma PublishedIsQuiet(cfg: Config, s: State, rid: Id, request: BidRequest, s': State)
    requires Interleaving.Inv(cfg, s) && Step(cfg, s, Publish(rid, request), s')
    ensures ViewOf(s'.store, rid).QuietOpen()
  {
    forall row | row in s.store.settlements
      ensures row.request != rid
    {
      assert Interleaving.SettlementOk(cfg, s, row);
    }
    NoneMatches(s.store.settlements, rid);
  }

  lemma PublishKeepsOrder(cfg: Config, s: State, r: Id, request: BidRequest, s': State, rid: Id)
    requires Interleaving.Inv(cfg, s) && Step(cfg, s, Publish(r, request), s') && RequestOk(s, rid)
    ensures RequestOk(s', rid)
  {
    assert forall h :: InFlightOn(s', h, rid) <==> InFlightOn(s, h, rid);
    if r == rid {
      PublishedIsQuiet(cfg, s, r, request, s');
    } else {
      assert ViewOf(s'.store, rid) == ViewOf(s.store, rid);
      assert Busy(s, rid) <==> Busy(s', rid);
    }
  }

  lemma StepKeepsOrder(cfg: Config, s: State, a: Action, s': State, rid: Id)
    requires Interleaving.Inv(cfg, s) && ExclusiveStep(cfg, s, a, s')
    requires forall r :: RequestOk(s, r)
    ensures RequestOk(s', rid)
  {
    match a
    case Publish(r, request) => PublishKeepsOrder(cfg, s, r, request, s', rid);
    case BeginAccept(h, r, _) =>
      assert RequestOk(s, r);
      MoveKeepsOrder(s, s', h, rid);
    case BeginCreate(h, r, _) =>
      assert RequestOk(s, r);
      MoveKeepsOrder(s, s', h, rid);
    case Advance(h, c) => AdvanceKeepsOrder(cfg, s, h, c, s', rid);
  }

  lemma AdvanceKeepsOrder(cfg: Config, s: State, h: Id, c: Choice, s': State, rid: Id)
    requires Interleaving.Inv(cfg, s) && Step(cfg, s, Advance(h, c), s')
    requires RequestOk(s, s.handlers[h].request) && RequestOk(s, rid)
    ensures RequestOk(s', rid)
  {
    var own := s.handlers[h].request;
    assert InFlightOn(s, h, own);
    assert Interleaving.HandlerOk(cfg, s, h, s.handlers[h]);
    if rid != own {
      AdvanceLeavesOtherViews(cfg, s, h, c, s', rid);
    } else if s.handlers[h].Accepting? {
      AcceptFits(cfg, s, h, c, s');
    } else {
      CreateFits(cfg, s, h, c, s');
    }
    AdvanceMovesOne(cfg, s, h, c, s');
    MoveKeepsOrder(s, s', h, rid);
  }

  lemma AdvanceMovesOne(cfg: Config, s: State, h: Id, c: Choice, s': State)
    requires Step(cfg, s, Advance(h, c), s')
    ensures s.handlers[h].InFlight() && h in s'.handlers
    ensures s'.handlers == s.handlers[h := s'.handlers[h]] && s'.handlers[h].request == s.handlers[h].request
  {
  }

  // ----- whole runs -----

  lemma {:induction false} ExclusiveRunKeepsOrder(cfg: Config, trace: seq<State>, actions: seq<Action>, i: nat)
    requires ExclusiveRun(cfg, trace, actions) && i < |trace|
    ensures Interleaving.Inv(cfg, trace[i])
    ensures forall rid :: RequestOk(trace[i], rid)
  {
    if i > 0 {
      ExclusiveRunKeepsOrder(cfg, trace, actions, i - 1);
      Interleaving.StepKeepsInv(cfg, trace[i - 1], actions[i - 1], trace[i]);
      forall rid
        ensures RequestOk(trace[i], rid)
      {
        StepKeepsOrder(cfg, trace[i - 1], actions[i - 1], trace[i], rid);
      }
    } else {
      assert Interleaving.Inv(cfg, INITIAL);
      forall rid
        ensures RequestOk(INITIAL, rid)
      {
      }
    }
  }

  /** Whenever no handler of a request is in flight, the request is either open, with no
      settlement and only open bids, or closed, with exactly one settlement, whose winner
      is the one accepted bid, and every other bid lost. */
  lemma QuiescentRequests(cfg: Config, trace: seq<State>, actions: seq<Action>, i: nat, rid: Id)
    requires ExclusiveRun(cfg, trace, actions) && i < |trace|
    requires rid in trace[i].store.requests && !Busy(trace[i], rid)
    ensures ViewOf(trace[i].store, rid).QuietOpen() || ViewOf(trace[i].store, rid).QuietClosed()
  {
    ExclusiveRunKeepsOrder(cfg, trace, actions, i);
    assert RequestOk(trace[i], rid);
  }

  lemma PhasesSettleAtMostOnce(v: View, hd: Handler)
    requires hd.InFlight() && PhaseOk(v, hd) && v.status.Some?
    ensures |v.rows| <= 1
    ensures v.status == Some(Closed) ==> forall b :: b in v.bids ==> v.bids[b] != BidOpen
  {
  }

  /** The settlement of an idle closed request is shown, with the splits of its loan. */
  lemma ClosedRequestShowsSettlement(cfg: Config, trace: seq<State>, actions: seq<Action>, i: nat, rid: Id)
    requires ExclusiveRun(cfg, trace, actions) && i < |trace|
    requires Interleaving.IsClosed(trace[i].store, rid) && !Busy(trace[i], rid)
    ensures var store := trace[i].store;
            && |store.SettlementsOf(rid)| == 1
            && Interleaving.SettlementDetail(store, rid, cfg.rate) ==
               Interleaving.Shown(store.SettlementsOf(rid)[0],
                                  Settler.ComputeSplits(store.requests[rid].loan, cfg.rate))
  {
    QuiescentRequests(cfg, trace, actions, i, rid);
  }

  /** At every moment, busy or not, a request has at most one settlement, so the query for
      it never finds several rows; and a closed request has no open bid. */
  lemma AtMostOneSettlement(cfg: Config, trace: seq<State>, actions: seq<Action>, i: nat, rid: Id)
    requires ExclusiveRun(cfg, trace, actions) && i < |trace|
    requires rid in trace[i].store.requests
    ensures |trace[i].store.SettlementsOf(rid)| <= 1 && !GetSettlement(trace[i].store, rid).MultipleRows?
    ensures trace[i].store.requests[rid].status == Closed ==>
              forall b :: trace[i].store.BidOf(b, rid) ==> trace[i].store.bids[b].status != BidOpen
  {
    ExclusiveRunKeepsOrder(cfg, trace, actions, i);
    AtMostOneInState(trace[i], rid);
  }

  lemma AtMostOneInState(s: State, rid: Id)
    requires RequestOk(s, rid) && rid in s.store.requests
    ensures |s.store.SettlementsOf(rid)| <= 1
    ensures s.store.requests[rid].status == Closed ==>
              forall b :: s.store.BidOf(b, rid) ==> s.store.bids[b].status != BidOpen
  {
    var v := ViewOf(s.store, rid);
    assert forall b :: s.store.BidOf(b, rid) ==> b in v.bids && v.bids[b] == s.store.bids[b].status;
    if Busy(s, rid) {
      var h :| InFlightOn(s, h, rid);
      PhasesSettleAtMostOnce(v, s.handlers[h]);
    }
  }
}
