/** Why the exclusive discipline is needed: outcomes that interleaving handlers of one
    request, or one abandoned handler, do reach, for every configuration able to pay and
    every request worth settling.  */
module Races {
  import opened Models
  import opened Ledger
  import opened Settler
  import opened Protocol

  const NOTHING := Choice(true, [], 0, 0)

  lemma Stay(cfg: Config, s: State)
    ensures Reaches(cfg, s, s)
  {
    assert Path(cfg, [s], []);
  }

  lemma Then(cfg: Config, s: State, t: State, a: Action, u: State)
    requires Reaches(cfg, s, t) && Step(cfg, t, a, u)
    ensures Reaches(cfg, s, u)
  {
    var trace, actions :| Path(cfg, trace, actions) && trace[0] == s && trace[|actions|] == t;
    PathExtends(cfg, trace, actions, a, u);
    var trace', actions' := trace + [u], actions + [a];
    assert Path(cfg, trace', actions') && trace'[|actions'|] == u;
  }

  // ----- stretches of one handler -----

  /** A handler reads an open request and stands ready to insert its bid. */
  lemma ReadyToBid(cfg: Config, s: State, t: State, h: Id, rid: Id, body: BidCreate)
    requires Reaches(cfg, s, t) && h !in t.handlers
    requires rid in t.store.requests && t.store.requests[rid].status == RequestOpen
    ensures Reaches(cfg, s, At(t, h, Creating(rid, body, Insert)))
  {
    var u := At(t, h, Creating(rid, body, FetchForBid));
    Then(cfg, s, t, BeginCreate(h, rid, body), u);
    Then(cfg, s, u, Advance(h, NOTHING), At(u, h, Creating(rid, body, Insert)));
    assert At(u, h, Creating(rid, body, Insert)) == At(t, h, Creating(rid, body, Insert));
  }

  /** ... and inserts it. */
  lemma InsertsBid(cfg: Config, s: State, t: State, h: Id, rid: Id, body: BidCreate, id: Id) returns (u: State)
    requires Reaches(cfg, s, t) && h in t.handlers && t.handlers[h] == Creating(rid, body, Insert)
    requires id !in t.store.bids
    ensures Reaches(cfg, s, u)
    ensures u.store == t.store.(bids :=
              t.store.bids[id := Bid(id, rid, body.lender, body.package, body.feeTx, 0, BidOpen)])
    ensures u.handlers == t.handlers[h := Creating(rid, body, CreateReplied(201))]
  {
    u := At(t, h, Creating(rid, body, CreateReplied(201))).(store := t.store.(bids :=
           t.store.bids[id := Bid(id, rid, body.lender, body.package, body.feeTx, 0, BidOpen)]));
    Then(cfg, s, t, Advance(h, Choice(true, [], id, 0)), u);
  }

  /** An accept finds its request and its bid open and stands ready to pay. */
  lemma ReadyToPay(cfg: Config, s: State, t: State, h: Id, rid: Id, bid: Id)
    requires Reaches(cfg, s, t) && h !in t.handlers && cfg.payout.Some?
    requires rid in t.store.requests && t.store.requests[rid].status == RequestOpen
    requires t.store.BidOf(bid, rid) && t.store.bids[bid].status == BidOpen
    ensures Reaches(cfg, s, At(t, h, Accepting(rid, bid, Pay(t.store.requests[rid].loan, []))))
  {
    var loan := t.store.requests[rid].loan;
    var u := At(t, h, Accepting(rid, bid, Fetch));
    var v := At(u, h, Accepting(rid, bid, CheckBid(loan)));
    var w := At(v, h, Accepting(rid, bid, Pay(loan, [])));
    Then(cfg, s, t, BeginAccept(h, rid, bid), u);
    Then(cfg, s, u, Advance(h, NOTHING), v);
    Then(cfg, s, v, Advance(h, NOTHING), w);
    assert w == At(t, h, Accepting(rid, bid, Pay(loan, [])));
  }

  /** One leg lands. */
  lemma PaysOne(cfg: Config, s: State, t: State, h: Id, rid: Id, bid: Id, loan: int, hashes: seq<nat>)
    returns (u: State)
    requires Reaches(cfg, s, t) && cfg.payout.Some?
    requires h in t.handlers && t.handlers[h] == Accepting(rid, bid, Pay(loan, hashes)) && |hashes| < 3
    requires 0 < LegAmount(ComputeSplits(loan, cfg.rate), |hashes|)
    ensures Reaches(cfg, s, u) && u.store == t.store
    ensures u.handlers == t.handlers[h := Accepting(rid, bid, Pay(loan, hashes + [|t.chain|]))]
  {
    u := At(t, h, Accepting(rid, bid, Pay(loan, hashes + [|t.chain|])))
         .(chain := t.chain + [LegOf(cfg, h, |hashes|, loan)]);
    Then(cfg, s, t, Advance(h, NOTHING), u);
  }

  predicate Payable(cfg: Config, loan: int) {
    && cfg.payout.Some?
    && forall place :: 0 <= place < 3 ==> 0 < LegAmount(ComputeSplits(loan, cfg.rate), place)
  }

  lemma PaysAll(cfg: Config, s: State, t: State, h: Id, rid: Id, bid: Id, loan: int)
    returns (u: State, hashes: seq<nat>)
    requires Reaches(cfg, s, t) && Payable(cfg, loan)
    requires h in t.handlers && t.handlers[h] == Accepting(rid, bid, Pay(loan, []))
    ensures Reaches(cfg, s, u) && u.store == t.store && |hashes| == 3
    ensures u.handlers == t.handlers[h := Accepting(rid, bid, Pay(loan, hashes))]
  {
    assert 0 < LegAmount(ComputeSplits(loan, cfg.rate), 0);
    assert 0 < LegAmount(ComputeSplits(loan, cfg.rate), 1);
    assert 0 < LegAmount(ComputeSplits(loan, cfg.rate), 2);
    var a := PaysOne(cfg, s, t, h, rid, bid, loan, []);
    var one := a.handlers[h].pc.hashes;
    var b := PaysOne(cfg, s, a, h, rid, bid, loan, one);
    var two := b.handlers[h].pc.hashes;
    u := PaysOne(cfg, s, b, h, rid, bid, loan, two);
    hashes := u.handlers[h].pc.hashes;
  }

  /** All three legs land and the settlement row goes in. */
  lemma Settles(cfg: Config, s: State, t: State, h: Id, rid: Id, bid: Id, loan: int) returns (u: State)
    requires Reaches(cfg, s, t) && Payable(cfg, loan)
    requires h in t.handlers && t.handlers[h] == Accepting(rid, bid, Pay(loan, []))
    ensures Reaches(cfg, s, u)
    ensures u.store.requests == t.store.requests && u.store.bids == t.store.bids
    ensures |u.store.settlements| == |t.store.settlements| + 1
    ensures u.store.settlements[..|t.store.settlements|] == t.store.settlements
    ensures u.store.settlements[|t.store.settlements|].request == rid
    ensures u.handlers == t.handlers[h := Accepting(rid, bid, MarkWinner)]
  {
    var v, hashes := PaysAll(cfg, s, t, h, rid, bid, loan);
    u := At(v, h, Accepting(rid, bid, MarkWinner)).(store := v.store.(settlements :=
           v.store.settlements + [Settlement(h, rid, bid, hashes[0], hashes[1], hashes[2])]));
    Then(cfg, s, v, Advance(h, NOTHING), u);
  }

  /** The winner is marked. */
  lemma MarksWinner(cfg: Config, s: State, t: State, h: Id, rid: Id, bid: Id) returns (u: State)
    requires Reaches(cfg, s, t) && bid in t.store.bids
    requires h in t.handlers && t.handlers[h] == Accepting(rid, bid, MarkWinner)
    ensures Reaches(cfg, s, u)
    ensures u.store == t.store.SetBidStatus(bid, Accepted)
    ensures u.handlers == t.handlers[h := Accepting(rid, bid, Snapshot)]
  {
    u := At(t, h, Accepting(rid, bid, Snapshot)).(store := t.store.SetBidStatus(bid, Accepted));
    Then(cfg, s, t, Advance(h, NOTHING), u);
  }

  // ----- the outcomes -----

  /** A marketplace with one open request, number 0. */
  lemma Published(cfg: Config, request: BidRequest) returns (s: State)
    requires request.Valid() && request.status == RequestOpen
    ensures Reaches(cfg, INITIAL, s)
    ensures s.store == Store(map[0 := request], map[], []) && s.handlers == map[]
  {
    s := INITIAL.(store := INITIAL.store.(requests := map[0 := request]));
    Stay(cfg, INITIAL);
    assert INITIAL.store.requests[0 := request] == map[0 := request];
    Then(cfg, INITIAL, INITIAL, Publish(0, request), s);
  }

  lemma SettleableIsPayable(cfg: Config, loan: int)
    requires cfg.payout.Some? && 0.0 <= cfg.rate && 0 <= loan && 11 <= WinPremium(loan, cfg.rate)
    ensures Payable(cfg, loan)
  {
    SplitsAreExact(loan, cfg.rate);
  }

  /** Two accepts that both read before either closes pay twice and settle twice. */
  lemma TwoSettlementsForOneRequest(cfg: Config, request: BidRequest, body: BidCreate) returns (s: State)
    requires request.Valid() && request.status == RequestOpen
    requires cfg.payout.Some? && 0.0 <= cfg.rate && 11 <= WinPremium(request.loan, cfg.rate)
    ensures Reaches(cfg, INITIAL, s)
    ensures |s.store.SettlementsOf(0)| == 2 && GetSettlement(s.store, 0).MultipleRows?
  {
    SettleableIsPayable(cfg, request.loan);
    var a := Published(cfg, request);
    ReadyToBid(cfg, INITIAL, a, 10, 0, body);
    var b := InsertsBid(cfg, INITIAL, At(a, 10, Creating(0, body, Insert)), 10, 0, body, 0);
    ReadyToPay(cfg, INITIAL, b, 1, 0, 0);
    var c := At(b, 1, Accepting(0, 0, Pay(request.loan, [])));
    ReadyToPay(cfg, INITIAL, c, 2, 0, 0);
    var d := At(c, 2, Accepting(0, 0, Pay(request.loan, [])));
    var e := Settles(cfg, INITIAL, d, 1, 0, 0, request.loan);
    s := Settles(cfg, INITIAL, e, 2, 0, 0, request.loan);
    TwoRowsMatch(s.store.settlements, e.store.settlements);
  }

  /** No two handlers need overlap: an accept abandoned between its settlement row and
      closing leaves the request open, nothing in flight, and another accept settles it
      again. */
  lemma SettledAgainAfterAbandonment(cfg: Config, request: BidRequest, body: BidCreate) returns (s: State, s': State)
    requires request.Valid() && request.status == RequestOpen
    requires cfg.payout.Some? && 0.0 <= cfg.rate && 11 <= WinPremium(request.loan, cfg.rate)
    ensures Reaches(cfg, INITIAL, s) && Reaches(cfg, s, s')
    ensures (forall h :: h in s.handlers ==> !s.handlers[h].InFlight()) && |s.store.SettlementsOf(0)| == 1
    ensures |s'.store.SettlementsOf(0)| == 2 && GetSettlement(s'.store, 0).MultipleRows?
  {
    SettleableIsPayable(cfg, request.loan);
    var a := Published(cfg, request);
    ReadyToBid(cfg, INITIAL, a, 10, 0, body);
    var b := InsertsBid(cfg, INITIAL, At(a, 10, Creating(0, body, Insert)), 10, 0, body, 0);
    ReadyToPay(cfg, INITIAL, b, 1, 0, 0);
    var c := Settles(cfg, INITIAL, At(b, 1, Accepting(0, 0, Pay(request.loan, []))), 1, 0, 0, request.loan);
    s := At(c, 1, Accepting(0, 0, AcceptAbandoned));
    Then(cfg, INITIAL, c, Abandon(1), s);
    Stay(cfg, s);
    ReadyToPay(cfg, s, s, 2, 0, 0);
    s' := Settles(cfg, s, At(s, 2, Accepting(0, 0, Pay(request.loan, []))), 2, 0, 0, request.loan);
    TwoRowsMatch(s'.store.settlements, s.store.settlements);
  }

  lemma TwoRowsMatch(rows: seq<Settlement>, init: seq<Settlement>)
    requires |rows| == 2 && |init| == 1 && rows[..1] == init
    requires rows[0].request == 0 && rows[1].request == 0
    ensures |Matching(init, 0)| == 1 && |Matching(rows, 0)| == 2
  {
    assert init[..0] == [];
    assert Matching(init, 0) == [init[0]];
  }

  /** A bid inserted by a handler that read the request before it closed stays open on a
      closed request. */
  lemma OpenBidOnClosedRequest(cfg: Config, request: BidRequest, body: BidCreate) returns (s: State)
    requires request.Valid() && request.status == RequestOpen
    requires cfg.payout.Some? && 0.0 <= cfg.rate && 11 <= WinPremium(request.loan, cfg.rate)
    ensures Reaches(cfg, INITIAL, s)
    ensures 0 in s.store.requests && s.store.requests[0].status == Closed
    ensures s.store.BidOf(1, 0) && s.store.bids[1].status == BidOpen
  {
    SettleableIsPayable(cfg, request.loan);
    var a := Published(cfg, request);
    ReadyToBid(cfg, INITIAL, a, 10, 0, body);
    var b := InsertsBid(cfg, INITIAL, At(a, 10, Creating(0, body, Insert)), 10, 0, body, 0);
    ReadyToBid(cfg, INITIAL, b, 11, 0, body);
    var c := At(b, 11, Creating(0, body, Insert));
    ReadyToPay(cfg, INITIAL, c, 1, 0, 0);
    var d := Settles(cfg, INITIAL, At(c, 1, Accepting(0, 0, Pay(request.loan, []))), 1, 0, 0, request.loan);
    var e := MarksWinner(cfg, INITIAL, d, 1, 0, 0);
    var f := At(e, 1, Accepting(0, 0, MarkLosers([])));
    Then(cfg, INITIAL, e, Advance(1, NOTHING), f);
    var g := At(f, 1, Accepting(0, 0, AcceptReplied(200))).(store := f.store.SetRequestStatus(0, Closed));
    Then(cfg, INITIAL, f, Advance(1, NOTHING), g);
    s := InsertsBid(cfg, INITIAL, g, 11, 0, body, 1);
  }

  /** Two accepts of different bids: one lists the other's winner while it is still open,
      and marks it lost after it was accepted. */
  lemma AcceptedBidIsLost(cfg: Config, request: BidRequest, body: BidCreate) returns (s: State, s': State)
    requires request.Valid() && request.status == RequestOpen
    requires cfg.payout.Some? && 0.0 <= cfg.rate && 11 <= WinPremium(request.loan, cfg.rate)
    ensures Reaches(cfg, INITIAL, s) && Reaches(cfg, s, s')
    ensures 0 in s.store.bids && s.store.bids[0].status == Accepted
    ensures 0 in s'.store.bids && s'.store.bids[0].status == Lost
  {
    SettleableIsPayable(cfg, request.loan);
    var a := Published(cfg, request);
    ReadyToBid(cfg, INITIAL, a, 10, 0, body);
    var b := InsertsBid(cfg, INITIAL, At(a, 10, Creating(0, body, Insert)), 10, 0, body, 0);
    ReadyToBid(cfg, INITIAL, b, 11, 0, body);
    var c := InsertsBid(cfg, INITIAL, At(b, 11, Creating(0, body, Insert)), 11, 0, body, 1);
    ReadyToPay(cfg, INITIAL, c, 1, 0, 0);
    var d := At(c, 1, Accepting(0, 0, Pay(request.loan, [])));
    ReadyToPay(cfg, INITIAL, d, 2, 0, 1);
    var e := Settles(cfg, INITIAL, At(d, 2, Accepting(0, 1, Pay(request.loan, []))), 1, 0, 0, request.loan);
    var f := Settles(cfg, INITIAL, e, 2, 0, 1, request.loan);
    var g := MarksWinner(cfg, INITIAL, f, 2, 0, 1);
    var listed := At(g, 2, Accepting(0, 1, MarkLosers([0])));
    Then(cfg, INITIAL, g, Advance(2, Choice(true, [0], 0, 0)), listed);
    s := MarksWinner(cfg, INITIAL, listed, 1, 0, 0);
    s' := At(s, 2, Accepting(0, 1, MarkLosers([]))).(store := s.store.SetBidStatus(0, Lost));
    Stay(cfg, s);
    assert [0][1..] == [];
    Then(cfg, s, s, Advance(2, NOTHING), s');
  }
}
