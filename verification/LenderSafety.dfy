/** What the marketplace can rely on when its bidders are lender agents paying from their
    wallets: the theorems over whole runs. */
module LenderSafety {
  import opened Models
  import opened Ledger
  import opened Protocol
  import opened Parsing
  import opened Quantize
  import opened Digits
  import opened Handshake
  import opened LenderProtocol
  import opened PaidBids
  import Interleaving
  import Treasury

  // ----- one evaluation -----

  /** The payments a task made. */
  function PaymentsOf(payments: seq<Payment>, t: Task): nat {
    if payments == [] then 0
    else PaymentsOf(payments[..|payments| - 1], t) + (if payments[|payments| - 1].payer == t then 1 else 0)
  }

  lemma {:induction false} NoPaymentsBy(payments: seq<Payment>, t: Task)
    requires forall i :: 0 <= i < |payments| ==> payments[i].payer != t
    ensures PaymentsOf(payments, t) == 0
  {
    if payments != [] {
      NoPaymentsBy(payments[..|payments| - 1], t);
    }
  }

  lemma {:induction false} AtMostOnePayment(payments: seq<Payment>, t: Task)
    requires forall i, j :: 0 <= i < j < |payments| ==> payments[i].payer != payments[j].payer
    ensures PaymentsOf(payments, t) <= 1
  {
    if payments != [] {
      var init, last := payments[..|payments| - 1], payments[|payments| - 1];
      AtMostOnePayment(init, t);
      if last.payer == t {
        assert forall i :: 0 <= i < |init| ==> init[i] == payments[i];
        NoPaymentsBy(init, t);
      }
    }
  }

  /** The bids a lender has on a request. */
  function BidsBy(store: Store, t: Task): set<Id> {
    set b | b in store.bids && store.bids[b].lender == t.lender && store.bids[b].request == t.request
  }

  /** In every run, each lender makes at most two posts and at most one payment for a
      request, and never has more than one bid on it. */
  lemma EvaluationIsBounded(cfg: Config, fee: real, trace: seq<World>, moves: seq<Move>, i: nat, t: Task)
    requires WorldRun(cfg, fee, trace, moves) && i < |trace|
    ensures CountOf(trace[i].posts, t) <= 2
    ensures PaymentsOf(trace[i].payments, t) <= 1
    ensures |BidsBy(trace[i].market.store, t)| <= 1
  {
    EveryWorldIsOk(cfg, fee, trace, moves, i);
    AtMostOnePayment(trace[i].payments, t);
    assert CountOf(trace[i].posts, t) <= PostsAllowed(trace[i].tasks, t);
    var mine := BidsBy(trace[i].market.store, t);
    if mine != {} {
      var b :| b in mine;
      assert mine == {b};
    }
  }

  /** A task that is over and has never reached the marketplace. */
  ghost predicate Silent(w: World, t: Task) {
    && t in w.tasks && w.tasks[t].Over?
    && CountOf(w.posts, t) == 0
    && (forall i :: 0 <= i < |w.payments| ==> w.payments[i].payer != t)
    && (forall h :: Creates(w.market.handlers, h) ==> TaskOf(w.market.handlers[h]) != t)
  }

  lemma MarketKeepsSilent(cfg: Config, fee: real, w: World, a: Action, w': World, t: Task)
    requires WorldStep(cfg, fee, w, Market(a), w') && Silent(w, t)
    ensures Silent(w', t)
  {
    MarketKeepsTerms(cfg, w.market, a, w'.market);
    forall h | Creates(w'.market.handlers, h)
      ensures TaskOf(w'.market.handlers[h]) != t
    {
      assert Creates(w.market.handlers, h) && SameJob(w.market.handlers[h], w'.market.handlers[h]);
    }
  }

  lemma PostKeepsSilent(fee: real, w: World, u: Task, h: Id, delivery: Delivery, w': World, t: Task)
    requires WorldInv(fee, w) && u in w.tasks && AboutToPost(w.tasks[u])
    requires PostMove(fee, w, u, h, delivery, w') && Silent(w, t)
    ensures Silent(w', t)
  {
    CountAfter(w.posts, u);
    assert StageOk(fee, w.market.store.requests, w.payments, u, w.tasks[u]);
    PostStage(fee, w, u, h, delivery, w');
    assert u != t;
  }

  lemma PayKeepsSilent(w: World, u: Task, refused: bool, hash: string, addressKnown: bool, w': World, t: Task)
    requires u in w.tasks && w.tasks[u].Quoted? && PayMove(w, u, refused, hash, addressKnown, w') && Silent(w, t)
    ensures Silent(w', t)
  {
  }

  lemma StepKeepsSilent(cfg: Config, fee: real, w: World, m: Move, w': World, t: Task)
    requires WorldInv(fee, w) && WorldStep(cfg, fee, w, m, w') && Silent(w, t)
    ensures Silent(w', t)
  {
    match m
    case Market(a) => MarketKeepsSilent(cfg, fee, w, a, w', t);
    case Post(u, h, delivery) => PostKeepsSilent(fee, w, u, h, delivery, w', t);
    case Pay(u, refused, hash, addressKnown) => PayKeepsSilent(w, u, refused, hash, addressKnown, w', t);
    case _ =>
  }

  lemma {:induction false} SilentStays(cfg: Config, fee: real, trace: seq<World>, moves: seq<Move>, i: nat, j: nat,
                                       t: Task)
    requires WorldRun(cfg, fee, trace, moves) && i <= j < |trace| && Silent(trace[i], t)
    ensures Silent(trace[j], t)
    decreases j - i
  {
    if i < j {
      EveryWorldIsOk(cfg, fee, trace, moves, j - 1);
      SilentStays(cfg, fee, trace, moves, i, j - 1, t);
      StepKeepsSilent(cfg, fee, trace[j - 1], moves[j - 1], trace[j], t);
    }
  }

  /** A silent task has no bid. */
  lemma SilentHasNoBid(fee: real, w: World, t: Task)
    requires WorldInv(fee, w) && Silent(w, t)
    ensures BidsBy(w.market.store, t) == {}
  {
    forall b | b in BidsBy(w.market.store, t)
      ensures false
    {
      var bid := w.market.store.bids[b];
      assert FiledBySome(w.market.handlers, bid);
      var h :| h in w.market.handlers && Filed(w.market.handlers[h], bid);
      assert Creates(w.market.handlers, h);
    }
  }

  /** An evaluation that ends in a decline, a counter or an underwriter failure makes no
      post and no payment and has no bid, for the rest of the run. */
  lemma NoApprovalNoTrace(cfg: Config, fee: real, trace: seq<World>, moves: seq<Move>, i: nat, j: nat, t: Task,
                          first: Reply, second: Reply)
    requires WorldRun(cfg, fee, trace, moves) && i < j < |trace| && moves[i] == Judge(t, first, second)
    requires t in trace[i].tasks && trace[i].tasks[t].Judging?
    requires var d := Evaluated(first, second, t.lender, trace[i].tasks[t].req); d.Some? ==> d.value.decision != Approve
    ensures CountOf(trace[j].posts, t) == 0 && PaymentsOf(trace[j].payments, t) == 0
    ensures BidsBy(trace[j].market.store, t) == {}
  {
    EveryWorldIsOk(cfg, fee, trace, moves, i);
    JudgedOtherwiseIsSilent(cfg, fee, trace[i], t, first, second, trace[i + 1]);
    SilentStays(cfg, fee, trace, moves, i + 1, j, t);
    EveryWorldIsOk(cfg, fee, trace, moves, j);
    SilentHasNoBid(fee, trace[j], t);
    NoPaymentsBy(trace[j].payments, t);
  }

  lemma JudgedOtherwiseIsSilent(cfg: Config, fee: real, w: World, t: Task, first: Reply, second: Reply, w': World)
    requires WorldInv(fee, w) && WorldStep(cfg, fee, w, Judge(t, first, second), w')
    requires Judged(t.lender, w.tasks[t].req, first, second).Over?
    ensures Silent(w', t)
  {
    assert CountOf(w.posts, t) <= PostsAllowed(w.tasks, t);
    forall h | Creates(w.market.handlers, h)
      ensures TaskOf(w.market.handlers[h]) != t
    {
      assert CreatorOk(fee, w.market.store.requests, w.payments, w.tasks, w.market.handlers[h]);
    }
  }

  // ----- every bid -----

  /** Payment `k` is the one a bid was filed with. */
  predicate PaidBy(payments: seq<Payment>, b: Bid, fee: real, k: int) {
    && 0 <= k < |payments|
    && payments[k].payer == Task(b.lender, b.request)
    && b.feeTx == Some(payments[k].hash)
    && 1 <= payments[k].amount == AtomicFee(fee)
  }

  /** Every bid in the ledger satisfies every bound of the bid schemas and its lender's
      sheet for the request, whatever the model answered. */
  lemma EveryBidIsWithinSheet(cfg: Config, fee: real, trace: seq<World>, moves: seq<Move>, i: nat, b: Id)
    requires WorldRun(cfg, fee, trace, moves) && i < |trace| && b in trace[i].market.store.bids
    ensures var bid := trace[i].market.store.bids[b];
            && bid.request in trace[i].market.store.requests
            && WithinSheet(BidCreate(bid.lender, bid.package, bid.feeTx), trace[i].market.store.requests[bid.request])
  {
    EveryWorldIsOk(cfg, fee, trace, moves, i);
    FilingHandler(fee, trace[i], b);
  }

  lemma FilingHandler(fee: real, w: World, b: Id)
    requires WorldInv(fee, w) && b in w.market.store.bids
    ensures exists h :: Creates(w.market.handlers, h) && Filed(w.market.handlers[h], w.market.store.bids[b])
                        && CreatorOk(fee, w.market.store.requests, w.payments, w.tasks, w.market.handlers[h])
  {
    assert FiledBySome(w.market.handlers, w.market.store.bids[b]);
    var h :| h in w.market.handlers && Filed(w.market.handlers[h], w.market.store.bids[b]);
    assert Creates(w.market.handlers, h);
  }

  lemma BidHasPayment(fee: real, w: World, b: Id) returns (k: int)
    requires 0.0 < fee && WorldInv(fee, w) && b in w.market.store.bids
    ensures PaidBy(w.payments, w.market.store.bids[b], fee, k)
  {
    FilingHandler(fee, w, b);
    var bid := w.market.store.bids[b];
    assert PaidWith(w.payments, Task(bid.lender, bid.request), bid.feeTx);
    k :| 0 <= k < |w.payments| && w.payments[k].payer == Task(bid.lender, bid.request)
      && bid.feeTx == Some(w.payments[k].hash);
  }

  /** With a positive fee, every bid in the ledger was paid for: exactly one payment carries
      its hash, made by the bid's own lender for the bid's own request, of exactly the
      whole atomic units of the fee; and no other bid carries that hash. */
  lemma EveryBidIsPaidFor(cfg: Config, fee: real, trace: seq<World>, moves: seq<Move>, i: nat, b: Id)
    requires WorldRun(cfg, fee, trace, moves) && i < |trace| && b in trace[i].market.store.bids && 0.0 < fee
    ensures var w := trace[i];
            && (exists k :: PaidBy(w.payments, w.market.store.bids[b], fee, k))
            && (forall k, l :: 0 <= k < l < |w.payments| ==> w.payments[k].hash != w.payments[l].hash)
            && (forall c :: c in w.market.store.bids && c != b ==>
                  w.market.store.bids[c].feeTx != w.market.store.bids[b].feeTx)
  {
    EveryWorldIsOk(cfg, fee, trace, moves, i);
    var w := trace[i];
    var k := BidHasPayment(fee, w, b);
    forall c | c in w.market.store.bids && w.market.store.bids[c].feeTx == w.market.store.bids[b].feeTx
      ensures c == b
    {
      var l := BidHasPayment(fee, w, c);
      assert k == l;
    }
  }

  // ----- the fees collected -----

  function Received(payments: seq<Payment>): int {
    if payments == [] then 0 else Received(payments[..|payments| - 1]) + payments[|payments| - 1].amount
  }

  /** Whom some of the bids were filed for. */
  function Tasks(bids: map<Id, Bid>, some: set<Id>): set<Task>
    requires some <= bids.Keys
  {
    set b | b in some :: Task(bids[b].lender, bids[b].request)
  }

  function Payers(payments: seq<Payment>): set<Task> {
    set i | 0 <= i < |payments| :: payments[i].payer
  }

  lemma {:induction false} OneTaskPerBid(bids: map<Id, Bid>, some: set<Id>)
    requires OneBidEach(bids) && some <= bids.Keys
    ensures |Tasks(bids, some)| == |some|
  {
    if some == {} {
      assert Tasks(bids, some) == {};
    } else {
      var b :| b in some;
      OneTaskPerBid(bids, some - {b});
      assert Tasks(bids, some) == Tasks(bids, some - {b}) + {Task(bids[b].lender, bids[b].request)};
    }
  }

  lemma {:induction false} PayersAreNoMore(payments: seq<Payment>)
    ensures |Payers(payments)| <= |payments|
  {
    if payments == [] {
      assert Payers(payments) == {};
    } else {
      var init, last := payments[..|payments| - 1], payments[|payments| - 1];
      PayersAreNoMore(init);
      assert Payers(payments) == Payers(init) + {last.payer};
    }
  }

  lemma SubsetIsNoLarger(a: set<Task>, b: set<Task>)
    requires a <= b
    ensures |a| <= |b|
  {
    assert b == a + (b - a);
  }

  lemma {:induction false} ReceivedIs(payments: seq<Payment>, amount: int)
    requires forall i :: 0 <= i < |payments| ==> payments[i].amount == amount
    ensures Received(payments) as real == Times(|payments| as real, amount as real)
  {
    if payments != [] {
      ReceivedIs(payments[..|payments| - 1], amount);
      OneMoreTime(|payments| as real - 1.0, amount as real);
    }
  }

  lemma OneMoreTime(n: real, amount: real)
    ensures Times(n + 1.0, amount) == Times(n, amount) + amount
  {
  }

  lemma BidsAreNoMoreThanPayments(fee: real, w: World)
    requires WorldInv(fee, w) && 0.0 < fee
    ensures |w.market.store.bids| <= |w.payments|
  {
    var bids := w.market.store.bids;
    forall t | t in Tasks(bids, bids.Keys)
      ensures t in Payers(w.payments)
    {
      var b :| b in bids && t == Task(bids[b].lender, bids[b].request);
      var k := BidHasPayment(fee, w, b);
    }
    OneTaskPerBid(bids, bids.Keys);
    SubsetIsNoLarger(Tasks(bids, bids.Keys), Payers(w.payments));
    PayersAreNoMore(w.payments);
  }

  /** The insertion fees the treasury reports -- bids times fee -- against what the payments
      brought in: the report exceeds the income by less than one micro-USDC a bid, and not
      at all when the fee is a whole number of micro-USDC. */
  lemma ReportedFeesAreCollected(cfg: Config, rate: real, fee: real, trace: seq<World>, moves: seq<Move>, i: nat)
    requires WorldRun(cfg, fee, trace, moves) && i < |trace| && 0.0 < fee
    ensures var stats := Treasury.TreasuryStats(trace[i].market.store, rate, fee);
            var received := Received(trace[i].payments) as real;
            && stats.insertionFees <= received + stats.totalBids as real
            && (0 < stats.totalBids ==> stats.insertionFees < received + stats.totalBids as real)
            && (fee == AtomicFee(fee) as real ==> stats.insertionFees <= received)
  {
    EveryWorldIsOk(cfg, fee, trace, moves, i);
    var w := trace[i];
    BidsAreNoMoreThanPayments(fee, w);
    ReceivedIs(w.payments, AtomicFee(fee));
    ReportIsCovered(w.market.store, rate, fee, |w.payments|);
  }

  lemma ReportIsCovered(store: Store, rate: real, fee: real, payments: nat)
    requires |store.bids| <= payments && 0.0 < fee
    ensures var stats := Treasury.TreasuryStats(store, rate, fee);
            var received := Times(payments as real, AtomicFee(fee) as real);
            && stats.totalBids == |store.bids|
            && stats.insertionFees <= received + stats.totalBids as real
            && (0 < stats.totalBids ==> stats.insertionFees < received + stats.totalBids as real)
            && (fee == AtomicFee(fee) as real ==> stats.insertionFees <= received)
  {
    var stats := Treasury.TreasuryStats(store, rate, fee);
    assert stats.totalBids == |store.bids| && stats.insertionFees == Times(|store.bids| as real, fee);
    FractionsCover(|store.bids| as real, payments as real, AtomicFee(fee) as real, fee);
  }

  lemma ShareIsLess(n: real, share: real)
    requires 0.0 <= n && 0.0 <= share < 1.0
    ensures Times(n, share) <= n && (0.0 < n ==> Times(n, share) < n) && (share == 0.0 ==> Times(n, share) == 0.0)
  {
    if n == 0.0 {
      assert n * share == 0.0;
    } else {
      var rest := 1.0 - share;
      assert n * (share + rest) == n * share + n * rest;
      assert 0.0 < n * rest;
    }
  }

  lemma TimesDistributes(n: real, a: real, b: real)
    ensures Times(n, a + b) == Times(n, a) + Times(n, b)
  {
  }

  lemma FractionsCover(n: real, m: real, unit: real, fee: real)
    requires 0.0 <= n <= m && 0.0 <= unit <= fee < unit + 1.0
    ensures Times(n, fee) <= Times(m, unit) + n && (0.0 < n ==> Times(n, fee) < Times(m, unit) + n)
    ensures fee == unit ==> Times(n, fee) <= Times(m, unit)
  {
    var share := fee - unit;
    assert fee == unit + share;
    TimesDistributes(n, unit, share);
    TimesIsMonotone(n, m, unit, unit);
    ShareIsLess(n, share);
  }

  // ----- the marketplace below -----

  /** Whatever the lenders do, the marketplace only ever runs its own protocol. */
  lemma {:induction false} MarketIsARun(cfg: Config, fee: real, trace: seq<World>, moves: seq<Move>, i: nat)
    returns (states: seq<State>, actions: seq<Action>)
    requires WorldRun(cfg, fee, trace, moves) && i < |trace|
    ensures Run(cfg, states, actions) && states[|actions|] == trace[i].market
  {
    if i == 0 {
      return [INITIAL], [];
    }
    states, actions := MarketIsARun(cfg, fee, trace, moves, i - 1);
    var w, w' := trace[i - 1], trace[i];
    if w'.market != w.market {
      var a := MarketAction(cfg, fee, w, moves[i - 1], w');
      PathExtends(cfg, states, actions, a, w'.market);
      states, actions := states + [w'.market], actions + [a];
    }
  }

  lemma MarketAction(cfg: Config, fee: real, w: World, m: Move, w': World) returns (a: Action)
    requires WorldStep(cfg, fee, w, m, w') && w'.market != w.market
    ensures Step(cfg, w.market, a, w'.market)
  {
    assert m.Market? || m.Post?;
    if m.Market? {
      a := m.a;
    } else {
      var gate := Dispatch(fee, HeaderOf(w.tasks[m.t]));
      assert gate.Forward?;
      a := BeginCreate(m.h, m.t.request, WithHash(w.tasks[m.t].body, gate.tx));
      assert Step(cfg, w.market, a, w'.market);
    }
  }

  /** End to end: every settlement in the ledger was paid out in three transfers of exactly
      the computed shares, and its winning bid is a bid of its own request, within the
      sheet of a lender who paid the fee for it. */
  lemma EverySettlementStandsOnAPaidBid(cfg: Config, fee: real, trace: seq<World>, moves: seq<Move>, i: nat,
                                        row: Settlement)
    requires WorldRun(cfg, fee, trace, moves) && i < |trace| && 0.0 < fee
    requires row in trace[i].market.store.settlements
    ensures var s := trace[i].market;
            && Interleaving.PaidFor(cfg, s, row)
            && s.store.BidOf(row.winningBid, row.request) && row.request in s.store.requests
            && var bid := s.store.bids[row.winningBid];
            && WithinSheet(BidCreate(bid.lender, bid.package, bid.feeTx), s.store.requests[row.request])
            && exists k :: PaidBy(trace[i].payments, bid, fee, k)
  {
    var states, actions := MarketIsARun(cfg, fee, trace, moves, i);
    Interleaving.EveryRunIsSafe(cfg, states, actions, 0, |actions|);
    assert Interleaving.SettlementOk(cfg, trace[i].market, row);
    EveryBidIsWithinSheet(cfg, fee, trace, moves, i, row.winningBid);
    EveryBidIsPaidFor(cfg, fee, trace, moves, i, row.winningBid);
  }

  // ----- honest bids go through -----

  /** An evaluation can begin exactly for an open request that its lender has not seen. */
  lemma BeginsExactlyWhenOpen(cfg: Config, fee: real, w: World, t: Task)
    ensures (exists w' :: WorldStep(cfg, fee, w, Begin(t), w')) <==>
            && t !in w.tasks && t.request in w.market.store.requests
            && w.market.store.requests[t.request].status == RequestOpen
  {
    if t !in w.tasks && t.request in w.market.store.requests
       && w.market.store.requests[t.request].status == RequestOpen {
      assert WorldStep(cfg, fee, w, Begin(t), AtStage(w, t, Judging(w.market.store.requests[t.request])));
    }
  }

  /** ... and an approval gets it to the point of posting. */
  lemma ApprovalGetsToPosting(cfg: Config, fee: real, w: World, t: Task, first: Reply, second: Reply)
    returns (w1: World, w2: World)
    requires WorldInv(fee, w) && t !in w.tasks && t.request in w.market.store.requests
    requires w.market.store.requests[t.request].status == RequestOpen && Genuine(first) && Genuine(second)
    requires var d := Evaluated(first, second, t.lender, w.market.store.requests[t.request]);
             d.Some? && d.value.decision == Approve
    ensures WorldStep(cfg, fee, w, Begin(t), w1) && WorldStep(cfg, fee, w1, Judge(t, first, second), w2)
    ensures t in w2.tasks && w2.tasks[t].Posting? && w2.market == w.market
    ensures var d := Evaluated(first, second, t.lender, w.market.store.requests[t.request]).value;
            w2.tasks[t].body == BidCreate(t.lender, d, None)
  {
    var req := w.market.store.requests[t.request];
    w1 := AtStage(w, t, Judging(req));
    w2 := AtStage(w1, t, Judged(t.lender, req, first, second));
    EveryApprovalIsPostable(first, second, t.lender, req);
  }

  /** The moves of an undisturbed evaluation from its first post until it is let through,
      and from there to its end. */
  function MovesToHandler(t: Task, g: Id, hash: string): seq<Move> {
    [Post(t, g, Delivered), Move.Pay(t, false, hash, true), Post(t, g, Delivered)]
  }

  function MovesToEnd(t: Task, g: Id, c: Choice): seq<Move> {
    [Market(Advance(g, c)), Market(Advance(g, c)), Finish(t)]
  }

  lemma ThreeSteps(cfg: Config, fee: real, trace: seq<World>, moves: seq<Move>)
    requires |trace| == 4 && |moves| == 3
    requires WorldStep(cfg, fee, trace[0], moves[0], trace[1])
    requires WorldStep(cfg, fee, trace[1], moves[1], trace[2])
    requires WorldStep(cfg, fee, trace[2], moves[2], trace[3])
    ensures WorldPath(cfg, fee, trace, moves)
  {
  }

  lemma JoinPaths(cfg: Config, fee: real, trace: seq<World>, moves: seq<Move>, trace': seq<World>, moves': seq<Move>)
    requires WorldPath(cfg, fee, trace, moves) && WorldPath(cfg, fee, trace', moves')
    requires trace[|moves|] == trace'[0]
    ensures WorldPath(cfg, fee, trace + trace'[1..], moves + moves')
  {
    var worlds, all, n := trace + trace'[1..], moves + moves', |moves|;
    forall i {:trigger all[i]} | 0 <= i < |all|
      ensures WorldStep(cfg, fee, worlds[i], all[i], worlds[i + 1])
    {
      if i < n {
        assert all[i] == moves[i] && worlds[i] == trace[i] && worlds[i + 1] == trace[i + 1];
      } else {
        assert all[i] == moves'[i - n] && worlds[i] == trace'[i - n] && worlds[i + 1] == trace'[i - n + 1];
      }
    }
  }

  lemma QuotedPaidAndSent(cfg: Config, fee: real, w: World, t: Task, g: Id, hash: string) returns (trace: seq<World>)
    requires 1.0 <= fee && t in w.tasks && w.tasks[t].Posting?
    requires StageOk(fee, w.market.store.requests, w.payments, t, w.tasks[t])
    requires g !in w.market.handlers && NewHash(w.payments, hash) && WellFormedHash(hash)
    ensures WorldPath(cfg, fee, trace, MovesToHandler(t, g, hash)) && trace[0] == w
    ensures trace[3].payments == w.payments + [Payment(t, AtomicFee(fee), hash)]
    ensures t in trace[3].tasks && trace[3].tasks[t] == Waiting(g)
    ensures trace[3].market == At(w.market, g, Creating(t.request, w.tasks[t].body.(feeTx := Some(hash)), FetchForBid))
  {
    var body, quote := w.tasks[t].body, PrintInt(AtomicFee(fee));
    QuotePayVerify(fee, hash, t.lender);
    ParsePrint(AtomicFee(fee));
    TransferIsTheQuote(quote);
    var w1 := AtStage(w.(posts := w.posts + [t]), t, Quoted(body, quote));
    var w2 := AtStage(w1, t, Retrying(body, CdpFields(quote, hash, t.lender)))
              .(payments := w.payments + [Payment(t, AtomicFee(fee), hash)]);
    var w3 := AtStage(w2.(posts := w2.posts + [t]), t, Waiting(g))
          .(market := At(w.market, g, Creating(t.request, body.(feeTx := Some(hash)), FetchForBid)));
    trace := [w, w1, w2, w3];
    ThreeSteps(cfg, fee, trace, MovesToHandler(t, g, hash));
  }

  lemma InsertedAndAnswered(cfg: Config, fee: real, w: World, t: Task, g: Id, body: BidCreate, c: Choice)
    returns (trace: seq<World>)
    requires t in w.tasks && w.tasks[t] == Waiting(g)
    requires g in w.market.handlers && w.market.handlers[g] == Creating(t.request, body, FetchForBid)
    requires t.request in w.market.store.requests && w.market.store.requests[t.request].status == RequestOpen
    requires c.newId !in w.market.store.bids
    ensures WorldPath(cfg, fee, trace, MovesToEnd(t, g, c)) && trace[0] == w
    ensures trace[3].payments == w.payments
    ensures trace[3].market.store == w.market.store.(bids := w.market.store.bids[
              c.newId := Bid(c.newId, t.request, body.lender, body.package, body.feeTx, c.now, BidOpen)])
  {
    var w1 := w.(market := At(w.market, g, Creating(t.request, body, Insert)));
    var filed := Bid(c.newId, t.request, body.lender, body.package, body.feeTx, c.now, BidOpen);
    var w2 := w1.(market := At(w1.market, g, Creating(t.request, body, CreateReplied(201)))
                        .(store := w.market.store.(bids := w.market.store.bids[c.newId := filed])));
    var w3 := AtStage(w2, t, Over);
    trace := [w, w1, w2, w3];
    ThreeSteps(cfg, fee, trace, MovesToEnd(t, g, c));
  }

  /** From any point of any run, an approved bid on an open request can be filed: quoted,
      paid, posted again, inserted.  The fee has to be worth an atomic unit, the hash new and
      well formed, the identifiers new. */
  lemma HonestBidGoesThrough(cfg: Config, fee: real, w: World, t: Task, g: Id, hash: string, c: Choice)
    returns (trace: seq<World>)
    requires WorldInv(fee, w) && 1.0 <= fee && t in w.tasks && w.tasks[t].Posting?
    requires w.market.store.requests[t.request].status == RequestOpen
    requires g !in w.market.handlers && c.newId !in w.market.store.bids
    requires NewHash(w.payments, hash) && WellFormedHash(hash)
    ensures WorldPath(cfg, fee, trace, MovesToHandler(t, g, hash) + MovesToEnd(t, g, c)) && trace[0] == w
    ensures var s, s' := w.market.store, trace[6].market.store;
            && s'.requests == s.requests && s'.settlements == s.settlements
            && s'.bids == s.bids[c.newId :=
               Bid(c.newId, t.request, t.lender, w.tasks[t].body.package, Some(hash), c.now, BidOpen)]
            && trace[6].payments == w.payments + [Payment(t, AtomicFee(fee), hash)]
  {
    assert StageOk(fee, w.market.store.requests, w.payments, t, w.tasks[t]);
    var before := QuotedPaidAndSent(cfg, fee, w, t, g, hash);
    var after := InsertedAndAnswered(cfg, fee, before[3], t, g, w.tasks[t].body.(feeTx := Some(hash)), c);
    JoinPaths(cfg, fee, before, MovesToHandler(t, g, hash), after, MovesToEnd(t, g, c));
    trace := before + after[1..];
  }
}
