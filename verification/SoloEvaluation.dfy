/** The two readings of `evaluate_and_bid` agree: an evaluation cut at its awaits, when nothing
    else runs meanwhile, posts, pays and files exactly what the uninterrupted method does under
    the same circumstances. */
module SoloEvaluation {
  import opened Models
  import opened Ledger
  import opened Protocol
  import opened Digits
  import opened Parsing
  import opened Handshake
  import opened BidRoute
  import opened LenderProtocol

  /** A move of the task, or of the handler one of its posts has begun. */
  predicate SoloMove(w0: World, t: Task, m: Move) {
    match m
    case Judge(u, _, _) => u == t
    case Post(u, _, _) => u == t
    case Pay(u, _, _, _) => u == t
    case Finish(u) => u == t
    case Market(a) => a.Advance? && a.h !in w0.market.handlers
    case Begin(_) => false
  }

  ghost predicate SoloRun(cfg: Config, fee: real, trace: seq<World>, moves: seq<Move>, t: Task) {
    WorldPath(cfg, fee, trace, moves) && forall i {:trigger moves[i]} :: 0 <= i < |moves| ==>
      SoloMove(trace[0], t, moves[i])
  }

  /** The handler's first transaction answers as the route does. */
  lemma FetchAnswersAsRoute(store: Store, rid: Id, newId: Id)
    ensures FetchForBidStep(store, rid) ==
            var code := CreateCode(store, rid, newId);
            if code == 404 || code == 409 then CreateReplied(code) else Insert
  {
  }

  // ----- where an evaluation stands -----

  /** The bid has been sent through the open gate. */
  predicate Forwards(fee: real, lender: string, d: Option<Decision>, c: Circumstances) {
    && Postable(lender, d) && c.first.arrives
    && (fee <= 0.0 || (c.first.comesBack && PaysAcceptably(fee, c) && c.second.arrives))
  }

  /** The fate and the hash that go with the post that is let through. */
  function LastFate(fee: real, c: Circumstances): Fate {
    if fee <= 0.0 then c.first else c.second
  }

  function HashSent(fee: real, c: Circumstances): Option<string> {
    if fee <= 0.0 then None else c.Returned(fee)
  }

  /** The handler that was begun, and what it has made of the ledger. */
  predicate HandlerAt(w0: World, w: World, t: Task, fee: real, d: Option<Decision>, c: Circumstances, h: Id,
                      pc: CreatePc)
    requires d.Some?
  {
    var body := BuildBidCreate(t.lender, d.value);
    && h !in w0.market.handlers
    && w.market.handlers == w0.market.handlers[h := Creating(t.request, WithHash(body, HashSent(fee, c)), pc)]
    && StoreAt(w0.market.store, w.market.store, t, fee, body, c, pc)
  }

  predicate StoreAt(store0: Store, store: Store, t: Task, fee: real, body: BidCreate, c: Circumstances, pc: CreatePc) {
    match pc
    case FetchForBid => store == store0
    case Insert => store == store0 && FetchForBidStep(store0, t.request) == Insert
    case CreateReplied(code) =>
      if FetchForBidStep(store0, t.request) == Insert then
        var fate := LastFate(fee, c);
        && fate.newId !in store0.bids
        && store == WithBid(store0, BidFrom(t.request, body, HashSent(fee, c), fate))
      else store == store0
    case CreateAbandoned => false
  }

  ghost predicate Ended(w0: World, w: World, t: Task, fee: real, d: Option<Decision>, c: Circumstances) {
    && |w.posts| == |w0.posts| + PostsMade(fee, t.lender, d, c)
    && w.payments == PaymentsAfter(w0, t, fee, d, c)
    && (if Forwards(fee, t.lender, d, c) then exists h, pc :: HandlerAt(w0, w, t, fee, d, c, h, pc)
        else w.market == w0.market)
  }

  function PaymentsAfter(w0: World, t: Task, fee: real, d: Option<Decision>, c: Circumstances): seq<Payment> {
    if PaysFee(fee, t.lender, d, c) then w0.payments + [Payment(t, AtomicFee(fee), c.hashText(c.place))]
      else w0.payments
  }

  /** What the world is at each stage of the evaluation, under circumstances that are as far
      known as it has come. */
  ghost predicate Along(w0: World, w: World, t: Task, fee: real, d: Option<Decision>, c: Circumstances)
    requires t in w.tasks
  {
    && c.place == |w0.payments|
    && (c.second.arrives ==> w.tasks[t].Waiting? || w.tasks[t].Over?)
    && match w.tasks[t]
       case Judging(req) => w == w0
       case Posting(body) =>
         && Postable(t.lender, d) && body == BuildBidCreate(t.lender, d.value)
         && w.market == w0.market && w.payments == w0.payments && |w.posts| == |w0.posts|
       case Quoted(body, quote) =>
         && IsQuoted(fee, t.lender, d, c) && body == BuildBidCreate(t.lender, d.value)
         && quote == PrintInt(AtomicFee(fee))
         && w.market == w0.market && w.payments == w0.payments && |w.posts| == |w0.posts| + 1
       case Retrying(body, fields) =>
         && PaysFee(fee, t.lender, d, c) && body == BuildBidCreate(t.lender, d.value)
         && c.Returned(fee).Some?
         && fields == FieldsFor(c.payer, PrintInt(AtomicFee(fee)), c.Returned(fee).value)
         && w.market == w0.market && w.payments == PaymentsAfter(w0, t, fee, d, c)
         && |w.posts| == |w0.posts| + 1
       case Waiting(_) => Ended(w0, w, t, fee, d, c)
       case Over => Ended(w0, w, t, fee, d, c)
  }

  // ----- one move -----

  lemma JudgeGoesAlong(w0: World, w: World, t: Task, first: Reply, second: Reply, w': World, fee: real,
                       c: Circumstances)
    requires t in w.tasks && w.tasks[t].Judging? && Along(w0, w, t, fee, None, c)
    requires w' == AtStage(w, t, Judged(t.lender, w.tasks[t].req, first, second))
    ensures Along(w0, w', t, fee, Evaluated(first, second, t.lender, w.tasks[t].req), c)
  {
  }

  /** What is known of the first post, and of the second. */
  function FateOf(delivery: Delivery): Fate {
    Fate(delivery != NotDelivered, delivery == Delivered, 0, 0)
  }

  lemma FirstPostGoesAlong(w0: World, w: World, t: Task, h: Id, delivery: Delivery, w': World, fee: real,
                           d: Option<Decision>, c: Circumstances)
    requires t in w.tasks && w.tasks[t].Posting? && Along(w0, w, t, fee, d, c)
    requires PostMove(fee, w, t, h, delivery, w')
    ensures t in w'.tasks && Along(w0, w', t, fee, d, c.(first := FateOf(delivery)))
  {
    var c' := c.(first := FateOf(delivery));
    if Forwards(fee, t.lender, d, c') {
      assert HandlerAt(w0, w', t, fee, d, c', h, FetchForBid);
    }
  }

  lemma SecondPostGoesAlong(w0: World, w: World, t: Task, h: Id, delivery: Delivery, w': World, fee: real,
                            d: Option<Decision>, c: Circumstances)
    requires t in w.tasks && w.tasks[t].Retrying? && Along(w0, w, t, fee, d, c)
    requires PostMove(fee, w, t, h, delivery, w')
    ensures t in w'.tasks && Along(w0, w', t, fee, d, c.(second := FateOf(delivery)))
  {
    var c' := c.(second := FateOf(delivery));
    PaymentIsAccepted(fee, c.payer, c.Returned(fee).value);
    if Forwards(fee, t.lender, d, c') {
      assert HandlerAt(w0, w', t, fee, d, c', h, FetchForBid);
    }
  }

  /** What is known of the payment. */
  function PaidAs(c: Circumstances, t: Task, refused: bool, hash: string, addressKnown: bool): Circumstances {
    var places := if refused then {c.place} else {};
    c.(payer := WalletPayer(t.lender, addressKnown), refused := places, hashText := _ => hash)
  }

  lemma PayGoesAlong(w0: World, w: World, t: Task, refused: bool, hash: string, addressKnown: bool, w': World,
                     fee: real, d: Option<Decision>, c: Circumstances)
    requires t in w.tasks && w.tasks[t].Quoted? && Along(w0, w, t, fee, d, c)
    requires PayMove(w, t, refused, hash, addressKnown, w')
    ensures t in w'.tasks && Along(w0, w', t, fee, d, PaidAs(c, t, refused, hash, addressKnown))
  {
    ParsePrint(AtomicFee(fee));
    TransferIsTheQuote(PrintInt(AtomicFee(fee)));
  }

  /** A lender that stops waiting for the answer leaves what it has done. */
  lemma LeavingGoesAlong(w0: World, w: World, t: Task, fee: real, d: Option<Decision>, c: Circumstances)
    requires t in w.tasks && w.tasks[t].Waiting? && Along(w0, w, t, fee, d, c)
    ensures Along(w0, AtStage(w, t, Over), t, fee, d, c)
  {
    var w' := AtStage(w, t, Over);
    if Forwards(fee, t.lender, d, c) {
      var h, pc :| HandlerAt(w0, w, t, fee, d, c, h, pc);
      assert HandlerAt(w0, w', t, fee, d, c, h, pc);
    }
  }

  /** A lender that gives up on a quote had no payer that could pay it. */
  lemma GivingUpGoesAlong(w0: World, w: World, t: Task, fee: real, d: Option<Decision>, c: Circumstances)
    requires t in w.tasks && w.tasks[t].Quoted? && Along(w0, w, t, fee, d, c)
    ensures Along(w0, AtStage(w, t, Over), t, fee, d, c.(payer := NoPayer))
  {
  }

  /** The identifier and the time that the new bid draws. */
  function Drawn(c: Circumstances, newId: Id, now: int): Circumstances {
    c.(first := c.first.(newId := newId, now := now), second := c.second.(newId := newId, now := now))
  }

  lemma DrawnChangesNothingElse(w0: World, t: Task, fee: real, d: Option<Decision>, c: Circumstances, newId: Id,
                                now: int)
    ensures var c' := Drawn(c, newId, now);
            && PostsMade(fee, t.lender, d, c') == PostsMade(fee, t.lender, d, c)
            && PaymentsAfter(w0, t, fee, d, c') == PaymentsAfter(w0, t, fee, d, c)
            && Forwards(fee, t.lender, d, c') == Forwards(fee, t.lender, d, c)
            && HashSent(fee, c') == HashSent(fee, c)
            && LastFate(fee, c').newId == newId && LastFate(fee, c').now == now
  {
  }

  lemma HandlerGoesAlong(cfg: Config, w0: World, w: World, t: Task, h: Id, choice: Choice, w': World, fee: real,
                         d: Option<Decision>, c: Circumstances, pc: CreatePc)
    returns (c': Circumstances)
    requires d.Some? && HandlerAt(w0, w, t, fee, d, c, h, pc)
    requires Step(cfg, w.market, Advance(h, choice), w'.market)
    ensures c' == c || c' == Drawn(c, choice.newId, choice.now)
    ensures exists pc' :: HandlerAt(w0, w', t, fee, d, c', h, pc')
  {
    c' := if pc == Insert then Drawn(c, choice.newId, choice.now) else c;
    DrawnChangesNothingElse(w0, t, fee, d, c, choice.newId, choice.now);
    var pc' := w'.market.handlers[h].createPc;
    assert w'.market.handlers == w0.market.handlers[h := w'.market.handlers[h]];
    assert HandlerAt(w0, w', t, fee, d, c', h, pc');
  }

  lemma MarketGoesAlong(cfg: Config, w0: World, w: World, t: Task, h: Id, choice: Choice, w': World, fee: real,
                        d: Option<Decision>, c: Circumstances)
    returns (c': Circumstances)
    requires t in w.tasks && Along(w0, w, t, fee, d, c) && h !in w0.market.handlers
    requires w' == w.(market := w'.market) && Step(cfg, w.market, Advance(h, choice), w'.market)
    ensures Along(w0, w', t, fee, d, c')
  {
    assert w.market != w0.market;
    assert Ended(w0, w, t, fee, d, c) && Forwards(fee, t.lender, d, c);
    var g, pc :| HandlerAt(w0, w, t, fee, d, c, g, pc);
    assert g == h;
    c' := HandlerGoesAlong(cfg, w0, w, t, h, choice, w', fee, d, c, pc);
    DrawnChangesNothingElse(w0, t, fee, d, c, choice.newId, choice.now);
  }

  lemma MoveGoesAlong(cfg: Config, fee: real, w0: World, w: World, m: Move, w': World, t: Task,
                      d: Option<Decision>, c: Circumstances)
    returns (d': Option<Decision>, c': Circumstances)
    requires t in w.tasks && (w.tasks[t].Judging? ==> d == None) && Along(w0, w, t, fee, d, c)
    requires SoloMove(w0, t, m) && WorldStep(cfg, fee, w, m, w')
    ensures t in w'.tasks && (w'.tasks[t].Judging? ==> d' == None) && Along(w0, w', t, fee, d', c')
    ensures if m.Judge? then w.tasks[t].Judging? && d' == Evaluated(m.first, m.second, t.lender, w.tasks[t].req)
              else d' == d
    ensures w'.tasks[t].Judging? ==> w.tasks[t].Judging? && !m.Judge?
    ensures w.tasks[t].Judging? && !m.Judge? ==> w'.tasks[t].Judging?
  {
    d', c' := d, c;
    match m
    case Judge(_, first, second) =>
      d' := Evaluated(first, second, t.lender, w.tasks[t].req);
      JudgeGoesAlong(w0, w, t, first, second, w', fee, c);
    case Post(_, h, delivery) =>
      if w.tasks[t].Posting? {
        c' := c.(first := FateOf(delivery));
        FirstPostGoesAlong(w0, w, t, h, delivery, w', fee, d, c);
      } else {
        c' := c.(second := FateOf(delivery));
        SecondPostGoesAlong(w0, w, t, h, delivery, w', fee, d, c);
      }
    case Pay(_, refused, hash, addressKnown) =>
      c' := PaidAs(c, t, refused, hash, addressKnown);
      PayGoesAlong(w0, w, t, refused, hash, addressKnown, w', fee, d, c);
    case Finish(_) =>
      if w.tasks[t].Quoted? {
        c' := c.(payer := NoPayer);
        GivingUpGoesAlong(w0, w, t, fee, d, c);
      } else {
        LeavingGoesAlong(w0, w, t, fee, d, c);
      }
    case Market(a) =>
      c' := MarketGoesAlong(cfg, w0, w, t, a.h, a.choice, w', fee, d, c);
  }

  // ----- the whole evaluation -----

  /** The decision is what the underwriter makes of the replies in the run. */
  predicate DecidedAt(moves: seq<Move>, i: int, t: Task, req: BidRequest, d: Option<Decision>) {
    && 0 <= i < |moves| && moves[i].Judge? && moves[i].t == t
    && d == Evaluated(moves[i].first, moves[i].second, t.lender, req)
  }

  ghost predicate Decided(moves: seq<Move>, t: Task, req: BidRequest, d: Option<Decision>) {
    exists i :: DecidedAt(moves, i, t, req, d)
  }

  lemma {:induction false} RunGoesAlong(cfg: Config, fee: real, trace: seq<World>, moves: seq<Move>, t: Task, n: nat)
    returns (d: Option<Decision>, c: Circumstances)
    requires SoloRun(cfg, fee, trace, moves, t) && n < |trace|
    requires t in trace[0].tasks && trace[0].tasks[t].Judging?
    ensures t in trace[n].tasks && Along(trace[0], trace[n], t, fee, d, c)
    ensures if trace[n].tasks[t].Judging? then d == None else Decided(moves, t, trace[0].tasks[t].req, d)
  {
    if n == 0 {
      var nothing := Fate(false, false, 0, 0);
      d, c := None, Circumstances(NoPayer, nothing, nothing, |trace[0].payments|, {}, _ => "");
    } else {
      d, c := RunGoesAlong(cfg, fee, trace, moves, t, n - 1);
      assert SoloMove(trace[0], t, moves[n - 1]);
      var before := d;
      d, c := MoveGoesAlong(cfg, fee, trace[0], trace[n - 1], moves[n - 1], trace[n], t, d, c);
      if moves[n - 1].Judge? {
        assert DecidedAt(moves, n - 1, t, trace[0].tasks[t].req, d);
      } else {
        assert d == before;
      }
    }
  }

  /** Nothing the evaluation began is still at work. */
  predicate AtRest(w0: World, w: World, t: Task) {
    && t in w.tasks && w.tasks[t].Over?
    && forall h :: h in w.market.handlers && h !in w0.market.handlers ==> !w.market.handlers[h].InFlight()
  }

  /** An evaluation that runs alone from the underwriter's answer to its end posts as often as
      `EvaluateAndBid`, makes the same payment, if any, and files the same bid, if any, for
      the decision that the underwriter's replies come to and for some circumstances. */
  lemma SoloEvaluationRefinesMethod(cfg: Config, fee: real, trace: seq<World>, moves: seq<Move>, t: Task)
    returns (d: Option<Decision>, c: Circumstances)
    requires SoloRun(cfg, fee, trace, moves, t)
    requires t in trace[0].tasks && trace[0].tasks[t].Judging?
    requires AtRest(trace[0], trace[|moves|], t)
    ensures Decided(moves, t, trace[0].tasks[t].req, d) && c.place == |trace[0].payments|
    ensures var w0, w := trace[0], trace[|moves|];
            var filed := FiledBid(w0.market.store, fee, t.lender, t.request, d, c);
            && |w.posts| == |w0.posts| + PostsMade(fee, t.lender, d, c)
            && w.payments == PaymentsAfter(w0, t, fee, d, c)
            && w.market.store == (if filed.Some? then WithBid(w0.market.store, filed.value) else w0.market.store)
  {
    d, c := RunGoesAlong(cfg, fee, trace, moves, t, |moves|);
    RestIsFiled(trace[0], trace[|moves|], t, fee, d, c);
  }

  lemma RestIsFiled(w0: World, w: World, t: Task, fee: real, d: Option<Decision>, c: Circumstances)
    requires AtRest(w0, w, t) && Ended(w0, w, t, fee, d, c)
    ensures var filed := FiledBid(w0.market.store, fee, t.lender, t.request, d, c);
            w.market.store == if filed.Some? then WithBid(w0.market.store, filed.value) else w0.market.store
  {
    if Forwards(fee, t.lender, d, c) {
      var h, pc :| HandlerAt(w0, w, t, fee, d, c, h, pc);
      assert h in w.market.handlers && !w.market.handlers[h].InFlight();
    }
  }
}
