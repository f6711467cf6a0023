/** What holds over every run of lender agents on the marketplace: how often they post and
    pay, and that every bid in the ledger is within its lender's sheet and was paid for. */
module PaidBids {
  import opened Models
  import opened Protocol
  import opened Digits
  import opened Parsing
  import opened Guardrails
  import opened Handshake
  import opened LenderProtocol

  /** The terms of a bid fit the lender's sheet for a request. */
  predicate WithinSheet(body: BidCreate, req: BidRequest) {
    body.Valid() && FitsSheet(body.package, body.lender, req)
  }

  /** The task made a payment with this hash. */
  ghost predicate PaidWith(payments: seq<Payment>, t: Task, tx: Option<string>) {
    exists i :: 0 <= i < |payments| && payments[i].payer == t && tx == Some(payments[i].hash)
  }

  function CountOf(posts: seq<Task>, t: Task): nat {
    if posts == [] then 0
    else CountOf(posts[..|posts| - 1], t) + (if posts[|posts| - 1] == t then 1 else 0)
  }

  lemma CountAfter(posts: seq<Task>, t: Task)
    ensures forall u :: CountOf(posts + [t], u) == CountOf(posts, u) + (if u == t then 1 else 0)
  {
    assert (posts + [t])[..|posts|] == posts;
  }

  // ----- the invariant -----

  function PostsAllowed(tasks: map<Task, Stage>, t: Task): nat {
    if t !in tasks then 0
    else match tasks[t]
      case Judging(_) => 0
      case Posting(_) => 0
      case Quoted(_, _) => 1
      case Retrying(_, _) => 1
      case Waiting(_) => 2
      case Over => 2
  }

  predicate MayHavePaid(stage: Stage) {
    stage.Retrying? || stage.Waiting? || stage.Over?
  }

  predicate PaymentsOk(fee: real, payments: seq<Payment>, tasks: map<Task, Stage>) {
    && (forall i :: 0 <= i < |payments| ==>
          && 1 <= payments[i].amount == AtomicFee(fee)
          && payments[i].payer in tasks && MayHavePaid(tasks[payments[i].payer]))
    && (forall i, j :: 0 <= i < j < |payments| ==>
          payments[i].payer != payments[j].payer && payments[i].hash != payments[j].hash)
  }

  ghost predicate StageOk(fee: real, requests: map<Id, BidRequest>, payments: seq<Payment>, t: Task, stage: Stage) {
    && t.request in requests
    && var req := requests[t.request];
    match stage
    case Judging(seen) => seen.Valid() && req == seen.(status := req.status)
    case Posting(body) => body.lender == t.lender && body.feeTx == None && WithinSheet(body, req)
    case Quoted(body, quote) =>
      && body.lender == t.lender && WithinSheet(body, req)
      && 0.0 < fee && quote == PrintInt(AtomicFee(fee))
    case Retrying(body, fields) =>
      && body.lender == t.lender && WithinSheet(body, req)
      && 0.0 < fee && (TxHash(fields) != "" ==> PaidWith(payments, t, Some(TxHash(fields))))
    case Waiting(_) => true
    case Over => true
  }

  /** A `create_bid` handler acts for a task that is done posting, on terms within the
      sheet, and with a positive fee that task has paid. */
  ghost predicate CreatorOk(fee: real, requests: map<Id, BidRequest>, payments: seq<Payment>, tasks: map<Task, Stage>,
                            hd: Handler)
    requires hd.Creating?
  {
    var t := TaskOf(hd);
    && t in tasks && (tasks[t].Waiting? || tasks[t].Over?)
    && t.request in requests && WithinSheet(hd.body, requests[t.request])
    && (if fee <= 0.0 then hd.body.feeTx == None else PaidWith(payments, t, hd.body.feeTx))
  }

  predicate Creates(handlers: map<Id, Handler>, h: Id) {
    h in handlers && handlers[h].Creating?
  }

  /** The handler that inserted a bid. */
  predicate Filed(hd: Handler, b: Bid) {
    && hd.Creating? && hd.createPc == CreateReplied(201)
    && hd.request == b.request && hd.body == BidCreate(b.lender, b.package, b.feeTx)
  }

  ghost predicate FiledBySome(handlers: map<Id, Handler>, b: Bid) {
    exists h :: h in handlers && Filed(handlers[h], b)
  }

  ghost predicate CreatorsOk(fee: real, w: World) {
    && (forall h :: Creates(w.market.handlers, h) ==>
          CreatorOk(fee, w.market.store.requests, w.payments, w.tasks, w.market.handlers[h]))
    && (forall g, h :: Creates(w.market.handlers, g) && Creates(w.market.handlers, h) && g != h ==>
          TaskOf(w.market.handlers[g]) != TaskOf(w.market.handlers[h]))
  }

  ghost predicate BidsFiled(s: State) {
    && (forall b :: b in s.store.bids ==> FiledBySome(s.handlers, s.store.bids[b]))
    && OneBidEach(s.store.bids)
  }

  /** No lender has two bids on one request. */
  predicate OneBidEach(bids: map<Id, Bid>) {
    forall a, b :: a in bids && b in bids && a != b ==>
      bids[a].lender != bids[b].lender || bids[a].request != bids[b].request
  }

  ghost predicate RequestsValid(s: State) {
    forall r :: r in s.store.requests ==> s.store.requests[r].Valid()
  }

  ghost predicate PostsOk(posts: seq<Task>, tasks: map<Task, Stage>) {
    forall t :: CountOf(posts, t) <= PostsAllowed(tasks, t)
  }

  ghost predicate StagesOk(fee: real, w: World) {
    forall t :: t in w.tasks ==> StageOk(fee, w.market.store.requests, w.payments, t, w.tasks[t])
  }

  ghost predicate WorldInv(fee: real, w: World) {
    && RequestsValid(w.market)
    && PostsOk(w.posts, w.tasks)
    && PaymentsOk(fee, w.payments, w.tasks)
    && StagesOk(fee, w)
    && CreatorsOk(fee, w)
    && BidsFiled(w.market)
  }

  // ----- what the marketplace's own steps leave alone -----

  predicate SameTerms(r: BidRequest, r': BidRequest) {
    r' == r.(status := r'.status)
  }

  predicate SameJob(hd: Handler, hd': Handler) {
    && hd.Creating? && hd'.Creating? && hd'.request == hd.request && hd'.body == hd.body
    && (hd.createPc == CreateReplied(201) ==> hd' == hd)
  }

  ghost predicate RequestsKept(s: State, s': State) {
    && (forall r :: r in s.store.requests ==>
          r in s'.store.requests && SameTerms(s.store.requests[r], s'.store.requests[r]))
    && (forall r :: r in s'.store.requests && r !in s.store.requests ==> s'.store.requests[r].Valid())
  }

  ghost predicate JobsKept(s: State, s': State) {
    && (forall h :: Creates(s'.handlers, h) ==> Creates(s.handlers, h))
    && (forall h :: Creates(s.handlers, h) ==> Creates(s'.handlers, h) && SameJob(s.handlers[h], s'.handlers[h]))
  }

  ghost predicate BidsKept(s: State, s': State) {
    && s'.store.bids.Keys == s.store.bids.Keys
    && forall b :: b in s.store.bids ==> s'.store.bids[b] == s.store.bids[b].(status := s'.store.bids[b].status)
  }

  /** A handler inserted its bid. */
  ghost predicate InsertedBid(s: State, s': State, h: Id, n: Id) {
    && Creates(s.handlers, h) && s.handlers[h].createPc == Insert
    && n !in s.store.bids && n in s'.store.bids
    && s'.store.bids == s.store.bids[n := s'.store.bids[n]]
    && h in s'.handlers && Filed(s'.handlers[h], s'.store.bids[n])
  }

  lemma AcceptMoveKeepsTerms(cfg: Config, s: State, h: Id, c: Choice, s': State)
    requires h in s.handlers && s.handlers[h].Accepting?
    requires AcceptMove(cfg, s, h, s.handlers[h].request, s.handlers[h].bid, s.handlers[h].pc, c, s')
    ensures RequestsKept(s, s') && JobsKept(s, s') && BidsKept(s, s')
  {
    var hd := s.handlers[h];
    assert h in s'.handlers && s'.handlers == s.handlers[h := s'.handlers[h]] && s'.handlers[h].Accepting?;
    match hd.pc
    case MarkWinner =>
    case MarkLosers(rest) =>
    case Pay(_, _) =>
    case _ =>
  }

  lemma MarketKeepsTerms(cfg: Config, s: State, a: Action, s': State)
    requires Step(cfg, s, a, s') && !a.BeginCreate?
    ensures RequestsKept(s, s') && JobsKept(s, s')
    ensures BidsKept(s, s') || (a.Advance? && InsertedBid(s, s', a.h, a.choice.newId))
  {
    match a
    case Publish(rid, request) =>
    case BeginAccept(h, rid, bid) =>
    case Abandon(h) =>
    case Advance(h, c) =>
      match s.handlers[h]
      case Accepting(rid, bid, pc) => AcceptMoveKeepsTerms(cfg, s, h, c, s');
      case Creating(rid, body, pc) =>
  }

  lemma SameTermsSameSheet(body: BidCreate, r: BidRequest, r': BidRequest)
    requires SameTerms(r, r') && WithinSheet(body, r)
    ensures WithinSheet(body, r')
  {
  }

  lemma JobsKeepFiled(s: State, s': State, b: Bid)
    requires JobsKept(s, s') && FiledBySome(s.handlers, b)
    ensures FiledBySome(s'.handlers, b)
  {
    var h :| h in s.handlers && Filed(s.handlers[h], b);
    assert Creates(s.handlers, h);
    assert Filed(s'.handlers[h], b);
  }

  lemma BidsKeptOk(s: State, s': State)
    requires JobsKept(s, s') && BidsKept(s, s') && BidsFiled(s)
    ensures BidsFiled(s')
  {
    forall b | b in s'.store.bids
      ensures FiledBySome(s'.handlers, s'.store.bids[b])
    {
      JobsKeepFiled(s, s', s.store.bids[b]);
      var h :| h in s'.handlers && Filed(s'.handlers[h], s.store.bids[b]);
      assert Filed(s'.handlers[h], s'.store.bids[b]);
    }
  }

  lemma InsertedOk(fee: real, w: World, s': State, h: Id, n: Id)
    requires CreatorsOk(fee, w) && BidsFiled(w.market)
    requires JobsKept(w.market, s') && InsertedBid(w.market, s', h, n)
    ensures BidsFiled(s')
  {
    var s := w.market;
    forall b | b in s'.store.bids
      ensures FiledBySome(s'.handlers, s'.store.bids[b])
      ensures b != n ==>
                || s'.store.bids[b].lender != s'.store.bids[n].lender
                || s'.store.bids[b].request != s'.store.bids[n].request
    {
      if b != n {
        var bid := s.store.bids[b];
        JobsKeepFiled(s, s', bid);
        var g :| g in s.handlers && Filed(s.handlers[g], bid);
        assert Creates(s.handlers, g) && Creates(s.handlers, h) && g != h;
      }
    }
  }

  lemma MarketKeepsHandlers(fee: real, w: World, w': World)
    requires CreatorsOk(fee, w) && RequestsKept(w.market, w'.market) && JobsKept(w.market, w'.market)
    requires w' == w.(market := w'.market)
    ensures CreatorsOk(fee, w')
  {
    forall h | Creates(w'.market.handlers, h)
      ensures CreatorOk(fee, w'.market.store.requests, w'.payments, w'.tasks, w'.market.handlers[h])
    {
      assert Creates(w.market.handlers, h) && SameJob(w.market.handlers[h], w'.market.handlers[h]);
      var rid := w.market.handlers[h].request;
      SameTermsSameSheet(w.market.handlers[h].body, w.market.store.requests[rid], w'.market.store.requests[rid]);
    }
  }

  lemma MarketKeepsStage(fee: real, s: State, s': State, payments: seq<Payment>, t: Task, stage: Stage)
    requires RequestsKept(s, s') && StageOk(fee, s.store.requests, payments, t, stage)
    ensures StageOk(fee, s'.store.requests, payments, t, stage)
  {
    assert SameTerms(s.store.requests[t.request], s'.store.requests[t.request]);
    if stage.Posting? || stage.Quoted? || stage.Retrying? {
      SameTermsSameSheet(stage.body, s.store.requests[t.request], s'.store.requests[t.request]);
    }
  }

  lemma MarketStepKeepsInv(cfg: Config, fee: real, w: World, a: Action, w': World)
    requires WorldInv(fee, w) && WorldStep(cfg, fee, w, Market(a), w')
    ensures WorldInv(fee, w')
  {
    var s, s' := w.market, w'.market;
    MarketKeepsTerms(cfg, s, a, s');
    MarketKeepsHandlers(fee, w, w');
    if BidsKept(s, s') {
      BidsKeptOk(s, s');
    } else {
      InsertedOk(fee, w, s', a.h, a.choice.newId);
    }
    forall t | t in w'.tasks
      ensures StageOk(fee, s'.store.requests, w'.payments, t, w'.tasks[t])
    {
      MarketKeepsStage(fee, s, s', w.payments, t, w.tasks[t]);
    }
    forall r | r in s'.store.requests ensures s'.store.requests[r].Valid() {
      if r in s.store.requests {
        assert SameTerms(s.store.requests[r], s'.store.requests[r]);
      }
    }
  }

  // ----- what the lenders' steps leave alone -----

  /** A task moves on: once it may have paid, or is done posting, it stays so. */
  predicate MovesOn(tasks: map<Task, Stage>, t: Task, next: Stage) {
    t in tasks ==>
      && (MayHavePaid(tasks[t]) ==> MayHavePaid(next))
      && (tasks[t].Waiting? || tasks[t].Over? ==> next.Waiting? || next.Over?)
  }

  lemma SetKeepsInv(fee: real, w: World, posts: seq<Task>, t: Task, next: Stage)
    requires WorldInv(fee, w) && MovesOn(w.tasks, t, next)
    requires StageOk(fee, w.market.store.requests, w.payments, t, next)
    requires PostsOk(posts, w.tasks[t := next])
    ensures WorldInv(fee, AtStage(w.(posts := posts), t, next))
  {
    var w' := AtStage(w.(posts := posts), t, next);
    forall h | Creates(w'.market.handlers, h)
      ensures CreatorOk(fee, w'.market.store.requests, w'.payments, w'.tasks, w'.market.handlers[h])
    {
      assert CreatorOk(fee, w.market.store.requests, w.payments, w.tasks, w.market.handlers[h]);
    }
  }

  lemma HandlerAddedKeepsBids(s: State, h: Id, hd: Handler)
    requires BidsFiled(s) && h !in s.handlers
    ensures BidsFiled(At(s, h, hd))
  {
    var s' := At(s, h, hd);
    forall b | b in s'.store.bids
      ensures FiledBySome(s'.handlers, s'.store.bids[b])
    {
      var g :| g in s.handlers && Filed(s.handlers[g], s.store.bids[b]);
      assert Filed(s'.handlers[g], s'.store.bids[b]);
    }
  }

  lemma HandlerAddedKeepsHandlers(fee: real, w: World, h: Id, hd: Handler)
    requires CreatorsOk(fee, w) && h !in w.market.handlers && hd.Creating?
    requires CreatorOk(fee, w.market.store.requests, w.payments, w.tasks, hd)
    requires forall g :: Creates(w.market.handlers, g) ==> TaskOf(w.market.handlers[g]) != TaskOf(hd)
    ensures CreatorsOk(fee, w.(market := At(w.market, h, hd)))
  {
    var s, s' := w.market, At(w.market, h, hd);
    forall g | Creates(s'.handlers, g)
      ensures CreatorOk(fee, s'.store.requests, w.payments, w.tasks, s'.handlers[g])
      ensures g != h ==> TaskOf(s'.handlers[g]) != TaskOf(hd)
    {
      assert g != h ==> Creates(s.handlers, g);
    }
  }

  lemma PaymentKeepsPaid(payments: seq<Payment>, p: Payment, t: Task, tx: Option<string>)
    requires PaidWith(payments, t, tx)
    ensures PaidWith(payments + [p], t, tx)
  {
    var i :| 0 <= i < |payments| && payments[i].payer == t && tx == Some(payments[i].hash);
    assert (payments + [p])[i] == payments[i];
  }

  lemma NewestPayment(payments: seq<Payment>, p: Payment)
    ensures PaidWith(payments + [p], p.payer, Some(p.hash))
  {
    assert (payments + [p])[|payments|] == p;
  }

  lemma PaymentAddedIsOk(fee: real, w: World, p: Payment, next: Stage)
    requires PaymentsOk(fee, w.payments, w.tasks) && p.payer in w.tasks && w.tasks[p.payer].Quoted?
    requires 1 <= p.amount == AtomicFee(fee) && NewHash(w.payments, p.hash) && MayHavePaid(next)
    ensures PaymentsOk(fee, w.payments + [p], w.tasks[p.payer := next])
  {
    var payments := w.payments + [p];
    forall i, j | 0 <= i < j < |payments|
      ensures payments[i].payer != payments[j].payer && payments[i].hash != payments[j].hash
    {
      assert payments[i] == w.payments[i] && w.payments[i].hash != p.hash && w.payments[i].payer != p.payer;
    }
  }

  /** The task's payment landed; its stage is the one before paying until it is set. */
  lemma PaymentAddedKeepsInv(fee: real, w: World, p: Payment, next: Stage)
    requires WorldInv(fee, w) && p.payer in w.tasks && w.tasks[p.payer].Quoted?
    requires 1 <= p.amount == AtomicFee(fee) && NewHash(w.payments, p.hash)
    requires next.Over? || next.Retrying?
    requires StageOk(fee, w.market.store.requests, w.payments + [p], p.payer, next)
    ensures WorldInv(fee, AtStage(w, p.payer, next).(payments := w.payments + [p]))
  {
    var w' := AtStage(w, p.payer, next).(payments := w.payments + [p]);
    PaymentAddedIsOk(fee, w, p, next);
    PaymentAddedKeepsHandlers(fee, w, p, next);
    forall t | t in w'.tasks
      ensures StageOk(fee, w'.market.store.requests, w'.payments, t, w'.tasks[t])
    {
      if t != p.payer && w.tasks[t].Retrying? && TxHash(w.tasks[t].fields) != "" {
        PaymentKeepsPaid(w.payments, p, t, Some(TxHash(w.tasks[t].fields)));
      }
    }
    PostsStayOk(w.posts, w.tasks, p.payer, next);
  }

  lemma PostsStayOk(posts: seq<Task>, tasks: map<Task, Stage>, t: Task, next: Stage)
    requires PostsOk(posts, tasks) && t in tasks && tasks[t].Quoted? && (next.Over? || next.Retrying?)
    ensures PostsOk(posts, tasks[t := next])
  {
    assert CountOf(posts, t) <= PostsAllowed(tasks, t);
  }

  lemma PaymentAddedKeepsHandlers(fee: real, w: World, p: Payment, next: Stage)
    requires CreatorsOk(fee, w) && p.payer in w.tasks && w.tasks[p.payer].Quoted?
    ensures CreatorsOk(fee, AtStage(w, p.payer, next).(payments := w.payments + [p]))
  {
    var w' := AtStage(w, p.payer, next).(payments := w.payments + [p]);
    forall h | Creates(w'.market.handlers, h)
      ensures CreatorOk(fee, w'.market.store.requests, w'.payments, w'.tasks, w'.market.handlers[h])
    {
      var hd := w.market.handlers[h];
      assert CreatorOk(fee, w.market.store.requests, w.payments, w.tasks, hd);
      if 0.0 < fee {
        PaymentKeepsPaid(w.payments, p, TaskOf(hd), hd.body.feeTx);
      }
    }
  }

  // ----- the lenders' steps -----

  lemma JudgedIsOk(fee: real, w: World, t: Task, first: Reply, second: Reply)
    requires t in w.tasks && w.tasks[t].Judging? && Genuine(first) && Genuine(second)
    requires StageOk(fee, w.market.store.requests, w.payments, t, w.tasks[t])
    ensures StageOk(fee, w.market.store.requests, w.payments, t, Judged(t.lender, w.tasks[t].req, first, second))
  {
    var req := w.tasks[t].req;
    if Evaluated(first, second, t.lender, req).Some? {
      EveryApprovalIsPostable(first, second, t.lender, req);
      var d := Evaluated(first, second, t.lender, req).value;
      if d.decision == Approve {
        SameTermsSameSheet(BuildBidCreate(t.lender, d), req, w.market.store.requests[t.request]);
      }
    }
  }

  lemma PayKeepsInv(fee: real, w: World, t: Task, refused: bool, hash: string, addressKnown: bool, w': World)
    requires WorldInv(fee, w) && t in w.tasks && w.tasks[t].Quoted?
    requires PayMove(w, t, refused, hash, addressKnown, w')
    ensures WorldInv(fee, w')
  {
    var quote := w.tasks[t].quote;
    assert StageOk(fee, w.market.store.requests, w.payments, t, w.tasks[t]);
    ParsePrint(AtomicFee(fee));
    TransferIsTheQuote(quote);
    if TransferFor(quote).None? || refused {
      SetKeepsInv(fee, w, w.posts, t, Over);
    } else {
      var p := Payment(t, TransferFor(quote).value, hash);
      NewestPayment(w.payments, p);
      PaymentAddedKeepsInv(fee, w, p, w'.tasks[t]);
    }
  }

  /** What a post through the open gate sends on is paid for, if there is a fee. */
  lemma ForwardedIsOk(fee: real, w: World, t: Task)
    requires t in w.tasks && AboutToPost(w.tasks[t])
    requires StageOk(fee, w.market.store.requests, w.payments, t, w.tasks[t])
    requires Dispatch(fee, HeaderOf(w.tasks[t])).Forward?
    ensures var body := WithHash(w.tasks[t].body, Dispatch(fee, HeaderOf(w.tasks[t])).tx);
            && body.lender == t.lender && WithinSheet(body, w.market.store.requests[t.request])
            && (if fee <= 0.0 then body.feeTx == None else PaidWith(w.payments, t, body.feeTx))
  {
  }

  lemma PostStage(fee: real, w: World, t: Task, h: Id, delivery: Delivery, w': World)
    requires t in w.tasks && AboutToPost(w.tasks[t])
    requires StageOk(fee, w.market.store.requests, w.payments, t, w.tasks[t])
    requires PostMove(fee, w, t, h, delivery, w')
    ensures t in w'.tasks && StageOk(fee, w.market.store.requests, w.payments, t, w'.tasks[t])
    ensures MovesOn(w.tasks, t, w'.tasks[t])
    ensures var next := w'.tasks[t]; next.Over? || next.Waiting? || (next.Quoted? && w.tasks[t].Posting?)
    ensures var sent := AtStage(w.(posts := w.posts + [t]), t, w'.tasks[t]);
            w' == sent
            || (&& Dispatch(fee, HeaderOf(w.tasks[t])).Forward? && !w'.tasks[t].Quoted?
                && h !in w.market.handlers
                && var body := WithHash(w.tasks[t].body, Dispatch(fee, HeaderOf(w.tasks[t])).tx);
                w' == sent.(market := At(w.market, h, Creating(t.request, body, FetchForBid))))
  {
  }

  lemma OneMorePost(w: World, t: Task, next: Stage)
    requires PostsOk(w.posts, w.tasks) && t in w.tasks && AboutToPost(w.tasks[t])
    requires next.Over? || next.Waiting? || (next.Quoted? && w.tasks[t].Posting?)
    ensures PostsOk(w.posts + [t], w.tasks[t := next])
  {
    CountAfter(w.posts, t);
    assert CountOf(w.posts, t) <= PostsAllowed(w.tasks, t);
  }

  lemma PostKeepsInv(fee: real, w: World, t: Task, h: Id, delivery: Delivery, w': World)
    requires WorldInv(fee, w) && t in w.tasks && AboutToPost(w.tasks[t])
    requires PostMove(fee, w, t, h, delivery, w')
    ensures WorldInv(fee, w')
  {
    PostStage(fee, w, t, h, delivery, w');
    OneMorePost(w, t, w'.tasks[t]);
    SetKeepsInv(fee, w, w.posts + [t], t, w'.tasks[t]);
    var sent := AtStage(w.(posts := w.posts + [t]), t, w'.tasks[t]);
    if w' != sent {
      forall g | Creates(w.market.handlers, g)
        ensures TaskOf(w.market.handlers[g]) != t
      {
        assert CreatorOk(fee, w.market.store.requests, w.payments, w.tasks, w.market.handlers[g]);
      }
      ForwardedIsOk(fee, w, t);
      HandlerAddedKeepsHandlers(fee, sent, h, w'.market.handlers[h]);
      HandlerAddedKeepsBids(w.market, h, w'.market.handlers[h]);
    }
  }

  lemma BeginKeepsInv(cfg: Config, fee: real, w: World, t: Task, w': World)
    requires WorldInv(fee, w) && WorldStep(cfg, fee, w, Begin(t), w')
    ensures WorldInv(fee, w')
  {
    var req := w.market.store.requests[t.request];
    assert StageOk(fee, w.market.store.requests, w.payments, t, Judging(req));
    SetKeepsInv(fee, w, w.posts, t, Judging(req));
  }

  lemma JudgeKeepsInv(cfg: Config, fee: real, w: World, t: Task, first: Reply, second: Reply, w': World)
    requires WorldInv(fee, w) && WorldStep(cfg, fee, w, Judge(t, first, second), w')
    ensures WorldInv(fee, w')
  {
    var next := Judged(t.lender, w.tasks[t].req, first, second);
    assert next.Posting? || next.Over?;
    JudgedIsOk(fee, w, t, first, second);
    SetKeepsInv(fee, w, w.posts, t, next);
  }

  lemma WorldStepKeepsInv(cfg: Config, fee: real, w: World, m: Move, w': World)
    requires WorldInv(fee, w) && WorldStep(cfg, fee, w, m, w')
    ensures WorldInv(fee, w')
  {
    match m
    case Market(a) => MarketStepKeepsInv(cfg, fee, w, a, w');
    case Begin(t) => BeginKeepsInv(cfg, fee, w, t, w');
    case Judge(t, first, second) => JudgeKeepsInv(cfg, fee, w, t, first, second, w');
    case Post(t, h, delivery) => PostKeepsInv(fee, w, t, h, delivery, w');
    case Pay(t, refused, hash, addressKnown) => PayKeepsInv(fee, w, t, refused, hash, addressKnown, w');
    case Finish(t) => SetKeepsInv(fee, w, w.posts, t, Over);
  }

  lemma {:induction false} EveryWorldIsOk(cfg: Config, fee: real, trace: seq<World>, moves: seq<Move>, i: nat)
    requires WorldRun(cfg, fee, trace, moves) && i < |trace|
    ensures WorldInv(fee, trace[i])
  {
    if i > 0 {
      EveryWorldIsOk(cfg, fee, trace, moves, i - 1);
      WorldStepKeepsInv(cfg, fee, trace[i - 1], moves[i - 1], trace[i]);
    } else {
      assert forall t :: CountOf([], t) == 0;
    }
  }
}
