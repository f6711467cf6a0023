/** Lender agents at work on the marketplace: every evaluation (agents/lender.py,
    `evaluate_and_bid`) cut at its awaits, any number of them interleaving with each other
    and with the marketplace's own handlers.

    The marketplace's side is the protocol of settle.py and bids.py, where handlers
    interleave freely and may be abandoned; a post that passes the fee gate begins a
    `create_bid` handler there.  Payments are made by wallet-backed payers.
  */
module LenderProtocol {
  import opened Models
  import opened Protocol
  import opened Parsing
  import opened Handshake

  /** One evaluation: a lender starts at most one per request, since it remembers the
      requests it has seen. */
  datatype Task = Task(lender: string, request: Id)

  datatype Payment = Payment(payer: Task, amount: int, hash: string)

  datatype Stage =
    | Judging(req: BidRequest)                     // waiting for the underwriter
    | Posting(body: BidCreate)                     // about to post without payment
    | Quoted(body: BidCreate, quote: string)       // answered 402, about to pay
    | Retrying(body: BidCreate, fields: Fields)    // about to post with payment
    | Waiting(h: Id)                               // let through the gate, waiting for the answer
    | Over

  /** The marketplace, the payments that landed, the posts that were made, the evaluations. */
  datatype World = World(market: State, payments: seq<Payment>, posts: seq<Task>, tasks: map<Task, Stage>)

  /** What the transport makes of a post. */
  datatype Delivery = NotDelivered | ReplyLost | Delivered

  datatype Move =
    | Market(a: Action)
    | Begin(t: Task)
    | Judge(t: Task, first: Reply, second: Reply)
    | Post(t: Task, h: Id, delivery: Delivery)
    | Pay(t: Task, refused: bool, hash: string, addressKnown: bool)
    | Finish(t: Task)

  function TaskOf(hd: Handler): Task
    requires hd.Creating?
  {
    Task(hd.body.lender, hd.request)
  }

  predicate Genuine(r: Reply) {
    r.Some? ==> r.value.Faithful()
  }

  /** A package that breaks a bound of the bid's schema raises, and ends the evaluation. */
  function Judged(lender: string, req: BidRequest, first: Reply, second: Reply): Stage {
    match Evaluated(first, second, lender, req)
    case None => Over
    case Some(d) =>
      var body := BuildBidCreate(lender, d);
      if d.decision == Approve && body.Valid() then Posting(body) else Over
  }

  /** The stage of a task in the middle of a post, as the body and the header it sends. */
  predicate AboutToPost(stage: Stage) {
    stage.Posting? || stage.Retrying?
  }

  function HeaderOf(stage: Stage): Header
    requires AboutToPost(stage)
  {
    if stage.Posting? then Absent else Envelope(stage.fields)
  }

  function AtStage(w: World, t: Task, stage: Stage): World {
    w.(tasks := w.tasks[t := stage])
  }

  ghost predicate PostMove(fee: real, w: World, t: Task, h: Id, delivery: Delivery, w': World)
    requires t in w.tasks && AboutToPost(w.tasks[t])
  {
    var body := w.tasks[t].body;
    var posted := w.(posts := w.posts + [t]);
    if delivery == NotDelivered then w' == AtStage(posted, t, Over)
    else
      match Dispatch(fee, HeaderOf(w.tasks[t]))
      case Quote(amount) =>
        w' == AtStage(posted, t, if delivery == Delivered && w.tasks[t].Posting? then Quoted(body, amount) else Over)
      case Refuse => w' == AtStage(posted, t, Over)
      case Forward(tx) =>
        if !body.Valid() then w' == AtStage(posted, t, Over)
        else
          && h !in w.market.handlers
          && w' == AtStage(posted, t, if delivery == Delivered then Waiting(h) else Over)
                   .(market := At(w.market, h, Creating(t.request, WithHash(body, tx), FetchForBid)))
  }

  /** The network never gives out a hash twice. */
  predicate NewHash(payments: seq<Payment>, hash: string) {
    forall i :: 0 <= i < |payments| ==> payments[i].hash != hash
  }

  ghost predicate PayMove(w: World, t: Task, refused: bool, hash: string, addressKnown: bool, w': World)
    requires t in w.tasks && w.tasks[t].Quoted?
  {
    var quote := w.tasks[t].quote;
    match TransferFor(quote)
    case None => w' == AtStage(w, t, Over)
    case Some(n) =>
      if refused then w' == AtStage(w, t, Over)
      else
        && NewHash(w.payments, hash)
        && w' == AtStage(w, t, if addressKnown then Retrying(w.tasks[t].body, CdpFields(quote, hash, t.lender))
           else Over)
                 .(payments := w.payments + [Payment(t, n, hash)])
  }

  ghost predicate WorldStep(cfg: Config, fee: real, w: World, m: Move, w': World) {
    match m
    case Market(a) =>
      !a.BeginCreate? && w' == w.(market := w'.market) && Step(cfg, w.market, a, w'.market)
    case Begin(t) =>
      && t !in w.tasks && t.request in w.market.store.requests
      && w.market.store.requests[t.request].status == RequestOpen
      && w' == AtStage(w, t, Judging(w.market.store.requests[t.request]))
    case Judge(t, first, second) =>
      && t in w.tasks && w.tasks[t].Judging? && Genuine(first) && Genuine(second)
      && w' == AtStage(w, t, Judged(t.lender, w.tasks[t].req, first, second))
    case Post(t, h, delivery) =>
      t in w.tasks && AboutToPost(w.tasks[t]) && PostMove(fee, w, t, h, delivery, w')
    case Pay(t, refused, hash, addressKnown) =>
      t in w.tasks && w.tasks[t].Quoted? && PayMove(w, t, refused, hash, addressKnown, w')
    case Finish(t) =>
      t in w.tasks && (w.tasks[t].Waiting? || w.tasks[t].Quoted?) && w' == AtStage(w, t, Over)
  }

  const NOTHING_YET := World(INITIAL, [], [], map[])

  ghost predicate WorldPath(cfg: Config, fee: real, trace: seq<World>, moves: seq<Move>) {
    && |trace| == |moves| + 1
    && forall i {:trigger moves[i]} :: 0 <= i < |moves| ==> WorldStep(cfg, fee, trace[i], moves[i], trace[i + 1])
  }

  /** A run starts with nothing published, posted or paid. */
  ghost predicate WorldRun(cfg: Config, fee: real, trace: seq<World>, moves: seq<Move>) {
    WorldPath(cfg, fee, trace, moves) && trace[0] == NOTHING_YET
  }
}
