/** marketplace/routes/settle.py and marketplace/routes/bids.py as a protocol: the two
    mutating handlers cut into their transactions, interleaving freely.

    No lock is taken anywhere, so between two transactions of one handler any other may
    run, and a handler may be abandoned for good.
  */
module Protocol {
  import opened Models
  import opened Ledger
  import opened Settler
  import opened Wallets

  /** The marketplace's settings: constant over a run. */
  datatype Config = Config(rate: real, payout: Option<PayoutWallets>)

  /** A landed leg of a settlement: which handler sent it, and as which of its three legs. */
  datatype Leg = Leg(sender: Id, place: nat, payment: Transfer)

  datatype AcceptPc =
    | Fetch                               // about to read the request
    | CheckBid(loan: int)                 // about to read the bid
    | Pay(loan: int, hashes: seq<nat>)    // about to send the next leg, or to insert the settlement
    | MarkWinner
    | Snapshot                            // about to list the bids of the request
    | MarkLosers(rest: seq<Id>)           // about to mark the next loser, or to close the request
    | AcceptReplied(code: int)
    | AcceptAbandoned

  datatype CreatePc = FetchForBid | Insert | CreateReplied(code: int) | CreateAbandoned

  datatype Handler =
    | Accepting(request: Id, bid: Id, pc: AcceptPc)
    | Creating(request: Id, body: BidCreate, createPc: CreatePc)
  {
    predicate InFlight() {
      match this
      case Accepting(_, _, pc) => !pc.AcceptReplied? && !pc.AcceptAbandoned?
      case Creating(_, _, pc) => !pc.CreateReplied? && !pc.CreateAbandoned?
    }

    /** A handler whose settlement row is in the ledger. */
    predicate PastSettlement() {
      Accepting? && (pc.MarkWinner? || pc.Snapshot? || pc.MarkLosers? || pc == AcceptReplied(200))
    }
  }

  /** The identifier of a settlement row is drawn by the handler that inserts it; the model
      uses the handler's own. */
  datatype State = State(store: Store, chain: seq<Leg>, handlers: map<Id, Handler>)

  /** What a transaction leaves to its surroundings: whether a transfer goes through, in
      which order the bids are listed, which fresh identifier and time a new bid draws. */
  datatype Choice = Choice(goesThrough: bool, order: seq<Id>, newId: Id, now: int)

  datatype Action =
    | Publish(rid: Id, request: BidRequest)
    | BeginAccept(h: Id, rid: Id, bid: Id)
    | BeginCreate(h: Id, rid: Id, body: BidCreate)
    | Advance(h: Id, choice: Choice)
    | Abandon(h: Id)

  function LegAmount(s: Splits, place: nat): int {
    if place == 0 then s.dealer else if place == 1 then s.marketplace else s.reserve
  }

  function LegTarget(w: PayoutWallets, place: nat): string {
    if place == 0 then w.dealer else if place == 1 then w.marketplace else w.reserve
  }

  function LegOf(cfg: Config, h: Id, place: nat, loan: int): Leg
    requires cfg.payout.Some?
  {
    var w := cfg.payout.value;
    Leg(h, place, Transfer(w.source, LegTarget(w, place), LegAmount(ComputeSplits(loan, cfg.rate), place)))
  }

  // ----- one transaction of accept_bid -----

  function FetchStep(store: Store, rid: Id): AcceptPc {
    if rid !in store.requests then AcceptReplied(404)
    else if store.requests[rid].status != RequestOpen then AcceptReplied(409)
    else CheckBid(store.requests[rid].loan)
  }

  function CheckBidStep(cfg: Config, store: Store, rid: Id, bid: Id, loan: int): AcceptPc {
    if !store.BidOf(bid, rid) then AcceptReplied(404)
    else if store.bids[bid].status != BidOpen then AcceptReplied(409)
    else if cfg.payout.None? then AcceptReplied(503)
    else Pay(loan, [])
  }

  /** The bids the loop will mark: the other bids of the request found open when listed. */
  predicate ListsOpenOthers(store: Store, rid: Id, winner: Id, order: seq<Id>) {
    && (forall i, j :: 0 <= i < j < |order| ==> order[i] != order[j])
    && (forall b :: b in order ==> OpenOther(store, rid, winner, b))
    && (forall b :: b in store.bids && OpenOther(store, rid, winner, b) ==> b in order)
  }

  predicate OpenOther(store: Store, rid: Id, winner: Id, b: Id) {
    store.BidOf(b, rid) && b != winner && store.bids[b].status == BidOpen
  }

  ghost predicate AcceptMove(cfg: Config, s: State, h: Id, rid: Id, bid: Id, pc: AcceptPc, c: Choice, s': State)
    requires h in s.handlers
  {
    match pc
    case Fetch =>
      s' == At(s, h, Accepting(rid, bid, FetchStep(s.store, rid)))
    case CheckBid(loan) =>
      s' == At(s, h, Accepting(rid, bid, CheckBidStep(cfg, s.store, rid, bid, loan)))
    case Pay(loan, hashes) =>
      if |hashes| >= 3 then
        s' == At(s, h, Accepting(rid, bid, MarkWinner)).(store := s.store.(settlements :=
                s.store.settlements + [Settlement(h, rid, bid, hashes[0], hashes[1], hashes[2])]))
      else if cfg.payout.Some? && 0 < LegAmount(ComputeSplits(loan, cfg.rate), |hashes|) && c.goesThrough then
        s' == At(s, h, Accepting(rid, bid, Pay(loan, hashes + [|s.chain|])))
              .(chain := s.chain + [LegOf(cfg, h, |hashes|, loan)])
      else
        s' == At(s, h, Accepting(rid, bid, AcceptReplied(502)))
    case MarkWinner =>
      if bid !in s.store.bids then s' == At(s, h, Accepting(rid, bid, AcceptReplied(500)))
      else s' == At(s, h, Accepting(rid, bid, Snapshot)).(store := s.store.SetBidStatus(bid, Accepted))
    case Snapshot =>
      && ListsOpenOthers(s.store, rid, bid, c.order)
      && s' == At(s, h, Accepting(rid, bid, MarkLosers(c.order)))
    case MarkLosers(rest) =>
      if rest == [] then
        if rid !in s.store.requests then s' == At(s, h, Accepting(rid, bid, AcceptReplied(500)))
        else s' == At(s, h, Accepting(rid, bid, AcceptReplied(200))).(store := s.store.SetRequestStatus(rid, Closed))
      else
        if rest[0] !in s.store.bids then s' == At(s, h, Accepting(rid, bid, AcceptReplied(500)))
        else s' == At(s, h, Accepting(rid, bid, MarkLosers(rest[1..]))).(store := s.store.SetBidStatus(rest[0], Lost))
    case AcceptReplied(_) => false
    case AcceptAbandoned => false
  }

  // ----- one transaction of create_bid -----

  function FetchForBidStep(store: Store, rid: Id): CreatePc {
    if rid !in store.requests then CreateReplied(404)
    else if store.requests[rid].status != RequestOpen then CreateReplied(409)
    else Insert
  }

  ghost predicate CreateMove(s: State, h: Id, rid: Id, body: BidCreate, pc: CreatePc, c: Choice, s': State)
    requires h in s.handlers
  {
    match pc
    case FetchForBid =>
      s' == At(s, h, Creating(rid, body, FetchForBidStep(s.store, rid)))
    case Insert =>
      && c.newId !in s.store.bids
      && s' == At(s, h, Creating(rid, body, CreateReplied(201))).(store := s.store.(bids :=
                 s.store.bids[c.newId := Bid(c.newId, rid, body.lender, body.package, body.feeTx, c.now, BidOpen)]))
    case CreateReplied(_) => false
    case CreateAbandoned => false
  }

  function At(s: State, h: Id, hd: Handler): State {
    s.(handlers := s.handlers[h := hd])
  }

  function Abandoned(hd: Handler): Handler {
    match hd
    case Accepting(rid, bid, _) => Accepting(rid, bid, AcceptAbandoned)
    case Creating(rid, body, _) => Creating(rid, body, CreateAbandoned)
  }

  // ----- the protocol -----

  const INITIAL := State(Store(map[], map[], []), [], map[])

  ghost predicate Step(cfg: Config, s: State, a: Action, s': State) {
    match a
    case Publish(rid, request) =>
      && rid !in s.store.requests && request.Valid() && request.status == RequestOpen
      && s' == s.(store := s.store.(requests := s.store.requests[rid := request]))
    case BeginAccept(h, rid, bid) =>
      h !in s.handlers && s' == At(s, h, Accepting(rid, bid, Fetch))
    case BeginCreate(h, rid, body) =>
      h !in s.handlers && s' == At(s, h, Creating(rid, body, FetchForBid))
    case Advance(h, c) =>
      && h in s.handlers
      && (match s.handlers[h]
          case Accepting(rid, bid, pc) => AcceptMove(cfg, s, h, rid, bid, pc, c, s')
          case Creating(rid, body, pc) => CreateMove(s, h, rid, body, pc, c, s'))
    case Abandon(h) =>
      && h in s.handlers && s.handlers[h].InFlight()
      && s' == At(s, h, Abandoned(s.handlers[h]))
  }

  /** Any finite sequence of transactions. */
  ghost predicate Path(cfg: Config, trace: seq<State>, actions: seq<Action>) {
    && |trace| == |actions| + 1
    && forall i {:trigger actions[i]} :: 0 <= i < |actions| ==> Step(cfg, trace[i], actions[i], trace[i + 1])
  }

  /** A run starts from the empty marketplace. */
  ghost predicate Run(cfg: Config, trace: seq<State>, actions: seq<Action>) {
    Path(cfg, trace, actions) && trace[0] == INITIAL
  }

  ghost predicate Reaches(cfg: Config, s: State, t: State) {
    exists trace, actions ::
      Path(cfg, trace, actions) && trace[0] == s && trace[|actions|] == t
  }

  lemma PathExtends(cfg: Config, states: seq<State>, actions: seq<Action>, a: Action, s': State)
    requires Path(cfg, states, actions) && Step(cfg, states[|actions|], a, s')
    ensures Path(cfg, states + [s'], actions + [a])
  {
    var states', actions' := states + [s'], actions + [a];
    forall i {:trigger actions'[i]} | 0 <= i < |actions'|
      ensures Step(cfg, states'[i], actions'[i], states'[i + 1])
    {
      if i < |actions| {
        assert actions'[i] == actions[i];
        assert states'[i] == states[i] && states'[i + 1] == states[i + 1];
      }
    }
  }
}
