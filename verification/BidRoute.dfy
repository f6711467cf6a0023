/** agents/lender.py `evaluate_and_bid` against marketplace/routes/bids.py `create_bid` behind
    the fee gate: one evaluation run without interruption, as the methods are written. */
module BidRoute {
  import opened Models
  import opened Ledger
  import opened Wallets
  import opened Digits
  import opened Parsing
  import opened Handshake

  /** What the lender is left with after a post.  A transport failure may happen before or
      after the marketplace has done its part. */
  datatype Answer = TransportError | Response(code: int, quote: string, id: Option<Id>)

  /** What one post leaves to its surroundings: whether it arrives, whether the answer comes
      back, the identifier and the time a new bid would draw. */
  datatype Fate = Fate(arrives: bool, comesBack: bool, newId: Id, now: int)

  datatype Payer = NoPayer | WalletPayer(wallet: string, addressKnown: bool) | StubPayer(hash: string)

  /** All that one evaluation leaves to its surroundings: the payer, what becomes of the two
      posts, the place of the next transfer on the chain, the places the network refuses, and
      the hashes it gives out. */
  datatype Circumstances = Circumstances(
    payer: Payer,
    first: Fate,
    second: Fate,
    place: nat,
    refused: Refusals,
    hashText: nat -> string)
  {
    /** The network takes the transfer of a wallet's payer. */
    predicate Transfers(fee: real) {
      payer.WalletPayer? && 1.0 <= fee && place !in refused
    }

    /** The hash of the payment that the payer returns on a quote of the fee, if it does. */
    function Returned(fee: real): Option<string> {
      match payer
      case NoPayer => None
      case StubPayer(hash) => Some(hash)
      case WalletPayer(_, addressKnown) => if Transfers(fee) && addressKnown then Some(hashText(place)) else None
    }
  }

  /** The bid a post inserts. */
  function BidFrom(rid: Id, body: BidCreate, tx: Option<string>, fate: Fate): Bid {
    Bid(fate.newId, rid, body.lender, body.package, WithHash(body, tx).feeTx, fate.now, BidOpen)
  }

  /** `create_bid`: 201, or why not; a taken identifier is an internal error. */
  function CreateCode(store: Store, rid: Id, newId: Id): int {
    if rid !in store.requests then 404
    else if store.requests[rid].status != RequestOpen then 409
    else if newId in store.bids then 500
    else 201
  }

  /** When each answer is given, and what a filed bid carries. */
  lemma CreateAnswersExactly(store: Store, rid: Id, newId: Id)
    ensures var code, open := CreateCode(store, rid, newId), rid in store.requests
              && store.requests[rid].status == RequestOpen;
            && (code == 404 <==> rid !in store.requests)
            && (code == 409 <==> rid in store.requests && !open)
            && (code == 500 <==> open && newId in store.bids)
            && (code == 201 <==> open && newId !in store.bids)
  {
  }

  lemma FiledBidIsAsPosted(rid: Id, body: BidCreate, tx: Option<string>, fate: Fate)
    ensures var bid := BidFrom(rid, body, tx, fate);
            && bid.id == fate.newId && bid.request == rid && bid.createdAt == fate.now && bid.status == BidOpen
            && bid.lender == body.lender && bid.package == body.package
            && (tx.Some? && tx.value != "" ==> bid.feeTx == tx)
            && (tx.None? ==> bid.feeTx == body.feeTx)
  {
  }

  method CreateBid(db: Database, rid: Id, body: BidCreate, tx: Option<string>, fate: Fate) returns (code: int)
    requires db.Valid()
    modifies db
    ensures db.Valid() && code == CreateCode(old(db.Contents()), rid, fate.newId)
    ensures db.Contents() == if code == 201
                             then old(db.Contents()).(bids := old(db.bids)[fate.newId := BidFrom(rid, body, tx, fate)])
                             else old(db.Contents())
  {
    var found := db.GetRequest(rid);
    if found.None? {
      return 404;
    }
    if found.value.status != RequestOpen {
      return 409;
    }
    var ok := db.SaveBid(BidFrom(rid, body, tx, fate));
    code := if ok then 201 else 500;
  }

  /** A post inserts a bid: it arrives, the gate lets it through, the body validates and the
      request is open. */
  predicate Inserts(store: Store, fee: real, rid: Id, body: BidCreate, header: Header, fate: Fate) {
    && fate.arrives && Dispatch(fee, header).Forward? && body.Valid()
    && CreateCode(store, rid, fate.newId) == 201
  }

  /** One post: the transport, the middleware, the validation of the body, the route.  With a
      fee, nothing but an envelope that pays it gets a bid in or anything but a 402. */
  method PostBid(db: Database, fee: real, rid: Id, body: BidCreate, header: Header, fate: Fate) returns (answer: Answer)
    requires db.Valid()
    modifies db
    ensures db.Valid()
    ensures var inserts := Inserts(old(db.Contents()), fee, rid, body, header, fate);
            && db.Contents() == (if inserts
                                 then old(db.Contents()).(bids :=
                                   old(db.bids)[fate.newId := BidFrom(rid, body, Dispatch(fee, header).tx, fate)])
                                 else old(db.Contents()))
            && (answer.TransportError? <==> !(fate.arrives && fate.comesBack))
            && (answer.Response? ==> (inserts <==> answer.code < 400))
            && (answer.Response? ==> answer.id == if inserts then Some(fate.newId) else None)
            && (answer.Response? ==> (answer.code == 402 <==> !Dispatch(fee, header).Forward?))
            && (answer.Response? && Dispatch(fee, header).Quote? ==> answer.quote == Dispatch(fee, header).amount)
    ensures 0.0 < fee && !(header.Envelope? && PaysTheFee(fee, header.fields)) ==>
              && db.Contents() == old(db.Contents())
              && (answer.Response? ==> answer.code == 402)
              && (answer.Response? && header.Absent? ==> ParseInt(answer.quote) == Some(AtomicFee(fee)))
    ensures (fee <= 0.0 || (header.Envelope? && PaysTheFee(fee, header.fields))) && fate.arrives && body.Valid()
            && rid in old(db.requests) && old(db.requests)[rid].status == RequestOpen && fate.newId !in old(db.bids) ==>
              && fate.newId in db.bids
              && db.bids[fate.newId].feeTx == (if fee <= 0.0 then body.feeTx else Some(TxHash(header.fields)))
  {
    GateOverAnyHeader(fee, header);
    if !fate.arrives {
      return TransportError;
    }
    match Dispatch(fee, header) {
      case Quote(amount) =>
        answer := Response(402, amount, None);
      case Refuse =>
        answer := Response(402, "", None);
      case Forward(tx) =>
        if !body.Valid() {
          answer := Response(422, "", None);
        } else {
          var code := CreateBid(db, rid, body, tx, fate);
          answer := Response(code, "", if code == 201 then Some(fate.newId) else None);
        }
    }
    if !fate.comesBack {
      answer := TransportError;
    }
  }

  /** What the payer's envelope holds for a quote. */
  function FieldsFor(payer: Payer, quote: string, hash: string): Fields {
    if payer.WalletPayer? then CdpFields(quote, hash, payer.wallet) else StubFields(quote, hash, "payer")
  }

  /** `pay` of either payer on a quote of the fee: the fields of the envelope, or nothing when
      it raises.  The wallet's payer may still fail after its transfer landed, looking up its
      own address. */
  method PayQuote(network: Network, fee: real, quote: string, payTo: string, c: Circumstances)
    returns (fields: Option<Fields>)
    requires 0.0 < fee && quote == PrintInt(AtomicFee(fee)) && c.place == |network.log|
    modifies network
    ensures network.Contents() ==
            if c.Transfers(fee) then old(network.Contents()).With(Transfer(c.payer.wallet, payTo, AtomicFee(fee)))
            else old(network.Contents())
    ensures fields == match c.Returned(fee)
                      case None => None
                      case Some(hash) => Some(FieldsFor(c.payer, quote, hash))
  {
    ParsePrint(AtomicFee(fee));
    AtomicRoundTrip(AtomicFee(fee));
    match c.payer
    case NoPayer =>
      fields := None;
    case StubPayer(hash) =>
      fields := Some(StubFields(quote, hash, "payer"));
    case WalletPayer(wallet, addressKnown) =>
      var amount := ParseInt(quote);
      if amount.None? {
        return None;
      }
      var hash, ok := network.TransferUsdc(wallet, Payout(payTo, ToAtomic(ToUsdc(amount.value))), c.refused);
      fields := if ok && addressKnown then Some(CdpFields(quote, c.hashText(hash), wallet)) else None;
  }

  /** The gate lets a returned payment through exactly when its hash is well formed. */
  lemma PaymentIsAccepted(fee: real, payer: Payer, hash: string)
    requires 0.0 < fee
    ensures Dispatch(fee, Absent) == Quote(PrintInt(AtomicFee(fee)))
    ensures var gate := Dispatch(fee, Envelope(FieldsFor(payer, PrintInt(AtomicFee(fee)), hash)));
            if WellFormedHash(hash) then gate == Forward(Some(hash)) else gate == Refuse
  {
    var quote, name := PrintInt(AtomicFee(fee)), if payer.WalletPayer? then payer.wallet else "payer";
    QuotePayVerify(fee, hash, name);
    ParsePrint(AtomicFee(fee));
    assert FieldsFor(payer, quote, hash) == CdpFields(quote, hash, name);
  }

  /** The payer comes through with a payment the gate accepts. */
  predicate PaysAcceptably(fee: real, c: Circumstances) {
    c.Returned(fee).Some? && WellFormedHash(c.Returned(fee).value)
  }

  /** What follows a quote of the fee: the payer pays it and the bid is posted again. */
  method PayAndRetry(db: Database, network: Network, fee: real, rid: Id, body: BidCreate, quote: string,
                     payTo: string, c: Circumstances)
    returns (id: Option<Id>, posts: nat)
    requires db.Valid() && body.Valid() && c.place == |network.log|
    requires 0.0 < fee && quote == PrintInt(AtomicFee(fee))
    modifies db, network
    ensures db.Valid() && posts == if c.Returned(fee).Some? then 1 else 0
    ensures network.Contents() ==
            if c.Transfers(fee) then old(network.Contents()).With(Transfer(c.payer.wallet, payTo, AtomicFee(fee)))
            else old(network.Contents())
    ensures var filed := PaysAcceptably(fee, c) && c.second.arrives
                         && CreateCode(old(db.Contents()), rid, c.second.newId) == 201;
            && db.Contents() == (if filed
                                 then WithBid(old(db.Contents()), BidFrom(rid, body, c.Returned(fee), c.second))
                                 else old(db.Contents()))
            && (id.Some? ==> filed && id.value == c.second.newId)
            && (filed && c.second.comesBack ==> id == Some(c.second.newId))
  {
    id, posts := None, 0;
    var fields := PayQuote(network, fee, quote, payTo, c);
    if fields.Some? {
      PaymentIsAccepted(fee, c.payer, c.Returned(fee).value);
      var answer := PostBid(db, fee, rid, body, Envelope(fields.value), c.second);
      posts := 1;
      if answer.Response? && answer.code < 400 {
        id := answer.id;
      }
    }
  }

  function WithBid(store: Store, bid: Bid): Store {
    store.(bids := store.bids[bid.id := bid])
  }

  /** An approval that the bid's schema lets be built. */
  predicate Postable(lender: string, decision: Option<Decision>) {
    decision.Some? && decision.value.decision == Approve && BuildBidCreate(lender, decision.value).Valid()
  }

  /** The bid one whole evaluation files, if any: of an approval that can be posted, on a
      request that is open, posted once when there is no fee, else quoted, paid and posted
      again. */
  function FiledBid(store: Store, fee: real, lender: string, rid: Id, decision: Option<Decision>,
                    c: Circumstances): Option<Bid> {
    if !Postable(lender, decision) || !c.first.arrives then None
    else
      var body := BuildBidCreate(lender, decision.value);
      if fee <= 0.0 then
        if CreateCode(store, rid, c.first.newId) == 201 then Some(BidFrom(rid, body, None, c.first)) else None
      else if c.first.comesBack && PaysAcceptably(fee, c) && c.second.arrives
              && CreateCode(store, rid, c.second.newId) == 201 then
        Some(BidFrom(rid, body, c.Returned(fee), c.second))
      else None
  }

  /** The first post was answered with a quote. */
  predicate IsQuoted(fee: real, lender: string, decision: Option<Decision>, c: Circumstances) {
    Postable(lender, decision) && 0.0 < fee && c.first.arrives && c.first.comesBack
  }

  /** The fee is transferred: it was quoted, is worth an atomic unit, a wallet pays, and the
      network takes the transfer. */
  predicate PaysFee(fee: real, lender: string, decision: Option<Decision>, c: Circumstances) {
    IsQuoted(fee, lender, decision, c) && c.Transfers(fee)
  }

  /** How often the bid is posted. */
  function PostsMade(fee: real, lender: string, decision: Option<Decision>, c: Circumstances): nat {
    if !Postable(lender, decision) then 0
    else if IsQuoted(fee, lender, decision, c) && c.Returned(fee).Some? then 2
    else 1
  }

  /** The schemas never stand in the way of an underwritten approval: it is filed exactly
      when the posts arrive, the request is open and the fee, if any, is paid. */
  lemma UnderwrittenBidIsFiledExactly(store: Store, fee: real, lender: string, req: BidRequest, one: Reply, two: Reply,
                                      c: Circumstances)
    requires req.Valid() && (one.Some? ==> one.value.Faithful()) && (two.Some? ==> two.value.Faithful())
    requires c.first.newId !in store.bids && c.second.newId !in store.bids
    ensures var d := Evaluated(one, two, lender, req);
            FiledBid(store, fee, lender, req.id, d, c).Some? <==>
            && d.Some? && d.value.decision == Approve && c.first.arrives
            && req.id in store.requests && store.requests[req.id].status == RequestOpen
            && (fee <= 0.0 || (c.first.comesBack && c.second.arrives && PaysAcceptably(fee, c)))
  {
    if Evaluated(one, two, lender, req).Some? {
      EveryApprovalIsPostable(one, two, lender, req);
    }
  }

  /** A filed bid is the lender's decision, word for word, on the request it was made for. */
  lemma FiledBidCarriesDecision(store: Store, fee: real, lender: string, rid: Id, decision: Option<Decision>,
                                c: Circumstances)
    requires FiledBid(store, fee, lender, rid, decision, c).Some?
    ensures decision.Some? && decision.value.decision == Approve
    ensures var bid := FiledBid(store, fee, lender, rid, decision, c).value;
            && bid.package == decision.value && bid.lender == lender && bid.request == rid && bid.status == BidOpen
            && rid in store.requests && store.requests[rid].status == RequestOpen && bid.id !in store.bids
            && (fee <= 0.0 ==> bid.feeTx == None)
            && (0.0 < fee ==> bid.feeTx == c.Returned(fee) && bid.feeTx.Some? && WellFormedHash(bid.feeTx.value))
  {
  }

  /** When a payer returns a payment, and whose hash it is: the stub always, with its own; a
      wallet exactly when its transfer goes through and its address is known, with the hash
      of that transfer. */
  lemma PayersReturn(fee: real, c: Circumstances)
    ensures c.payer.NoPayer? ==> c.Returned(fee) == None
    ensures c.payer.StubPayer? ==> c.Returned(fee) == Some(c.payer.hash)
    ensures c.payer.WalletPayer? ==>
              && (c.Returned(fee).Some? <==> 1.0 <= fee && c.place !in c.refused && c.payer.addressKnown)
              && (c.Returned(fee).Some? ==> c.Returned(fee).value == c.hashText(c.place))
  {
  }

  /** `evaluate_and_bid`: a package that breaks a bound of the bid's schema raises before any
      post.  The posts, the transfer of the whole atomic units of the fee and the bid that
      the ledger gains are exactly those described above; the bid's identifier is returned
      only if the bid was filed. */
  method EvaluateAndBid(db: Database, network: Network, fee: real, lender: string, rid: Id,
                        decision: Option<Decision>, payTo: string, c: Circumstances)
    returns (id: Option<Id>, posts: nat)
    requires db.Valid() && c.place == |network.log|
    modifies db, network
    ensures db.Valid() && posts == PostsMade(fee, lender, decision, c)
    ensures network.Contents() ==
            if PaysFee(fee, lender, decision, c)
            then old(network.Contents()).With(Transfer(c.payer.wallet, payTo, AtomicFee(fee)))
            else old(network.Contents())
    ensures var filed := FiledBid(old(db.Contents()), fee, lender, rid, decision, c);
            && db.Contents() == (if filed.Some? then WithBid(old(db.Contents()), filed.value) else old(db.Contents()))
            && (id.Some? ==> filed.Some? && id.value == filed.value.id)
            && (filed.Some? && c.first.comesBack && c.second.comesBack ==> id == Some(filed.value.id))
  {
    id, posts := None, 0;
    if decision.None? || decision.value.decision != Approve {
      return;
    }
    var body := BuildBidCreate(lender, decision.value);
    if !body.Valid() {
      return;
    }
    var answer := PostBid(db, fee, rid, body, Absent, c.first);
    posts := 1;
    if answer.TransportError? {
      return;
    }
    if answer.code == 402 {
      PaymentIsAccepted(fee, c.payer, "");
      var again;
      id, again := PayAndRetry(db, network, fee, rid, body, answer.quote, payTo, c);
      posts := 1 + again;
    } else if answer.code < 400 {
      id := answer.id;
    }
  }
}
