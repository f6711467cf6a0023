/** shared/models.py: the domain entities and the bounds their schemas enforce.

    Identifiers (UUIDs) and clock readings are numbers; money is in micro-USDC.  An amount
    read from the ledger is a whole number of micro-USDC (the columns are Numeric(18,6));
    an amount a model proposes is an arbitrary decimal, hence a real.
  */
module Models {
  type Id = nat

  datatype Option<+T> = None | Some(value: T)

  datatype VehicleType = New | Used | Ev

  datatype RequestStatus = RequestOpen | FundedPending | Closed

  datatype BidStatus = BidOpen | Accepted | Lost

  datatype DecisionType = Approve | Decline | Counter

  datatype BidRequest = BidRequest(
    id: Id,
    dealerId: string,
    fico: int,
    loan: int,
    vehicle: VehicleType,
    term: int,
    state: string,
    reserveBps: int,
    createdAt: int,
    status: RequestStatus)
  {
    predicate Valid() {
      && 300 <= fico <= 850
      && 1 <= loan
      && 12 <= term <= 84
      && |state| == 2
      && -500 <= reserveBps <= 500
    }
  }

  /** The strict-JSON answer of the underwriter. */
  datatype Decision = Decision(
    decision: DecisionType,
    aprBps: int,
    term: int,
    maxAmount: real,
    maxLtvBps: int,
    cashDown: real,
    reserveBps: int,
    stipulations: seq<string>,
    confidence: real,
    rationale: string)
  {
    /** What validation enforces: the amount may be zero. */
    predicate Valid() {
      && 0 <= aprBps <= 10_000
      && 12 <= term <= 120
      && 0.0 <= maxAmount
      && 0 <= maxLtvBps <= 20_000
      && 0.0 <= cashDown
      && -500 <= reserveBps <= 500
      && 0.0 <= confidence <= 1.0
    }
  }

  /** The pricing package a lender posts. */
  datatype BidCreate = BidCreate(lender: string, package: Decision, feeTx: Option<string>)
  {
    /** The bid schemas want a strictly positive amount. */
    predicate Valid() {
      package.Valid() && 0.0 < package.maxAmount
    }
  }

  datatype Bid = Bid(
    id: Id,
    request: Id,
    lender: string,
    package: Decision,
    feeTx: Option<string>,
    createdAt: int,
    status: BidStatus)

  /** `dealerTx`, `marketplaceTx` and `reserveTx` stand for transaction hashes: each is
      the place of its transfer on the chain. */
  datatype Settlement = Settlement(
    id: Id,
    request: Id,
    winningBid: Id,
    dealerTx: nat,
    marketplaceTx: nat,
    reserveTx: nat)
}
