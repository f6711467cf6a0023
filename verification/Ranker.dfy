/** marketplace/ranker.py and `list_bids` of marketplace/routes/bids.py: the latest bid of
    each lender, ranked by a composite score. */
module Ranker {
  import opened Models
  import opened Ledger

  // ----- scoring -----

  /** Reputations set so far; a lender without one is perfect. */
  type Reputations = map<string, real>

  function ReputationOf(reputations: Reputations, lender: string): real {
    if lender in reputations then reputations[lender] else 1.0
  }

  class ReputationBook {
    var reputations: Reputations

    constructor ()
      ensures reputations == map[]
    {
      reputations := map[];
    }

    /** `set_reputation`: kept between zero and one. */
    method SetReputation(lender: string, value: real)
      modifies this
      ensures reputations == old(reputations)[lender := ReputationOf(reputations, lender)]
      ensures 0.0 <= ReputationOf(reputations, lender) <= 1.0
      ensures 0.0 <= value <= 1.0 ==> ReputationOf(reputations, lender) == value
      ensures value < 0.0 ==> ReputationOf(reputations, lender) == 0.0
      ensures 1.0 < value ==> ReputationOf(reputations, lender) == 1.0
    {
      var most := if value < 1.0 then value else 1.0;
      reputations := reputations[lender := if 0.0 < most then most else 0.0];
    }
  }

  /** Lower is better; roughly basis points.  The cash down is stored in micro-USDC. */
  function Score(bid: Bid, reputation: real): real {
    var p := bid.package;
    p.aprBps as real
    + p.cashDown / 1000000.0 * 0.001
    + (|p.stipulations| * 50) as real
    - p.reserveBps as real * 0.5
    + (1.0 - p.confidence) * 100.0
    + (1.0 - reputation) * 200.0
  }

  datatype Scored = Scored(bid: Bid, score: real)

  function ScoreAll(bids: seq<Bid>, reputations: Reputations): (r: seq<Scored>)
    ensures |r| == |bids|
    ensures forall i :: 0 <= i < |bids| ==>
              r[i] == Scored(bids[i], Score(bids[i], ReputationOf(reputations, bids[i].lender)))
  {
    if bids == [] then []
    else [Scored(bids[0], Score(bids[0], ReputationOf(reputations, bids[0].lender)))] + ScoreAll(bids[1..], reputations)
  }

  // ----- ranking -----

  /** Strictly ahead: a lower score, or the same score and an earlier bid. */
  predicate Ahead(x: Scored, y: Scored) {
    x.score < y.score || (x.score == y.score && x.bid.createdAt < y.bid.createdAt)
  }

  predicate SameKey(x: Scored, y: Scored) {
    x.score == y.score && x.bid.createdAt == y.bid.createdAt
  }

  function Insert(x: Scored, ys: seq<Scored>): seq<Scored> {
    if ys == [] then [x]
    else if Ahead(ys[0], x) then [ys[0]] + Insert(x, ys[1..])
    else [x] + ys
  }

  /** The stable sort of `rank_bids`. */
  function Ranked(xs: seq<Scored>): seq<Scored> {
    if xs == [] then [] else Insert(xs[0], Ranked(xs[1..]))
  }

  function RankBids(bids: seq<Bid>, reputations: Reputations): seq<Scored> {
    Ranked(ScoreAll(bids, reputations))
  }

  // ----- the latest bid of each lender -----

  /** The place of a lender's entry in an insertion-ordered dictionary, or its length. */
  function PlaceOf(entries: seq<Bid>, lender: string): (p: nat)
    ensures p <= |entries|
    ensures p < |entries| ==> entries[p].lender == lender
    ensures forall i :: 0 <= i < p ==> entries[i].lender != lender
  {
    if entries == [] || entries[0].lender == lender then 0 else 1 + PlaceOf(entries[1..], lender)
  }

  /** One turn of the loop: a first bid is appended, a later one replaces its lender's entry
      in place. */
  function Noted(entries: seq<Bid>, bid: Bid): seq<Bid> {
    var p := PlaceOf(entries, bid.lender);
    if p == |entries| then entries + [bid]
    else if entries[p].createdAt <= bid.createdAt then entries[p := bid]
    else entries
  }

  function LatestPerLender(bids: seq<Bid>): seq<Bid> {
    if bids == [] then [] else Noted(LatestPerLender(bids[..|bids| - 1]), bids[|bids| - 1])
  }

  /** What `list_bids` shows, given the bids the ledger lists. */
  function Listing(bids: seq<Bid>, reputations: Reputations): seq<Scored> {
    RankBids(LatestPerLender(bids), reputations)
  }

  /** `list_bids` of the route. */
  method ListBids(db: Database, book: ReputationBook, rid: Id)
    returns (found: bool, ranked: seq<Scored>, ghost listed: seq<Bid>)
    requires db.Valid()
    ensures found == (rid in db.requests)
    ensures found ==> ListsBidsOf(db.Contents(), rid, listed) && ranked == Listing(listed, book.reputations)
  {
    ranked, listed := [], [];
    var request := db.GetRequest(rid);
    if request.None? {
      return false, [], [];
    }
    var bids := db.ListBidsForRequest(rid);
    var latest: seq<Bid> := [];
    for i := 0 to |bids|
      invariant latest == LatestPerLender(bids[..i])
    {
      var bid := bids[i];
      var p := PlaceOf(latest, bid.lender);
      if p == |latest| {
        latest := latest + [bid];
      } else if bid.createdAt >= latest[p].createdAt {
        latest := latest[p := bid];
      }
      assert bids[..i + 1][..i] == bids[..i];
    }
    assert bids[..|bids|] == bids;
    return true, RankBids(latest, book.reputations), bids;
  }
}
