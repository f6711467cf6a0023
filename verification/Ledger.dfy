/** marketplace/ledger.py: the store.  Every public function is one transaction. */
module Ledger {
  import opened Models

  /** The three tables.  Settlement rows are kept in the order they were inserted. */
  datatype Store = Store(
    requests: map<Id, BidRequest>,
    bids: map<Id, Bid>,
    settlements: seq<Settlement>)
  {
    function SetRequestStatus(rid: Id, status: RequestStatus): Store
      requires rid in requests
    {
      this.(requests := requests[rid := requests[rid].(status := status)])
    }

    function SetBidStatus(bid: Id, status: BidStatus): Store
      requires bid in bids
    {
      this.(bids := bids[bid := bids[bid].(status := status)])
    }

    predicate BidOf(bid: Id, rid: Id) {
      bid in bids && bids[bid].request == rid
    }

    ghost predicate Settled(rid: Id) {
      exists s :: s in settlements && s.request == rid
    }

    function SettlementsOf(rid: Id): seq<Settlement> {
      Matching(settlements, rid)
    }
  }

  function Matching(rows: seq<Settlement>, rid: Id): seq<Settlement> {
    if rows == [] then []
    else Matching(rows[..|rows| - 1], rid) + (if rows[|rows| - 1].request == rid then [rows[|rows| - 1]] else [])
  }

  lemma MatchingAfterInsert(rows: seq<Settlement>, s: Settlement, rid: Id)
    ensures Matching(rows + [s], rid) == Matching(rows, rid) + (if s.request == rid then [s] else [])
  {
    assert (rows + [s])[..|rows|] == rows;
  }

  lemma {:induction false} MatchingFinds(rows: seq<Settlement>, rid: Id)
    ensures forall s :: s in Matching(rows, rid) <==> s in rows && s.request == rid
  {
    if rows != [] {
      var init := rows[..|rows| - 1];
      MatchingFinds(init, rid);
      assert rows == init + [rows[|rows| - 1]];
    }
  }

  lemma {:induction false} NoneMatches(rows: seq<Settlement>, rid: Id)
    requires forall s :: s in rows ==> s.request != rid
    ensures Matching(rows, rid) == []
  {
    if rows != [] {
      assert rows[|rows| - 1] in rows;
      NoneMatches(rows[..|rows| - 1], rid);
    }
  }

  lemma {:induction false} TwoMatchesAreTwoRows(rows: seq<Settlement>, rid: Id) returns (i: nat, j: nat)
    requires 1 < |Matching(rows, rid)|
    ensures i < j < |rows| && rows[i].request == rid && rows[j].request == rid
  {
    var init, last := rows[..|rows| - 1], rows[|rows| - 1];
    if 1 < |Matching(init, rid)| {
      i, j := TwoMatchesAreTwoRows(init, rid);
    } else {
      var first := Matching(init, rid)[0];
      MatchingFinds(init, rid);
      i :| 0 <= i < |init| && init[i] == first;
      j := |rows| - 1;
    }
  }

  lemma {:induction false} TwoRowsAreTwoMatches(rows: seq<Settlement>, rid: Id, i: nat, j: nat)
    requires i < j < |rows| && rows[i].request == rid && rows[j].request == rid
    ensures 1 < |Matching(rows, rid)|
  {
    var init := rows[..|rows| - 1];
    if j < |rows| - 1 {
      TwoRowsAreTwoMatches(init, rid, i, j);
    } else {
      MatchingFinds(init, rid);
      assert init[i] in Matching(init, rid);
    }
  }

  /** What the query for a request's settlement can answer: the ORM raises when it finds
      several rows. */
  datatype Found = NoRow | OneRow(row: Settlement) | MultipleRows

  function GetSettlement(store: Store, rid: Id): Found {
    var rows := store.SettlementsOf(rid);
    if rows == [] then NoRow else if |rows| == 1 then OneRow(rows[0]) else MultipleRows
  }

  /** What the answer says about the rows: there is none of the request, there is only this
      one, or there are two different ones. */
  ghost predicate Answers(rows: seq<Settlement>, rid: Id, found: Found) {
    match found
    case NoRow => forall i :: 0 <= i < |rows| ==> rows[i].request != rid
    case OneRow(row) => exists i :: 0 <= i < |rows| && rows[i] == row && OnlyRowOf(rows, rid, i)
    case MultipleRows => exists i, j :: 0 <= i < j < |rows| && rows[i].request == rid && rows[j].request == rid
  }

  ghost predicate OnlyRowOf(rows: seq<Settlement>, rid: Id, i: nat)
    requires i < |rows|
  {
    forall j :: 0 <= j < |rows| ==> (rows[j].request == rid <==> j == i)
  }

  lemma SettlementAnswers(store: Store, rid: Id)
    ensures Answers(store.settlements, rid, GetSettlement(store, rid))
  {
    var rows, found := store.settlements, store.SettlementsOf(rid);
    MatchingFinds(rows, rid);
    if found == [] {
      forall i | 0 <= i < |rows|
        ensures rows[i].request != rid
      {
        assert rows[i] in rows;
      }
    } else if |found| == 1 {
      assert found[0] in found;
      var i: nat :| i < |rows| && rows[i] == found[0];
      forall j | 0 <= j < |rows| && rows[j].request == rid
        ensures j == i
      {
        if i < j {
          TwoRowsAreTwoMatches(rows, rid, i, j);
        } else if j < i {
          TwoRowsAreTwoMatches(rows, rid, j, i);
        }
      }
      assert OnlyRowOf(rows, rid, i);
    } else {
      var i, j := TwoMatchesAreTwoRows(rows, rid);
    }
  }

  /** An answer of the query for a request's bids: all of them, oldest first.  The database
      is free to order bids created at the same instant. */
  ghost predicate ListsBidsOf(store: Store, rid: Id, listed: seq<Bid>) {
    && (forall b :: b in listed <==> b.id in store.bids && store.bids[b.id] == b && b.request == rid)
    && DistinctBids(listed)
    && OldestFirst(listed)
  }

  /** The database.  Rows are keyed by their own identifier. */
  class Database {
    var requests: map<Id, BidRequest>
    var bids: map<Id, Bid>
    var settlements: seq<Settlement>

    ghost function Contents(): Store
      reads this
    {
      Store(requests, bids, settlements)
    }

    ghost predicate Valid()
      reads this
    {
      && (forall r :: r in requests ==> requests[r].id == r)
      && (forall b :: b in bids ==> bids[b].id == b)
    }

    constructor ()
      ensures Valid() && Contents() == Store(map[], map[], [])
    {
      requests, bids, settlements := map[], map[], [];
    }

    /** `save_request`: a taken identifier violates the primary key. */
    method SaveRequest(request: BidRequest) returns (ok: bool)
      requires Valid()
      modifies this
      ensures Valid() && ok == (request.id !in old(requests))
      ensures Contents() == if ok then old(Contents()).(requests := old(requests)[request.id := request])
                else old(Contents())
    {
      ok := request.id !in requests;
      if ok {
        requests := requests[request.id := request];
      }
    }

    method GetRequest(rid: Id) returns (r: Option<BidRequest>)
      ensures r == if rid in requests then Some(requests[rid]) else None
    {
      r := if rid in requests then Some(requests[rid]) else None;
    }

    /** `update_request_status` raises when the row is missing. */
    method UpdateRequestStatus(rid: Id, status: RequestStatus) returns (ok: bool)
      requires Valid()
      modifies this
      ensures Valid() && ok == (rid in old(requests))
      ensures Contents() == if ok then old(Contents()).SetRequestStatus(rid, status) else old(Contents())
    {
      ok := rid in requests;
      if ok {
        requests := requests[rid := requests[rid].(status := status)];
      }
    }

    method SaveBid(bid: Bid) returns (ok: bool)
      requires Valid()
      modifies this
      ensures Valid() && ok == (bid.id !in old(bids))
      ensures Contents() == if ok then old(Contents()).(bids := old(bids)[bid.id := bid]) else old(Contents())
    {
      ok := bid.id !in bids;
      if ok {
        bids := bids[bid.id := bid];
      }
    }

    method GetBid(id: Id) returns (b: Option<Bid>)
      ensures b == if id in bids then Some(bids[id]) else None
    {
      b := if id in bids then Some(bids[id]) else None;
    }

    method UpdateBidStatus(id: Id, status: BidStatus) returns (ok: bool)
      requires Valid()
      modifies this
      ensures Valid() && ok == (id in old(bids))
      ensures Contents() == if ok then old(Contents()).SetBidStatus(id, status) else old(Contents())
    {
      ok := id in bids;
      if ok {
        bids := bids[id := bids[id].(status := status)];
      }
    }

    /** `list_bids_for_request`: the request's bids, oldest first. */
    method ListBidsForRequest(rid: Id) returns (listed: seq<Bid>)
      requires Valid()
      ensures ListsBidsOf(Contents(), rid, listed)
    {
      listed := [];
      var rest := bids.Keys;
      while rest != {}
        invariant rest <= bids.Keys
        invariant forall b :: b in listed <==> b.id in bids && b.id !in rest && bids[b.id] == b && b.request == rid
        invariant DistinctBids(listed) && OldestFirst(listed)
        decreases |rest|
      {
        var id :| id in rest;
        rest := rest - {id};
        if bids[id].request == rid {
          InsertByAgeKeepsOrder(bids[id], listed);
          listed := InsertByAge(bids[id], listed);
        }
      }
    }

    method SaveSettlement(row: Settlement)
      requires Valid()
      modifies this
      ensures Valid() && Contents() == old(Contents()).(settlements := old(settlements) + [row])
    {
      settlements := settlements + [row];
    }

    method GetSettlementForRequest(rid: Id) returns (found: Found)
      ensures Answers(settlements, rid, found) && found == GetSettlement(Contents(), rid)
    {
      SettlementAnswers(Contents(), rid);
      var rows := Matching(settlements, rid);
      found := if rows == [] then NoRow else if |rows| == 1 then OneRow(rows[0]) else MultipleRows;
    }
  }

  predicate OldestFirst(listed: seq<Bid>) {
    forall i, j :: 0 <= i < j < |listed| ==> listed[i].createdAt <= listed[j].createdAt
  }

  predicate DistinctBids(listed: seq<Bid>) {
    forall i, j :: 0 <= i < j < |listed| ==> listed[i].id != listed[j].id
  }

  /** Puts a bid behind every listed bid that is no younger. */
  function InsertByAge(bid: Bid, listed: seq<Bid>): (r: seq<Bid>)
    ensures forall b :: b in r <==> b == bid || b in listed
  {
    if listed == [] then [bid]
    else if bid.createdAt < listed[0].createdAt then [bid] + listed
    else
      assert forall b :: b in listed <==> b == listed[0] || b in listed[1..];
      [listed[0]] + InsertByAge(bid, listed[1..])
  }

  lemma {:induction false} InsertByAgeKeepsOrder(bid: Bid, listed: seq<Bid>)
    requires OldestFirst(listed) && DistinctBids(listed)
    requires forall b :: b in listed ==> b.id != bid.id
    ensures OldestFirst(InsertByAge(bid, listed)) && DistinctBids(InsertByAge(bid, listed))
  {
    if listed != [] && listed[0].createdAt <= bid.createdAt {
      InsertByAgeKeepsOrder(bid, listed[1..]);
      var r := InsertByAge(bid, listed);
      forall j | 0 < j < |r|
        ensures listed[0].createdAt <= r[j].createdAt && listed[0].id != r[j].id
      {
        assert r[j] in InsertByAge(bid, listed[1..]);
      }
    }
  }
}
