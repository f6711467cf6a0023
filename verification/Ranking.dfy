/** What the listing of bids guarantees. */
module Ranking {
  import opened Models
  import opened Ledger
  import opened Ranker
  import SettleRoute

  // ----- the sort -----

  predicate InOrder(ys: seq<Scored>) {
    forall i, j :: 0 <= i < j < |ys| ==> !Ahead(ys[j], ys[i])
  }

  /** The entries that tie with `k`, in order. */
  function TiesOf(xs: seq<Scored>, k: Scored): seq<Scored> {
    if xs == [] then []
    else (if SameKey(xs[0], k) then [xs[0]] else []) + TiesOf(xs[1..], k)
  }

  /** In order, with the entries of every key exactly those of `xs` in the order of `xs`. */
  ghost predicate StablySorted(ys: seq<Scored>, xs: seq<Scored>) {
    InOrder(ys) && forall k :: TiesOf(ys, k) == TiesOf(xs, k)
  }

  lemma {:induction false} InsertMembers(x: Scored, ys: seq<Scored>)
    ensures forall y :: y in Insert(x, ys) <==> y == x || y in ys
  {
    if ys != [] && Ahead(ys[0], x) {
      InsertMembers(x, ys[1..]);
      assert forall y :: y in ys <==> y == ys[0] || y in ys[1..];
    }
  }

  lemma {:induction false} InsertKeepsOrder(x: Scored, ys: seq<Scored>)
    requires InOrder(ys)
    ensures InOrder(Insert(x, ys))
  {
    if ys != [] && Ahead(ys[0], x) {
      InsertKeepsOrder(x, ys[1..]);
      InsertMembers(x, ys[1..]);
      var rest := Insert(x, ys[1..]);
      forall j | 0 <= j < |rest|
        ensures !Ahead(rest[j], ys[0])
      {
        assert rest[j] in rest;
      }
    }
  }

  lemma {:induction false} InsertKeepsTies(x: Scored, ys: seq<Scored>, k: Scored)
    ensures TiesOf(Insert(x, ys), k) == TiesOf([x] + ys, k)
  {
    assert ([x] + ys)[1..] == ys;
    if ys != [] && Ahead(ys[0], x) {
      InsertKeepsTies(x, ys[1..], k);
      assert ([ys[0]] + Insert(x, ys[1..]))[1..] == Insert(x, ys[1..]);
      assert ([x] + ys[1..])[1..] == ys[1..];
    }
  }

  /** Ranking keeps every entry, puts them in order and ties in the order they came in. */
  lemma {:induction false} RankedIsStablySorted(xs: seq<Scored>)
    ensures StablySorted(Ranked(xs), xs)
  {
    if xs != [] {
      RankedIsStablySorted(xs[1..]);
      forall k
        ensures TiesOf(Ranked(xs), k) == TiesOf(xs, k)
      {
        var ys := Ranked(xs[1..]);
        InsertKeepsTies(xs[0], ys, k);
        assert ([xs[0]] + ys)[1..] == ys;
        assert TiesOf(ys, k) == TiesOf(xs[1..], k);
      }
      InsertKeepsOrder(xs[0], Ranked(xs[1..]));
    }
  }

  lemma {:induction false} MemberTies(xs: seq<Scored>, k: Scored)
    ensures TiesOf(xs, k) != [] ==> exists i :: 0 <= i < |xs| && SameKey(xs[i], k)
    ensures forall i :: 0 <= i < |xs| && SameKey(xs[i], k) ==> TiesOf(xs, k) != []
  {
    if xs != [] {
      MemberTies(xs[1..], k);
      if i :| 0 <= i < |xs[1..]| && SameKey(xs[1..][i], k) {
        assert SameKey(xs[i + 1], k);
      }
      forall i | 0 <= i < |xs| && SameKey(xs[i], k)
        ensures TiesOf(xs, k) != []
      {
        if i > 0 {
          assert SameKey(xs[1..][i - 1], k);
        }
      }
    }
  }

  lemma TiesOfTail(xs: seq<Scored>, k: Scored)
    requires xs != []
    ensures TiesOf(xs[1..], k) == if SameKey(xs[0], k) then TiesOf(xs, k)[1..] else TiesOf(xs, k)
  {
  }

  /** Nothing else is a stable sort: two orderings that are in order and keep the same ties
      are the same. */
  lemma {:induction false} StableSortIsUnique(ys: seq<Scored>, zs: seq<Scored>)
    requires InOrder(ys) && InOrder(zs)
    requires forall k :: TiesOf(ys, k) == TiesOf(zs, k)
    ensures ys == zs
  {
    if ys != [] {
      HeadTies(ys, zs);
    }
    if zs != [] {
      HeadTies(zs, ys);
    }
    if ys != [] {
      var k0 := ys[0];
      assert SameKey(zs[0], k0);
      assert ys[0] == TiesOf(ys, k0)[0] == TiesOf(zs, k0)[0] == zs[0];
      forall k
        ensures TiesOf(ys[1..], k) == TiesOf(zs[1..], k)
      {
        TiesOfTail(ys, k);
        TiesOfTail(zs, k);
        assert TiesOf(ys, k) == TiesOf(zs, k);
      }
      StableSortIsUnique(ys[1..], zs[1..]);
      assert ys == [ys[0]] + ys[1..] && zs == [zs[0]] + zs[1..];
    }
  }

  /** The first entry of one has a tie in the other, so nothing there is behind it ... first. */
  lemma HeadTies(ys: seq<Scored>, zs: seq<Scored>)
    requires ys != [] && InOrder(zs)
    requires forall k :: TiesOf(ys, k) == TiesOf(zs, k)
    ensures zs != [] && !Ahead(ys[0], zs[0])
  {
    MemberTies(ys, ys[0]);
    assert SameKey(ys[0], ys[0]);
    assert TiesOf(zs, ys[0]) != [];
    MemberTies(zs, ys[0]);
  }

  // ----- one bid per lender -----

  predicate OnePerLender(entries: seq<Bid>) {
    forall p, q :: 0 <= p < q < |entries| ==> entries[p].lender != entries[q].lender
  }

  /** The last of a lender's bids. */
  ghost predicate LastOfLender(bids: seq<Bid>, bid: Bid) {
    exists i :: 0 <= i < |bids| && bids[i] == bid && forall j :: i < j < |bids| ==> bids[j].lender != bid.lender
  }

  /** The simple reading of the loop: for each lender with a bid, the last one; lenders in
      the order of their first bids. */
  ghost predicate LatestOnly(bids: seq<Bid>, entries: seq<Bid>) {
    && OnePerLender(entries)
    && (forall p :: 0 <= p < |entries| ==> LastOfLender(bids, entries[p]))
    && (forall i :: 0 <= i < |bids| ==> PlaceOf(entries, bids[i].lender) < |entries|)
    && (forall p, q :: 0 <= p < q < |entries| ==> PlaceOf(bids, entries[p].lender) < PlaceOf(bids, entries[q].lender))
  }

  lemma {:induction false} PlaceOfAppend(entries: seq<Bid>, bid: Bid, lender: string)
    ensures PlaceOf(entries + [bid], lender) ==
            if PlaceOf(entries, lender) < |entries| then PlaceOf(entries, lender)
            else if bid.lender == lender then |entries| else |entries| + 1
  {
    if entries == [] {
      assert [bid][1..] == [];
    } else if entries[0].lender != lender {
      PlaceOfAppend(entries[1..], bid, lender);
      assert (entries + [bid])[1..] == entries[1..] + [bid];
    }
  }

  lemma {:induction false} PlaceOfReplaced(entries: seq<Bid>, bid: Bid, p: nat, lender: string)
    requires p < |entries| && entries[p].lender == bid.lender
    ensures PlaceOf(entries[p := bid], lender) == PlaceOf(entries, lender)
  {
    if p > 0 && entries[0].lender != lender {
      PlaceOfReplaced(entries[1..], bid, p - 1, lender);
      assert entries[p := bid][1..] == entries[1..][p - 1 := bid];
    } else {
      assert entries[p := bid][1..] == if p == 0 then entries[1..] else entries[1..][p - 1 := bid];
    }
  }

  lemma EntriesAreOld(bids: seq<Bid>, entries: seq<Bid>, bid: Bid, p: nat)
    requires OldestFirst(bids + [bid]) && LatestOnly(bids, entries) && p < |entries|
    ensures entries[p].createdAt <= bid.createdAt
  {
    assert LastOfLender(bids, entries[p]);
    var i :| 0 <= i < |bids| && bids[i] == entries[p];
    assert (bids + [bid])[i] == entries[p] && (bids + [bid])[|bids|] == bid;
  }

  lemma EntryHasFirstBid(bids: seq<Bid>, entries: seq<Bid>, q: nat)
    requires LatestOnly(bids, entries) && q < |entries|
    ensures PlaceOf(bids, entries[q].lender) < |bids|
  {
    assert LastOfLender(bids, entries[q]);
  }

  lemma LastStaysLast(bids: seq<Bid>, bid: Bid, e: Bid)
    requires LastOfLender(bids, e) && bid.lender != e.lender
    ensures LastOfLender(bids + [bid], e)
  {
    var i :| 0 <= i < |bids| && bids[i] == e && forall j :: i < j < |bids| ==> bids[j].lender != e.lender;
    assert (bids + [bid])[i] == e;
  }

  lemma NewestIsLast(bids: seq<Bid>, bid: Bid)
    ensures LastOfLender(bids + [bid], bid)
  {
    assert (bids + [bid])[|bids|] == bid;
  }

  lemma NotedKeepsLast(bids: seq<Bid>, entries: seq<Bid>, bid: Bid, q: nat)
    requires OldestFirst(bids + [bid]) && LatestOnly(bids, entries) && q < |Noted(entries, bid)|
    ensures LastOfLender(bids + [bid], Noted(entries, bid)[q])
  {
    var p := PlaceOf(entries, bid.lender);
    if p < |entries| {
      EntriesAreOld(bids, entries, bid, p);
    }
    if q == p {
      NewestIsLast(bids, bid);
    } else {
      LastStaysLast(bids, bid, entries[q]);
    }
  }

  lemma NotedCovers(bids: seq<Bid>, entries: seq<Bid>, bid: Bid, i: nat)
    requires LatestOnly(bids, entries) && i <= |bids|
    ensures PlaceOf(Noted(entries, bid), (bids + [bid])[i].lender) < |Noted(entries, bid)|
  {
    var lender, p := (bids + [bid])[i].lender, PlaceOf(entries, bid.lender);
    if p < |entries| {
      PlaceOfReplaced(entries, bid, p, lender);
    } else {
      PlaceOfAppend(entries, bid, lender);
    }
    assert i < |bids| ==> PlaceOf(entries, bids[i].lender) < |entries|;
  }

  /** Noting a bid changes no lender's place, except that a new lender comes last. */
  lemma NotedLenders(entries: seq<Bid>, bid: Bid, q: nat)
    requires q < |Noted(entries, bid)|
    ensures q < |entries| ==> Noted(entries, bid)[q].lender == entries[q].lender
    ensures q == |entries| ==> Noted(entries, bid)[q].lender == bid.lender && PlaceOf(entries, bid.lender) == |entries|
    ensures q <= |entries|
  {
  }

  lemma NewLenderHasNoBid(bids: seq<Bid>, entries: seq<Bid>, lender: string)
    requires LatestOnly(bids, entries) && PlaceOf(entries, lender) == |entries|
    ensures PlaceOf(bids, lender) == |bids|
  {
    assert forall i :: 0 <= i < |bids| ==> bids[i].lender != lender;
  }

  lemma FirstBidsInOrder(bids: seq<Bid>, entries: seq<Bid>, q: nat, r: nat)
    requires LatestOnly(bids, entries) && q < r < |entries|
    ensures PlaceOf(bids, entries[q].lender) < PlaceOf(bids, entries[r].lender) < |bids|
  {
    EntryHasFirstBid(bids, entries, r);
  }

  lemma NotedKeepsOrder(bids: seq<Bid>, entries: seq<Bid>, bid: Bid, q: nat, r: nat)
    requires LatestOnly(bids, entries) && q < r < |Noted(entries, bid)|
    ensures var lenders := Noted(entries, bid);
            PlaceOf(bids + [bid], lenders[q].lender) < PlaceOf(bids + [bid], lenders[r].lender)
  {
    NotedLenders(entries, bid, q);
    NotedLenders(entries, bid, r);
    EntryHasFirstBid(bids, entries, q);
    PlaceOfAppend(bids, bid, entries[q].lender);
    if r < |entries| {
      FirstBidsInOrder(bids, entries, q, r);
      PlaceOfAppend(bids, bid, entries[r].lender);
    } else {
      NewLenderHasNoBid(bids, entries, bid.lender);
      PlaceOfAppend(bids, bid, bid.lender);
    }
  }

  lemma NotedKeepsOne(entries: seq<Bid>, bid: Bid)
    requires OnePerLender(entries)
    ensures OnePerLender(Noted(entries, bid))
  {
  }

  /** One turn of the loop keeps the simple reading. */
  lemma NotedKeepsLatest(bids: seq<Bid>, entries: seq<Bid>, bid: Bid)
    requires OldestFirst(bids + [bid]) && LatestOnly(bids, entries)
    ensures LatestOnly(bids + [bid], Noted(entries, bid))
  {
    var bids', entries' := bids + [bid], Noted(entries, bid);
    NotedKeepsOne(entries, bid);
    forall q | 0 <= q < |entries'|
      ensures LastOfLender(bids', entries'[q])
    {
      NotedKeepsLast(bids, entries, bid, q);
    }
    forall i | 0 <= i < |bids'|
      ensures PlaceOf(entries', bids'[i].lender) < |entries'|
    {
      NotedCovers(bids, entries, bid, i);
    }
    forall q, r | 0 <= q < r < |entries'|
      ensures PlaceOf(bids', entries'[q].lender) < PlaceOf(bids', entries'[r].lender)
    {
      NotedKeepsOrder(bids, entries, bid, q, r);
    }
  }

  /** The dictionary loop computes the simple reading, for any list the ledger may give. */
  lemma {:induction false} LoopKeepsLatestOnly(bids: seq<Bid>)
    requires OldestFirst(bids)
    ensures LatestOnly(bids, LatestPerLender(bids))
  {
    if bids != [] {
      var init := bids[..|bids| - 1];
      LoopKeepsLatestOnly(init);
      assert init + [bids[|bids| - 1]] == bids;
      NotedKeepsLatest(init, LatestPerLender(init), bids[|bids| - 1]);
    }
  }

  /** `list_bids` refines its simple reading: exactly the last bid of every lender that has
      one, by score, then age, remaining ties in the order of the lenders' first bids -- and
      nothing else does. */
  lemma ListingRefinesSpec(bids: seq<Bid>, reputations: Reputations, other: seq<Scored>)
    requires OldestFirst(bids)
    ensures var latest := LatestPerLender(bids);
            && LatestOnly(bids, latest)
            && StablySorted(Listing(bids, reputations), ScoreAll(latest, reputations))
            && (StablySorted(other, ScoreAll(latest, reputations)) ==> other == Listing(bids, reputations))
  {
    LoopKeepsLatestOnly(bids);
    var xs := ScoreAll(LatestPerLender(bids), reputations);
    RankedIsStablySorted(xs);
    if StablySorted(other, xs) {
      StableSortIsUnique(other, Ranked(xs));
    }
  }

  // ----- a new bid -----

  /** A listing without one lender's entries. */
  function Others(xs: seq<Scored>, lender: string): seq<Scored> {
    if xs == [] then []
    else if xs[0].bid.lender == lender then Others(xs[1..], lender)
    else [xs[0]] + Others(xs[1..], lender)
  }

  function OtherBids(entries: seq<Bid>, lender: string): seq<Bid> {
    if entries == [] then []
    else if entries[0].lender == lender then OtherBids(entries[1..], lender)
    else [entries[0]] + OtherBids(entries[1..], lender)
  }

  lemma OthersCons(x: Scored, ys: seq<Scored>, lender: string)
    ensures Others([x] + ys, lender) ==
            if x.bid.lender == lender then Others(ys, lender) else [x] + Others(ys, lender)
  {
    assert ([x] + ys)[1..] == ys;
  }

  /** In front of entries that are all no better, an entry goes first. */
  lemma InsertsFirst(x: Scored, ys: seq<Scored>)
    requires ys != [] ==> !Ahead(ys[0], x)
    ensures Insert(x, ys) == [x] + ys
  {
  }

  lemma {:induction false} OthersHeads(ys: seq<Scored>, x: Scored, lender: string)
    requires forall j :: 0 <= j < |ys| ==> !Ahead(ys[j], x)
    ensures Others(ys, lender) != [] ==> !Ahead(Others(ys, lender)[0], x)
  {
    if ys != [] && ys[0].bid.lender == lender {
      OthersHeads(ys[1..], x, lender);
    }
  }

  lemma {:induction false} InsertAmongOthers(x: Scored, ys: seq<Scored>, lender: string)
    requires InOrder(ys)
    ensures Others(Insert(x, ys), lender) ==
            if x.bid.lender == lender then Others(ys, lender) else Insert(x, Others(ys, lender))
  {
    if ys == [] {
      OthersCons(x, [], lender);
      assert [x] + [] == [x];
    } else if Ahead(ys[0], x) {
      InsertAmongOthers(x, ys[1..], lender);
      OthersCons(ys[0], Insert(x, ys[1..]), lender);
      InsertBehind(x, ys[0], Others(ys[1..], lender));
    } else {
      NoneAhead(x, ys);
      OthersCons(x, ys, lender);
      OthersHeads(ys, x, lender);
      InsertsFirst(x, Others(ys, lender));
    }
  }

  lemma InsertBehind(x: Scored, y: Scored, ys: seq<Scored>)
    requires Ahead(y, x)
    ensures Insert(x, [y] + ys) == [y] + Insert(x, ys)
  {
    assert ([y] + ys)[1..] == ys;
  }

  lemma NoneAhead(x: Scored, ys: seq<Scored>)
    requires InOrder(ys) && ys != [] && !Ahead(ys[0], x)
    ensures forall j :: 0 <= j < |ys| ==> !Ahead(ys[j], x)
  {
    forall j | 0 <= j < |ys|
      ensures !Ahead(ys[j], x)
    {
      assert j > 0 ==> !Ahead(ys[j], ys[0]);
    }
  }

  /** Ranking and leaving a lender out can be done in either order. */
  lemma {:induction false} RankingOthers(xs: seq<Scored>, lender: string)
    ensures Others(Ranked(xs), lender) == Ranked(Others(xs, lender))
  {
    if xs != [] {
      RankingOthers(xs[1..], lender);
      RankedIsStablySorted(xs[1..]);
      InsertAmongOthers(xs[0], Ranked(xs[1..]), lender);
      if xs[0].bid.lender != lender {
        var others := Others(xs, lender);
        assert others[0] == xs[0] && others[1..] == Others(xs[1..], lender);
      }
    }
  }

  lemma {:induction false} ScoringOthers(entries: seq<Bid>, reputations: Reputations, lender: string)
    ensures Others(ScoreAll(entries, reputations), lender) == ScoreAll(OtherBids(entries, lender), reputations)
  {
    if entries != [] {
      ScoringOthers(entries[1..], reputations, lender);
      assert ScoreAll(entries, reputations)[1..] == ScoreAll(entries[1..], reputations);
      if entries[0].lender != lender {
        assert OtherBids(entries, lender)[1..] == OtherBids(entries[1..], lender);
      }
    }
  }

  lemma {:induction false} NotedLeavesOthers(entries: seq<Bid>, bid: Bid)
    ensures OtherBids(Noted(entries, bid), bid.lender) == OtherBids(entries, bid.lender)
  {
    if entries == [] {
      assert [bid][1..] == [];
    } else if entries[0].lender != bid.lender {
      NotedLeavesOthers(entries[1..], bid);
      assert Noted(entries, bid) == [entries[0]] + Noted(entries[1..], bid);
      assert Noted(entries, bid)[1..] == Noted(entries[1..], bid);
    } else {
      assert Noted(entries, bid)[1..] == entries[1..];
    }
  }

  /** A new bid of one lender leaves the listing of all the others exactly as it was. */
  lemma NewBidLeavesOthers(bids: seq<Bid>, bid: Bid, reputations: Reputations)
    ensures Others(Listing(bids + [bid], reputations), bid.lender) == Others(Listing(bids, reputations), bid.lender)
  {
    var before, after := LatestPerLender(bids), LatestPerLender(bids + [bid]);
    assert (bids + [bid])[..|bids|] == bids;
    RankingOthers(ScoreAll(before, reputations), bid.lender);
    RankingOthers(ScoreAll(after, reputations), bid.lender);
    ScoringOthers(before, reputations, bid.lender);
    ScoringOthers(after, reputations, bid.lender);
    NotedLeavesOthers(before, bid);
  }

  /** How many entries stand before a lender's. */
  function Position(xs: seq<Scored>, lender: string): (p: nat)
    ensures p <= |xs|
    ensures p < |xs| ==> xs[p].bid.lender == lender
    ensures forall i :: 0 <= i < p ==> xs[i].bid.lender != lender
  {
    if xs == [] || xs[0].bid.lender == lender then 0 else 1 + Position(xs[1..], lender)
  }

  lemma {:induction false} OthersOfNone(xs: seq<Scored>, lender: string)
    requires forall i :: 0 <= i < |xs| ==> xs[i].bid.lender != lender
    ensures Others(xs, lender) == xs
  {
    if xs != [] {
      OthersOfNone(xs[1..], lender);
    }
  }

  lemma {:induction false} OthersAround(xs: seq<Scored>, p: nat, lender: string)
    requires p < |xs|
    requires forall i :: 0 <= i < |xs| ==> (xs[i].bid.lender == lender <==> i == p)
    ensures Others(xs, lender) == xs[..p] + xs[p + 1..]
  {
    if p == 0 {
      OthersOfNone(xs[1..], lender);
    } else {
      OthersAround(xs[1..], p - 1, lender);
      assert xs[1..][..p - 1] == xs[1..p] && xs[1..][p..] == xs[p + 1..];
    }
  }

  /** In two ordered listings that agree on everybody else, the entry that stands later has
      no lower score. */
  lemma LaterEntryScoresNoLower(xs: seq<Scored>, ys: seq<Scored>, lender: string, p: nat, q: nat)
    requires InOrder(xs) && InOrder(ys) && Others(xs, lender) == Others(ys, lender)
    requires p < |xs| && forall i :: 0 <= i < |xs| ==> (xs[i].bid.lender == lender <==> i == p)
    requires q < |ys| && forall i :: 0 <= i < |ys| ==> (ys[i].bid.lender == lender <==> i == q)
    requires p < q
    ensures xs[p].score <= ys[q].score
  {
    OthersAround(xs, p, lender);
    OthersAround(ys, q, lender);
    var others := Others(xs, lender);
    assert others[p] == xs[p + 1] && others[p] == ys[p];
    assert !Ahead(xs[p + 1], xs[p]) && !Ahead(ys[q], ys[p]);
  }

  lemma {:induction false} RankedMembers(xs: seq<Scored>)
    ensures forall x :: x in Ranked(xs) <==> x in xs
  {
    if xs != [] {
      RankedMembers(xs[1..]);
      InsertMembers(xs[0], Ranked(xs[1..]));
      assert forall x :: x in xs <==> x == xs[0] || x in xs[1..];
    }
  }

  function CountOf(xs: seq<Scored>, lender: string): nat {
    if xs == [] then 0 else (if xs[0].bid.lender == lender then 1 else 0) + CountOf(xs[1..], lender)
  }

  lemma {:induction false} InsertCounts(x: Scored, ys: seq<Scored>, lender: string)
    ensures CountOf(Insert(x, ys), lender) == CountOf(ys, lender) + if x.bid.lender == lender then 1 else 0
  {
    if ys != [] && Ahead(ys[0], x) {
      InsertCounts(x, ys[1..], lender);
      assert Insert(x, ys)[1..] == Insert(x, ys[1..]);
    } else {
      assert ([x] + ys)[1..] == ys;
    }
  }

  lemma {:induction false} RankedCounts(xs: seq<Scored>, lender: string)
    ensures CountOf(Ranked(xs), lender) == CountOf(xs, lender)
  {
    if xs != [] {
      RankedCounts(xs[1..], lender);
      InsertCounts(xs[0], Ranked(xs[1..]), lender);
    }
  }

  lemma {:induction false} NoneCounted(xs: seq<Scored>, lender: string)
    ensures CountOf(xs, lender) == 0 <==> forall i :: 0 <= i < |xs| ==> xs[i].bid.lender != lender
  {
    if xs != [] {
      NoneCounted(xs[1..], lender);
      assert forall i :: 0 < i < |xs| ==> xs[i] == xs[1..][i - 1];
    }
  }

  lemma {:induction false} OneCounted(xs: seq<Scored>, lender: string)
    requires CountOf(xs, lender) == 1
    ensures var p := Position(xs, lender);
            p < |xs| && forall i :: 0 <= i < |xs| ==> (xs[i].bid.lender == lender <==> i == p)
  {
    if xs[0].bid.lender == lender {
      NoneCounted(xs[1..], lender);
      assert forall i :: 0 < i < |xs| ==> xs[i] == xs[1..][i - 1];
    } else {
      OneCounted(xs[1..], lender);
      assert forall i :: 0 < i < |xs| ==> xs[i] == xs[1..][i - 1];
    }
  }

  lemma {:induction false} OneEntryCounted(entries: seq<Bid>, reputations: Reputations, lender: string)
    requires OnePerLender(entries)
    ensures CountOf(ScoreAll(entries, reputations), lender) == if PlaceOf(entries, lender) < |entries| then 1 else 0
  {
    if entries != [] {
      OneEntryCounted(entries[1..], reputations, lender);
      assert ScoreAll(entries, reputations)[1..] == ScoreAll(entries[1..], reputations);
      if entries[0].lender == lender {
        assert forall i :: 0 <= i < |entries[1..]| ==> entries[1..][i].lender != lender;
      }
    }
  }

  /** A ranking of one entry per lender shows a lender once, with the score of its entry. */
  ghost predicate ShowsOnce(xs: seq<Scored>, bid: Bid, reputations: Reputations) {
    var p := Position(xs, bid.lender);
    && p < |xs|
    && (forall i :: 0 <= i < |xs| ==> (xs[i].bid.lender == bid.lender <==> i == p))
    && xs[p] == Scored(bid, Score(bid, ReputationOf(reputations, bid.lender)))
  }

  lemma RankingShowsOnce(entries: seq<Bid>, reputations: Reputations, p: nat)
    requires OnePerLender(entries) && p < |entries|
    ensures ShowsOnce(RankBids(entries, reputations), entries[p], reputations)
  {
    var scored, lender := ScoreAll(entries, reputations), entries[p].lender;
    OneEntryCounted(entries, reputations, lender);
    assert PlaceOf(entries, lender) == p;
    RankedCounts(scored, lender);
    OneCounted(Ranked(scored), lender);
    var q := Position(Ranked(scored), lender);
    assert scored[p].bid.lender == lender;
    RankedMembers(scored);
    assert Ranked(scored)[q] in Ranked(scored);
    OnlyEntryOf(entries, reputations, p, Ranked(scored)[q]);
  }

  lemma OnlyEntryOf(entries: seq<Bid>, reputations: Reputations, p: nat, x: Scored)
    requires OnePerLender(entries) && p < |entries|
    requires x in ScoreAll(entries, reputations) && x.bid.lender == entries[p].lender
    ensures x == ScoreAll(entries, reputations)[p]
  {
    var k :| 0 <= k < |entries| && ScoreAll(entries, reputations)[k] == x;
    assert entries[k].lender == entries[p].lender;
  }

  /** A re-bid with a strictly lower score never worsens its lender's place in the listing. */
  lemma BetterRebidStandsNoLater(bids: seq<Bid>, bid: Bid, reputations: Reputations)
    requires OldestFirst(bids + [bid])
    requires PlaceOf(LatestPerLender(bids), bid.lender) < |LatestPerLender(bids)|
    requires var latest := LatestPerLender(bids);
             var reputation := ReputationOf(reputations, bid.lender);
             Score(bid, reputation) < Score(latest[PlaceOf(latest, bid.lender)], reputation)
    ensures Position(Listing(bids + [bid], reputations), bid.lender) <= Position(Listing(bids, reputations), bid.lender)
  {
    var before := LatestPerLender(bids);
    var place := PlaceOf(before, bid.lender);
    OldestFirstPrefix(bids, bid);
    LoopKeepsLatestOnly(bids);
    assert (bids + [bid])[..|bids|] == bids;
    NotedReplaces(bids, before, bid);
    var xs, ys := RankBids(before, reputations), RankBids(before[place := bid], reputations);
    NewBidLeavesOthers(bids, bid, reputations);
    BetterEntryStandsNoLater(before, place, bid, reputations);
  }

  lemma BetterEntryStandsNoLater(entries: seq<Bid>, place: nat, bid: Bid, reputations: Reputations)
    requires OnePerLender(entries) && place < |entries| && entries[place].lender == bid.lender
    requires var reputation := ReputationOf(reputations, bid.lender);
             Score(bid, reputation) < Score(entries[place], reputation)
    requires var xs, ys := RankBids(entries, reputations), RankBids(entries[place := bid], reputations);
             Others(ys, bid.lender) == Others(xs, bid.lender)
    ensures var xs, ys := RankBids(entries, reputations), RankBids(entries[place := bid], reputations);
            Position(ys, bid.lender) <= Position(xs, bid.lender)
  {
    var xs, ys := RankBids(entries, reputations), RankBids(entries[place := bid], reputations);
    var p, q := Position(xs, bid.lender), Position(ys, bid.lender);
    RankingShowsOnce(entries, reputations, place);
    RankingShowsOnce(entries[place := bid], reputations, place);
    RankedIsStablySorted(ScoreAll(entries, reputations));
    RankedIsStablySorted(ScoreAll(entries[place := bid], reputations));
    if p < q {
      LaterEntryScoresNoLower(xs, ys, bid.lender, p, q);
    }
  }

  lemma OldestFirstPrefix(bids: seq<Bid>, bid: Bid)
    requires OldestFirst(bids + [bid])
    ensures OldestFirst(bids)
  {
    assert (bids + [bid])[..|bids|] == bids;
    forall i, j | 0 <= i < j < |bids|
      ensures bids[i].createdAt <= bids[j].createdAt
    {
      assert (bids + [bid])[i] == bids[i] && (bids + [bid])[j] == bids[j];
    }
  }

  lemma NotedReplaces(bids: seq<Bid>, entries: seq<Bid>, bid: Bid)
    requires OldestFirst(bids + [bid]) && LatestOnly(bids, entries)
    requires PlaceOf(entries, bid.lender) < |entries|
    ensures Noted(entries, bid) == entries[PlaceOf(entries, bid.lender) := bid]
  {
    EntriesAreOld(bids, entries, bid, PlaceOf(entries, bid.lender));
  }

  // ----- what ranking does not look at -----

  /** The same bids, but for their status. */
  ghost predicate Restatused(bids: seq<Bid>, bids': seq<Bid>) {
    |bids| == |bids'| && forall i :: 0 <= i < |bids| ==> bids'[i] == bids[i].(status := bids'[i].status)
  }

  ghost predicate RestatusedScored(xs: seq<Scored>, xs': seq<Scored>) {
    && |xs| == |xs'|
    && forall i :: 0 <= i < |xs| ==>
         xs'[i].score == xs[i].score && xs'[i].bid == xs[i].bid.(status := xs'[i].bid.status)
  }

  lemma {:induction false} RestatusedPlace(entries: seq<Bid>, entries': seq<Bid>, lender: string)
    requires Restatused(entries, entries')
    ensures PlaceOf(entries, lender) == PlaceOf(entries', lender)
  {
    if entries != [] {
      RestatusedPlace(entries[1..], entries'[1..], lender);
    }
  }

  lemma RestatusedNoted(entries: seq<Bid>, entries': seq<Bid>, bid: Bid, bid': Bid)
    requires Restatused(entries, entries') && bid' == bid.(status := bid'.status)
    ensures Restatused(Noted(entries, bid), Noted(entries', bid'))
  {
    RestatusedPlace(entries, entries', bid.lender);
  }

  lemma {:induction false} RestatusedLatest(bids: seq<Bid>, bids': seq<Bid>)
    requires Restatused(bids, bids')
    ensures Restatused(LatestPerLender(bids), LatestPerLender(bids'))
  {
    if bids != [] {
      var n := |bids| - 1;
      RestatusedLatest(bids[..n], bids'[..n]);
      RestatusedNoted(LatestPerLender(bids[..n]), LatestPerLender(bids'[..n]), bids[n], bids'[n]);
    }
  }

  lemma {:induction false} RestatusedInsert(x: Scored, x': Scored, ys: seq<Scored>, ys': seq<Scored>)
    requires RestatusedScored([x], [x']) && RestatusedScored(ys, ys')
    ensures RestatusedScored(Insert(x, ys), Insert(x', ys'))
  {
    assert [x][0] == x && [x'][0] == x';
    if ys != [] && Ahead(ys[0], x) {
      RestatusedInsert(x, x', ys[1..], ys'[1..]);
    }
  }

  lemma {:induction false} RestatusedRanked(xs: seq<Scored>, xs': seq<Scored>)
    requires RestatusedScored(xs, xs')
    ensures RestatusedScored(Ranked(xs), Ranked(xs'))
  {
    if xs != [] {
      RestatusedRanked(xs[1..], xs'[1..]);
      RestatusedInsert(xs[0], xs'[0], Ranked(xs[1..]), Ranked(xs'[1..]));
    }
  }

  /** Neither the filter nor the score reads a bid's status. */
  lemma ListingIgnoresStatus(bids: seq<Bid>, bids': seq<Bid>, reputations: Reputations)
    requires Restatused(bids, bids')
    ensures RestatusedScored(Listing(bids, reputations), Listing(bids', reputations))
  {
    RestatusedLatest(bids, bids');
    RestatusedRanked(ScoreAll(LatestPerLender(bids), reputations), ScoreAll(LatestPerLender(bids'), reputations));
  }

  function Refreshed(listed: seq<Bid>, bids: map<Id, Bid>): (r: seq<Bid>)
    requires forall b :: b in listed ==> b.id in bids
    ensures |r| == |listed| && forall i :: 0 <= i < |listed| ==> r[i] == bids[listed[i].id]
  {
    if listed == [] then [] else [bids[listed[0].id]] + Refreshed(listed[1..], bids)
  }

  /** The rows of `after` are those of `before`, but for their status. */
  predicate OnlyStatusesChanged(before: map<Id, Bid>, after: map<Id, Bid>) {
    && after.Keys == before.Keys
    && forall b :: b in before ==> after[b] == before[b].(status := after[b].status)
  }

  lemma AcceptChangesStatusesOnly(store: Store, row: Settlement)
    requires row.request in store.requests && row.winningBid in store.bids
    ensures OnlyStatusesChanged(store.bids, SettleRoute.AcceptedStore(store, row).bids)
  {
  }

  lemma RefreshedRestatuses(before: map<Id, Bid>, after: map<Id, Bid>, listed: seq<Bid>)
    requires OnlyStatusesChanged(before, after)
    requires forall b :: b in listed ==> b.id in before && before[b.id] == b
    ensures Restatused(listed, Refreshed(listed, after))
  {
    forall i | 0 <= i < |listed|
      ensures after[listed[i].id] == listed[i].(status := after[listed[i].id].status)
    {
      assert listed[i] in listed;
    }
  }

  lemma RestatusedKeepsOrder(bids: seq<Bid>, bids': seq<Bid>)
    requires Restatused(bids, bids') && OldestFirst(bids) && DistinctBids(bids)
    ensures OldestFirst(bids') && DistinctBids(bids')
  {
    forall i, j | 0 <= i < j < |bids'|
      ensures bids'[i].createdAt <= bids'[j].createdAt && bids'[i].id != bids'[j].id
    {
      assert bids[i].createdAt <= bids[j].createdAt && bids[i].id != bids[j].id;
    }
  }

  lemma RefreshedIsListed(store: Store, after: Store, rid: Id, listed: seq<Bid>)
    requires OnlyStatusesChanged(store.bids, after.bids)
    requires forall b :: b in store.bids ==> store.bids[b].id == b
    requires ListsBidsOf(store, rid, listed)
    ensures ListsBidsOf(after, rid, Refreshed(listed, after.bids))
  {
    var listed' := Refreshed(listed, after.bids);
    RefreshedRestatuses(store.bids, after.bids, listed);
    RestatusedKeepsOrder(listed, listed');
    forall id | id in after.bids && after.bids[id].request == rid
      ensures after.bids[id] in listed'
    {
      RefreshedShows(store, after, rid, listed, id);
    }
    forall b | b in listed'
      ensures b.id in after.bids && after.bids[b.id] == b && b.request == rid
    {
      RefreshedIsCurrent(store, after, rid, listed, b);
    }
  }

  lemma RefreshedIsCurrent(store: Store, after: Store, rid: Id, listed: seq<Bid>, b: Bid)
    requires OnlyStatusesChanged(store.bids, after.bids) && ListsBidsOf(store, rid, listed)
    requires forall id :: id in store.bids ==> store.bids[id].id == id
    requires b in Refreshed(listed, after.bids)
    ensures b.id in after.bids && after.bids[b.id] == b && b.request == rid
  {
    var i :| 0 <= i < |listed| && Refreshed(listed, after.bids)[i] == b;
    assert listed[i] in listed;
  }

  lemma RefreshedShows(store: Store, after: Store, rid: Id, listed: seq<Bid>, id: Id)
    requires OnlyStatusesChanged(store.bids, after.bids) && ListsBidsOf(store, rid, listed)
    requires id in store.bids && store.bids[id].id == id && store.bids[id].request == rid
    ensures after.bids[id] in Refreshed(listed, after.bids)
  {
    assert store.bids[id] in listed;
    var i :| 0 <= i < |listed| && listed[i] == store.bids[id];
    assert Refreshed(listed, after.bids)[i] == after.bids[id];
  }

  /** Accepting a bid changes statuses only: whatever the query may list before, it may list
      after, and the two rank in the same order with the same scores. */
  lemma RelistedRanksTheSame(store: Store, row: Settlement, listed: seq<Bid>, reputations: Reputations)
    requires row.request in store.requests && row.winningBid in store.bids
    requires forall b :: b in store.bids ==> store.bids[b].id == b
    requires ListsBidsOf(store, row.request, listed)
    ensures forall b :: b in listed ==> b.id in SettleRoute.AcceptedStore(store, row).bids
    ensures var after := SettleRoute.AcceptedStore(store, row);
            var listed' := Refreshed(listed, after.bids);
            && ListsBidsOf(after, row.request, listed')
            && RestatusedScored(Listing(listed, reputations), Listing(listed', reputations))
  {
    var after := SettleRoute.AcceptedStore(store, row);
    AcceptChangesStatusesOnly(store, row);
    RefreshedRestatuses(store.bids, after.bids, listed);
    RefreshedIsListed(store, after, row.request, listed);
    ListingIgnoresStatus(listed, Refreshed(listed, after.bids), reputations);
  }

  /** Accepting a bid leaves the ranking as it was: whatever the query lists after it, in
      whatever order it puts bids created at the same instant, it may have listed before,
      and that ranks in the same order with the same scores. */
  lemma AcceptKeepsRanking(store: Store, row: Settlement, listed': seq<Bid>, reputations: Reputations)
    returns (listed: seq<Bid>)
    requires row.request in store.requests && row.winningBid in store.bids
    requires forall b :: b in store.bids ==> store.bids[b].id == b
    requires ListsBidsOf(SettleRoute.AcceptedStore(store, row), row.request, listed')
    ensures ListsBidsOf(store, row.request, listed)
    ensures RestatusedScored(Listing(listed, reputations), Listing(listed', reputations))
  {
    var after := SettleRoute.AcceptedStore(store, row);
    AcceptChangesStatusesOnly(store, row);
    ChangedBackToo(store.bids, after.bids);
    listed := Refreshed(listed', store.bids);
    RefreshedIsListed(after, store, row.request, listed');
    RefreshedRestatuses(after.bids, store.bids, listed');
    RestatusedBack(listed', listed);
    ListingIgnoresStatus(listed, listed', reputations);
  }

  lemma ChangedBackToo(before: map<Id, Bid>, after: map<Id, Bid>)
    requires OnlyStatusesChanged(before, after) && forall b :: b in before ==> before[b].id == b
    ensures OnlyStatusesChanged(after, before) && forall b :: b in after ==> after[b].id == b
  {
  }

  lemma RestatusedBack(bids: seq<Bid>, bids': seq<Bid>)
    requires Restatused(bids, bids')
    ensures Restatused(bids', bids)
  {
    forall i | 0 <= i < |bids|
      ensures bids[i] == bids'[i].(status := bids[i].status)
    {
      assert bids'[i] == bids[i].(status := bids'[i].status);
    }
  }

  predicate DistinctTimes(bids: seq<Bid>) {
    forall i, j :: 0 <= i < j < |bids| ==> bids[i].createdAt != bids[j].createdAt
  }

  /** Bids created at different times are listed in one order only. */
  lemma {:induction false} OneOrderByAge(xs: seq<Bid>, ys: seq<Bid>)
    requires OldestFirst(xs) && DistinctBids(xs) && DistinctTimes(xs)
    requires OldestFirst(ys) && DistinctBids(ys) && forall b :: b in xs <==> b in ys
    ensures xs == ys
  {
    if xs == [] {
      MemberlessIsEmpty(ys);
    } else {
      OldestIsFirst(xs, ys);
      OneOrderByAge(xs[1..], ys[1..]);
      assert xs == [xs[0]] + xs[1..] && ys == [ys[0]] + ys[1..];
    }
  }

  lemma MemberlessIsEmpty(ys: seq<Bid>)
    ensures (forall b :: b !in ys) ==> ys == []
  {
    if ys != [] {
      assert ys[0] in ys;
    }
  }

  lemma OldestIsFirst(xs: seq<Bid>, ys: seq<Bid>)
    requires xs != [] && OldestFirst(xs) && DistinctBids(xs) && DistinctTimes(xs)
    requires OldestFirst(ys) && DistinctBids(ys) && forall b :: b in xs <==> b in ys
    ensures ys != [] && ys[0] == xs[0]
    ensures forall b :: b in xs[1..] <==> b in ys[1..]
  {
    assert xs[0] in xs;
    var j :| 0 <= j < |ys| && ys[j] == xs[0];
    assert ys[0] in ys;
    var i :| 0 <= i < |xs| && xs[i] == ys[0];
    assert i == 0;
    forall b
      ensures b in xs[1..] <==> b in ys[1..]
    {
      TailMembers(xs, b);
      TailMembers(ys, b);
    }
  }

  lemma TailMembers(xs: seq<Bid>, b: Bid)
    requires xs != [] && DistinctBids(xs)
    ensures b in xs[1..] <==> b in xs && b != xs[0]
  {
    assert xs == [xs[0]] + xs[1..];
    if b in xs[1..] {
      var i :| 0 <= i < |xs[1..]| && xs[1..][i] == b;
      assert xs[i + 1] == b;
    }
  }

  /** In particular, if the request's bids were created at different times, every listing
      after the accept ranks as every listing before it. */
  lemma AcceptKeepsTheRanking(store: Store, row: Settlement, listed: seq<Bid>, listed': seq<Bid>,
                              reputations: Reputations)
    requires row.request in store.requests && row.winningBid in store.bids
    requires forall b :: b in store.bids ==> store.bids[b].id == b
    requires ListsBidsOf(store, row.request, listed) && DistinctTimes(listed)
    requires ListsBidsOf(SettleRoute.AcceptedStore(store, row), row.request, listed')
    ensures RestatusedScored(Listing(listed, reputations), Listing(listed', reputations))
  {
    var same := AcceptKeepsRanking(store, row, listed', reputations);
    OneOrderByAge(listed, same);
  }

  // ----- Pareto -----

  /** No worse for the dealer on any of the six scored criteria. */
  predicate NoWorse(a: Bid, b: Bid, reputations: Reputations) {
    var p, q := a.package, b.package;
    && p.aprBps <= q.aprBps
    && p.cashDown <= q.cashDown
    && |p.stipulations| <= |q.stipulations|
    && p.reserveBps >= q.reserveBps
    && p.confidence >= q.confidence
    && ReputationOf(reputations, a.lender) >= ReputationOf(reputations, b.lender)
  }

  predicate BetterSomewhere(a: Bid, b: Bid, reputations: Reputations) {
    var p, q := a.package, b.package;
    || p.aprBps < q.aprBps
    || p.cashDown < q.cashDown
    || |p.stipulations| < |q.stipulations|
    || p.reserveBps > q.reserveBps
    || p.confidence > q.confidence
    || ReputationOf(reputations, a.lender) > ReputationOf(reputations, b.lender)
  }

  lemma DominatingScoresLower(a: Bid, b: Bid, reputations: Reputations)
    requires NoWorse(a, b, reputations) && BetterSomewhere(a, b, reputations)
    ensures Score(a, ReputationOf(reputations, a.lender)) < Score(b, ReputationOf(reputations, b.lender))
  {
  }

  /** A listed bid that dominates another stands strictly before it, whatever their ages; in
      particular the first bid of a listing is dominated by none. */
  lemma DominatingStandsAhead(bids: seq<Bid>, reputations: Reputations, i: nat, j: nat)
    requires i < |Listing(bids, reputations)| && j < |Listing(bids, reputations)|
    requires var xs := Listing(bids, reputations);
             NoWorse(xs[i].bid, xs[j].bid, reputations) && BetterSomewhere(xs[i].bid, xs[j].bid, reputations)
    ensures i < j
  {
    var scored := ScoreAll(LatestPerLender(bids), reputations);
    var xs := Listing(bids, reputations);
    RankedMembers(scored);
    RankedIsStablySorted(scored);
    assert xs[i] in scored && xs[j] in scored;
    DominatingScoresLower(xs[i].bid, xs[j].bid, reputations);
    assert Ahead(xs[i], xs[j]);
  }

  // ----- what the score weighs -----

  /** A bid with one term changed. */
  function Dearer(bid: Bid, apr: int, reserve: int, cashDown: real, confidence: real): Bid {
    bid.(package := bid.package.(
      aprBps := bid.package.aprBps + apr,
      reserveBps := bid.package.reserveBps + reserve,
      cashDown := bid.package.cashDown + cashDown,
      confidence := bid.package.confidence + confidence))
  }

  /** The rates of exchange: one stipulation more weighs as much as 50 basis points of APR,
      100 less of reserve, 50,000 USDC more of cash down, one half less of confidence or one
      quarter less of reputation; and it weighs 50 points. */
  lemma StipulationIsWorth(bid: Bid, more: string, reputation: real)
    ensures var burdened :=
              Score(bid.(package := bid.package.(stipulations := bid.package.stipulations + [more])), reputation);
            && burdened == Score(bid, reputation) + 50.0
            && burdened == Score(Dearer(bid, 50, 0, 0.0, 0.0), reputation)
            && burdened == Score(Dearer(bid, 0, -100, 0.0, 0.0), reputation)
            && burdened == Score(Dearer(bid, 0, 0, 50_000_000_000.0, 0.0), reputation)
            && burdened == Score(Dearer(bid, 0, 0, 0.0, -0.5), reputation)
            && burdened == Score(bid, reputation - 0.25)
  {
  }

  /** A bid with nothing to say against it scores nothing. */
  lemma PerfectBidScoresZero(bid: Bid)
    requires var p := bid.package;
             p.aprBps == 0 && p.cashDown == 0.0 && p.stipulations == [] && p.reserveBps == 0 && p.confidence == 1.0
    ensures Score(bid, 1.0) == 0.0
  {
  }

  /** A lender whose reputation was never set scores as a perfect one. */
  lemma UnknownLenderIsPerfect(reputations: Reputations, lender: string, value: real)
    ensures lender !in reputations ==> ReputationOf(reputations, lender) == 1.0
    ensures ReputationOf(reputations[lender := value], lender) == value
  {
  }

  /** Of two listed bids the one with the lower score stands first; with equal scores, the
      older one. */
  lemma ListedByScoreThenAge(bids: seq<Bid>, reputations: Reputations, i: nat, j: nat)
    requires i < j < |Listing(bids, reputations)|
    ensures var x, y := Listing(bids, reputations)[i], Listing(bids, reputations)[j];
            x.score < y.score || (x.score == y.score && x.bid.createdAt <= y.bid.createdAt)
  {
    RankedIsStablySorted(ScoreAll(LatestPerLender(bids), reputations));
  }

  /** A listed score is that of the bid with its lender's reputation. */
  lemma ListedScoresAreTheirs(bids: seq<Bid>, reputations: Reputations, i: nat)
    requires i < |Listing(bids, reputations)|
    ensures var x := Listing(bids, reputations)[i];
            x.score == Score(x.bid, ReputationOf(reputations, x.bid.lender)) && x.bid in LatestPerLender(bids)
  {
    var scored := ScoreAll(LatestPerLender(bids), reputations);
    RankedMembers(scored);
    assert Listing(bids, reputations)[i] in Ranked(scored);
    var k :| 0 <= k < |scored| && scored[k] == Listing(bids, reputations)[i];
    assert LatestPerLender(bids)[k] in LatestPerLender(bids);
  }
}
