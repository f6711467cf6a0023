/** What it takes for a closed request to have an open bid, and for an accepted bid to become
    lost: each time one handler acts on what another has changed since it looked.  Neither
    takes anything else, and both can follow whenever it occurs.  */
module StaleSnapshots {
  import opened Models
  import opened Ledger
  import opened Protocol
  import opened Races
  import Interleaving

  predicate Marking(s: State, h: Id, rid: Id) {
    h in s.handlers && s.handlers[h].Accepting? && s.handlers[h].request == rid && s.handlers[h].pc.MarkLosers?
  }

  predicate Inserting(s: State, k: Id, rid: Id) {
    k in s.handlers && s.handlers[k].Creating? && s.handlers[k].request == rid && s.handlers[k].createPc == Insert
  }

  predicate OpenBidOf(store: Store, b: Id, rid: Id) {
    store.BidOf(b, rid) && store.bids[b].status == BidOpen
  }

  // ----- an open bid on a closed request -----

  /** A bid is about to be inserted while an accept of the same request marks the losers of a
      list that cannot have it. */
  ghost predicate InsertsBehindMarking(s: State, rid: Id) {
    exists h, k :: Marking(s, h, rid) && Inserting(s, k, rid)
  }

  ghost predicate OpenBidsListed(s: State, rid: Id) {
    forall h, b :: Marking(s, h, rid) && OpenBidOf(s.store, b, rid) ==> b in s.handlers[h].pc.rest
  }

  /** An accept that has marked its winner. */
  predicate PastWinner(s: State, h: Id, rid: Id) {
    && h in s.handlers && s.handlers[h].Accepting? && s.handlers[h].request == rid
    && (s.handlers[h].pc.Snapshot? || s.handlers[h].pc.MarkLosers?)
  }

  ghost predicate WinnersNotOpen(s: State, rid: Id) {
    forall h :: PastWinner(s, h, rid) ==> !OpenBidOf(s.store, s.handlers[h].bid, rid)
  }

  ghost predicate ClosedIsDone(s: State, rid: Id) {
    Interleaving.IsClosed(s.store, rid) ==>
      && (forall b :: !OpenBidOf(s.store, b, rid))
      && (forall k :: !Inserting(s, k, rid))
  }

  ghost predicate NothingMissed(s: State, rid: Id) {
    OpenBidsListed(s, rid) && WinnersNotOpen(s, rid) && ClosedIsDone(s, rid)
  }

  /** Where an open bid can come from. */
  lemma OpenBidComesFrom(cfg: Config, s: State, a: Action, s': State, b: Id, rid: Id)
    requires Step(cfg, s, a, s') && OpenBidOf(s'.store, b, rid)
    ensures OpenBidOf(s.store, b, rid) || (a.Advance? && Inserting(s, a.h, rid))
  {
  }

  /** Where an accept that marks losers, or has marked its winner, comes from. */
  lemma MarkingComesFrom(cfg: Config, s: State, a: Action, s': State, h: Id, rid: Id)
    requires Step(cfg, s, a, s') && Marking(s', h, rid)
    ensures (h in s.handlers && s'.handlers[h] == s.handlers[h]) || (a.Advance? && a.h == h && PastWinner(s, h, rid))
    ensures var rest := s'.handlers[h].pc.rest;
            a.Advance? && a.h == h && PastWinner(s, h, rid) ==>
              && s'.handlers[h].bid == s.handlers[h].bid
              && if s.handlers[h].pc.Snapshot? then
                   ListsOpenOthers(s.store, rid, s.handlers[h].bid, rest) && s'.store == s.store
                 else var before := s.handlers[h].pc.rest;
                      && before != [] && rest == before[1..] && before[0] in s.store.bids
                      && s'.store == s.store.SetBidStatus(before[0], Lost)
  {
  }

  lemma StepKeepsListed(cfg: Config, s: State, a: Action, s': State, rid: Id)
    requires Step(cfg, s, a, s') && OpenBidsListed(s, rid) && WinnersNotOpen(s, rid) && !InsertsBehindMarking(s, rid)
    ensures OpenBidsListed(s', rid)
  {
    forall h, b | Marking(s', h, rid) && OpenBidOf(s'.store, b, rid)
      ensures b in s'.handlers[h].pc.rest
    {
      StaysListed(cfg, s, a, s', rid, h, b);
    }
  }

  lemma StaysListed(cfg: Config, s: State, a: Action, s': State, rid: Id, h: Id, b: Id)
    requires Step(cfg, s, a, s') && OpenBidsListed(s, rid) && WinnersNotOpen(s, rid) && !InsertsBehindMarking(s, rid)
    requires Marking(s', h, rid) && OpenBidOf(s'.store, b, rid)
    ensures b in s'.handlers[h].pc.rest
  {
    OpenBidComesFrom(cfg, s, a, s', b, rid);
    MarkingComesFrom(cfg, s, a, s', h, rid);
    if a.Advance? && a.h == h && PastWinner(s, h, rid) {
      if s.handlers[h].pc.Snapshot? {
        assert OpenOther(s.store, rid, s.handlers[h].bid, b);
      } else {
        assert Marking(s, h, rid);
      }
    } else {
      assert Marking(s, h, rid);
    }
  }

  lemma WinnerComesFrom(cfg: Config, s: State, a: Action, s': State, h: Id, rid: Id)
    requires Step(cfg, s, a, s') && PastWinner(s', h, rid)
    ensures h in s.handlers && s.handlers[h].Accepting? && s.handlers[h].request == rid
              && s.handlers[h].bid == s'.handlers[h].bid
    ensures PastWinner(s, h, rid) || !OpenBidOf(s'.store, s'.handlers[h].bid, rid)
  {
  }

  lemma StepKeepsWinners(cfg: Config, s: State, a: Action, s': State, rid: Id)
    requires Interleaving.Inv(cfg, s) && Step(cfg, s, a, s') && WinnersNotOpen(s, rid)
    ensures WinnersNotOpen(s', rid)
  {
    forall h | PastWinner(s', h, rid)
      ensures !OpenBidOf(s'.store, s'.handlers[h].bid, rid)
    {
      WinnerComesFrom(cfg, s, a, s', h, rid);
      if PastWinner(s, h, rid) {
        var row := Interleaving.RowOf(cfg, s, h, s.handlers[h]);
        WinnerStays(cfg, s, a, s', s.handlers[h].bid, rid);
      }
    }
  }

  /** A bid that is there and not open does not open. */
  lemma WinnerStays(cfg: Config, s: State, a: Action, s': State, b: Id, rid: Id)
    requires Step(cfg, s, a, s') && s.store.BidOf(b, rid) && !OpenBidOf(s.store, b, rid)
    ensures !OpenBidOf(s'.store, b, rid)
  {
  }

  lemma ClosingComesFrom(cfg: Config, s: State, a: Action, s': State, rid: Id)
    requires Step(cfg, s, a, s') && Interleaving.IsClosed(s'.store, rid)
    ensures Interleaving.IsClosed(s.store, rid) ||
            (&& a.Advance? && Marking(s, a.h, rid) && s.handlers[a.h].pc.rest == []
             && s'.store.bids == s.store.bids)
  {
  }

  lemma InsertingComesFrom(cfg: Config, s: State, a: Action, s': State, k: Id, rid: Id)
    requires Step(cfg, s, a, s') && Inserting(s', k, rid)
    ensures Inserting(s, k, rid) || (a.Advance? && a.h == k && !Interleaving.IsClosed(s'.store, rid))
  {
  }

  lemma StepKeepsDone(cfg: Config, s: State, a: Action, s': State, rid: Id)
    requires Step(cfg, s, a, s') && NothingMissed(s, rid) && !InsertsBehindMarking(s, rid)
    ensures ClosedIsDone(s', rid)
  {
    if Interleaving.IsClosed(s'.store, rid) {
      ClosingComesFrom(cfg, s, a, s', rid);
      forall b
        ensures !OpenBidOf(s'.store, b, rid)
      {
        if OpenBidOf(s'.store, b, rid) {
          OpenBidComesFrom(cfg, s, a, s', b, rid);
        }
      }
      forall k
        ensures !Inserting(s', k, rid)
      {
        if Inserting(s', k, rid) {
          InsertingComesFrom(cfg, s, a, s', k, rid);
        }
      }
    }
  }

  lemma {:induction false} NothingMissedWithout(cfg: Config, trace: seq<State>, actions: seq<Action>, n: nat, rid: Id)
    requires Run(cfg, trace, actions) && n < |trace|
    requires forall i :: 0 <= i < n ==> !InsertsBehindMarking(trace[i], rid)
    ensures NothingMissed(trace[n], rid)
  {
    if n > 0 {
      NothingMissedWithout(cfg, trace, actions, n - 1, rid);
      Interleaving.EveryRunKeepsInv(cfg, trace, actions, n - 1);
      StepKeepsListed(cfg, trace[n - 1], actions[n - 1], trace[n], rid);
      StepKeepsWinners(cfg, trace[n - 1], actions[n - 1], trace[n], rid);
      StepKeepsDone(cfg, trace[n - 1], actions[n - 1], trace[n], rid);
    }
  }

  /** In every run, whatever overlaps or is abandoned: a closed request has an open bid only
      if before that, at some moment, a bid was about to be inserted while an accept of the
      request marked its losers. */
  lemma OpenBidOnClosedTakes(cfg: Config, trace: seq<State>, actions: seq<Action>, n: nat, rid: Id, b: Id)
    requires Run(cfg, trace, actions) && n < |trace|
    requires Interleaving.IsClosed(trace[n].store, rid) && OpenBidOf(trace[n].store, b, rid)
    ensures exists i :: 0 <= i < n && InsertsBehindMarking(trace[i], rid)
  {
    if forall i :: 0 <= i < n ==> !InsertsBehindMarking(trace[i], rid) {
      NothingMissedWithout(cfg, trace, actions, n, rid);
    }
  }

  // ----- an accepted bid becomes lost -----

  /** `b` is about to be accepted while another accept still has it on its list of losers. */
  predicate WinsWhileListed(s: State, g: Id, h: Id, b: Id) {
    && g in s.handlers && s.handlers[g].Accepting? && s.handlers[g].pc.MarkWinner? && s.handlers[g].bid == b
    && ListedBy(s, h, b)
  }

  predicate ListedBy(s: State, h: Id, b: Id) {
    h in s.handlers && s.handlers[h].Accepting? && s.handlers[h].pc.MarkLosers? && b in s.handlers[h].pc.rest
  }

  ghost predicate WinnerIsListed(s: State, b: Id) {
    exists g, h :: WinsWhileListed(s, g, h, b)
  }

  predicate IsAccepted(store: Store, b: Id) {
    b in store.bids && store.bids[b].status == Accepted
  }

  ghost predicate ListedNotAccepted(s: State, b: Id) {
    forall h :: ListedBy(s, h, b) ==> b in s.store.bids && !IsAccepted(s.store, b)
  }

  lemma ListedComesFrom(cfg: Config, s: State, a: Action, s': State, h: Id, b: Id)
    requires Step(cfg, s, a, s') && ListedBy(s', h, b)
    ensures ListedBy(s, h, b) || (s'.store == s.store && b in s.store.bids && s.store.bids[b].status == BidOpen)
  {
  }

  lemma AcceptedComesFrom(cfg: Config, s: State, a: Action, s': State, b: Id)
    requires Step(cfg, s, a, s') && b in s.store.bids && IsAccepted(s'.store, b)
    ensures b in s'.store.bids
    ensures IsAccepted(s.store, b) ||
            (&& a.Advance? && a.h in s.handlers && s.handlers[a.h].Accepting?
             && s.handlers[a.h].pc.MarkWinner? && s.handlers[a.h].bid == b)
  {
  }

  lemma BidsAreKept(cfg: Config, s: State, a: Action, s': State, b: Id)
    requires Step(cfg, s, a, s') && b in s.store.bids
    ensures b in s'.store.bids
  {
  }

  lemma StepKeepsListedNotAccepted(cfg: Config, s: State, a: Action, s': State, b: Id)
    requires Step(cfg, s, a, s') && ListedNotAccepted(s, b) && !WinnerIsListed(s, b)
    ensures ListedNotAccepted(s', b)
  {
    forall h | ListedBy(s', h, b)
      ensures b in s'.store.bids && !IsAccepted(s'.store, b)
    {
      ListedComesFrom(cfg, s, a, s', h, b);
      BidsAreKept(cfg, s, a, s', b);
      if ListedBy(s, h, b) && IsAccepted(s'.store, b) {
        AcceptedComesFrom(cfg, s, a, s', b);
        assert WinsWhileListed(s, a.h, h, b);
      }
    }
  }

  /** An accepted bid is lost only by the accept that has it first on its list. */
  lemma LosingComesFrom(cfg: Config, s: State, a: Action, s': State, b: Id)
    requires Step(cfg, s, a, s') && IsAccepted(s.store, b) && !IsAccepted(s'.store, b)
    ensures a.Advance? && ListedBy(s, a.h, b)
  {
  }

  lemma {:induction false} ListedNotAcceptedWithout(cfg: Config, trace: seq<State>, actions: seq<Action>, n: nat, b: Id)
    requires Run(cfg, trace, actions) && n < |trace|
    requires forall i :: 0 <= i < n ==> !WinnerIsListed(trace[i], b)
    ensures ListedNotAccepted(trace[n], b)
  {
    if n > 0 {
      ListedNotAcceptedWithout(cfg, trace, actions, n - 1, b);
      StepKeepsListedNotAccepted(cfg, trace[n - 1], actions[n - 1], trace[n], b);
    }
  }

  /** In every run: an accepted bid stops being accepted only if before that, at some moment,
      it was about to be accepted while another accept had it on its list of losers. */
  lemma LosingAcceptedTakes(cfg: Config, trace: seq<State>, actions: seq<Action>, n: nat, b: Id)
    requires Run(cfg, trace, actions) && n < |actions|
    requires IsAccepted(trace[n].store, b) && !IsAccepted(trace[n + 1].store, b)
    ensures exists i :: 0 <= i < n && WinnerIsListed(trace[i], b)
  {
    LosingComesFrom(cfg, trace[n], actions[n], trace[n + 1], b);
    if forall i :: 0 <= i < n ==> !WinnerIsListed(trace[i], b) {
      ListedNotAcceptedWithout(cfg, trace, actions, n, b);
    }
  }

  /** So it takes two accepts of the bid's own request in flight together. */
  lemma WinnerListedIsOverlap(cfg: Config, s: State, g: Id, h: Id, b: Id)
    requires Interleaving.Inv(cfg, s) && WinsWhileListed(s, g, h, b)
    ensures g != h && b in s.store.bids
    ensures s.handlers[g].InFlight() && s.handlers[h].InFlight()
    ensures s.handlers[g].request == s.handlers[h].request == s.store.bids[b].request
  {
    var row := Interleaving.RowOf(cfg, s, g, s.handlers[g]);
    assert Interleaving.HandlerOk(cfg, s, h, s.handlers[h]);
  }

  predicate AcceptsOverlap(s: State, g: Id, h: Id, rid: Id) {
    && g != h && g in s.handlers && h in s.handlers
    && s.handlers[g].Accepting? && s.handlers[g].request == rid && s.handlers[g].InFlight()
    && s.handlers[h].Accepting? && s.handlers[h].request == rid && s.handlers[h].InFlight()
  }

  ghost predicate SomeOverlap(s: State, rid: Id) {
    exists g, h :: AcceptsOverlap(s, g, h, rid)
  }

  lemma ListedWinnerOverlaps(cfg: Config, s: State, t: State, b: Id)
    requires Interleaving.Inv(cfg, s) && Interleaving.Grows(s, t) && WinnerIsListed(s, b)
    ensures b in t.store.bids && SomeOverlap(s, t.store.bids[b].request)
  {
    var g, h :| WinsWhileListed(s, g, h, b);
    WinnerListedIsOverlap(cfg, s, g, h, b);
    assert AcceptsOverlap(s, g, h, s.store.bids[b].request);
  }

  lemma ListedWinnerOverlapsInRun(cfg: Config, trace: seq<State>, actions: seq<Action>, i: nat, n: nat, b: Id)
    requires Run(cfg, trace, actions) && i <= n < |trace| && WinnerIsListed(trace[i], b)
    ensures b in trace[n].store.bids && SomeOverlap(trace[i], trace[n].store.bids[b].request)
  {
    Interleaving.EveryRunKeepsInv(cfg, trace, actions, i);
    Interleaving.PathKeepsInv(cfg, trace, actions, i, n);
    ListedWinnerOverlaps(cfg, trace[i], trace[n], b);
  }

  /** As long as no two accepts of a request are in flight together, its accepted bids stay
      accepted, whatever is abandoned and however bids are created. */
  lemma AcceptedStaysWithoutOverlap(cfg: Config, trace: seq<State>, actions: seq<Action>, n: nat, b: Id)
    requires Run(cfg, trace, actions) && n < |actions| && IsAccepted(trace[n].store, b)
    requires forall i :: 0 <= i < n ==> !SomeOverlap(trace[i], trace[n].store.bids[b].request)
    ensures IsAccepted(trace[n + 1].store, b)
  {
    if !IsAccepted(trace[n + 1].store, b) {
      LosingAcceptedTakes(cfg, trace, actions, n, b);
      var i :| 0 <= i < n && WinnerIsListed(trace[i], b);
      ListedWinnerOverlapsInRun(cfg, trace, actions, i, n, b);
    }
  }

  // ----- and nothing more -----

  /** An accept marks the rest of its losers and closes the request. */
  lemma {:induction false} Finishes(cfg: Config, s: State, t: State, h: Id, rid: Id, bid: Id, rest: seq<Id>)
    returns (u: State)
    requires Reaches(cfg, s, t) && h in t.handlers && t.handlers[h] == Accepting(rid, bid, MarkLosers(rest))
    requires rid in t.store.requests && forall b :: b in rest ==> b in t.store.bids
    ensures Reaches(cfg, s, u) && Interleaving.IsClosed(u.store, rid)
    ensures u.handlers == t.handlers[h := Accepting(rid, bid, AcceptReplied(200))]
    ensures u.store.bids.Keys == t.store.bids.Keys && u.store.requests.Keys == t.store.requests.Keys
    decreases |rest|
  {
    if rest == [] {
      u := At(t, h, Accepting(rid, bid, AcceptReplied(200))).(store := t.store.SetRequestStatus(rid, Closed));
      Then(cfg, s, t, Advance(h, NOTHING), u);
    } else {
      assert rest[0] in rest && forall b :: b in rest[1..] ==> b in rest;
      var v := At(t, h, Accepting(rid, bid, MarkLosers(rest[1..]))).(store := t.store.SetBidStatus(rest[0], Lost));
      Then(cfg, s, t, Advance(h, NOTHING), v);
      u := Finishes(cfg, s, v, h, rid, bid, rest[1..]);
      assert u.handlers == t.handlers[h := Accepting(rid, bid, AcceptReplied(200))];
    }
  }

  /** Whenever a bid is about to be inserted behind an accept that marks its losers, the
      accept can finish and the bid be inserted after: an open bid on a closed request. */
  lemma InsertBehindMarkingStaysOpen(cfg: Config, s: State, rid: Id, id: Id) returns (u: State)
    requires Interleaving.Inv(cfg, s) && InsertsBehindMarking(s, rid) && id !in s.store.bids
    ensures Reaches(cfg, s, u) && Interleaving.IsClosed(u.store, rid) && OpenBidOf(u.store, id, rid)
  {
    var h, k :| Marking(s, h, rid) && Inserting(s, k, rid);
    var hd := s.handlers[h];
    var row := Interleaving.RowOf(cfg, s, h, hd);
    assert Interleaving.HandlerOk(cfg, s, h, hd);
    Stay(cfg, s);
    var v := Finishes(cfg, s, s, h, rid, hd.bid, hd.pc.rest);
    u := InsertsBid(cfg, s, v, k, rid, s.handlers[k].body, id);
  }

  /** An accept marks its losers up to one of them. */
  lemma {:induction false} MarksUpTo(cfg: Config, s: State, t: State, h: Id, rid: Id, bid: Id, rest: seq<Id>, b: Id)
    returns (u: State)
    requires Reaches(cfg, s, t) && h in t.handlers && t.handlers[h] == Accepting(rid, bid, MarkLosers(rest))
    requires b in rest && forall x :: x in rest ==> x in t.store.bids
    ensures Reaches(cfg, s, u) && b in u.store.bids && u.store.bids[b].status == Lost
    decreases |rest|
  {
    assert rest[0] in rest && forall x :: x in rest[1..] ==> x in rest;
    var v := At(t, h, Accepting(rid, bid, MarkLosers(rest[1..]))).(store := t.store.SetBidStatus(rest[0], Lost));
    Then(cfg, s, t, Advance(h, NOTHING), v);
    if rest[0] == b {
      u := v;
    } else {
      assert b in rest[1..];
      u := MarksUpTo(cfg, s, v, h, rid, bid, rest[1..], b);
    }
  }

  /** Whenever a bid is about to be accepted while on another accept's list of losers, it can
      be accepted and lost after. */
  lemma ListedWinnerIsLost(cfg: Config, s: State, b: Id) returns (t: State, u: State)
    requires Interleaving.Inv(cfg, s) && WinnerIsListed(s, b)
    ensures Reaches(cfg, s, t) && IsAccepted(t.store, b)
    ensures Reaches(cfg, t, u) && b in u.store.bids && u.store.bids[b].status == Lost
  {
    var g, h :| WinsWhileListed(s, g, h, b);
    var hd := s.handlers[h];
    WinnerListedIsOverlap(cfg, s, g, h, b);
    assert Interleaving.HandlerOk(cfg, s, h, hd);
    Stay(cfg, s);
    t := MarksWinner(cfg, s, s, g, s.handlers[g].request, b);
    Stay(cfg, t);
    u := MarksUpTo(cfg, t, t, h, hd.request, hd.bid, hd.pc.rest, b);
  }
}
