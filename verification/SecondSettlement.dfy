/** How a request comes to be settled twice: two accepts in flight together, or one
    abandoned between inserting its settlement row and closing the request.  Without either
    there is one settlement at most, however bids are created meanwhile.  */
module SecondSettlement {
  import opened Models
  import opened Ledger
  import opened Protocol
  import Interleaving
  import Races
  import Settler

  predicate AcceptInFlight(s: State, h: Id, rid: Id) {
    h in s.handlers && s.handlers[h].Accepting? && s.handlers[h].request == rid && s.handlers[h].InFlight()
  }

  ghost predicate HasRow(store: Store, h: Id) {
    exists row :: row in store.settlements && row.id == h
  }

  ghost predicate AbandonedPastRow(s: State, h: Id, rid: Id) {
    && h in s.handlers && s.handlers[h].Accepting? && s.handlers[h].request == rid
    && s.handlers[h].pc.AcceptAbandoned? && HasRow(s.store, h)
  }

  /** At step `k` handler `h` reads its request, `rid`, and finds it open. */
  ghost predicate ReadsOpen(trace: seq<State>, actions: seq<Action>, h: Id, rid: Id, k: int) {
    && 0 <= k < |actions| < |trace|
    && actions[k].Advance? && actions[k].h == h
    && AcceptInFlight(trace[k], h, rid) && trace[k].handlers[h].pc.Fetch?
    && rid in trace[k].store.requests && trace[k].store.requests[rid].status == RequestOpen
    && !HasRow(trace[k].store, h)
  }

  // ----- what a handler that is done leaves behind -----

  /** A step inserts at most the row of the handler that makes it, and only once paid. */
  lemma RowsComeFromPaying(cfg: Config, s: State, a: Action, s': State, h: Id)
    requires Step(cfg, s, a, s') && HasRow(s'.store, h) && !HasRow(s.store, h)
    ensures a.Advance? && a.h == h && s.handlers[h].Accepting? && s.handlers[h].pc.Pay?
  {
    var row :| row in s'.store.settlements && row.id == h;
    assert row !in s.store.settlements;
  }

  /** A handler keeps its kind and its request; one that is done does not move and inserts
      no row. */
  ghost predicate Keeps(s: State, t: State, h: Id) {
    h in s.handlers ==>
      && h in t.handlers
      && t.handlers[h].Accepting? == s.handlers[h].Accepting?
      && t.handlers[h].request == s.handlers[h].request
      && (!s.handlers[h].InFlight() ==> t.handlers[h] == s.handlers[h] && (HasRow(t.store, h) ==> HasRow(s.store, h)))
  }

  lemma StepKeepsHandler(cfg: Config, s: State, a: Action, s': State, h: Id)
    requires Step(cfg, s, a, s')
    ensures Keeps(s, s', h)
  {
    if h in s.handlers && HasRow(s'.store, h) && !HasRow(s.store, h) {
      RowsComeFromPaying(cfg, s, a, s', h);
    }
  }

  lemma {:induction false} PathKeepsHandler(cfg: Config, trace: seq<State>, actions: seq<Action>, i: nat, j: nat, h: Id)
    requires Path(cfg, trace, actions) && i <= j < |trace|
    ensures Keeps(trace[i], trace[j], h)
    decreases j - i
  {
    if i < j {
      PathKeepsHandler(cfg, trace, actions, i, j - 1, h);
      StepKeepsHandler(cfg, trace[j - 1], actions[j - 1], trace[j], h);
    }
  }

  /** An accept that succeeded has closed its request. */
  ghost predicate SuccessCloses(s: State) {
    forall h :: h in s.handlers && s.handlers[h].Accepting? && s.handlers[h].pc == AcceptReplied(200) ==>
      Interleaving.IsClosed(s.store, s.handlers[h].request)
  }

  lemma SucceedsByClosing(cfg: Config, s: State, a: Action, s': State, h: Id)
    requires Step(cfg, s, a, s') && h in s'.handlers && s'.handlers[h].Accepting?
              && s'.handlers[h].pc == AcceptReplied(200)
    ensures (h in s.handlers && s.handlers[h] == s'.handlers[h])
              || Interleaving.IsClosed(s'.store, s'.handlers[h].request)
  {
  }

  lemma ClosedStaysClosed(cfg: Config, s: State, a: Action, s': State, rid: Id)
    requires Interleaving.Inv(cfg, s) && Step(cfg, s, a, s') && Interleaving.IsClosed(s.store, rid)
    ensures Interleaving.IsClosed(s'.store, rid)
  {
    Interleaving.StepKeepsInv(cfg, s, a, s');
  }

  lemma StepKeepsSuccessCloses(cfg: Config, s: State, a: Action, s': State)
    requires Interleaving.Inv(cfg, s) && Step(cfg, s, a, s') && SuccessCloses(s)
    ensures SuccessCloses(s')
  {
    forall h | h in s'.handlers && s'.handlers[h].Accepting? && s'.handlers[h].pc == AcceptReplied(200)
      ensures Interleaving.IsClosed(s'.store, s'.handlers[h].request)
    {
      SucceedsByClosing(cfg, s, a, s', h);
      if h in s.handlers && s'.handlers[h] == s.handlers[h] {
        ClosedStaysClosed(cfg, s, a, s', s.handlers[h].request);
      }
    }
  }

  lemma {:induction false} EveryRunSuccessCloses(cfg: Config, trace: seq<State>, actions: seq<Action>, n: nat)
    requires Run(cfg, trace, actions) && n < |trace|
    ensures SuccessCloses(trace[n])
  {
    if n > 0 {
      EveryRunSuccessCloses(cfg, trace, actions, n - 1);
      Interleaving.EveryRunKeepsInv(cfg, trace, actions, n - 1);
      StepKeepsSuccessCloses(cfg, trace[n - 1], actions[n - 1], trace[n]);
    }
  }

  // ----- every accept that settles has read the request open -----

  ghost predicate BeyondRead(s: State, h: Id, rid: Id) {
    && h in s.handlers && s.handlers[h].Accepting? && s.handlers[h].request == rid
    && (s.handlers[h].pc.CheckBid? || s.handlers[h].pc.Pay? || HasRow(s.store, h))
  }

  lemma RowsBelong(cfg: Config, s: State, h: Id)
    requires Interleaving.Inv(cfg, s) && HasRow(s.store, h)
    ensures h in s.handlers && s.handlers[h].Accepting?
              && (s.handlers[h].PastSettlement() || s.handlers[h].pc.AcceptAbandoned?)
  {
    var row :| row in s.store.settlements && row.id == h;
    assert Interleaving.SettlementOk(cfg, s, row);
  }

  /** A handler gets to check its bid, or to pay, from reading its request open. */
  lemma ChecksAfterReading(cfg: Config, s: State, a: Action, s': State, h: Id)
    requires Step(cfg, s, a, s') && h in s'.handlers && s'.handlers[h].Accepting?
    requires s'.handlers[h].pc.CheckBid? || s'.handlers[h].pc.Pay?
    ensures h in s.handlers && s.handlers[h].Accepting?
    ensures s.handlers[h].pc.CheckBid? || s.handlers[h].pc.Pay? ||
            (&& s.handlers[h].pc.Fetch? && a.Advance? && a.h == h
             && var rid := s.handlers[h].request;
             rid in s.store.requests && s.store.requests[rid].status == RequestOpen)
  {
  }

  lemma FirstBeyondRead(cfg: Config, s: State, a: Action, s': State, h: Id, rid: Id)
    requires Interleaving.Inv(cfg, s) && Step(cfg, s, a, s') && BeyondRead(s', h, rid)
    ensures BeyondRead(s, h, rid) ||
            (&& a.Advance? && a.h == h && AcceptInFlight(s, h, rid) && s.handlers[h].pc.Fetch?
             && rid in s.store.requests && s.store.requests[rid].status == RequestOpen && !HasRow(s.store, h))
  {
    StepKeepsHandler(cfg, s, a, s', h);
    if HasRow(s.store, h) {
      RowsBelong(cfg, s, h);
    } else if HasRow(s'.store, h) {
      RowsComeFromPaying(cfg, s, a, s', h);
    } else {
      ChecksAfterReading(cfg, s, a, s', h);
    }
  }

  lemma {:induction false} SettlerHasRead(cfg: Config, trace: seq<State>, actions: seq<Action>, n: nat, h: Id, rid: Id)
    returns (k: int)
    requires Run(cfg, trace, actions) && n < |trace| && BeyondRead(trace[n], h, rid)
    ensures k < n && ReadsOpen(trace, actions, h, rid, k)
  {
    Interleaving.EveryRunKeepsInv(cfg, trace, actions, n - 1);
    if BeyondRead(trace[n - 1], h, rid) {
      k := SettlerHasRead(cfg, trace, actions, n - 1, h, rid);
    } else {
      FirstBeyondRead(cfg, trace[n - 1], actions[n - 1], trace[n], h, rid);
      k := n - 1;
    }
  }

  // ----- two rows of one request -----

  /** When one accept reads its request open, another that has a row of the same request in
      the end has not begun, is in flight, or was abandoned past its row: it has not closed
      the request. */
  lemma OtherSettlerIsNotDone(cfg: Config, trace: seq<State>, actions: seq<Action>, n: nat, g: Id, h: Id, rid: Id,
                              k: int)
    requires Run(cfg, trace, actions) && n < |trace| && BeyondRead(trace[n], g, rid) && HasRow(trace[n].store, g)
    requires k < n && ReadsOpen(trace, actions, h, rid, k)
    ensures g !in trace[k].handlers || AcceptInFlight(trace[k], g, rid) || AbandonedPastRow(trace[k], g, rid)
  {
    PathKeepsHandler(cfg, trace, actions, k, n, g);
    EveryRunSuccessCloses(cfg, trace, actions, k);
    if g in trace[k].handlers && !trace[k].handlers[g].InFlight() && trace[k].handlers[g].pc.AcceptReplied? {
      Interleaving.EveryRunKeepsInv(cfg, trace, actions, k);
      if trace[k].handlers[g].pc.code != 200 {
        Interleaving.FailedHasNoRow(cfg, trace[k], g);
      }
    }
  }

  lemma RowsSettler(cfg: Config, trace: seq<State>, actions: seq<Action>, n: nat, row: Settlement)
    requires Run(cfg, trace, actions) && n < |trace| && row in trace[n].store.settlements
    ensures BeyondRead(trace[n], row.id, row.request) && HasRow(trace[n].store, row.id)
  {
    Interleaving.EveryRunKeepsInv(cfg, trace, actions, n);
    assert Interleaving.SettlementOk(cfg, trace[n], row);
  }

  /** Rows stay in the order they were inserted. */
  lemma EarlierRowIsThereFirst(cfg: Config, trace: seq<State>, actions: seq<Action>, k: nat, n: nat, i: nat, j: nat)
    requires Run(cfg, trace, actions) && k <= n < |trace| && i < j < |trace[n].store.settlements|
    requires HasRow(trace[k].store, trace[n].store.settlements[j].id)
    ensures HasRow(trace[k].store, trace[n].store.settlements[i].id)
  {
    Interleaving.EveryRunIsSafe(cfg, trace, actions, k, n);
    var before, after := trace[k].store.settlements, trace[n].store.settlements;
    var m :| 0 <= m < |before| && before[m].id == after[j].id;
    assert before[m] == after[m];
    assert m == j;
    assert before[i] == after[i] && before[i] in before;
  }

  ghost predicate Overlap(trace: seq<State>, g: Id, h: Id, rid: Id, k: int) {
    0 <= k < |trace| && AcceptInFlight(trace[k], g, rid) && AcceptInFlight(trace[k], h, rid)
  }

  /** Two settlements of one request take two accepts, and the one whose row is later read
      the request before the other closed it: while that one had not begun, was in flight,
      or was abandoned past its row.  So the two were in flight together at some moment, or
      the earlier one was abandoned past its row before the later one read. */
  lemma SecondSettlementTakes(cfg: Config, trace: seq<State>, actions: seq<Action>, n: nat, i: nat, j: nat)
    returns (read: int)
    requires Run(cfg, trace, actions) && n < |trace| && i < j < |trace[n].store.settlements|
    requires trace[n].store.settlements[i].request == trace[n].store.settlements[j].request
    ensures var rid := trace[n].store.settlements[i].request;
            var g, h := trace[n].store.settlements[i].id, trace[n].store.settlements[j].id;
            && g != h && read < n && ReadsOpen(trace, actions, h, rid, read)
            && (g !in trace[read].handlers || AcceptInFlight(trace[read], g, rid)
               || AbandonedPastRow(trace[read], g, rid))
            && ((exists k :: Overlap(trace, g, h, rid, k)) || AbandonedPastRow(trace[read], g, rid))
  {
    var earlier, later := trace[n].store.settlements[i], trace[n].store.settlements[j];
    var rid, g, h := earlier.request, earlier.id, later.id;
    Interleaving.EveryRunIsSafe(cfg, trace, actions, n, n);
    RowsSettler(cfg, trace, actions, n, earlier);
    RowsSettler(cfg, trace, actions, n, later);
    read := SettlerHasRead(cfg, trace, actions, n, h, rid);
    OtherSettlerIsNotDone(cfg, trace, actions, n, g, h, rid, read);
    if AcceptInFlight(trace[read], g, rid) {
      assert Overlap(trace, g, h, rid, read);
    } else if g !in trace[read].handlers {
      var k := LaterBeginnerOverlaps(cfg, trace, actions, n, i, j, read);
    }
  }

  /** The later row's accept read before the earlier row's began: it was still in flight
      when that one read. */
  lemma LaterBeginnerOverlaps(cfg: Config, trace: seq<State>, actions: seq<Action>, n: nat, i: nat, j: nat, read: int)
    returns (k: int)
    requires Run(cfg, trace, actions) && n < |trace| && i < j < |trace[n].store.settlements|
    requires trace[n].store.settlements[i].request == trace[n].store.settlements[j].request
    requires var rid := trace[n].store.settlements[i].request;
             read < n && ReadsOpen(trace, actions, trace[n].store.settlements[j].id, rid, read)
    requires trace[n].store.settlements[i].id !in trace[read].handlers
    ensures var earlier, later := trace[n].store.settlements[i], trace[n].store.settlements[j];
            Overlap(trace, earlier.id, later.id, earlier.request, k)
  {
    var earlier, later := trace[n].store.settlements[i], trace[n].store.settlements[j];
    var rid, g, h := earlier.request, earlier.id, later.id;
    RowsSettler(cfg, trace, actions, n, earlier);
    RowsSettler(cfg, trace, actions, n, later);
    k := SettlerHasRead(cfg, trace, actions, n, g, rid);
    if k < read {
      PathKeepsHandler(cfg, trace, actions, k, read, g);
    }
    OtherSettlerIsNotDone(cfg, trace, actions, n, h, g, rid, k);
    PathKeepsHandler(cfg, trace, actions, read, k, h);
    if AbandonedPastRow(trace[k], h, rid) {
      EarlierRowIsThereFirst(cfg, trace, actions, k, n, i, j);
    }
  }

  // ----- one accept at a time -----

  /** No accept on `rid` begins while another is in flight, and none is abandoned between
      inserting its row and closing the request.  Bids may be created at any time, other
      abandonments happen, and other requests are free. */
  ghost predicate SerialAccepts(trace: seq<State>, actions: seq<Action>, rid: Id) {
    |trace| == |actions| + 1 && forall i {:trigger actions[i]} :: 0 <= i < |actions| ==>
      SerialAction(trace[i], actions[i], rid)
  }

  ghost predicate SerialAction(s: State, a: Action, rid: Id) {
    match a
    case BeginAccept(_, r, _) => r == rid ==> forall h :: !AcceptInFlight(s, h, rid)
    case Abandon(h) => AcceptInFlight(s, h, rid) ==> !s.handlers[h].PastSettlement()
    case _ => true
  }

  ghost predicate SerialState(s: State, rid: Id) {
    && (forall g, h :: AcceptInFlight(s, g, rid) && AcceptInFlight(s, h, rid) ==> g == h)
    && (forall h :: !AbandonedPastRow(s, h, rid))
  }

  lemma StepKeepsSerial(cfg: Config, s: State, a: Action, s': State, rid: Id)
    requires Interleaving.Inv(cfg, s) && Step(cfg, s, a, s')
    requires SerialState(s, rid) && SerialAction(s, a, rid)
    ensures SerialState(s', rid)
  {
    forall h
      ensures !AbandonedPastRow(s', h, rid)
    {
      if AbandonedPastRow(s', h, rid) {
        NewlyAbandoned(cfg, s, a, s', h, rid);
      }
    }
    forall h | AcceptInFlight(s', h, rid)
      ensures AcceptInFlight(s, h, rid) || (a.BeginAccept? && a.h == h && a.rid == rid)
    {
      WasInFlight(cfg, s, a, s', h, rid);
    }
  }

  lemma WasInFlight(cfg: Config, s: State, a: Action, s': State, h: Id, rid: Id)
    requires Step(cfg, s, a, s') && AcceptInFlight(s', h, rid)
    ensures AcceptInFlight(s, h, rid) || (a.BeginAccept? && a.h == h && a.rid == rid)
  {
  }

  lemma AbandonsOrKeeps(cfg: Config, s: State, a: Action, s': State, h: Id)
    requires Step(cfg, s, a, s') && h in s'.handlers && s'.handlers[h].Accepting? && s'.handlers[h].pc.AcceptAbandoned?
    ensures h in s.handlers
    ensures s.handlers[h] == s'.handlers[h] ||
            (a == Abandon(h) && AcceptInFlight(s, h, s'.handlers[h].request) && s'.store == s.store)
  {
  }

  lemma NewlyAbandoned(cfg: Config, s: State, a: Action, s': State, h: Id, rid: Id)
    requires Interleaving.Inv(cfg, s) && Step(cfg, s, a, s') && AbandonedPastRow(s', h, rid)
    ensures AbandonedPastRow(s, h, rid)
              || (a == Abandon(h) && AcceptInFlight(s, h, rid) && s.handlers[h].PastSettlement())
  {
    AbandonsOrKeeps(cfg, s, a, s', h);
    StepKeepsHandler(cfg, s, a, s', h);
    if HasRow(s.store, h) {
      RowsBelong(cfg, s, h);
    }
  }

  lemma {:induction false} SerialRunStaysSerial(cfg: Config, trace: seq<State>, actions: seq<Action>, n: nat, rid: Id)
    requires Run(cfg, trace, actions) && n < |trace| && SerialAccepts(trace, actions, rid)
    ensures SerialState(trace[n], rid)
  {
    if n > 0 {
      SerialRunStaysSerial(cfg, trace, actions, n - 1, rid);
      Interleaving.EveryRunKeepsInv(cfg, trace, actions, n - 1);
      StepKeepsSerial(cfg, trace[n - 1], actions[n - 1], trace[n], rid);
    }
  }

  /** With accepts on a request one at a time, and none abandoned past its row, the request
      has at most one settlement at every moment, however bids are created meanwhile. */
  lemma SerialAcceptsSettleOnce(cfg: Config, trace: seq<State>, actions: seq<Action>, n: nat, rid: Id)
    requires Run(cfg, trace, actions) && n < |trace| && SerialAccepts(trace, actions, rid)
    ensures |trace[n].store.SettlementsOf(rid)| <= 1 && !GetSettlement(trace[n].store, rid).MultipleRows?
  {
    if 1 < |trace[n].store.SettlementsOf(rid)| {
      var i, j := TwoMatchesAreTwoRows(trace[n].store.settlements, rid);
      var read := SecondSettlementTakes(cfg, trace, actions, n, i, j);
      var g, h := trace[n].store.settlements[i].id, trace[n].store.settlements[j].id;
      SerialRunStaysSerial(cfg, trace, actions, read, rid);
      var k :| Overlap(trace, g, h, rid, k);
      SerialRunStaysSerial(cfg, trace, actions, k, rid);
    }
  }

  // ----- and nothing more -----

  /** An accept sends the legs it still has to send and inserts its row. */
  lemma {:induction false} SettlesFrom(cfg: Config, s: State, t: State, h: Id, rid: Id, bid: Id, loan: int,
                                       hashes: seq<nat>)
    returns (u: State, row: Settlement)
    requires Reaches(cfg, s, t) && Races.Payable(cfg, loan) && |hashes| <= 3
    requires h in t.handlers && t.handlers[h] == Accepting(rid, bid, Pay(loan, hashes))
    ensures Reaches(cfg, s, u) && row.request == rid
    ensures u.store.settlements == t.store.settlements + [row]
    decreases 3 - |hashes|
  {
    if |hashes| == 3 {
      row := Settlement(h, rid, bid, hashes[0], hashes[1], hashes[2]);
      u := At(t, h, Accepting(rid, bid, MarkWinner))
           .(store := t.store.(settlements := t.store.settlements + [row]));
      Races.Then(cfg, s, t, Advance(h, Races.NOTHING), u);
    } else {
      var v := Races.PaysOne(cfg, s, t, h, rid, bid, loan, hashes);
      u, row := SettlesFrom(cfg, s, v, h, rid, bid, loan, hashes + [|t.chain|]);
    }
  }

  /** A settled request is worth settling: its row was paid for. */
  lemma SettledIsPayable(cfg: Config, s: State, row: Settlement)
    requires Interleaving.Inv(cfg, s) && row in s.store.settlements
    ensures row.request in s.store.requests && Races.Payable(cfg, s.store.requests[row.request].loan)
  {
    assert Interleaving.SettlementOk(cfg, s, row);
    var loan := s.store.requests[row.request].loan;
    forall place | 0 <= place < 3
      ensures 0 < LegAmount(Settler.ComputeSplits(loan, cfg.rate), place)
    {
      var hash := if place == 0 then row.dealerTx else if place == 1 then row.marketplaceTx else row.reserveTx;
      assert Interleaving.PaidLeg(cfg, s.chain, row.id, hash, place, loan);
    }
  }

  /** Whenever an accept is paying on a request that has a settlement, it can pay on and
      settle it again. */
  lemma PayingOnSettledSettlesAgain(cfg: Config, s: State, h: Id, row: Settlement) returns (u: State)
    requires Interleaving.Inv(cfg, s) && row in s.store.settlements
    requires AcceptInFlight(s, h, row.request) && s.handlers[h].pc.Pay?
    ensures Reaches(cfg, s, u) && GetSettlement(u.store, row.request).MultipleRows?
  {
    var rid, hd := row.request, s.handlers[h];
    SettledIsPayable(cfg, s, row);
    assert Interleaving.HandlerOk(cfg, s, h, hd);
    Races.Stay(cfg, s);
    var again;
    u, again := SettlesFrom(cfg, s, s, h, rid, hd.bid, hd.pc.loan, hd.pc.hashes);
    MatchingFinds(s.store.settlements, rid);
    assert row in s.store.SettlementsOf(rid);
    MatchingAfterInsert(s.store.settlements, again, rid);
  }
}
