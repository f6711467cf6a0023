/** Where the money of the accepts went: every transfer that landed is recorded by a settlement
    row, or was sent by an accept that is still paying, failed, or was abandoned.  */
module Accounting {
  import opened Models
  import opened Ledger
  import opened Protocol
  import Interleaving
  import SecondSettlement
  import Treasury

  function TxAt(row: Settlement, place: nat): nat {
    if place == 0 then row.dealerTx else if place == 1 then row.marketplaceTx else row.reserveTx
  }

  /** The row of the leg's sender records the leg at its place. */
  ghost predicate Recorded(s: State, k: nat)
    requires k < |s.chain|
  {
    exists row :: row in s.store.settlements && RecordedBy(s.chain[k], k, row)
  }

  predicate RecordedBy(leg: Leg, k: nat, row: Settlement) {
    row.id == leg.sender && TxAt(row, leg.place) == k
  }

  /** No row records the leg: its sender is still paying and holds its hash, was answered 502,
      or was abandoned before its row. */
  ghost predicate Stranded(s: State, k: nat)
    requires k < |s.chain|
  {
    var leg := s.chain[k];
    && !SecondSettlement.HasRow(s.store, leg.sender)
    && leg.sender in s.handlers && s.handlers[leg.sender].Accepting?
    && Unsettled(s.handlers[leg.sender].pc, leg.place, k)
  }

  predicate Unsettled(pc: AcceptPc, place: nat, k: nat) {
    match pc
    case Pay(_, hashes) => place < |hashes| && hashes[place] == k
    case AcceptReplied(code) => code == 502
    case AcceptAbandoned => true
    case _ => false
  }

  ghost predicate Accounted(s: State, k: nat)
    requires k < |s.chain|
  {
    s.chain[k].place < 3 && (Recorded(s, k) || Stranded(s, k))
  }

  ghost predicate AllAccounted(s: State) {
    forall k: nat :: k < |s.chain| ==> Accounted(s, k)
  }

  // ----- every step -----

  lemma RecordedStays(s: State, s': State, k: nat)
    requires Interleaving.Grows(s, s') && k < |s.chain| && Recorded(s, k)
    ensures k < |s'.chain| && s'.chain[k] == s.chain[k] && Recorded(s', k)
  {
    var row :| row in s.store.settlements && RecordedBy(s.chain[k], k, row);
    Interleaving.PrefixMembers(s, s');
    assert row in s'.store.settlements;
  }

  /** What becomes of an accept that has a leg on the chain but no row: it pays on, fails, or
      inserts the row that records the leg ... */
  lemma PayingMoves(cfg: Config, s: State, h: Id, c: Choice, s': State, place: nat, k: nat)
    requires Step(cfg, s, Advance(h, c), s') && place < 3
    requires s.handlers[h].Accepting? && s.handlers[h].pc.Pay? && |s.handlers[h].pc.hashes| <= 3
    requires Unsettled(s.handlers[h].pc, place, k)
    ensures h in s'.handlers && s'.handlers[h].Accepting?
    ensures Unsettled(s'.handlers[h].pc, place, k) || NewestRecords(s'.store, h, place, k)
  {
  }

  /** ... or, while others move, it stays where it is or is abandoned. */
  lemma OthersMove(cfg: Config, s: State, a: Action, s': State, h: Id, place: nat, k: nat)
    requires Step(cfg, s, a, s') && !(a.Advance? && a.h == h)
    requires h in s.handlers && s.handlers[h].Accepting? && Unsettled(s.handlers[h].pc, place, k)
    ensures h in s'.handlers && s'.handlers[h].Accepting? && Unsettled(s'.handlers[h].pc, place, k)
  {
  }

  predicate NewestRecords(store: Store, h: Id, place: nat, k: nat) {
    store.settlements != [] && RecordsAt(store.settlements[|store.settlements| - 1], h, place, k)
  }

  lemma UnsettledMoves(cfg: Config, s: State, a: Action, s': State, h: Id, place: nat, k: nat)
    requires Interleaving.HandlersOk(cfg, s) && Step(cfg, s, a, s') && place < 3
    requires h in s.handlers && s.handlers[h].Accepting? && Unsettled(s.handlers[h].pc, place, k)
    ensures h in s'.handlers && s'.handlers[h].Accepting?
    ensures Unsettled(s'.handlers[h].pc, place, k) || NewestRecords(s'.store, h, place, k)
  {
    if a.Advance? && a.h == h {
      assert Interleaving.HandlerOk(cfg, s, h, s.handlers[h]);
      PayingMoves(cfg, s, h, a.choice, s', place, k);
    } else {
      OthersMove(cfg, s, a, s', h, place, k);
    }
  }

  predicate RecordsAt(row: Settlement, h: Id, place: nat, k: nat) {
    row.id == h && TxAt(row, place) == k
  }

  /** A row that is new is that of an accept that has just paid all three legs. */
  lemma NewRowRecords(cfg: Config, s: State, a: Action, s': State, h: Id, place: nat, k: nat)
    requires Interleaving.Inv(cfg, s) && Step(cfg, s, a, s') && place < 3
    requires h in s.handlers && s.handlers[h].Accepting? && Unsettled(s.handlers[h].pc, place, k)
    requires SecondSettlement.HasRow(s'.store, h) && !SecondSettlement.HasRow(s.store, h)
    ensures NewestRecords(s'.store, h, place, k)
  {
    SecondSettlement.RowsComeFromPaying(cfg, s, a, s', h);
    assert Interleaving.HandlerOk(cfg, s, h, s.handlers[h]);
  }

  lemma OldLegStays(cfg: Config, s: State, a: Action, s': State, k: nat)
    requires Interleaving.Inv(cfg, s) && Step(cfg, s, a, s') && Interleaving.Grows(s, s')
    requires k < |s.chain| && Accounted(s, k)
    ensures k < |s'.chain| && Accounted(s', k)
  {
    if Recorded(s, k) {
      RecordedStays(s, s', k);
    } else {
      var leg := s.chain[k];
      assert s'.chain[k] == leg;
      UnsettledMoves(cfg, s, a, s', leg.sender, leg.place, k);
      if SecondSettlement.HasRow(s'.store, leg.sender) {
        NewRowRecords(cfg, s, a, s', leg.sender, leg.place, k);
      }
      if s'.store.settlements != [] {
        var row := s'.store.settlements[|s'.store.settlements| - 1];
        assert row in s'.store.settlements;
        assert RecordsAt(row, leg.sender, leg.place, k) ==> RecordedBy(leg, k, row);
      }
    }
  }

  /** A leg that is new has just been sent by an accept that is paying. */
  lemma NewLegIsHeld(cfg: Config, s: State, a: Action, s': State, k: nat)
    requires Interleaving.HandlersOk(cfg, s) && Step(cfg, s, a, s') && |s.chain| <= k < |s'.chain|
    ensures Accounted(s', k)
  {
    OnlyPayingSends(cfg, s, a, s');
    assert Interleaving.HandlerOk(cfg, s, a.h, s.handlers[a.h]);
  }

  lemma OnlyPayingSends(cfg: Config, s: State, a: Action, s': State)
    requires Step(cfg, s, a, s') && |s.chain| < |s'.chain|
    ensures a.Advance? && s.handlers[a.h].Accepting? && s.handlers[a.h].pc.Pay? && s'.store == s.store
    ensures var hashes := s.handlers[a.h].pc.hashes;
            && |hashes| < 3 && |s'.chain| == |s.chain| + 1
            && s'.chain[|s.chain|].sender == a.h && s'.chain[|s.chain|].place == |hashes|
            && a.h in s'.handlers && s'.handlers[a.h].Accepting? && s'.handlers[a.h].pc.Pay?
            && s'.handlers[a.h].pc.hashes == hashes + [|s.chain|]
  {
  }

  lemma StepKeepsAccounted(cfg: Config, s: State, a: Action, s': State)
    requires Interleaving.Inv(cfg, s) && Step(cfg, s, a, s') && AllAccounted(s)
    ensures AllAccounted(s')
  {
    Interleaving.StepKeepsInv(cfg, s, a, s');
    forall k: nat | k < |s'.chain|
      ensures Accounted(s', k)
    {
      if k < |s.chain| {
        OldLegStays(cfg, s, a, s', k);
      } else {
        NewLegIsHeld(cfg, s, a, s', k);
      }
    }
  }

  /** In every run, whatever interleaves or is abandoned: each landed leg is recorded by the
      settlement row of its sender, or its sender has no row and is still paying, was
      answered 502, or was abandoned. */
  lemma {:induction false} EveryLegIsAccountedFor(cfg: Config, trace: seq<State>, actions: seq<Action>, n: nat)
    requires Run(cfg, trace, actions) && n < |trace|
    ensures AllAccounted(trace[n])
  {
    if n > 0 {
      EveryLegIsAccountedFor(cfg, trace, actions, n - 1);
      Interleaving.EveryRunKeepsInv(cfg, trace, actions, n - 1);
      StepKeepsAccounted(cfg, trace[n - 1], actions[n - 1], trace[n]);
    }
  }

  // ----- the totals -----

  function ChainTotal(chain: seq<Leg>): int {
    if chain == [] then 0 else ChainTotal(chain[..|chain| - 1]) + chain[|chain| - 1].payment.amount
  }

  /** The amounts of the legs at some places. */
  function TotalAt(chain: seq<Leg>, places: set<nat>): int {
    if chain == [] then 0
    else
      var last := |chain| - 1;
      TotalAt(chain[..last], places) + (if last in places then chain[last].payment.amount else 0)
  }

  lemma {:induction false} OneMorePlace(chain: seq<Leg>, places: set<nat>, k: nat)
    requires k !in places
    ensures TotalAt(chain, places + {k}) == TotalAt(chain, places) + Treasury.AmountAt(chain, k)
  {
    if chain != [] {
      var last := |chain| - 1;
      OneMorePlace(chain[..last], places, k);
      assert k < last ==> chain[..last][k] == chain[k];
    }
  }

  lemma {:induction false} TwoHalves(chain: seq<Leg>, some: set<nat>, others: set<nat>)
    requires forall k: nat :: k < |chain| ==> (k in some <==> k !in others)
    ensures ChainTotal(chain) == TotalAt(chain, some) + TotalAt(chain, others)
  {
    if chain != [] {
      TwoHalves(chain[..|chain| - 1], some, others);
    }
  }

  lemma {:induction false} NothingAtNoPlace(chain: seq<Leg>)
    ensures TotalAt(chain, {}) == 0
  {
    if chain != [] {
      NothingAtNoPlace(chain[..|chain| - 1]);
    }
  }

  /** The places that the rows record. */
  function PlacesOf(rows: seq<Settlement>): set<nat> {
    if rows == [] then {}
    else
      var last := rows[|rows| - 1];
      PlacesOf(rows[..|rows| - 1]) + {last.dealerTx} + {last.marketplaceTx} + {last.reserveTx}
  }

  lemma {:induction false} PlacesAreRecorded(rows: seq<Settlement>, k: nat)
    ensures k in PlacesOf(rows) <==>
            exists row :: row in rows && (k == row.dealerTx || k == row.marketplaceTx || k == row.reserveTx)
  {
    if rows != [] {
      var init, last := rows[..|rows| - 1], rows[|rows| - 1];
      PlacesAreRecorded(init, k);
      assert rows == init + [last];
    }
  }

  /** The row's hashes are places of legs its own handler sent, each as the leg it is. */
  predicate RowOnChain(chain: seq<Leg>, row: Settlement) {
    && row.dealerTx < |chain| && chain[row.dealerTx].sender == row.id && chain[row.dealerTx].place == 0
    && row.marketplaceTx < |chain| && chain[row.marketplaceTx].sender == row.id && chain[row.marketplaceTx].place == 1
    && row.reserveTx < |chain| && chain[row.reserveTx].sender == row.id && chain[row.reserveTx].place == 2
  }

  predicate RowsOnChain(chain: seq<Leg>, rows: seq<Settlement>) {
    && (forall i :: 0 <= i < |rows| ==> RowOnChain(chain, rows[i]))
    && (forall i, j :: 0 <= i < j < |rows| ==> rows[i].id != rows[j].id)
  }

  lemma {:induction false} PlacesPayOut(chain: seq<Leg>, rows: seq<Settlement>)
    requires RowsOnChain(chain, rows)
    ensures TotalAt(chain, PlacesOf(rows)) == Treasury.PaidOut(rows, chain).premium
  {
    if rows == [] {
      NothingAtNoPlace(chain);
    } else {
      var init, last := rows[..|rows| - 1], rows[|rows| - 1];
      PlacesPayOut(chain, init);
      LastPlacesAreNew(chain, rows, last.dealerTx);
      LastPlacesAreNew(chain, rows, last.marketplaceTx);
      LastPlacesAreNew(chain, rows, last.reserveTx);
      var places := PlacesOf(init);
      assert RowOnChain(chain, last);
      OneMorePlace(chain, places, last.dealerTx);
      OneMorePlace(chain, places + {last.dealerTx}, last.marketplaceTx);
      OneMorePlace(chain, places + {last.dealerTx} + {last.marketplaceTx}, last.reserveTx);
    }
  }

  lemma LastPlacesAreNew(chain: seq<Leg>, rows: seq<Settlement>, k: nat)
    requires rows != [] && RowsOnChain(chain, rows)
    requires k < |chain| && chain[k].sender == rows[|rows| - 1].id
    ensures k !in PlacesOf(rows[..|rows| - 1])
  {
    var init := rows[..|rows| - 1];
    PlacesAreRecorded(init, k);
    forall row | row in init
      ensures k != row.dealerTx && k != row.marketplaceTx && k != row.reserveTx
    {
      var i :| 0 <= i < |init| && init[i] == row;
      assert RowOnChain(chain, rows[i]);
    }
  }

  lemma RowsAreOnChain(cfg: Config, s: State)
    requires Interleaving.Inv(cfg, s)
    ensures RowsOnChain(s.chain, s.store.settlements)
  {
    forall i | 0 <= i < |s.store.settlements|
      ensures RowOnChain(s.chain, s.store.settlements[i])
    {
      assert Interleaving.SettlementOk(cfg, s, s.store.settlements[i]);
    }
  }

  ghost function StrandedPlaces(s: State): set<nat> {
    set k: nat | k < |s.chain| && Stranded(s, k)
  }

  lemma RecordedIsNotStranded(s: State, k: nat)
    requires RowsOnChain(s.chain, s.store.settlements) && k < |s.chain| && k in PlacesOf(s.store.settlements)
    ensures !Stranded(s, k)
  {
    var rows := s.store.settlements;
    PlacesAreRecorded(rows, k);
    var row :| row in rows && (k == row.dealerTx || k == row.marketplaceTx || k == row.reserveTx);
    var i :| 0 <= i < |rows| && rows[i] == row;
    assert RowOnChain(s.chain, rows[i]);
  }

  lemma UnrecordedIsStranded(s: State, k: nat)
    requires k < |s.chain| && Accounted(s, k) && k !in PlacesOf(s.store.settlements)
    ensures Stranded(s, k)
  {
    PlacesAreRecorded(s.store.settlements, k);
  }

  /** A leg is at a recorded place exactly when it is not stranded. */
  lemma RecordedOrStranded(s: State, k: nat)
    requires RowsOnChain(s.chain, s.store.settlements) && AllAccounted(s) && k < |s.chain|
    ensures k in PlacesOf(s.store.settlements) <==> k !in StrandedPlaces(s)
  {
    if k in PlacesOf(s.store.settlements) {
      RecordedIsNotStranded(s, k);
    } else {
      assert Accounted(s, k);
      UnrecordedIsStranded(s, k);
    }
  }

  /** At every moment of every run: what has left the marketplace's wallet in settlement
      transfers is what the settlement rows paid out, plus exactly the stranded legs. */
  lemma ChainIsPaidOutPlusStranded(cfg: Config, trace: seq<State>, actions: seq<Action>, n: nat)
    requires Run(cfg, trace, actions) && n < |trace|
    ensures var s := trace[n];
            ChainTotal(s.chain) ==
            Treasury.PaidOut(s.store.settlements, s.chain).premium + TotalAt(s.chain, StrandedPlaces(s))
  {
    var s := trace[n];
    Interleaving.EveryRunKeepsInv(cfg, trace, actions, n);
    EveryLegIsAccountedFor(cfg, trace, actions, n);
    RowsAreOnChain(cfg, s);
    PlacesPayOut(s.chain, s.store.settlements);
    forall k: nat | k < |s.chain|
      ensures k in PlacesOf(s.store.settlements) <==> k !in StrandedPlaces(s)
    {
      RecordedOrStranded(s, k);
    }
    TwoHalves(s.chain, PlacesOf(s.store.settlements), StrandedPlaces(s));
  }
}
