/** The two readings of `accept_bid` agree: its transactions, when nothing else runs between
    them, make of the ledger and of the chain exactly what the uninterrupted method makes of
    them. */
module SoloPayment {
  import opened Models
  import opened Settler
  import opened Wallets
  import opened Protocol
  import opened SettleRoute
  import opened SoloAccept

  // ----- what goes onto the chain -----

  function Payouts(cfg: Config, loan: int): seq<Payout>
    requires cfg.payout.Some?
  {
    SettlementPayouts(cfg.payout.value, ComputeSplits(loan, cfg.rate))
  }

  function Legs(cfg: Config, h: Id, loan: int, n: nat): (legs: seq<Leg>)
    requires cfg.payout.Some?
    ensures |legs| == n
  {
    seq(n, i requires 0 <= i < n => LegOf(cfg, h, i, loan))
  }

  /** The first `n` legs have landed, each one because it may. */
  predicate Sent(cfg: Config, h: Id, before: seq<Leg>, loan: int, n: nat, refused: Refusals, chain: seq<Leg>) {
    && cfg.payout.Some? && n <= 3
    && chain == before + Legs(cfg, h, loan, n)
    && forall i :: 0 <= i < n ==> Lands(Payouts(cfg, loan)[i], |before| + i, refused)
  }

  ghost predicate Stopped(cfg: Config, h: Id, before: seq<Leg>, loan: int, refused: Refusals, chain: seq<Leg>) {
    exists n: nat :: n < 3 && Sent(cfg, h, before, loan, n, refused, chain)
      && !Lands(Payouts(cfg, loan)[n], |before| + n, refused)
  }

  /** What handler `h` has sent at each of its places, and which place was refused it. */
  ghost predicate Sending(cfg: Config, h: Id, start: State, rid: Id, bid: Id, pc: AcceptPc, row: Settlement,
                          refused: Refusals, chain: seq<Leg>) {
    var place := |start.chain|;
    match pc
    case Fetch => chain == start.chain && refused == {}
    case CheckBid(loan) => chain == start.chain && refused == {} && rid in start.store.requests
      && loan == start.store.requests[rid].loan
    case Pay(loan, hashes) =>
      && refused == {} && rid in start.store.requests && loan == start.store.requests[rid].loan
      && Sent(cfg, h, start.chain, loan, |hashes|, refused, chain) && hashes == PlacesFrom(place, |hashes|)
    case AcceptReplied(code) =>
      if code == 502 then
        && Acceptable(start.store, rid, bid)
        && Stopped(cfg, h, start.chain, start.store.requests[rid].loan, refused, chain)
      else if code == 200 then SentAll(cfg, h, start, rid, bid, row, refused, chain)
      else chain == start.chain && refused == {}
    case AcceptAbandoned => true
    case _ => SentAll(cfg, h, start, rid, bid, row, refused, chain)
  }

  predicate SentAll(cfg: Config, h: Id, start: State, rid: Id, bid: Id, row: Settlement, refused: Refusals,
                    chain: seq<Leg>) {
    && refused == {} && rid in start.store.requests
    && Sent(cfg, h, start.chain, start.store.requests[rid].loan, 3, refused, chain)
    && row == Settlement(h, rid, bid, |start.chain|, |start.chain| + 1, |start.chain| + 2)
  }

  /** One more leg lands, or the accept stops. */
  lemma PaySends(cfg: Config, start: State, s: State, h: Id, c: Choice, s': State, row: Settlement)
    returns (refused: Refusals)
    requires Step(cfg, s, Advance(h, c), s') && s.handlers[h].Accepting? && s.handlers[h].pc.Pay?
              && |s.handlers[h].pc.hashes| < 3
    requires Acceptable(start.store, s.handlers[h].request, s.handlers[h].bid)
    requires Sending(cfg, h, start, s.handlers[h].request, s.handlers[h].bid, s.handlers[h].pc, row, {}, s.chain)
    ensures Sending(cfg, h, start, s.handlers[h].request, s.handlers[h].bid, s'.handlers[h].pc, row, refused, s'.chain)
    ensures refused != {} ==> refused == {|s.chain|} && !c.goesThrough
  {
    var hd := s.handlers[h];
    var loan, n := hd.pc.loan, |hd.pc.hashes|;
    refused := if c.goesThrough then {} else {|s.chain|};
    assert |s.chain| == |start.chain| + n;
    assert Payouts(cfg, loan)[n].amount == LegAmount(ComputeSplits(loan, cfg.rate), n);
    if s'.handlers[h].pc.Pay? {
      assert Legs(cfg, h, loan, n + 1) == Legs(cfg, h, loan, n) + [LegOf(cfg, h, n, loan)];
      assert Sent(cfg, h, start.chain, loan, n + 1, {}, s'.chain);
      refused := {};
    } else {
      assert Sent(cfg, h, start.chain, loan, n, refused, s'.chain);
    }
  }

  lemma StepSends(cfg: Config, start: State, s: State, h: Id, c: Choice, s': State, row: Settlement, row': Settlement,
                  refused: Refusals)
    returns (refused': Refusals)
    requires Step(cfg, s, Advance(h, c), s') && s.handlers[h].Accepting?
    requires Along(cfg, start.store, s.handlers[h].request, s.handlers[h].bid, s.handlers[h].pc, row, s.store)
    requires Sending(cfg, h, start, s.handlers[h].request, s.handlers[h].bid, s.handlers[h].pc, row, refused, s.chain)
    requires if Inserts(s.handlers[h].pc) then s'.store.settlements != [] && row' == NewestRow(s'.store)
              else row' == row
    ensures Sending(cfg, h, start, s.handlers[h].request, s.handlers[h].bid, s'.handlers[h].pc, row', refused',
              s'.chain)
    ensures refused' == refused || (refused' == {|s.chain|} && !c.goesThrough)
  {
    refused' := refused;
    var hd := s.handlers[h];
    if hd.pc.Pay? && |hd.pc.hashes| < 3 {
      refused' := PaySends(cfg, start, s, h, c, s', row);
    } else if hd.pc.CheckBid? {
      if cfg.payout.Some? {
        assert Legs(cfg, h, hd.pc.loan, 0) == [];
        assert Sent(cfg, h, start.chain, hd.pc.loan, 0, {}, s.chain);
      }
    } else if hd.pc.MarkLosers? && hd.pc.rest != [] {
      assert hd.pc.rest[0] in hd.pc.rest;
    }
  }

  // ----- the whole run -----

  /** Each refused place was refused by a choice of the run. */
  ghost predicate ReadOff(trace: seq<State>, actions: seq<Action>, refused: Refusals) {
    forall p :: p in refused ==> exists i :: RefusedAt(trace, actions, p, i)
  }

  predicate RefusedAt(trace: seq<State>, actions: seq<Action>, p: nat, i: int) {
    0 <= i < |actions| && i < |trace| && actions[i].Advance? && !actions[i].choice.goesThrough && p == |trace[i].chain|
  }

  lemma {:induction false} PathSends(cfg: Config, trace: seq<State>, actions: seq<Action>, h: Id, rid: Id, bid: Id,
                                     i: nat)
    returns (row: Settlement, refused: Refusals)
    requires SoloPath(cfg, trace, actions, h) && i < |trace|
    requires h in trace[0].handlers && trace[0].handlers[h] == Accepting(rid, bid, Fetch)
    ensures h in trace[i].handlers && trace[i].handlers[h].Accepting?
    ensures trace[i].handlers[h].request == rid && trace[i].handlers[h].bid == bid
    ensures Along(cfg, trace[0].store, rid, bid, trace[i].handlers[h].pc, row, trace[i].store)
    ensures Sending(cfg, h, trace[0], rid, bid, trace[i].handlers[h].pc, row, refused, trace[i].chain)
    ensures ReadOff(trace, actions, refused)
  {
    if i == 0 {
      row, refused := Settlement(0, 0, 0, 0, 0, 0), {};
    } else {
      var before, soFar := PathSends(cfg, trace, actions, h, rid, bid, i - 1);
      assert actions[i - 1].Advance? && actions[i - 1].h == h;
      row := StepAlong(cfg, trace[0].store, trace[i - 1], h, actions[i - 1].choice, trace[i], before);
      refused := StepSends(cfg, trace[0], trace[i - 1], h, actions[i - 1].choice, trace[i], before, row, soFar);
      if refused != soFar {
        assert RefusedAt(trace, actions, |trace[i - 1].chain|, i - 1);
      }
    }
  }

  function PaymentsOn(chain: seq<Leg>): (ts: seq<Transfer>)
    ensures |ts| == |chain|
  {
    seq(|chain|, i requires 0 <= i < |chain| => chain[i].payment)
  }

  lemma SentIsPrefix(cfg: Config, h: Id, before: seq<Leg>, loan: int, n: nat, refused: Refusals, chain: seq<Leg>)
    requires Sent(cfg, h, before, loan, n, refused, chain)
    requires n < 3 ==> !Lands(Payouts(cfg, loan)[n], |before| + n, refused)
    ensures LandedCount(Payouts(cfg, loan), |before|, refused) == n
    ensures PaymentsOn(chain) == PaymentsOn(before) + TransfersTo(cfg.payout.value.source, Payouts(cfg, loan)[..n])
  {
    LandedCountIs(Payouts(cfg, loan), |before|, refused, n);
  }

  /** Run alone to its reply, the protocol's accept does what `AcceptBid` does on a network
      with the same refusals: the same answer; the accepted store on 200, with the hashes of
      the three transfers, the untouched one otherwise; and on the chain exactly the payouts
      that land before the first that does not. */
  lemma SoloAcceptRefinesMethod(cfg: Config, trace: seq<State>, actions: seq<Action>, h: Id, rid: Id, bid: Id)
    returns (refused: Refusals)
    requires SoloPath(cfg, trace, actions, h)
    requires h in trace[0].handlers && trace[0].handlers[h] == Accepting(rid, bid, Fetch)
    requires h in trace[|actions|].handlers && trace[|actions|].handlers[h].Accepting?
    requires trace[|actions|].handlers[h].pc.AcceptReplied?
    ensures ReadOff(trace, actions, refused)
    ensures var start, last, place := trace[0], trace[|actions|], |trace[0].chain|;
            var code := last.handlers[h].pc.code;
            && code == AcceptCode(start.store, ResolutionOf(cfg), cfg.rate, rid, bid, place, refused)
            && (if code == 200 then
                  && rid in start.store.requests && bid in start.store.bids
                  && last.store == AcceptedStore(start.store, Settlement(h, rid, bid, place, place + 1, place + 2))
                else last.store == start.store)
            && (if code == 200 || code == 502 then
                  && rid in start.store.requests && cfg.payout.Some?
                  && var payouts := Payouts(cfg, start.store.requests[rid].loan);
                  PaymentsOn(last.chain) == PaymentsOn(start.chain)
                    + TransfersTo(cfg.payout.value.source, payouts[..LandedCount(payouts, place, refused)])
                else last.chain == start.chain)
  {
    var row;
    row, refused := PathSends(cfg, trace, actions, h, rid, bid, |actions|);
    RepliedIsExact(cfg, h, trace[0], rid, bid, row, refused, trace[|actions|], trace[|actions|].handlers[h].pc.code);
  }

  lemma RepliedIsExact(cfg: Config, h: Id, start: State, rid: Id, bid: Id, row: Settlement, refused: Refusals,
                       last: State, code: int)
    requires Along(cfg, start.store, rid, bid, AcceptReplied(code), row, last.store)
    requires Sending(cfg, h, start, rid, bid, AcceptReplied(code), row, refused, last.chain)
    ensures code == AcceptCode(start.store, ResolutionOf(cfg), cfg.rate, rid, bid, |start.chain|, refused)
    ensures if code == 200 then
              && rid in start.store.requests && bid in start.store.bids
              && last.store == AcceptedStore(start.store,
                 Settlement(h, rid, bid, |start.chain|, |start.chain| + 1, |start.chain| + 2))
            else last.store == start.store
    ensures if code == 200 || code == 502 then
              && rid in start.store.requests && cfg.payout.Some?
              && var payouts := Payouts(cfg, start.store.requests[rid].loan);
              PaymentsOn(last.chain) == PaymentsOn(start.chain)
                + TransfersTo(cfg.payout.value.source, payouts[..LandedCount(payouts, |start.chain|, refused)])
            else last.chain == start.chain
  {
    if code == 200 {
      SentIsPrefix(cfg, h, start.chain, start.store.requests[rid].loan, 3, refused, last.chain);
    } else if code == 502 {
      var loan := start.store.requests[rid].loan;
      var n: nat :| n < 3 && Sent(cfg, h, start.chain, loan, n, refused, last.chain)
        && !Lands(Payouts(cfg, loan)[n], |start.chain| + n, refused);
      SentIsPrefix(cfg, h, start.chain, loan, n, refused, last.chain);
    }
  }
}
