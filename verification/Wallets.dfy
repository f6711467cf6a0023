/** shared/wallets.py: transfers of USDC and the sequential "batch" of them. */
module Wallets {

  datatype Transfer = Transfer(source: string, target: string, amount: int)

  datatype Payout = Payout(target: string, amount: int)

  datatype BatchResult = Sent(hashes: seq<nat>) | Raised

  type Balances = map<string, int>

  function BalanceOf(balances: Balances, wallet: string): int {
    if wallet in balances then balances[wallet] else 0
  }

  /** A wallet nothing was ever sent to holds nothing. */
  lemma UnknownWalletHoldsNothing(balances: Balances, wallet: string, amount: int)
    ensures wallet !in balances ==> BalanceOf(balances, wallet) == 0
    ensures BalanceOf(balances[wallet := amount], wallet) == amount
  {
  }

  /** One transfer landed; the two ends may be the same wallet. */
  function Land(balances: Balances, t: Transfer): (after: Balances)
    ensures forall w :: BalanceOf(after, w) ==
                        BalanceOf(balances, w)
                        - (if w == t.source then t.amount else 0)
                        + (if w == t.target then t.amount else 0)
  {
    var debited := balances[t.source := BalanceOf(balances, t.source) - t.amount];
    debited[t.target := BalanceOf(debited, t.target) + t.amount]
  }

  function LandAll(balances: Balances, ts: seq<Transfer>): Balances {
    if ts == [] then balances else Land(LandAll(balances, ts[..|ts| - 1]), ts[|ts| - 1])
  }

  function TransfersTo(source: string, payouts: seq<Payout>): (ts: seq<Transfer>)
    ensures |ts| == |payouts|
  {
    seq(|payouts|, i requires 0 <= i < |payouts| => Transfer(source, payouts[i].target, payouts[i].amount))
  }

  // ----- conservation -----

  function TotalOver(wallets: seq<string>, balances: Balances): int {
    if wallets == [] then 0 else BalanceOf(balances, wallets[0]) + TotalOver(wallets[1..], balances)
  }

  predicate NoDuplicates(wallets: seq<string>) {
    forall i, j :: 0 <= i < j < |wallets| ==> wallets[i] != wallets[j]
  }

  /** How much of a transfer leaves (enters) a duplicate-free list of wallets. */
  lemma {:induction false} TotalAfterOne(wallets: seq<string>, balances: Balances, t: Transfer)
    requires NoDuplicates(wallets)
    ensures TotalOver(wallets, Land(balances, t)) ==
            TotalOver(wallets, balances)
            - (if t.source in wallets then t.amount else 0)
            + (if t.target in wallets then t.amount else 0)
  {
    if wallets != [] {
      TotalAfterOne(wallets[1..], balances, t);
      assert forall w :: w in wallets <==> w == wallets[0] || w in wallets[1..];
    }
  }

  /** Money is conserved: over any list of wallets that names both ends of every transfer,
      the total never changes. */
  lemma {:induction false} TransfersConserveTotal(wallets: seq<string>, balances: Balances, ts: seq<Transfer>)
    requires NoDuplicates(wallets)
    requires forall t :: t in ts ==> t.source in wallets && t.target in wallets
    ensures TotalOver(wallets, LandAll(balances, ts)) == TotalOver(wallets, balances)
  {
    if ts != [] {
      var before := ts[..|ts| - 1];
      TransfersConserveTotal(wallets, balances, before);
      TotalAfterOne(wallets, LandAll(balances, before), ts[|ts| - 1]);
    }
  }

  // ----- the network -----

  /** The places in the log the network would refuse to fill: every reason an SDK call has
      to fail. */
  type Refusals = set<nat>

  /** Whether a transfer goes through: a positive amount and a network that does not refuse. */
  predicate Lands(payout: Payout, place: nat, refused: Refusals) {
    0 < payout.amount && place !in refused
  }

  /** How many of the payouts, taken in order, land before the first that does not. */
  function LandedCount(payouts: seq<Payout>, place: nat, refused: Refusals): (n: nat)
    ensures n <= |payouts|
    ensures forall i :: 0 <= i < n ==> Lands(payouts[i], place + i, refused)
    ensures n < |payouts| ==> !Lands(payouts[n], place + n, refused)
  {
    if payouts != [] && Lands(payouts[0], place, refused) then
      var rest := LandedCount(payouts[1..], place + 1, refused);
      assert forall i {:trigger payouts[i]} :: 0 < i < 1 + rest ==>
        Lands(payouts[1..][i - 1], place + 1 + (i - 1), refused);
      1 + rest
    else 0
  }

  lemma {:induction false} LandedCountIs(payouts: seq<Payout>, place: nat, refused: Refusals, n: nat)
    requires n <= |payouts|
    requires forall i :: 0 <= i < n ==> Lands(payouts[i], place + i, refused)
    requires n < |payouts| ==> !Lands(payouts[n], place + n, refused)
    ensures LandedCount(payouts, place, refused) == n
  {
    if 0 < n {
      forall i | 0 <= i < n - 1
        ensures Lands(payouts[1..][i], place + 1 + i, refused)
      {
        assert Lands(payouts[i + 1], place + (i + 1), refused);
      }
      assert Lands(payouts[0], place + 0, refused);
      LandedCountIs(payouts[1..], place + 1, refused, n - 1);
    } else if payouts != [] {
      assert !Lands(payouts[0], place + 0, refused);
    }
  }

  /** The network as a value: what every wallet holds, and every transfer that landed. */
  datatype Chain = Chain(balances: Balances, log: seq<Transfer>) {
    function With(t: Transfer): Chain {
      Chain(Land(balances, t), log + [t])
    }
  }

  function SendAll(chain: Chain, source: string, payouts: seq<Payout>): Chain {
    if payouts == [] then chain
    else
      var last := payouts[|payouts| - 1];
      SendAll(chain, source, payouts[..|payouts| - 1]).With(Transfer(source, last.target, last.amount))
  }

  /** The hashes of `n` transfers landing one after another from a place in the log. */
  function PlacesFrom(place: nat, n: nat): (hashes: seq<nat>)
    ensures |hashes| == n
    ensures forall i :: 0 <= i < n ==> hashes[i] == place + i
  {
    if n == 0 then [] else PlacesFrom(place, n - 1) + [place + n - 1]
  }

  /** Sending extends the log by exactly the payouts, in order, and moves exactly their
      amounts. */
  lemma {:induction false} SendAllAppends(chain: Chain, source: string, payouts: seq<Payout>)
    ensures SendAll(chain, source, payouts).log == chain.log + TransfersTo(source, payouts)
    ensures SendAll(chain, source, payouts).balances == LandAll(chain.balances, TransfersTo(source, payouts))
  {
    if payouts != [] {
      var n := |payouts| - 1;
      SendAllAppends(chain, source, payouts[..n]);
      assert TransfersTo(source, payouts)[..n] == TransfersTo(source, payouts[..n]);
    }
  }

  class Network {
    var balances: Balances
    /** Every transfer that landed, in order; a hash is a place in it. */
    var log: seq<Transfer>

    ghost function Contents(): Chain
      reads this
    {
      Chain(balances, log)
    }

    constructor (initial: Balances)
      ensures Contents() == Chain(initial, [])
    {
      balances := initial;
      log := [];
    }

    /** `transfer_usdc`: a non-positive amount raises before the network is asked. */
    method TransferUsdc(source: string, payout: Payout, refused: Refusals) returns (hash: nat, ok: bool)
      modifies this
      ensures ok == Lands(payout, |old(log)|, refused)
      ensures ok ==> hash == |old(log)|
      ensures ok ==> Contents() == old(Contents()).With(Transfer(source, payout.target, payout.amount))
      ensures !ok ==> Contents() == old(Contents())
    {
      hash, ok := 0, false;
      if payout.amount <= 0 {
        return;
      }
      if |log| !in refused {
        hash, ok := |log|, true;
        var t := Transfer(source, payout.target, payout.amount);
        balances := Land(balances, t);
        log := log + [t];
      }
    }

    /** `batched_transfer`: one transfer after another; the first failure raises and leaves
        the earlier ones landed. */
    method BatchedTransfer(source: string, payouts: seq<Payout>, refused: Refusals) returns (r: BatchResult)
      modifies this
      ensures var n := LandedCount(payouts, |old(log)|, refused);
              && Contents() == SendAll(old(Contents()), source, payouts[..n])
              && (r.Sent? <==> n == |payouts|)
              && (r.Sent? ==> r.hashes == PlacesFrom(|old(log)|, n))
    {
      ghost var start, place := Contents(), |log|;
      var txs: seq<nat> := [];
      var i := 0;
      while i < |payouts|
        invariant 0 <= i <= |payouts|
        invariant forall k :: 0 <= k < i ==> Lands(payouts[k], place + k, refused)
        invariant |log| == place + i
        invariant Contents() == SendAll(start, source, payouts[..i])
        invariant txs == PlacesFrom(place, i)
      {
        var hash, ok := TransferUsdc(source, payouts[i], refused);
        if !ok {
          break;
        }
        assert payouts[..i + 1][..i] == payouts[..i];
        txs := txs + [hash];
        i := i + 1;
      }
      LandedCountIs(payouts, place, refused, i);
      r := if i == |payouts| then Sent(txs) else Raised;
    }
  }
}
