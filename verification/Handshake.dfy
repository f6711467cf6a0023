/** The insertion fee: marketplace/x402_middleware.py (the gate), marketplace/x402_service.py
    (what is required and how it is verified), agents/payment.py (the payers).

    A request without payment is answered 402 with a quote (section 15.5.3 of RFC 9110); it
    is repeated with a payment header.  The fee is in micro-USDC, as every amount is; it is
    configured as a decimal of USDC, so it need not be a whole number of micro-USDC.
  */
module Handshake {
  import opened Models
  import opened Quantize
  import opened Digits

  /** The inner fields of a payment envelope, as texts. */
  type Fields = map<string, string>

  /** What the payment header decodes to. */
  datatype Header = Absent | Undecodable | Envelope(fields: Fields)

  datatype Gate = Forward(tx: Option<string>) | Quote(amount: string) | Refuse

  /** `build_requirements_v1`: the fee in atomic units, the fraction dropped. */
  function AtomicFee(fee: real): int {
    Truncate(fee)
  }

  function TextOf(fields: Fields, key: string): string {
    if key in fields then fields[key] else ""
  }

  function TxHash(fields: Fields): string {
    if TextOf(fields, "tx_hash") != "" then TextOf(fields, "tx_hash") else TextOf(fields, "transaction_hash")
  }

  predicate IsHexDigit(c: char) {
    'a' <= c <= 'f' || 'A' <= c <= 'F' || '0' <= c <= '9'
  }

  /** 0x and 64 hexadecimal digits; the pattern's end also matches before a final line feed. */
  predicate WellFormedHash(s: string) {
    && (|s| == 66 || (|s| == 67 && s[66] == '\n'))
    && s[..2] == "0x"
    && forall i :: 2 <= i < 66 ==> IsHexDigit(s[i])
  }

  /** The local facilitator's `verify`. */
  predicate Verifies(fields: Fields, required: string) {
    WellFormedHash(TxHash(fields)) && TextOf(fields, "amount_atomic") == required
  }

  /** The middleware's `dispatch`, for a post of a bid. */
  function Dispatch(fee: real, header: Header): Gate {
    if fee <= 0.0 then Forward(None)
    else
      var required := PrintInt(AtomicFee(fee));
      match header
      case Absent => Quote(required)
      case Undecodable => Refuse
      case Envelope(fields) => if Verifies(fields, required) then Forward(Some(TxHash(fields))) else Refuse
  }

  /** `create_bid` prefers the hash the gate verified to the one in the body. */
  function WithHash(body: BidCreate, tx: Option<string>): BidCreate {
    body.(feeTx := if tx.Some? && tx.value != "" then tx else body.feeTx)
  }

  // ----- payers -----

  /** `Decimal(n) / Decimal(10**6)` */
  function ToUsdc(atomic: int): real {
    atomic as real / 1000000.0
  }

  /** `_usdc_to_atomic` */
  function ToAtomic(usdc: real): int {
    RoundHalfEven(usdc * 1000000.0)
  }

  function EnvelopeFields(hash: string, payer: string, amount: string): Fields {
    map["tx_hash" := hash, "from" := payer, "amount_atomic" := amount]
  }

  /** The transfer the wallet-backed payer asks for on a quote; nothing when the quote is not
      a number or the transfer's guard raises. */
  function TransferFor(quote: string): Option<int> {
    match ParseInt(quote)
    case None => None
    case Some(n) => if ToUsdc(n) <= 0.0 then None else Some(ToAtomic(ToUsdc(n)))
  }

  /** What that payer declares afterwards. */
  function CdpFields(quote: string, hash: string, payer: string): Fields {
    EnvelopeFields(hash, payer, match ParseInt(quote) case None => "" case Some(n) => PrintInt(n))
  }

  /** The stub payer echoes the quote. */
  function StubFields(quote: string, hash: string, payer: string): Fields {
    EnvelopeFields(hash, payer, quote)
  }

  // ----- properties -----

  /** An amount survives the way to USDC and back. */
  lemma AtomicRoundTrip(n: int)
    ensures ToAtomic(ToUsdc(n)) == n && (ToUsdc(n) <= 0.0 <==> n <= 0)
  {
    assert ToUsdc(n) * 1000000.0 == n as real;
    RoundingFixesGrid(n);
  }

  /** A wallet-backed payer transfers on a quote exactly when the quote is a positive number,
      and then transfers that number of atomic units. */
  lemma TransferIsTheQuote(quote: string)
    ensures TransferFor(quote).Some? <==> ParseInt(quote).Some? && 0 < ParseInt(quote).value
    ensures TransferFor(quote).Some? ==> TransferFor(quote) == ParseInt(quote)
  {
    if ParseInt(quote).Some? {
      AtomicRoundTrip(ParseInt(quote).value);
    }
  }

  /** With a positive fee the gate opens exactly for a well-formed hash and the required
      amount written in the one canonical way: an amount that is any other number, however
      written, never gets through. */
  lemma GateOpensExactly(fee: real, fields: Fields)
    requires 0.0 < fee
    ensures Dispatch(fee, Envelope(fields)).Forward? <==>
            && WellFormedHash(TxHash(fields))
            && Canonical(TextOf(fields, "amount_atomic"))
            && ParseInt(TextOf(fields, "amount_atomic")) == Some(AtomicFee(fee))
  {
    PrintParseExactly(TextOf(fields, "amount_atomic"));
    ParsePrint(AtomicFee(fee));
    PrintParseExactly(PrintInt(AtomicFee(fee)));
  }

  /** Quote, pay, verify.  A wallet-backed payer transfers exactly when the fee is worth at
      least one atomic unit, and then exactly the whole atomic units of the fee; its payment
      is let through exactly when the hash is well formed, and the hash goes with the bid. */
  lemma QuotePayVerify(fee: real, hash: string, payer: string)
    requires 0.0 < fee
    ensures var gate := Dispatch(fee, Absent);
            && gate.Quote?
            && (TransferFor(gate.amount).Some? <==> 1.0 <= fee)
            && (1.0 <= fee ==> var paid := TransferFor(gate.amount).value;
                               0 < paid && paid as real <= fee < paid as real + 1.0)
            && var again := Dispatch(fee, Envelope(CdpFields(gate.amount, hash, payer)));
            if WellFormedHash(hash) then again == Forward(Some(hash)) else again == Refuse
  {
    var quote := PrintInt(AtomicFee(fee));
    ParsePrint(AtomicFee(fee));
    TransferIsTheQuote(quote);
    if hash == "" {
      assert !WellFormedHash(TxHash(CdpFields(quote, hash, payer)));
    }
  }

  // ----- any header -----

  /** A payment of the fee: a well-formed hash, and the whole units of the fee in canonical
      form. */
  predicate PaysTheFee(fee: real, fields: Fields) {
    && WellFormedHash(TxHash(fields))
    && Canonical(TextOf(fields, "amount_atomic"))
    && ParseInt(TextOf(fields, "amount_atomic")) == Some(AtomicFee(fee))
  }

  /** What the gate does with any header at all.  Without a fee everything passes, without a
      hash.  With one, only an envelope that pays it passes, with its hash; a missing header
      is quoted the whole units of the fee, and everything else is refused. */
  lemma GateOverAnyHeader(fee: real, header: Header)
    ensures fee <= 0.0 ==> Dispatch(fee, header) == Forward(None)
    ensures 0.0 < fee && header.Absent? ==>
              Dispatch(fee, header).Quote? && ParseInt(Dispatch(fee, header).amount) == Some(AtomicFee(fee))
    ensures 0.0 < fee && header.Undecodable? ==> Dispatch(fee, header) == Refuse
    ensures 0.0 < fee && header.Envelope? ==>
              Dispatch(fee, header) ==
              if PaysTheFee(fee, header.fields) then Forward(Some(TxHash(header.fields))) else Refuse
  {
    ParsePrint(AtomicFee(fee));
    if header.Envelope? && 0.0 < fee {
      GateOpensExactly(fee, header.fields);
    }
  }

  /** The hash is under the first of two keys, or under the second when the first is missing
      or empty. */
  lemma HashIsUnderEitherKey(fields: Fields, hash: string)
    requires hash != ""
    ensures TxHash(fields["tx_hash" := hash]) == hash
    ensures TxHash(fields["tx_hash" := ""]["transaction_hash" := hash]) == hash
    ensures TxHash((fields - {"tx_hash"})["transaction_hash" := hash]) == hash
    ensures TxHash(fields - {"tx_hash", "transaction_hash"}) == ""
  {
  }

  /** A hash is well formed when it is 0x and 64 hexadecimal digits, of either case, with
      nothing behind them but possibly one line feed. */
  lemma WellFormedHashesAre(s: string)
    ensures WellFormedHash(s) <==>
            exists digits: string, rest: string ::
              && s == "0x" + digits + rest && |digits| == 64 && (rest == "" || rest == "\n")
              && forall c :: c in digits ==> c in HEX_DIGITS
  {
    if WellFormedHash(s) {
      var digits, rest := s[2..66], s[66..];
      assert s == "0x" + digits + rest;
      forall c | c in digits
        ensures c in HEX_DIGITS
      {
        var i :| 0 <= i < |digits| && digits[i] == c;
        assert IsHexDigit(s[i + 2]);
        HexDigitsAre(c);
      }
      assert rest == "" || rest == "\n";
    }
    forall digits: string, rest: string |
        && s == "0x" + digits + rest && |digits| == 64 && (rest == "" || rest == "\n")
        && forall c :: c in digits ==> c in HEX_DIGITS
      ensures WellFormedHash(s)
    {
      forall i | 2 <= i < 66
        ensures IsHexDigit(s[i])
      {
        assert s[i] == digits[i - 2] && digits[i - 2] in digits;
        HexDigitsAre(s[i]);
      }
      assert s[..2] == "0x";
    }
  }

  const HEX_DIGITS := {
    '0', '1', '2', '3', '4', '5', '6', '7', '8', '9',
    'a', 'b', 'c', 'd', 'e', 'f', 'A', 'B', 'C', 'D', 'E', 'F'}

  lemma HexDigitsAre(c: char)
    ensures IsHexDigit(c) <==> c in HEX_DIGITS
  {
  }

  /** The hash that the gate verified goes with the bid rather than one in its body. */
  lemma VerifiedHashWins(body: BidCreate, hash: string)
    ensures hash != "" ==> WithHash(body, Some(hash)) == body.(feeTx := Some(hash))
    ensures WithHash(body, None) == body
  {
  }
}
