/** Client programs that drive the ledger and the gateway through the
    situations their behaviour is pinned down by, and state what a caller
    observes. Everything here follows from the methods' contracts alone. */
module Scenarios {
  import opened Common
  import opened EscrowLedger
  import opened ExchangeGateway

  // The accounts taking part.
  const OwnerAccount: Address := 1
  const ReceiverAccount: Address := 2
  const SenderAccount: Address := 3
  const ExchangeAccount: Address := 4
  const AnotherAccount: Address := 5
  const GatewayAccount: Address := 6
  const TokenAccount: Address := 7

  // The two secret hashes and the escrow key derived from them.
  const ExchangeSecret: Hash := 11
  const ReceiverSecret: Hash := 12
  const TheKey: Key := KeyOf(ExchangeSecret, ReceiverSecret, ReceiverAccount, SenderAccount)

  const Week: nat := 7 * Day

  /** A ledger deployed by the owner with the trust flag of `trusted` set
      and 142 deposited under the key at time `now`. */
  method FundedLedger(trusted: Address, now: nat) returns (ledger: Remittance)
    ensures fresh(ledger) && ledger.Valid()
    ensures ledger.validityDuration == Week && ledger.owner == OwnerAccount
    ensures forall a :: ledger.IsTrusted(a) <==> a == trusted
    ensures ledger.Get(TheKey) == Request(142, now + Week)
    ensures forall k :: k != TheKey ==> ledger.Get(k) == Empty
  {
    ledger := new Remittance(OwnerAccount, Week);
    var t := ledger.SetTrustedExchange(OwnerAccount, trusted, true);
    var d := ledger.AddRemittanceRequest(TheKey, 142, now);
  }

  /** A trusted exchange called directly by the receiver claims 100 of 142:
      42 stay escrowed with the same deadline, the exchange is paid 100,
      and the withdrawal is logged with the receiver and the sender. */
  method ClaimByReceiver(now: nat) returns (claim: Result<Payout>, left: Request, event: LedgerEvent)
    ensures claim == Ok(Payout(ReceiverAccount, 100))
    ensures left == Request(42, now + Week)
    ensures event == LogEtherWithdrawal(ReceiverAccount, SenderAccount, 100)
  {
    var ledger := FundedLedger(ReceiverAccount, now);
    claim := ledger.WithdrawEther(ReceiverAccount, ReceiverAccount, ExchangeSecret, ReceiverSecret, SenderAccount, 100);
    left := ledger.Get(TheKey);
    event := ledger.log[|ledger.log| - 1];
  }

  /** Claims from an untrusted caller, claims above the escrowed value, and
      claims by a trusted exchange in a transaction started by an account
      that is not the receiver in the key are refused; the entry keeps its
      142. A claim of 0 looks up the origin's key and succeeds with nothing
      paid, whichever account started the transaction. */
  method ClaimRefusals(now: nat)
    returns (untrusted: Result<Payout>, tooMuch: Result<Payout>, still: Request,
             wrongOrigin: Result<Payout>, untouched: Request, zeroClaim: Result<Payout>)
    ensures untrusted == Revert(Unauthorized)
    ensures tooMuch == Revert(InsufficientValue)
    ensures still == Request(142, now + Week)
    ensures wrongOrigin == Revert(InsufficientValue)
    ensures untouched == Request(142, now + Week)
    ensures zeroClaim == Ok(Payout(AnotherAccount, 0))
  {
    var ledger := FundedLedger(ReceiverAccount, now);
    untrusted := ledger.WithdrawEther(ExchangeAccount, ReceiverAccount, ExchangeSecret, ReceiverSecret, SenderAccount, 100);
    tooMuch := ledger.WithdrawEther(ReceiverAccount, ReceiverAccount, ExchangeSecret, ReceiverSecret, SenderAccount, 143);
    still := ledger.Get(TheKey);

    var other := FundedLedger(AnotherAccount, now);
    ghost var otherKey := KeyOf(ExchangeSecret, ReceiverSecret, AnotherAccount, SenderAccount);
    assert other.Get(otherKey) == Empty;
    wrongOrigin := other.WithdrawEther(AnotherAccount, AnotherAccount, ExchangeSecret, ReceiverSecret, SenderAccount, 100);
    untouched := other.Get(TheKey);
    zeroClaim := other.WithdrawEther(AnotherAccount, AnotherAccount, ExchangeSecret, ReceiverSecret, SenderAccount, 0);
  }

  /** Two deposits of 142: before the deadline the second one extends it
      by a duration (first deposit time + 2 durations) and logs an update;
      after the deadline it restarts the deadline at its own time. */
  method RepeatDeposits(t0: nat, early: nat, late: nat) returns (extended: Request, event: LedgerEvent, restarted: Request)
    requires t0 <= early < t0 + Week <= late
    ensures extended == Request(284, t0 + 2 * Week)
    ensures event == LogUpdatedRemittanceRequest(TheKey, 284, t0 + 2 * Week)
    ensures restarted == Request(284, late + Week)
  {
    var ledger := FundedLedger(ExchangeAccount, t0);
    var d := ledger.AddRemittanceRequest(TheKey, 142, early);
    extended := ledger.Get(TheKey);
    event := ledger.log[|ledger.log| - 1];
    var other := FundedLedger(ExchangeAccount, t0);
    d := other.AddRemittanceRequest(TheKey, 142, late);
    restarted := other.Get(TheKey);
  }

  /** The sender reclaims an expired deposit of 142 in full and the entry
      reads (0, 0); a second reclaim finds nothing. Before the deadline, or
      from an account other than the sender, the reclaim is refused. */
  method Reclaim(t0: nat, early: nat, late: nat)
    returns (tooEarly: Result<Payout>, notSender: Result<Payout>, reclaimed: Result<Payout>,
             after: Request, again: Result<Payout>)
    requires t0 <= early < t0 + Week <= late
    ensures tooEarly == Revert(NotExpired)
    ensures notSender == Revert(NotFound)
    ensures reclaimed == Ok(Payout(SenderAccount, 142))
    ensures after == Request(0, 0)
    ensures again == Revert(NotFound)
  {
    var ledger := FundedLedger(ExchangeAccount, t0);
    tooEarly := ledger.WithdrawRemittanceRequest(SenderAccount, ExchangeSecret, ReceiverSecret, ReceiverAccount, early);
    notSender := ledger.WithdrawRemittanceRequest(AnotherAccount, ExchangeSecret, ReceiverSecret, ReceiverAccount, late);
    reclaimed := ledger.WithdrawRemittanceRequest(SenderAccount, ExchangeSecret, ReceiverSecret, ReceiverAccount, late);
    after := ledger.Get(TheKey);
    again := ledger.WithdrawRemittanceRequest(SenderAccount, ExchangeSecret, ReceiverSecret, ReceiverAccount, late);
  }

  /** The owner's settings: only the owner may change them, and the
      duration only to a value between one day and one year. */
  method OwnerSettings()
    returns (byAnother: Result<()>, hour: Result<()>, twoYears: Result<()>, duration: nat,
             trustByAnother: Result<()>, trusted: bool)
    ensures byAnother == Revert(Unauthorized)
    ensures hour == Revert(OutOfRange) && twoYears == Revert(OutOfRange)
    ensures duration == 42 * Day
    ensures trustByAnother == Revert(Unauthorized)
    ensures trusted
  {
    var ledger := new Remittance(OwnerAccount, Week);
    byAnother := ledger.SetValidityDuration(AnotherAccount, Week);
    hour := ledger.SetValidityDuration(OwnerAccount, 3600);
    twoYears := ledger.SetValidityDuration(OwnerAccount, 2 * Year);
    var ok := ledger.SetValidityDuration(OwnerAccount, 42 * Day);
    duration := ledger.validityDuration;
    trustByAnother := ledger.SetTrustedExchange(AnotherAccount, ExchangeAccount, true);
    var t := ledger.SetTrustedExchange(OwnerAccount, ExchangeAccount, true);
    trusted := ledger.IsTrusted(ExchangeAccount);
  }

  /** Deployment is refused with an empty token address, an empty ledger or
      a zero rate. */
  method Deployments(ledger: Remittance)
    returns (noToken: bool, noLedger: bool, noRate: bool, deployed: bool)
    ensures !noToken && !noLedger && !noRate && deployed
  {
    var r := Exchange.Deploy(OwnerAccount, GatewayAccount, ZeroAddress, ledger, 2 * Unit);
    noToken := r.Ok?;
    r := Exchange.Deploy(OwnerAccount, GatewayAccount, TokenAccount, null, 2 * Unit);
    noLedger := r.Ok?;
    r := Exchange.Deploy(OwnerAccount, GatewayAccount, TokenAccount, ledger, 0);
    noRate := r.Ok?;
    r := Exchange.Deploy(OwnerAccount, GatewayAccount, TokenAccount, ledger, 2 * Unit);
    deployed := r.Ok?;
  }

  /** The gateway's half of a conversion against a ledger whose answers are
      given: a false answer reverts, a short payment aborts, and a full
      payment credits the converted amount at rates above and below 1.0.
      The credit can then be withdrawn exactly, but not beyond the balance
      or when the token refuses the transfer. */
  method GatewayWithGivenAnswers(ledger: Remittance)
    returns (rejected: Result<nat>, short: Result<nat>, credit: nat, halfRateCredit: nat,
             tooMuch: Result<()>, refused: Result<()>, withdrawn: Result<()>, left: nat)
    ensures rejected == Revert(ClaimRejected)
    ensures short == Abort
    ensures credit == 2 * Unit && halfRateCredit == Unit
    ensures tooMuch == Revert(InsufficientBalance)
    ensures refused == Revert(TransferRejected)
    ensures withdrawn.Ok?
    ensures left == 0
  {
    ConversionExamples();
    var gateway := new Exchange(OwnerAccount, GatewayAccount, TokenAccount, ledger, 2 * Unit);
    rejected := gateway.Settle(OwnerAccount, SenderAccount, 42, false, 42);
    short := gateway.Settle(OwnerAccount, SenderAccount, 256, true, 255);
    tooMuch := gateway.WithdrawLocalCurrency(OwnerAccount, 100, true);
    var s := gateway.Settle(OwnerAccount, SenderAccount, Unit, true, Unit);
    credit := gateway.BalanceOf(OwnerAccount);
    assert credit == 2 * Unit;
    refused := gateway.WithdrawLocalCurrency(OwnerAccount, 42, false);
    assert gateway.BalanceOf(OwnerAccount) == 2 * Unit;
    withdrawn := gateway.WithdrawLocalCurrency(OwnerAccount, 2 * Unit, true);
    left := gateway.BalanceOf(OwnerAccount);

    var half := new Exchange(OwnerAccount, GatewayAccount, TokenAccount, ledger, Unit / 2);
    s := half.Settle(OwnerAccount, SenderAccount, 2 * Unit, true, 2 * Unit);
    halfRateCredit := half.BalanceOf(OwnerAccount);
  }

  /** The gateway converting 42 escrowed for the receiver, through a real
      ledger: refused while the gateway is untrusted, for 43, and when the
      transaction is started by an account other than the receiver; once
      trusted, the receiver's conversion credits 84 at rate 2.0 and leaves
      nothing escrowed. */
  method ConvertThroughLedger(now: nat)
    returns (untrusted: Result<nat>, tooMuch: Result<nat>, wrongReceiver: Result<nat>,
             converted: Result<nat>, credit: nat, left: nat)
    ensures untrusted == Revert(Unauthorized)
    ensures tooMuch == Revert(InsufficientValue)
    ensures wrongReceiver == Revert(InsufficientValue)
    ensures converted == Ok(84) && credit == 84 && left == 0
  {
    ConversionExamples();
    var ledger := new Remittance(OwnerAccount, Week);
    var d := ledger.AddRemittanceRequest(TheKey, 42, now);
    var gateway := new Exchange(OwnerAccount, GatewayAccount, TokenAccount, ledger, 2 * Unit);
    untrusted := gateway.Convert(ReceiverAccount, ReceiverAccount, ExchangeSecret, ReceiverSecret, SenderAccount, 42);
    var t := ledger.SetTrustedExchange(OwnerAccount, GatewayAccount, true);
    tooMuch := gateway.Convert(ReceiverAccount, ReceiverAccount, ExchangeSecret, ReceiverSecret, SenderAccount, 43);
    wrongReceiver := gateway.Convert(AnotherAccount, AnotherAccount, ExchangeSecret, ReceiverSecret, SenderAccount, 42);
    converted := gateway.Convert(ReceiverAccount, ReceiverAccount, ExchangeSecret, ReceiverSecret, SenderAccount, 42);
    credit := gateway.BalanceOf(ReceiverAccount);
    left := ledger.Get(TheKey).value;
  }
}
