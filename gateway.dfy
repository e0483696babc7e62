/** The exchange gateway (the Exchange contract): claims escrowed value
    from the ledger on behalf of a receiver, converts it at a fixed-point
    rate into a local-currency balance, and pays that balance out through
    the local-currency token. */
module ExchangeGateway {
  import opened Common
  import opened EscrowLedger

  /** The exchange rate is a fixed-point number scaled by 10^18. */
  const Unit: nat := 1_000_000_000_000_000_000

  /** `amount * rate / 10^18` with the remainder truncated: the largest
      local amount whose scaled value does not exceed `amount * rate`. */
  function LocalAmount(etherAmount: nat, rate: nat): (local: nat)
    ensures local * Unit <= etherAmount * rate < (local + 1) * Unit
  {
    etherAmount * rate / Unit
  }

  /** The rates used by the gateway's behaviour: 2.0 on one unit, 0.5 on two
      units, and 2.0 on 42 base units. */
  lemma ConversionExamples()
    ensures LocalAmount(Unit, 2 * Unit) == 2 * Unit
    ensures LocalAmount(2 * Unit, Unit / 2) == Unit
    ensures LocalAmount(42, 2 * Unit) == 84
  {
  }

  /** A rate of exactly 1.0 passes the amount through. */
  lemma UnitRateIsIdentity(etherAmount: nat)
    ensures LocalAmount(etherAmount, Unit) == etherAmount
  {
  }

  /** Converting more never credits less. */
  lemma LocalAmountMonotone(a: nat, b: nat, rate: nat)
    requires a <= b
    ensures LocalAmount(a, rate) <= LocalAmount(b, rate)
  {
  }

  /** Splitting an amount into two conversions never credits more than one
      conversion of the whole: each truncation can only lose. */
  lemma SplitConversionNeverGains(a: nat, b: nat, rate: nat)
    ensures LocalAmount(a, rate) + LocalAmount(b, rate) <= LocalAmount(a + b, rate)
  {
  }

  /** At a non-zero rate, every whole unit converted credits something. */
  lemma WholeUnitCreditsSomething(etherAmount: nat, rate: nat)
    requires rate > 0 && etherAmount >= Unit
    ensures LocalAmount(etherAmount, rate) > 0
  {
    assert etherAmount * rate >= etherAmount;
  }

  /** The amount a table holds for `account`; an absent one reads as 0. */
  function AmountOf(table: map<Address, nat>, account: Address): nat {
    if account in table then table[account] else 0
  }

  /** Events of the gateway, one per successful state-changing call. */
  datatype ExchangeEvent =
    | LogCurrencyConversion(receiver: Address, sender: Address, etherAmount: nat, localCurrencyAmount: nat)
    | LogWithdrawal(receiver: Address, amount: nat)
    | LogExchangeRateChanged(newExchangeRate: nat)

  class Exchange {
    const owner: Address
    /** The gateway's own address: the immediate caller the ledger sees. */
    const self: Address
    const localCurrency: Address
    const remittance: Remittance
    var exchangeRate: nat
    var balanceOf: map<Address, nat>
    var log: seq<ExchangeEvent>

    // Bookkeeping of what each account was credited and has withdrawn.
    ghost var credited: map<Address, nat>
    ghost var withdrawn: map<Address, nat>

    /** `balanceOf(account)`; an account never credited reads as 0. */
    function BalanceOf(account: Address): (balance: nat)
      reads this
      ensures account !in balanceOf ==> balance == 0
      ensures account in balanceOf ==> balance == balanceOf[account]
    {
      AmountOf(balanceOf, account)
    }

    /** The references and the rate stay as construction checked them, and
        every balance is what was credited minus what was withdrawn. */
    ghost predicate Valid()
      reads this
    {
      && localCurrency != ZeroAddress
      && exchangeRate > 0
      && forall a :: AmountOf(balanceOf, a) + AmountOf(withdrawn, a) == AmountOf(credited, a)
    }

    /** The state a successful deployment starts from. */
    constructor (owner: Address, self: Address, localCurrency: Address, remittance: Remittance, exchangeRate: nat)
      requires localCurrency != ZeroAddress && exchangeRate > 0
      ensures Valid()
      ensures this.owner == owner && this.self == self
      ensures this.localCurrency == localCurrency && this.remittance == remittance
      ensures this.exchangeRate == exchangeRate
      ensures balanceOf == map[] && log == []
      ensures credited == map[] && withdrawn == map[]
    {
      this.owner := owner;
      this.self := self;
      this.localCurrency := localCurrency;
      this.remittance := remittance;
      this.exchangeRate := exchangeRate;
      balanceOf := map[];
      log := [];
      credited := map[];
      withdrawn := map[];
    }

    /** Deployment by `caller` at address `self`: refused when either
        reference is the empty address (a null ledger stands for the empty
        ledger address) or the rate is 0. */
    static method Deploy(caller: Address, self: Address, localCurrency: Address,
                         remittance: Remittance?, exchangeRate: nat) returns (r: Result<Exchange>)
      ensures r.Ok? <==> localCurrency != ZeroAddress && remittance != null && exchangeRate > 0
      ensures !r.Ok? ==> r == Revert(InvalidConfiguration)
      ensures r.Ok? ==>
        && fresh(r.value) && r.value.Valid()
        && r.value.owner == caller && r.value.self == self
        && r.value.localCurrency == localCurrency
        && r.value.remittance == remittance
        && r.value.exchangeRate == exchangeRate
        && r.value.balanceOf == map[] && r.value.log == []
        && r.value.credited == map[] && r.value.withdrawn == map[]
    {
      if localCurrency == ZeroAddress || remittance == null || exchangeRate == 0 {
        return Revert(InvalidConfiguration);
      }
      var e := new Exchange(caller, self, localCurrency, remittance, exchangeRate);
      r := Ok(e);
    }

    /** The part of `convert` after the ledger has answered: `claimed` is
        the boolean the ledger's claim returned and `received` the value it
        actually paid to the gateway. A false answer reverts; a shortfall
        is a broken invariant and aborts; otherwise the caller is credited
        the converted amount. */
    method Settle(caller: Address, sender: Address, amount: nat, claimed: bool, received: nat)
      returns (r: Result<nat>)
      requires Valid()
      modifies this
      ensures Valid()
      ensures !claimed ==> r == Revert(ClaimRejected)
      ensures claimed && received < amount ==> r == Abort
      ensures r.Ok? <==> claimed && amount <= received
      ensures r.Ok? ==>
        && r.value == LocalAmount(amount, exchangeRate)
        && balanceOf == old(balanceOf)[caller := old(BalanceOf(caller)) + r.value]
        && exchangeRate == old(exchangeRate)
        && log == old(log) + [LogCurrencyConversion(caller, sender, amount, r.value)]
        && credited == old(credited)[caller := AmountOf(old(credited), caller) + r.value]
        && withdrawn == old(withdrawn)
      ensures r.Ok? && amount >= Unit ==> r.value > 0
      ensures !r.Ok? ==> unchanged(this)
    {
      if !claimed {
        return Revert(ClaimRejected);
      }
      if received < amount {
        return Abort;
      }
      var local := LocalAmount(amount, exchangeRate);
      if amount >= Unit {
        WholeUnitCreditsSomething(amount, exchangeRate);
      }
      balanceOf := balanceOf[caller := BalanceOf(caller) + local];
      credited := credited[caller := AmountOf(credited, caller) + local];
      log := log + [LogCurrencyConversion(caller, sender, amount, local)];
      r := Ok(local);
    }

    /** `convert(exchangeHash, receiverHash, sender, amount)` called by
        `caller` in a transaction started by `origin`. The gateway claims
        from the ledger as the immediate caller, so the ledger checks that
        the gateway is trusted and that `origin` is the receiver in the key;
        the converted amount is credited to `caller`. With this ledger the
        abort path is unreachable: a successful claim always pays exactly
        `amount`. */
    method Convert(caller: Address, origin: Address, exchangeHash: Hash, receiverHash: Hash,
                   sender: Address, amount: nat) returns (r: Result<nat>)
      requires Valid() && remittance.Valid()
      modifies this, remittance
      ensures Valid() && remittance.Valid()
      ensures r != Abort
      ensures !old(remittance.IsTrusted(self)) ==> r == Revert(Unauthorized)
      ensures old(remittance.IsTrusted(self))
              && amount > old(remittance.Get(KeyOf(exchangeHash, receiverHash, origin, sender))).value
              ==> r == Revert(InsufficientValue)
      ensures r.Ok? <==>
              old(remittance.IsTrusted(self))
              && amount <= old(remittance.Get(KeyOf(exchangeHash, receiverHash, origin, sender))).value
      ensures r.Ok? ==>
        var key := KeyOf(exchangeHash, receiverHash, origin, sender);
        // the ledger side
        && remittance.remittances
           == old(remittance.remittances)[key := Request(old(remittance.Get(key)).value - amount,
                                                         old(remittance.Get(key)).validUntil)]
        && remittance.trustedExchanges == old(remittance.trustedExchanges)
        && remittance.validityDuration == old(remittance.validityDuration)
        && remittance.log == old(remittance.log) + [LogEtherWithdrawal(origin, sender, amount)]
        && remittance.deposited == old(remittance.deposited)
        && remittance.released == old(remittance.released)[key := CountOf(old(remittance.released), key) + amount]
        // the gateway side
        && r.value == LocalAmount(amount, exchangeRate)
        && balanceOf == old(balanceOf)[caller := old(BalanceOf(caller)) + r.value]
        && exchangeRate == old(exchangeRate)
        && log == old(log) + [LogCurrencyConversion(caller, sender, amount, r.value)]
        && credited == old(credited)[caller := AmountOf(old(credited), caller) + r.value]
        && withdrawn == old(withdrawn)
      ensures !r.Ok? ==> unchanged(this) && unchanged(remittance)
    {
      var claim := remittance.WithdrawEther(self, origin, exchangeHash, receiverHash, sender, amount);
      if claim.Ok? {
        assert claim.value.to == self;
        r := Settle(caller, sender, amount, true, claim.value.amount);
      } else {
        r := Revert(claim.reason);
      }
    }

    /** `withdrawLocalCurrency(amount)` called by `caller`; `transferred` is
        the boolean the local-currency token's `transfer(caller, amount)`
        returned. */
    method WithdrawLocalCurrency(caller: Address, amount: nat, transferred: bool) returns (r: Result<()>)
      requires Valid()
      modifies this
      ensures Valid()
      ensures old(BalanceOf(caller)) < amount ==> r == Revert(InsufficientBalance)
      ensures amount <= old(BalanceOf(caller)) && !transferred ==> r == Revert(TransferRejected)
      ensures r.Ok? <==> amount <= old(BalanceOf(caller)) && transferred
      ensures r.Ok? ==>
        && balanceOf == old(balanceOf)[caller := old(BalanceOf(caller)) - amount]
        && exchangeRate == old(exchangeRate)
        && log == old(log) + [LogWithdrawal(caller, amount)]
        && credited == old(credited)
        && withdrawn == old(withdrawn)[caller := AmountOf(old(withdrawn), caller) + amount]
      ensures !r.Ok? ==> unchanged(this)
    {
      var balance := BalanceOf(caller);
      if balance < amount {
        return Revert(InsufficientBalance);
      }
      if !transferred {
        return Revert(TransferRejected);
      }
      balanceOf := balanceOf[caller := balance - amount];
      withdrawn := withdrawn[caller := AmountOf(withdrawn, caller) + amount];
      log := log + [LogWithdrawal(caller, amount)];
      r := Ok(());
    }

    /** `setExchangeRate(newRate)`: owner only, and the rate stays non-zero. */
    method SetExchangeRate(caller: Address, newRate: nat) returns (r: Result<()>)
      requires Valid()
      modifies this
      ensures Valid()
      ensures caller != owner ==> r == Revert(Unauthorized)
      ensures caller == owner && newRate == 0 ==> r == Revert(ZeroRate)
      ensures r.Ok? <==> caller == owner && newRate > 0
      ensures r.Ok? ==>
        && exchangeRate == newRate
        && balanceOf == old(balanceOf)
        && log == old(log) + [LogExchangeRateChanged(newRate)]
        && credited == old(credited) && withdrawn == old(withdrawn)
      ensures !r.Ok? ==> unchanged(this)
    {
      if caller != owner {
        return Revert(Unauthorized);
      }
      if newRate == 0 {
        return Revert(ZeroRate);
      }
      exchangeRate := newRate;
      log := log + [LogExchangeRateChanged(newRate)];
      r := Ok(());
    }
  }
}
