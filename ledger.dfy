/** The escrow ledger (the Remittance contract): keyed, time-bounded
    deposits, a registry of trusted exchanges, claims by a trusted exchange
    on behalf of the receiver embedded in the key, and reclaims by the
    sender once a deposit has expired. */
module EscrowLedger {
  import opened Common

  /** Exposed by the contract; no fee is ever deducted with it. */
  const OwnerTaxDenominator: nat := 1_000_000

  lemma OwnerTaxDenominatorValue()
    ensures OwnerTaxDenominator == 1_000_000
  {
  }

  /** Solidity's `1 days` and `1 years` (365 days), in seconds. */
  const Day: nat := 86_400
  const Year: nat := 365 * Day

  /** The bounds `setValidityDuration` enforces, both inclusive. */
  predicate InRange(duration: nat)
    ensures InRange(duration) ==> duration > 0
  {
    Day <= duration <= Year
  }

  /** One day is 86 400 s and one year 31 536 000 s; one hour and two years
      are refused, 42 days accepted. */
  lemma DurationBounds()
    ensures Day == 86_400 && Year == 31_536_000
    ensures !InRange(3_600) && !InRange(2 * Year) && InRange(42 * Day)
    ensures InRange(Day) && InRange(Year) && !InRange(Day - 1) && !InRange(Year + 1)
  {
  }

  /** One escrow entry, as `remittances(key)` returns it. */
  datatype Request = Request(value: nat, validUntil: nat)

  /** What the ledger holds for a key never deposited to, and what a
      reclaim leaves behind. */
  const Empty: Request := Request(0, 0)

  /** An entry without value counts as absent, whatever its deadline. */
  predicate Exists(r: Request)
    ensures Exists(r) ==> r != Empty
  {
    r.value > 0
  }

  /** A deadline is reached at `validUntil` itself: from then on the sender
      may reclaim, and a deposit no longer extends the old deadline. */
  predicate Expired(r: Request, now: nat)
    ensures Expired(r, now) <==> !(now < r.validUntil)
  {
    r.validUntil <= now
  }

  /** The entry after a deposit of `amount` at time `now`, with the ledger's
      current validity duration. A live entry has its deadline pushed out
      by one duration; an absent or expired one gets `now + duration`. */
  function AfterDeposit(r: Request, amount: nat, now: nat, duration: nat): (s: Request)
    ensures s.value == r.value + amount
    ensures s.validUntil >= now + duration
    ensures Exists(r) ==> s.validUntil >= r.validUntil + duration
    ensures duration > 0 ==> !Expired(s, now)
  {
    if Exists(r) && !Expired(r, now) then Request(r.value + amount, r.validUntil + duration)
    else Request(r.value + amount, now + duration)
  }

  /** A first deposit creates `(amount, now + duration)`. */
  lemma FirstDeposit(amount: nat, now: nat, duration: nat)
    ensures AfterDeposit(Empty, amount, now, duration) == Request(amount, now + duration)
  {
  }

  /** A repeat deposit adds its value; before the deadline it extends the
      deadline by exactly one duration, after it the deadline restarts at
      `now + duration`. */
  lemma RepeatDeposit(r: Request, amount: nat, now: nat, duration: nat)
    requires Exists(r)
    ensures AfterDeposit(r, amount, now, duration).value == r.value + amount
    ensures !Expired(r, now) ==> AfterDeposit(r, amount, now, duration).validUntil == r.validUntil + duration
    ensures Expired(r, now) ==> AfterDeposit(r, amount, now, duration).validUntil == now + duration
  {
  }

  /** One deposit in a series: its value and the time it is made. */
  datatype Deposit = Deposit(amount: nat, time: nat)

  /** The entry after a series of deposits at a fixed validity duration. */
  function AfterDeposits(r: Request, ds: seq<Deposit>, duration: nat): Request
    decreases |ds|
  {
    if ds == [] then r
    else AfterDeposits(AfterDeposit(r, ds[0].amount, ds[0].time, duration), ds[1..], duration)
  }

  function Total(ds: seq<Deposit>): nat
    decreases |ds|
  {
    if ds == [] then 0 else ds[0].amount + Total(ds[1..])
  }

  /** Deposits accumulate: whatever their times, the value is the old value
      plus the sum of the deposits. */
  lemma {:induction false} DepositsAccumulate(r: Request, ds: seq<Deposit>, duration: nat)
    ensures AfterDeposits(r, ds, duration).value == r.value + Total(ds)
    decreases |ds|
  {
    if ds != [] {
      DepositsAccumulate(AfterDeposit(r, ds[0].amount, ds[0].time, duration), ds[1..], duration);
    }
  }

  /** Every deposit made to a live entry before its (first) deadline pushes
      the deadline out by one more duration: n such deposits add n
      durations. */
  lemma {:induction false} DepositsBeforeDeadlineExtend(r: Request, ds: seq<Deposit>, duration: nat)
    requires Exists(r)
    requires forall i :: 0 <= i < |ds| ==> ds[i].time < r.validUntil
    ensures AfterDeposits(r, ds, duration).validUntil == r.validUntil + |ds| * duration
    decreases |ds|
  {
    if ds != [] {
      var next := AfterDeposit(r, ds[0].amount, ds[0].time, duration);
      assert next.validUntil == r.validUntil + duration;
      forall i | 0 <= i < |ds[1..]|
        ensures ds[1..][i].time < next.validUntil
      {
        assert ds[1..][i] == ds[i + 1];
      }
      DepositsBeforeDeadlineExtend(next, ds[1..], duration);
      assert (|ds| - 1) * duration + duration == |ds| * duration;
    }
  }

  /** Once made, a deposit cannot be reclaimed for a full validity
      duration, however it was combined with the entry's earlier state. */
  lemma NotReclaimableWithinDuration(r: Request, amount: nat, now: nat, duration: nat, later: nat)
    requires later < now + duration
    ensures !Expired(AfterDeposit(r, amount, now, duration), later)
  {
  }

  /** The entry a table holds for `key`; a key never written reads as Empty. */
  function EntryOf(table: map<Key, Request>, key: Key): Request {
    if key in table then table[key] else Empty
  }

  function CountOf(counts: map<Key, nat>, key: Key): nat {
    if key in counts then counts[key] else 0
  }

  /** Events of the ledger, one per successful state-changing call. */
  datatype LedgerEvent =
    | LogNewRemittanceRequest(key: Key, value: nat, validUntil: nat)
    | LogUpdatedRemittanceRequest(key: Key, value: nat, validUntil: nat)
    | LogEtherWithdrawal(receiver: Address, sender: Address, amount: nat)
    | LogRemittanceRequestWithdrawal(receiver: Address, sender: Address, value: nat)
    | LogValidityDurationChange(newDuration: nat)
    | LogSetTrustedExchange(exchange: Address, isTrusted: bool)

  class Remittance {
    const owner: Address
    var validityDuration: nat
    var remittances: map<Key, Request>
    var trustedExchanges: map<Address, bool>
    var log: seq<LedgerEvent>

    // Bookkeeping of the value that entered and left under each key.
    ghost var deposited: map<Key, nat>
    ghost var released: map<Key, nat>

    /** The escrow entry for `key`; a key never written reads as Empty. */
    function Get(key: Key): (r: Request)
      reads this
      ensures key !in remittances ==> r == Empty
      ensures key in remittances ==> r == remittances[key]
    {
      EntryOf(remittances, key)
    }

    /** `trustedExchanges(exchange)`; an exchange never set reads as untrusted. */
    function IsTrusted(exchange: Address): (trusted: bool)
      reads this
      ensures exchange !in trustedExchanges ==> !trusted
      ensures exchange in trustedExchanges ==> trusted == trustedExchanges[exchange]
    {
      exchange in trustedExchanges && trustedExchanges[exchange]
    }

    /** The duration stays within its bounds, and the value escrowed under
        every key is what was deposited there minus what was claimed or
        reclaimed from it. */
    ghost predicate Valid()
      reads this
    {
      && InRange(validityDuration)
      && forall key :: EntryOf(remittances, key).value + CountOf(released, key) == CountOf(deposited, key)
    }

    /** Deployment by `owner`. The initial duration is not fixed by the
        ledger's observable behaviour, so it is a parameter here. */
    constructor (owner: Address, validityDuration: nat)
      requires InRange(validityDuration)
      ensures Valid()
      ensures this.owner == owner && this.validityDuration == validityDuration
      ensures remittances == map[] && trustedExchanges == map[] && log == []
      ensures deposited == map[] && released == map[]
    {
      this.owner := owner;
      this.validityDuration := validityDuration;
      remittances := map[];
      trustedExchanges := map[];
      log := [];
      deposited := map[];
      released := map[];
    }

    /** `addRemittanceRequest(key)` sent with `value` at time `now`: creates
        or tops up the entry for `key` and logs whether it is new. */
    method AddRemittanceRequest(key: Key, value: nat, now: nat) returns (r: Result<()>)
      requires Valid()
      modifies this
      ensures Valid()
      ensures r.Ok? <==> value > 0
      ensures !r.Ok? ==> r == Revert(NoValue) && unchanged(this)
      ensures r.Ok? ==>
        && remittances == old(remittances)[key := AfterDeposit(old(Get(key)), value, now, validityDuration)]
        && validityDuration == old(validityDuration)
        && trustedExchanges == old(trustedExchanges)
        && log == old(log) + [if Exists(old(Get(key)))
                              then LogUpdatedRemittanceRequest(key, Get(key).value, Get(key).validUntil)
                              else LogNewRemittanceRequest(key, Get(key).value, Get(key).validUntil)]
        && deposited == old(deposited)[key := CountOf(old(deposited), key) + value]
        && released == old(released)
        && !Expired(Get(key), now)
    {
      if value == 0 {
        return Revert(NoValue);
      }
      var before := Get(key);
      var after := AfterDeposit(before, value, now, validityDuration);
      remittances := remittances[key := after];
      deposited := deposited[key := CountOf(deposited, key) + value];
      if Exists(before) {
        log := log + [LogUpdatedRemittanceRequest(key, after.value, after.validUntil)];
      } else {
        log := log + [LogNewRemittanceRequest(key, after.value, after.validUntil)];
      }
      r := Ok(());
    }

    /** `withdrawEther(exchangeHash, receiverHash, sender, amount)` called
        by `caller` in a transaction started by `origin`: a trusted exchange
        claims `amount` from the entry whose key names `origin` as the
        receiver, and the amount is paid to the exchange. */
    method WithdrawEther(caller: Address, origin: Address, exchangeHash: Hash, receiverHash: Hash,
                         sender: Address, amount: nat) returns (r: Result<Payout>)
      requires Valid()
      modifies this
      ensures Valid()
      ensures !old(IsTrusted(caller)) ==> r == Revert(Unauthorized)
      ensures old(IsTrusted(caller)) && amount > old(Get(KeyOf(exchangeHash, receiverHash, origin, sender))).value
              ==> r == Revert(InsufficientValue)
      ensures r.Ok? <==>
              old(IsTrusted(caller)) && amount <= old(Get(KeyOf(exchangeHash, receiverHash, origin, sender))).value
      ensures r.Ok? ==>
        var key := KeyOf(exchangeHash, receiverHash, origin, sender);
        && r.value == Payout(caller, amount)
        && remittances == old(remittances)[key := Request(old(Get(key)).value - amount, old(Get(key)).validUntil)]
        && validityDuration == old(validityDuration)
        && trustedExchanges == old(trustedExchanges)
        && log == old(log) + [LogEtherWithdrawal(origin, sender, amount)]
        && deposited == old(deposited)
        && released == old(released)[key := CountOf(old(released), key) + amount]
      ensures !r.Ok? ==> unchanged(this)
      // only an entry whose key names `origin` as the receiver can be claimed
      ensures forall k: Key :: k.receiver != origin ==> Get(k) == old(Get(k))
    {
      if !IsTrusted(caller) {
        return Revert(Unauthorized);
      }
      var key := KeyOf(exchangeHash, receiverHash, origin, sender);
      var entry := Get(key);
      if amount > entry.value {
        return Revert(InsufficientValue);
      }
      remittances := remittances[key := Request(entry.value - amount, entry.validUntil)];
      released := released[key := CountOf(released, key) + amount];
      log := log + [LogEtherWithdrawal(origin, sender, amount)];
      r := Ok(Payout(caller, amount));
    }

    /** `withdrawRemittanceRequest(exchangeHash, receiverHash, receiver)`
        called by `caller` at time `now`: the sender named in the key takes
        back the whole value of an expired entry, which is then cleared. */
    method WithdrawRemittanceRequest(caller: Address, exchangeHash: Hash, receiverHash: Hash,
                                     receiver: Address, now: nat) returns (r: Result<Payout>)
      requires Valid()
      modifies this
      ensures Valid()
      ensures !Exists(old(Get(KeyOf(exchangeHash, receiverHash, receiver, caller)))) ==> r == Revert(NotFound)
      ensures Exists(old(Get(KeyOf(exchangeHash, receiverHash, receiver, caller))))
              && now < old(Get(KeyOf(exchangeHash, receiverHash, receiver, caller))).validUntil
              ==> r == Revert(NotExpired)
      ensures r.Ok? <==>
              var entry := old(Get(KeyOf(exchangeHash, receiverHash, receiver, caller)));
              Exists(entry) && Expired(entry, now)
      ensures r.Ok? ==>
        var key := KeyOf(exchangeHash, receiverHash, receiver, caller);
        && r.value == Payout(caller, old(Get(key)).value)
        && remittances == old(remittances)[key := Empty]
        && validityDuration == old(validityDuration)
        && trustedExchanges == old(trustedExchanges)
        && log == old(log) + [LogRemittanceRequestWithdrawal(receiver, caller, old(Get(key)).value)]
        && deposited == old(deposited)
        && released == old(released)[key := CountOf(old(released), key) + old(Get(key)).value]
      ensures !r.Ok? ==> unchanged(this)
      // only an entry whose key names `caller` as the sender can be reclaimed
      ensures forall k: Key :: k.sender != caller ==> Get(k) == old(Get(k))
    {
      var key := KeyOf(exchangeHash, receiverHash, receiver, caller);
      var entry := Get(key);
      if !Exists(entry) {
        return Revert(NotFound);
      }
      if now < entry.validUntil {
        return Revert(NotExpired);
      }
      remittances := remittances[key := Empty];
      released := released[key := CountOf(released, key) + entry.value];
      log := log + [LogRemittanceRequestWithdrawal(receiver, caller, entry.value)];
      r := Ok(Payout(caller, entry.value));
    }

    /** `setValidityDuration(newDuration)`: owner only, within [1 day, 1 year]. */
    method SetValidityDuration(caller: Address, newDuration: nat) returns (r: Result<()>)
      requires Valid()
      modifies this
      ensures Valid()
      ensures caller != owner ==> r == Revert(Unauthorized)
      ensures caller == owner && !InRange(newDuration) ==> r == Revert(OutOfRange)
      ensures r.Ok? <==> caller == owner && InRange(newDuration)
      ensures r.Ok? ==>
        && validityDuration == newDuration
        && remittances == old(remittances)
        && trustedExchanges == old(trustedExchanges)
        && log == old(log) + [LogValidityDurationChange(newDuration)]
        && deposited == old(deposited) && released == old(released)
      ensures !r.Ok? ==> unchanged(this)
    {
      if caller != owner {
        return Revert(Unauthorized);
      }
      if !InRange(newDuration) {
        return Revert(OutOfRange);
      }
      validityDuration := newDuration;
      log := log + [LogValidityDurationChange(newDuration)];
      r := Ok(());
    }

    /** `setTrustedExchange(exchange, isTrusted)`: owner only. */
    method SetTrustedExchange(caller: Address, exchange: Address, isTrusted: bool) returns (r: Result<()>)
      requires Valid()
      modifies this
      ensures Valid()
      ensures r.Ok? <==> caller == owner
      ensures !r.Ok? ==> r == Revert(Unauthorized) && unchanged(this)
      ensures r.Ok? ==>
        && trustedExchanges == old(trustedExchanges)[exchange := isTrusted]
        && IsTrusted(exchange) == isTrusted
        && remittances == old(remittances)
        && validityDuration == old(validityDuration)
        && log == old(log) + [LogSetTrustedExchange(exchange, isTrusted)]
        && deposited == old(deposited) && released == old(released)
    {
      if caller != owner {
        return Revert(Unauthorized);
      }
      trustedExchanges := trustedExchanges[exchange := isTrusted];
      log := log + [LogSetTrustedExchange(exchange, isTrusted)];
      r := Ok(());
    }
  }
}
