# Remittance escrow and exchange gateway

A Dafny model of the two cooperating contracts of the Remittance system, as
their unit and integration test suites pin them down:

- **The escrow ledger** (`Remittance`, module `EscrowLedger`, `ledger.dfy`).
  A sender deposits value under a key derived from two secret hashes, the
  receiver and the sender. Each entry is `(value, validUntil)`. A trusted
  exchange claims part or all of the value on behalf of the receiver named
  in the key. The sender takes the whole value back once the deadline has
  passed. The owner sets the validity duration (between one day and one
  year) and the trust flags of exchanges. The constant
  `OwnerTaxDenominator` is `1_000_000` and is never used to deduct a fee.
- **The exchange gateway** (`Exchange`, module `ExchangeGateway`,
  `gateway.dfy`). It claims from the ledger as the immediate caller. It
  converts the claimed value at a rate scaled by 10^18, truncating, into a
  local-currency balance of its caller. It pays that balance out through the
  local-currency token. A ledger that answers the claim with `false` makes
  the conversion revert; a ledger that pays less than the claimed amount
  makes it abort, a failure distinct from a revert.
- `common.dfy` (module `Common`) holds addresses, hashes, the key
  derivation `KeyOf`, the failure reasons and the transaction outcome
  `Result<T> = Ok(value) | Revert(reason) | Abort`.
- `scenarios.dfy` (module `Scenarios`) holds client methods that replay the
  situations of the test suites against the two classes and state, as
  postconditions, what the tests observe.

Both contracts are classes whose maps (`remittances`, `trustedExchanges`,
`balanceOf`) and scalars are fields that the methods update in place. Each
method takes the transaction context explicitly: `caller` is `msg.sender`,
`origin` is `tx.origin`, and `now` is the block time. Every failing call
leaves the object unchanged (`unchanged(this)`), which is how a Solidity
revert rolls back its state. Events are appended to a `log` field. Value
pushed to an account is returned as a `Payout(to, amount)`. Each class has
a `Valid()` invariant that every method keeps. For the ledger it says the
duration is in range, and that the value under every key equals what was
deposited there minus what was claimed or reclaimed. For the gateway it
says the token address is non-empty, the rate is non-zero, and every
balance equals what was credited minus what was withdrawn. Both use ghost
bookkeeping maps.

Decisions where the tests leave room:

- An entry exists when its value is positive, and it has expired when
  `validUntil <= now`. A reclaim fails while `now < validUntil`. A deposit
  to an entry that exists (value > 0) and has not expired extends its
  deadline by one duration; any other deposit sets it to `now + duration`.
- An entry drained to 0 by claims keeps its old deadline but counts as
  absent. A later deposit therefore treats it as new: the deadline is reset
  to `now + duration`, even when the old deadline still lies ahead, and a
  new-request event is logged.
- A claim does not check the deadline. A claim that drains an entry to 0
  keeps its deadline; the entry then reads as absent.
- A deposit that carries no value reverts.
- `setExchangeRate(0)` reverts, so the rate stays non-zero as construction
  requires.
- The initial validity duration is a constructor parameter, required to be
  within the setter's bounds.
- The key is recomputed from the transaction's origin (claim) or the caller
  (reclaim), so there is no separate identity check: a wrong origin or
  caller looks up a different key. When nothing was deposited under that
  key its value is 0, so a positive claim fails as `InsufficientValue` and
  a reclaim as `NotFound`. When someone did deposit under the other key,
  the call acts on that entry, which the wrong account is entitled to
  through the key. A design that reports `Unauthorized` for these cases
  cannot be told apart by the tests, which only see a revert; the model
  follows the key lookup.
- A claim of 0 by a trusted caller succeeds whichever account started the
  transaction: it pays 0, changes no value and logs
  (origin, sender, 0). The tests only show that a wrong-origin claim of
  100 fails.
- The ledger checks `tx.origin`, not an identity that the gateway forwards.
  So `Convert` takes `caller` and `origin` separately: it credits `caller`
  and the ledger checks `origin`. When the receiver calls the gateway
  directly, both are the receiver.

## Model

| member | source | states |
|---|---|---|
| Common.KeyOf | test/unit/Remittance.test.js:19-21 | the key is derived from the exchange and receiver secret hashes, the receiver and the sender, and records the receiver and the sender it names |
| Common.KeyOfInjective | test/unit/Remittance.test.js:21 | two derivations give the same key only when all four inputs agree (collision resistance) |
| EscrowLedger.OwnerTaxDenominatorValue | test/unit/Remittance.test.js:28-34 | the owner tax denominator is exactly 1,000,000 |
| EscrowLedger.InRange | test/unit/Remittance.test.js:321-346 | a validity duration is accepted exactly when it lies in [1 day, 1 year], so an accepted duration is positive |
| EscrowLedger.DurationBounds | test/unit/Remittance.test.js:321-346 | a day is 86,400 s and a year 365 days; both bounds are inclusive; 1 hour and 2 years are out of range and 42 days is in range |
| EscrowLedger.Exists | test/unit/Remittance.test.js:229-235 | an entry exists exactly when its value is positive, so the empty entry (0, 0) never exists |
| EscrowLedger.Expired | test/unit/Remittance.test.js:237-255 | an entry has expired at `now` exactly when `now` is not before its deadline |
| EscrowLedger.AfterDeposit | test/unit/Remittance.test.js:127-206 | a deposit adds exactly its amount to the value; the new deadline is at least `now + duration`, and for a live entry at least one duration past the old deadline; with a positive duration the entry is not expired at `now` |
| EscrowLedger.FirstDeposit | test/unit/Remittance.test.js:127-140 | a first deposit of `v` at `now` yields `(v, now + duration)` |
| EscrowLedger.RepeatDeposit | test/unit/Remittance.test.js:162-206 | a repeat deposit adds its value; before the deadline it extends the deadline by exactly one duration, after it the deadline becomes `now + duration` |
| EscrowLedger.DepositsAccumulate | test/unit/Remittance.test.js:196-206 | after any series of deposits the value is the old value plus the sum of the deposited amounts |
| EscrowLedger.DepositsBeforeDeadlineExtend | test/unit/Remittance.test.js:162-176 | n deposits to a live entry, all before its deadline, push the deadline out by exactly n durations |
| EscrowLedger.NotReclaimableWithinDuration | test/unit/Remittance.test.js:237-244 | an entry just deposited to is not expired at any time before `now + duration` |
| EscrowLedger.Remittance.constructor | test/unit/Remittance.test.js:24-26 | a new ledger has the given owner and duration, no entries, no trusted exchanges, nothing deposited or released and an empty log |
| EscrowLedger.Remittance.Get | test/unit/Remittance.test.js:64-74 | reading an entry gives the stored (value, validUntil), and (0, 0) for a key never written |
| EscrowLedger.Remittance.IsTrusted | test/unit/Remittance.test.js:371-379 | reading a trust flag gives the stored flag, and false for an exchange never set |
| EscrowLedger.Remittance.AddRemittanceRequest | test/unit/Remittance.test.js:127-227 | a deposit under a key sets its entry to `AfterDeposit` of the old entry, which is not expired at `now`, and logs a new-request event for an absent entry or an update event otherwise, with the new value and deadline; the deposited total under the key grows by the value; nothing else changes; a zero deposit reverts with no change |
| EscrowLedger.Remittance.WithdrawEther | test/unit/Remittance.test.js:36-125 | a claim succeeds exactly when the caller is trusted and the amount does not exceed the value under the key recomputed with `origin` as receiver; an untrusted caller gets `Unauthorized`, too large an amount `InsufficientValue`; success subtracts exactly the amount, keeps the deadline, pays the caller, logs (origin, sender, amount), and adds the amount to what was released under the key; entries whose key names another receiver are never touched; failure changes nothing |
| EscrowLedger.Remittance.WithdrawRemittanceRequest | test/unit/Remittance.test.js:229-311 | a reclaim succeeds exactly when the entry keyed with the caller as sender exists and has expired (`NotFound` / `NotExpired` otherwise); it pays the whole value to the caller, resets the entry to (0, 0), logs (receiver, caller, value) and adds the value to what was released under the key; entries of other senders are never touched |
| EscrowLedger.Remittance.SetValidityDuration | test/unit/Remittance.test.js:313-361 | only the owner (`Unauthorized`), only within [1 day, 1 year] (`OutOfRange`); on success the duration is exactly the new value and the change is logged |
| EscrowLedger.Remittance.SetTrustedExchange | test/unit/Remittance.test.js:363-393 | only the owner; on success exactly that exchange's flag becomes the given value and the change is logged |
| ExchangeGateway.LocalAmount | test/unit/Exchange.test.js:116-141 | the credited amount is `floor(amount * rate / 10^18)`: its scaled value is at most `amount * rate` and one more unit would exceed it |
| ExchangeGateway.ConversionExamples | test/unit/Exchange.test.js:116-141 | rate 2.0 on 10^18 gives 2·10^18, rate 0.5 on 2·10^18 gives 10^18, rate 2.0 on 42 gives 84 |
| ExchangeGateway.UnitRateIsIdentity | test/unit/Exchange.test.js:116-141 | a property of the `amount * rate / 10^18` formula those tests exercise: a rate of exactly 10^18 credits the amount itself |
| ExchangeGateway.LocalAmountMonotone | test/unit/Exchange.test.js:116-141 | a property of the `amount * rate / 10^18` formula those tests exercise: converting a larger amount never credits less |
| ExchangeGateway.SplitConversionNeverGains | test/unit/Exchange.test.js:116-141 | a property of the `amount * rate / 10^18` formula those tests exercise: two conversions of `a` and `b` never credit more than one conversion of `a + b` |
| ExchangeGateway.WholeUnitCreditsSomething | test/unit/Exchange.test.js:116-141 | a property of the `amount * rate / 10^18` formula those tests exercise: with a non-zero rate, converting at least one whole unit (10^18) credits something |
| ExchangeGateway.Exchange.constructor | test/unit/Exchange.test.js:55-80 | the gateway stores exactly the given token address, ledger and rate, with no balances and nothing credited or withdrawn |
| ExchangeGateway.Exchange.BalanceOf | test/unit/Exchange.test.js:116-127 | reading a balance gives the stored balance, and 0 for an account never credited |
| ExchangeGateway.Exchange.Deploy | test/unit/Exchange.test.js:31-80 | deployment succeeds exactly when the token address is non-empty, the ledger is present and the rate is non-zero, and otherwise reverts with `InvalidConfiguration`; a deployed gateway holds exactly the given references and rate, with nothing credited or withdrawn |
| ExchangeGateway.Exchange.Settle | test/unit/Exchange.test.js:82-162 | after the ledger's answer: `false` reverts with `ClaimRejected`, a payment below the amount aborts, and otherwise the caller is credited exactly `LocalAmount(amount, rate)`, which is positive when at least one whole unit was claimed, the credit is added to the caller's credited total and (caller, sender, amount, credit) is logged; failure changes nothing |
| ExchangeGateway.Exchange.Convert | test/integration/Exchange.integration.test.js:33-76 | the ledger sees the gateway as immediate caller and `origin` as receiver; the conversion succeeds exactly when the gateway is trusted and the amount fits the entry keyed with `origin`; on success the ledger entry loses exactly the amount (its released total grows by it) and the caller gains exactly `LocalAmount(amount, rate)` (its credited total grows by it), each side logging its event; it never aborts with this ledger; failure changes neither object |
| ExchangeGateway.Exchange.WithdrawLocalCurrency | test/unit/Exchange.test.js:164-217 | fails with `InsufficientBalance` when the balance is below the amount and with `TransferRejected` when the token's transfer returns false, changing nothing; otherwise debits exactly the amount, adds it to the caller's withdrawn total and logs (caller, amount) |
| ExchangeGateway.Exchange.SetExchangeRate | test/unit/Exchange.test.js:219-253 | only the owner; on success the rate is exactly the new (non-zero) value and the change is logged |
| Scenarios.ClaimByReceiver | test/unit/Remittance.test.js:64-125 | claiming 100 of 142 pays the caller 100, leaves 42 with the same deadline and logs (receiver, sender, 100) |
| Scenarios.ClaimRefusals | test/unit/Remittance.test.js:36-62 | an untrusted caller gets `Unauthorized` and an amount above the value `InsufficientValue`; on a fresh ledger trusting only another account, that account's claim of 100 in a transaction it started fails and the entry keeps 142, while its claim of 0 succeeds and pays 0 |
| Scenarios.RepeatDeposits | test/unit/Remittance.test.js:162-227 | a second deposit of 142 before the deadline gives (284, t0 + 2 durations) and logs an update with those values; after the deadline it gives (284, now + duration) |
| Scenarios.Reclaim | test/unit/Remittance.test.js:229-311 | a reclaim before the deadline or by a non-sender fails; after it the sender gets 142, the entry reads (0, 0), and a second reclaim fails with `NotFound` |
| Scenarios.OwnerSettings | test/unit/Remittance.test.js:313-393 | non-owners are refused, 1 hour and 2 years are out of range, 42 days is stored, and a trusted flag set by the owner reads back true |
| Scenarios.Deployments | test/unit/Exchange.test.js:31-53 | deployment with an empty token, an empty ledger or a zero rate fails; with all three given it succeeds |
| Scenarios.GatewayWithGivenAnswers | test/unit/Exchange.test.js:94-217 | a `false` claim reverts, a short payment aborts, rates 2.0 and 0.5 credit 2·10^18 and 10^18, a withdrawal beyond the balance or refused by the token fails, and withdrawing the whole balance leaves 0 |
| Scenarios.ConvertThroughLedger | test/integration/Exchange.integration.test.js:33-76 | through a real ledger, converting 42 fails while the gateway is untrusted, for 43, and when started by an account other than the receiver; once trusted, the receiver is credited exactly 84 and 0 stays escrowed |

## Left out

- The contract sources `contracts/Remittance.sol` and `contracts/Exchange.sol` are not part of this model; it follows the behaviour their test suites observe.
- Key derivation: the keccak-based `encodePassword`/`encodeKey` are not modelled; `KeyOf` keeps its four inputs, so it is injective by construction and hash collisions are not modelled.
- Gas and wei balances: gas cost and account balances are not modelled; a payout is returned as `Payout(to, amount)`.
- Integer width: amounts, times and rates are unbounded naturals; 256-bit overflow of `value`, `validUntil` or `amount * rate` is not modelled, because the contracts' arithmetic is not visible.
- Failing value transfers: a payout to an account that rejects it is not modelled; the tests only pay accounts that accept.
- The test fakes' magic numbers (100, 42, 256) are not reproduced: the ledger's answer and the value it paid are parameters of `Settle`, and the token's `transfer` result is the `transferred` parameter of `WithdrawLocalCurrency`.
- The local-currency token itself is not modelled beyond its address and the boolean its `transfer` returns.
- Owner tax: `OwnerTaxDenominator` is exposed as a constant only; no fee logic exists in the observed behaviour.
- The default validity duration of a freshly deployed ledger is not observed, so it is a constructor parameter.
- test/Remittance.test.js holds only empty test bodies and gives no behaviour to model.
- Test harness: truffle/web3, `increaseTime`, `assertRevert`/`assertThrow` and event watching are replaced by explicit `now`, `Result` values and the `log` fields.
