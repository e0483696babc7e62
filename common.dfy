/** Types shared by the escrow ledger and the exchange gateway: account
    identities, secret hashes, escrow keys, failure reasons and the
    all-or-nothing outcome of a transaction. */
module Common {

  /** An account identity; 0 plays the role of the empty (zero) address. */
  type Address = nat
  const ZeroAddress: Address := 0

  /** A 32-byte secret hash, kept abstract as a number. */
  type Hash = nat

  /** The escrow key derived from the two secret hashes and the two parties.
      The ledger never looks inside a key; it only compares keys and uses
      them as map indices. Representing the key by its own inputs makes the
      derivation injective, which stands for the collision resistance of
      the hash the system uses. */
  datatype Key = Key(exchangeHash: Hash, receiverHash: Hash, receiver: Address, sender: Address)

  /** Key derivation from (exchange secret hash, receiver secret hash,
      receiver, sender). */
  function KeyOf(exchangeHash: Hash, receiverHash: Hash, receiver: Address, sender: Address): (k: Key)
    ensures k.receiver == receiver && k.sender == sender
  {
    Key(exchangeHash, receiverHash, receiver, sender)
  }

  /** Two derivations agree only when all four inputs agree. */
  lemma KeyOfInjective(e1: Hash, r1: Hash, rc1: Address, s1: Address,
                       e2: Hash, r2: Hash, rc2: Address, s2: Address)
    requires KeyOf(e1, r1, rc1, s1) == KeyOf(e2, r2, rc2, s2)
    ensures e1 == e2 && r1 == r2 && rc1 == rc2 && s1 == s2
  {
  }

  /** Why an ordinary (recoverable) revert happened. */
  datatype Reason =
    | Unauthorized          // caller is not the owner / not a trusted exchange
    | NoValue               // a deposit that carries no value
    | InsufficientValue     // claim amount exceeds the escrowed value
    | NotFound              // no escrowed value under the key
    | NotExpired            // reclaim before the entry's deadline
    | OutOfRange            // validity duration outside [1 day, 1 year]
    | InvalidConfiguration  // constructor given an empty reference or a zero rate
    | ZeroRate              // a new exchange rate of 0
    | ClaimRejected         // the ledger's claim reported false
    | InsufficientBalance   // local-currency withdrawal exceeds the balance
    | TransferRejected      // the local-currency token's transfer reported false

  /** The outcome of one transaction. Revert is a failed `require`: all
      state is rolled back and the caller gets a recoverable failure. Abort
      is a failed `assert` (a throw): state is rolled back as well, but the
      failure signals a broken invariant and is distinct from a revert. */
  datatype Result<T> = Ok(value: T) | Revert(reason: Reason) | Abort

  /** A push transfer of native value made by a successful call. */
  datatype Payout = Payout(to: Address, amount: nat)
}
