/** The custodial ledger reduced to a lamport balance per account and the system program's
    `transfer`, which either moves the whole amount or fails. */
module Ledger {
  import opened Wrappers
  import opened Types

  /** A lamport-holding account: a party's wallet, or the escrow authority of the game of a player.
      The authority address is derived from the game address, which is derived from the player
      key, so the player key identifies it; the model assumes a derived address is never a wallet. */
  datatype Account = Wallet(key: Pubkey) | Authority(player: Pubkey)

  type Balances = map<Account, u64>

  /** Lamports held by a; an account the map does not mention holds none. */
  function Balance(b: Balances, a: Account): u64
  {
    if a in b then b[a] else 0
  }

  /** Moves amount lamports from one account to another, failing (and moving nothing) when the
      source is short or the destination's balance would leave the u64 range. */
  function Transfer(b: Balances, from: Account, to: Account, amount: u64): (r: Result<Balances, Error>)
    ensures r.Ok? <==> Balance(b, from) >= amount && (from == to || Balance(b, to) + amount <= U64_MAX)
    ensures Balance(b, from) < amount ==> r == Err(InsufficientFunds)
    ensures r.Err? && Balance(b, from) >= amount ==> r == Err(ArithmeticOverflow)
    ensures r.Ok? && from == to ==> r.value == b
    ensures r.Ok? && from != to ==>
              && Balance(r.value, from) == Balance(b, from) - amount
              && Balance(r.value, to) == Balance(b, to) + amount
    ensures r.Ok? ==> forall a :: a != from && a != to ==> Balance(r.value, a) == Balance(b, a)
  {
    if Balance(b, from) < amount then Err(InsufficientFunds)
    else if from == to then Ok(b)
    else if Balance(b, to) + amount > U64_MAX then Err(ArithmeticOverflow)
    else
      var debited := b[from := Balance(b, from) - amount];
      Ok(debited[to := Balance(b, to) + amount])
  }
}
