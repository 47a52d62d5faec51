# Blackhat escrow game — Dafny model

A model of the `blackhat` Solana program: a two-party wager settled by commit-reveal. The creator
commits to a hidden `(max_score, salt)` pair by publishing the Keccak-256 hash of
`LE8(max_score) ++ LE8(salt)` and locks nine bets. The player joins by locking one bet and
submits a score. The creator then reveals the pair. Settlement checks the reveal against the
commitment and pays the player `(100 - score) * bet / 10`, or nothing when the score exceeds
`max_score`. The payout comes from the game's escrow authority, an account derived from the game
address, which is itself derived from the player key.

Layout:

- `wrappers.dfy`: `Option` and `Result`.
- `types.dfy`: `u8`, `u64`, 32-byte `Pubkey`, and the `Error` taxonomy.
- `little_endian.dfy`: `to_le_bytes`/`from_le_bytes` and their round trips.
- `commitment.dfy`: the 16-byte preimage, its decoder, and the `Opens` predicate.
- `ledger.dfy`: lamport balances per account and the system program's all-or-nothing `transfer`.
- `escrow.dfy`: the `Game` record, the four handlers as pure functions, and `Payout`.
- `blackhat.dfy`: the whole program state. Games are keyed by player and sit next to the balances. The four instructions are here with their account checks and transfers, plus `Run` over a sequence of transactions. A failed transaction is rolled back.
- `payout.dfy`, `blackhat_facts.dfy`, `divergences.dfy`, `scenarios.dfy`: the properties.

Boundary choices:

- Keccak-256 is a parameter `h: Hasher`. Any total function from bytes to 32-byte digests can stand for it, and nothing assumes it is injective.
- The checked-arithmetic build is assumed: every u64 overflow or underflow is the error `ArithmeticOverflow`, never a wrap-around.
- Account derivation is reduced to map keys. The game address is the player key. The escrow authority is `Authority(player)`, kept distinct from every wallet.
- Signer checks and `constraint = ...` lines become equalities between the caller and the stored keys.

The game is meant to run setup → join → submit → settle, with `user_random` and `score` each written once and settle paying for the submitted score. The code departs from that, and the model follows the code:

- **`join` is not write-once.** It overwrites `user_random` and locks another bet on every call (lib.rs:31).
- **`settle` ignores the stored score.** It uses the score passed in as an argument. It does not require that a score was ever submitted.
- **The game is keyed by the player only.** So there is one game per player, not one per (creator, player) pair.
- **A settled game can be settled again.** `settle` writes no field, so the same reveal can be sent again and pays again while the authority still has the funds. Nothing ever returns the unpaid rest of the escrow to the creator.
- **One settlement can pay ten bets.** A score of 0 pays `10 * bet`, which is all of the custody, not just the creator's nine bets.
- **The `payout` field is never written, and `user_random` is never read.**
- **`submit` is the exception.** As written, it assigns nothing (lib.rs:47-60), and the text cannot even be built as Rust: it converts an `Option<u64>` into `()`, and `err!(..)` yields an `Err` value where an error is expected. The model uses the intended write-once logic from the commented-out lines 55-58 and records the gap under Findings.

## Model

| member | source | states |
|---|---|---|
| LittleEndian.FromToLE | programs/blackhat/src/lib.rs:64 | decoding the n-byte little-endian encoding of any value below 256^n returns that value |
| LittleEndian.ToFromLE | programs/blackhat/src/lib.rs:64 | re-encoding the value of any byte string at its own width returns the same bytes |
| LittleEndian.LE8 | programs/blackhat/src/lib.rs:64 | `to_le_bytes` yields exactly eight bytes whose little-endian value is the input |
| LittleEndian.LE8RoundTrip | programs/blackhat/src/lib.rs:64 | `from_le_bytes(to_le_bytes(x)) == x` for every u64 |
| LittleEndian.LE8Surjective | programs/blackhat/src/lib.rs:64 | every 8-byte string is `to_le_bytes` of the value it decodes to |
| LittleEndian.LE8Injective | programs/blackhat/src/lib.rs:64 | two u64 values have equal encodings exactly when they are equal |
| Commitment.Preimage | programs/blackhat/src/lib.rs:64 | the hashed buffer is 16 bytes: max_score's 8 LE bytes, then salt's 8 LE bytes (the client's layout, tests/blackhat.ts:23-27) |
| Commitment.DecodePreimage | programs/blackhat/src/lib.rs:64 | a byte string is decodable as a reveal exactly when it is 16 bytes long |
| Commitment.PreimageRoundTrip | programs/blackhat/src/lib.rs:64 | decoding the preimage recovers (max_score, salt) |
| Commitment.PreimageInjective | programs/blackhat/src/lib.rs:64 | two reveals give the same preimage exactly when they are the same pair |
| Commitment.PreimageUnique | programs/blackhat/src/lib.rs:64 | the preimage is the only byte string that decodes to its (max_score, salt) |
| Commitment.Opens | programs/blackhat/src/lib.rs:65-73 | a reveal opens a commitment exactly when every byte string that reads back as that reveal hashes to the commitment |
| Ledger.Transfer | programs/blackhat/src/lib.rs:16-25 | a transfer succeeds exactly when the source holds the amount and the destination stays in u64; then the source loses and the destination gains exactly the amount, and no other balance changes; otherwise it fails with InsufficientFunds or ArithmeticOverflow |
| Escrow.SetupGame | programs/blackhat/src/lib.rs:10-25 | fails exactly when `9 * bet` overflows; otherwise records creator, player, bet and commitment, leaves user_random, payout and score unset, and asks for 9 * bet lamports |
| Escrow.JoinGame | programs/blackhat/src/lib.rs:30-45 | succeeds exactly when the caller is the game's player; then only user_random changes (to Some(r), whatever it held) and one bet is requested |
| Escrow.SubmitGame | programs/blackhat/src/lib.rs:55-58 | succeeds exactly when the caller is the player and no score is stored; then only score changes, to the submitted one; a stored score makes it fail with ScoreAlreadySet |
| Escrow.SubmitAsWritten | programs/blackhat/src/lib.rs:47-53 | the text assigns no field and defines no outcome (it cannot be built); for either outcome, standing in as `converted`, a successful call returns the record unchanged |
| Escrow.Payout | programs/blackhat/src/lib.rs:77-84 | a score above max_score pays 0; otherwise it succeeds exactly when score <= 100 and (100 - score) * bet fits in u64, and the payout p satisfies 10p <= (100 - score) * bet < 10p + 10 (floor division) |
| Escrow.SettleGame | programs/blackhat/src/lib.rs:62-84 | a caller other than the creator gets ConstraintViolated; a reveal that does not open the commitment gets CommitmentMismatch; a failed payout after both checks gets ArithmeticOverflow; success holds exactly when both checks pass and Payout succeeds, and then the record is unchanged and the transfer is the payout |
| Blackhat.Setup | programs/blackhat/src/lib.rs:106-133 | fails with AccountAlreadyInUse when the player already has a game; otherwise succeeds exactly when 9 * bet fits and the creator can fund it; on success only the player's game is added, and the 9 * bet moves from creator to that game's authority |
| Blackhat.Join | programs/blackhat/src/lib.rs:135-157 | needs a game at the signer's address naming the signer as player, and a funded transfer of one bet to the authority; no other game changes |
| Blackhat.Submit | programs/blackhat/src/lib.rs:159-171 | needs a game at the signer's address; no lamports move and no other game changes |
| Blackhat.Settle | programs/blackhat/src/lib.rs:173-199 | needs a game at the player's address, the settle handler's checks and a funded payout from the authority to the player; no game record changes |
| Blackhat.Execute | programs/blackhat/src/lib.rs:6-104 | an accepted instruction changes at most the game at its player's address and the balances of its own parties (creator or player wallet, and that game's authority) |
| Blackhat.Run | programs/blackhat/src/lib.rs:10-103 | over any sequence of transactions no game disappears, and an account that is a party to none of them keeps its balance |
| BlackhatFacts.RunRollsBackFailure | programs/blackhat/src/lib.rs:10-103 | a failed transaction (failed check, panic or transfer) leaves the state exactly as before it |
| PayoutFacts.PayoutAtMostTenBets | programs/blackhat/src/lib.rs:79-84 | every computable payout is at most 10 * bet |
| PayoutFacts.ZeroScorePaysTenBets | programs/blackhat/src/lib.rs:83 | score 0 pays exactly 10 * bet when the product fits |
| PayoutFacts.PayoutNonIncreasing | programs/blackhat/src/lib.rs:79-84 | for fixed bet and max_score, a higher score never pays more, including across the void boundary |
| PayoutFacts.PayoutDefinedUpward | programs/blackhat/src/lib.rs:83 | below min(max_score, 100), if a score's payout is computable, so is every higher score's |
| PayoutFacts.PayoutUnderflows | programs/blackhat/src/lib.rs:79-84 | 100 < score <= max_score makes Payout fail with ArithmeticOverflow, so settle aborts with that error |
| PayoutFacts.PayoutExample | programs/blackhat/src/lib.rs:79-84 | bet 100, max 50: score 20 pays 800, score 60 pays 0 |
| BlackhatFacts.ExecutePreservesValid | programs/blackhat/src/lib.rs:115-121 | every instruction keeps each game stored at its own player's address |
| BlackhatFacts.RunPreservesValid | programs/blackhat/src/lib.rs:115-121 | so does every sequence of transactions |
| BlackhatFacts.ExecuteKeepsGame | programs/blackhat/src/lib.rs:10-103 | no instruction deletes a game or changes its creator, player, bet or commitment; a stored score stays; payout is never written |
| BlackhatFacts.RunKeepsGame | programs/blackhat/src/lib.rs:10-103 | the same over any sequence of transactions |
| BlackhatFacts.SetupTermsAreFinal | programs/blackhat/src/lib.rs:10-14 | after a successful setup, every later state holds exactly the setup's creator, player, bet and commitment, with payout unset |
| BlackhatFacts.OneGamePerPlayer | programs/blackhat/src/lib.rs:115-117 | once setup succeeds for a player, every later setup for that player fails with AccountAlreadyInUse |
| BlackhatFacts.OnlyPartiesAct | programs/blackhat/src/lib.rs:140-188 | join and submit succeed only for the game's player, and settle only for its creator |
| BlackhatFacts.SettleBindsCommitment | programs/blackhat/src/lib.rs:62-75 | a successful settle revealed a pair that opens the stored commitment; any other reveal by the creator fails with CommitmentMismatch |
| BlackhatFacts.EscrowCoversPayout | programs/blackhat/src/lib.rs:24-84 | after setup and join, and any transactions short of a settle of this game that goes through (a submit, further joins, other games, settles rejected and rolled back), the authority holds at least any computable payout, so settle does not fail for lack of funds until the first successful settle |
| BlackhatFacts.ExecuteKeepsAuthority | programs/blackhat/src/lib.rs:86-100 | only a settle of its own game takes lamports out of an escrow authority |
| BlackhatFacts.AuthorityNeverShrinks | programs/blackhat/src/lib.rs:86-100 | over any run in which no settle of the game goes through, its authority's balance never decreases |
| Divergences.SubmitAsWrittenNeverRecords | programs/blackhat/src/lib.rs:47-60 | the submit as written never records a score into an empty slot, and it differs from the intended submit exactly when the player calls it |
| Divergences.SubmitIsWriteOnce | programs/blackhat/src/lib.rs:55-58 | under the intended submit, a second submit is refused and the first score stays |
| Divergences.JoinOverwrites | programs/blackhat/src/lib.rs:30-31 | a second join by the player succeeds, replaces user_random and asks for another bet |
| Divergences.SettleIgnoresStoredFields | programs/blackhat/src/lib.rs:62-84 | records that agree on creator, player, bet and commitment settle identically, whatever their score, user_random and payout |
| Divergences.SettleWithoutSubmit | programs/blackhat/src/lib.rs:62-84 | settle pays for the argument score even when no score, or a different one, is stored |
| Divergences.SettleIsReplayable | programs/blackhat/src/lib.rs:62-103 | after a successful settle, the same settle succeeds again exactly when the authority can fund the payout once more |
| Scenarios.Funded | programs/blackhat/src/lib.rs:10-45 | setup with bet 100 and then join move 900 and 100 lamports into the authority |
| Scenarios.RevealPaysEightHundred | programs/blackhat/src/lib.rs:62-103 | reveal (50, 42) with score 20 pays the player 800 and leaves 200 with the authority |
| Scenarios.VoidScorePaysNothing | programs/blackhat/src/lib.rs:79-81 | score 60 above max 50 settles successfully and moves nothing |
| Scenarios.AlteredSaltRejected | programs/blackhat/src/lib.rs:73-75 | an altered salt that does not collide under the hash fails with CommitmentMismatch |
| Scenarios.SecondSubmitRefused | programs/blackhat/src/lib.rs:55-58 | a second submit is refused and the first score stays |

## Left out

- Keccak-256 (`hashv`) is a parameter, not a definition. So "any single-bit change of the reveal is rejected" holds only under a collision-freedom hypothesis, as AlteredSaltRejected states it.
- Scenarios.AlteredSaltRejected: assumes the altered reveal does not collide under the hash, because the hash is not modelled.
- Rent, account space (`space = 440`), account discriminators and `declare_id!` are not modelled. These are ledger mechanics outside the program's logic.
- PDA seeds and bumps are not modelled; addresses are identified by the player key.
- The `msg!` and `hex::encode` logging in settle is not modelled; it has no effect on state.
- System-program transfer failures other than insufficient funds and balance overflow are not modelled, because they are ledger internals.
- Player keys are assumed not to be derived addresses. Setup takes `player` as an unchecked account (lib.rs:111-113), so on chain a player key could coincide with some game's authority; the model keeps `Wallet` and `Authority` apart. Settle credits the unchecked `player` account without its signature (lib.rs:178-180, 91), so a game whose player key is another game's authority pays into that authority; the balance frames of `Blackhat.Execute` and `Blackhat.Run`, which keep `Authority(q)` unchanged when q is no party, hold on chain only under this assumption. The authority lower bounds (`BlackhatFacts.ExecuteKeepsAuthority`, `BlackhatFacts.AuthorityNeverShrinks`, `BlackhatFacts.EscrowCoversPayout`) do not depend on it, since such a credit only adds to an authority.
- Blackhat.Settle: the payee is the player key the game address was derived from, not the stored `player` field. The two are equal in every reachable state, by `Valid`.
- The TypeScript test harness is used only as evidence of the client's preimage layout. Airdrops, RPC and random inputs are left out.
- Refunds, timeouts and disputes are not modelled because the program has none.
- The ordering Created → Joined → ScoreSubmitted → Settled is not enforced by the code, so it is not modelled as a precondition.

## Findings

| source | as written | input that shows it | evidently intended | confidence | as-written member | corrected member |
|---|---|---|---|---|---|---|
| programs/blackhat/src/lib.rs:47-60 | the submit handler assigns no field on any path, so the submitted score is dropped; the text cannot be built as Rust (no conversion of `Option<u64>` into `()`, and `err!(..)` is an `Err` value, not an error), so its outcome is undefined and the model leaves it as the parameter `converted` | a fresh game (score unset) and the player submitting 20: on success the stored score is still unset (Divergences.SubmitAsWrittenNeverRecords) | store the score once and refuse a second submit, as in the commented-out lines 55-58 | not executed | Escrow.SubmitAsWritten | Escrow.SubmitGame |
