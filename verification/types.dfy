/** Machine integers, account keys and the error taxonomy shared by the whole model. */
module Types {

  const U64_MAX: int := 0xFFFF_FFFF_FFFF_FFFF

  /** An unsigned byte. */
  type u8 = x: int | 0 <= x < 0x100

  /** An unsigned 64-bit integer; arithmetic on it is done in `int` and range-checked explicitly. */
  type u64 = x: int | 0 <= x <= U64_MAX

  /** A 32-byte public key; keys are compared for equality only. */
  type Pubkey = k: seq<u8> | |k| == 32 witness seq(32, i => 0)

  /** Why an instruction aborted. Every error rolls back the whole instruction. */
  datatype Error =
    | AccountAlreadyInUse    // `init` on the game address of a player that already has a game
    | AccountNotInitialized  // no game lives at the address derived from the player key
    | ConstraintViolated     // an account `constraint = ...` equality (the caller's identity) failed
    | ArithmeticOverflow     // a checked u64 operation overflowed or underflowed
    | InsufficientFunds      // the source of a lamport transfer holds less than the amount
    | CommitmentMismatch     // the revealed (max_score, salt) does not hash to the commitment
    | ScoreAlreadySet        // the write-once guard of `submit`
}
