/** One game's record and the four handlers of the program, each a pure function from the record
    (and the instruction's arguments) to the updated record and the lamports it asks to move. */
module Escrow {
  import opened Wrappers
  import opened Types
  import opened Commitment

  /** The persisted `Game` account. */
  datatype Game = Game(
    creator: Pubkey,
    player: Pubkey,
    bet: u64,
    commitment: Digest,
    userRandom: Option<u64>,
    payout: Option<u64>,
    score: Option<u64>)

  /** A handler's accepted outcome: the record to store and the lamports of its one transfer. */
  datatype Step = Step(game: Game, lamports: u64)

  /** The fields set at setup that no handler writes again. */
  predicate SameTerms(g: Game, g': Game)
  {
    && g'.creator == g.creator
    && g'.player == g.player
    && g'.bet == g.bet
    && g'.commitment == g.commitment
  }

  /** `setup`: records the two parties, the bet and the commitment, and asks the creator to lock
      nine bets; `9 * bet` is checked u64 arithmetic. */
  function SetupGame(creator: Pubkey, player: Pubkey, bet: u64, commitment: Digest): (r: Result<Step, Error>)
    ensures r.Ok? <==> 9 * bet <= U64_MAX
    ensures r.Err? ==> r.error == ArithmeticOverflow
    ensures r.Ok? ==>
              && r.value.game.creator == creator && r.value.game.player == player
              && r.value.game.bet == bet && r.value.game.commitment == commitment
              && r.value.game.userRandom.None? && r.value.game.payout.None? && r.value.game.score.None?
              && r.value.lamports == 9 * bet
  {
    if 9 * bet > U64_MAX then Err(ArithmeticOverflow)
    else Ok(Step(Game(creator, player, bet, commitment, None, None, None), 9 * bet))
  }

  /** `join`: only the game's player may call it; it stores r as the user randomness, replacing
      any earlier value, and asks the player to lock one bet. */
  function JoinGame(g: Game, caller: Pubkey, r: u64): (res: Result<Step, Error>)
    ensures res.Ok? <==> caller == g.player
    ensures res.Err? ==> res.error == ConstraintViolated
    ensures res.Ok? ==>
              && SameTerms(g, res.value.game)
              && res.value.game.userRandom == Some(r)
              && res.value.game.score == g.score && res.value.game.payout == g.payout
              && res.value.lamports == g.bet
  {
    if caller != g.player then Err(ConstraintViolated)
    else Ok(Step(g.(userRandom := Some(r)), g.bet))
  }

  /** `submit` with its intended write-once semantics: only the player may call it, and only while
      no score is stored. */
  function SubmitGame(g: Game, caller: Pubkey, score: u64): (r: Result<Game, Error>)
    ensures r.Ok? <==> caller == g.player && g.score.None?
    ensures caller != g.player ==> r == Err(ConstraintViolated)
    ensures caller == g.player && g.score.Some? ==> r == Err(ScoreAlreadySet)
    ensures r.Ok? ==>
              && SameTerms(g, r.value)
              && r.value.score == Some(score)
              && r.value.userRandom == g.userRandom && r.value.payout == g.payout
  {
    if caller != g.player then Err(ConstraintViolated)
    else if g.score.Some? then Err(ScoreAlreadySet)
    else Ok(g.(score := Some(score)))
  }

  /** `submit` as it stands: the handler body assigns no field on any path. As text it cannot be
      built (it converts an `Option<u64>` into `()` and maps the error to an `Err` value rather
      than an error), so the text defines no outcome; `converted` stands for whichever outcome a
      build would give. */
  function SubmitAsWritten(g: Game, caller: Pubkey, score: u64, converted: bool): (r: Result<Game, Error>)
    ensures r.Ok? ==> r.value == g
    ensures r.Ok? <==> caller == g.player && converted
  {
    if caller != g.player then Err(ConstraintViolated)
    else if !converted then Err(ScoreAlreadySet)
    else Ok(g)
  }

  /** The settlement amount: nothing when the score exceeds the committed maximum, otherwise a
      tenth of `(100 - score) * bet`, rounded down, where the subtraction and the product are
      checked u64 arithmetic. */
  function Payout(bet: u64, maxScore: u64, score: u64): (r: Result<u64, Error>)
    ensures score > maxScore ==> r == Ok(0)
    ensures score <= maxScore ==> (r.Ok? <==> score <= 100 && (100 - score) * bet <= U64_MAX)
    ensures r.Err? ==> r.error == ArithmeticOverflow
    ensures score <= maxScore && r.Ok? ==>
              10 * r.value <= (100 - score) * bet < 10 * r.value + 10
  {
    if score > maxScore then Ok(0)
    else if score > 100 then Err(ArithmeticOverflow)
    else if (100 - score) * bet > U64_MAX then Err(ArithmeticOverflow)
    else Ok((100 - score) * bet / 10)
  }

  /** `settle`: only the creator may call it; the reveal must open the commitment, and the payout
      is computed from the score given as an argument. The record is returned unchanged. */
  function SettleGame(g: Game, caller: Pubkey, maxScore: u64, salt: u64, score: u64, h: Hasher)
    : (r: Result<Step, Error>)
    ensures caller != g.creator ==> r == Err(ConstraintViolated)
    ensures caller == g.creator && !Opens(h, g.commitment, maxScore, salt) ==> r == Err(CommitmentMismatch)
    ensures r.Ok? <==> caller == g.creator && Opens(h, g.commitment, maxScore, salt)
                       && Payout(g.bet, maxScore, score).Ok?
    ensures (caller == g.creator && Opens(h, g.commitment, maxScore, salt) && Payout(g.bet, maxScore, score).Err?)
              ==> r == Err(ArithmeticOverflow)
    ensures r.Ok? ==> r.value.game == g && Payout(g.bet, maxScore, score) == Ok(r.value.lamports)
  {
    if caller != g.creator then Err(ConstraintViolated)
    else if h(Preimage(maxScore, salt)) != g.commitment then Err(CommitmentMismatch)
    else
      var payout :- Payout(g.bet, maxScore, score);
      Ok(Step(g, payout))
  }
}
