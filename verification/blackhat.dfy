/** The program as the ledger runs it: every game lives at the address derived from its player's
    key, each instruction validates its accounts, runs its handler and performs its transfer, and
    an instruction that fails anywhere leaves no trace. */
module Blackhat {
  import opened Wrappers
  import opened Types
  import opened Commitment
  import opened Ledger
  import opened Escrow

  /** All games, keyed by the player key their address is derived from, and all balances. */
  datatype State = State(games: map<Pubkey, Game>, balances: Balances)

  /** A game is stored under the key of its own player. */
  predicate Valid(s: State)
  {
    forall p :: p in s.games ==> s.games[p].player == p
  }

  /** Games other than the one at player are as they were. */
  predicate OthersUnchanged(s: State, s': State, player: Pubkey)
  {
    && s'.games.Keys == s.games.Keys + {player}
    && forall q :: q in s.games && q != player ==> s'.games[q] == s.games[q]
  }

  /** `setup`, signed by the creator: creates the game at the player's address (failing if one is
      already there) and moves nine bets from the creator to that game's escrow authority. */
  function Setup(s: State, creator: Pubkey, player: Pubkey, bet: u64, commitment: Digest)
    : (r: Result<State, Error>)
    ensures player in s.games ==> r == Err(AccountAlreadyInUse)
    ensures r.Ok? <==>
              && player !in s.games
              && 9 * bet <= U64_MAX
              && Transfer(s.balances, Wallet(creator), Authority(player), 9 * bet).Ok?
    ensures r.Ok? ==>
              && OthersUnchanged(s, r.value, player)
              && SetupGame(creator, player, bet, commitment) == Ok(Step(r.value.games[player], 9 * bet))
              && r.value.balances == Transfer(s.balances, Wallet(creator), Authority(player), 9 * bet).value
  {
    if player in s.games then Err(AccountAlreadyInUse)
    else
      var step :- SetupGame(creator, player, bet, commitment);
      var balances :- Transfer(s.balances, Wallet(creator), Authority(player), step.lamports);
      Ok(State(s.games[player := step.game], balances))
  }

  /** `join`, signed by the player: the game at the signer's address must name the signer as its
      player; the handler runs and one bet moves from the player to the escrow authority. */
  function Join(s: State, player: Pubkey, r: u64): (res: Result<State, Error>)
    ensures player !in s.games ==> res == Err(AccountNotInitialized)
    ensures res.Ok? <==>
              && player in s.games
              && JoinGame(s.games[player], player, r).Ok?
              && Transfer(s.balances, Wallet(player), Authority(player), s.games[player].bet).Ok?
    ensures res.Ok? ==>
              && OthersUnchanged(s, res.value, player)
              && JoinGame(s.games[player], player, r) == Ok(Step(res.value.games[player], s.games[player].bet))
              && res.value.balances == Transfer(s.balances, Wallet(player), Authority(player), s.games[player].bet).value
  {
    if player !in s.games then Err(AccountNotInitialized)
    else
      var step :- JoinGame(s.games[player], player, r);
      var balances :- Transfer(s.balances, Wallet(player), Authority(player), step.lamports);
      Ok(State(s.games[player := step.game], balances))
  }

  /** `submit`, signed by the player; moves no lamports. */
  function Submit(s: State, player: Pubkey, score: u64): (res: Result<State, Error>)
    ensures player !in s.games ==> res == Err(AccountNotInitialized)
    ensures res.Ok? <==> player in s.games && SubmitGame(s.games[player], player, score).Ok?
    ensures res.Ok? ==>
              && OthersUnchanged(s, res.value, player)
              && SubmitGame(s.games[player], player, score) == Ok(res.value.games[player])
              && res.value.balances == s.balances
  {
    if player !in s.games then Err(AccountNotInitialized)
    else
      var g :- SubmitGame(s.games[player], player, score);
      Ok(State(s.games[player := g], s.balances))
  }

  /** `settle`, signed by the creator for the game at the given player's address: the handler runs
      and the payout moves from the escrow authority to the player. No game record changes. */
  function Settle(s: State, creator: Pubkey, player: Pubkey, maxScore: u64, salt: u64, score: u64, h: Hasher)
    : (res: Result<State, Error>)
    ensures player !in s.games ==> res == Err(AccountNotInitialized)
    ensures res.Ok? <==>
              && player in s.games
              && SettleGame(s.games[player], creator, maxScore, salt, score, h).Ok?
              && Transfer(s.balances, Authority(player), Wallet(player),
                          SettleGame(s.games[player], creator, maxScore, salt, score, h).value.lamports).Ok?
    ensures res.Ok? ==>
              && res.value.games == s.games
              && res.value.balances == Transfer(s.balances, Authority(player), Wallet(player),
                                                SettleGame(s.games[player], creator, maxScore, salt, score, h).value.lamports).value
  {
    if player !in s.games then Err(AccountNotInitialized)
    else
      var step :- SettleGame(s.games[player], creator, maxScore, salt, score, h);
      var balances :- Transfer(s.balances, Authority(player), Wallet(player), step.lamports);
      assert s.games[player := step.game] == s.games;
      Ok(State(s.games[player := step.game], balances))
  }

  /** One transaction carrying one instruction of the program. */
  datatype Instruction =
    | SetupIx(creator: Pubkey, player: Pubkey, bet: u64, commitment: Digest)
    | JoinIx(player: Pubkey, r: u64)
    | SubmitIx(player: Pubkey, score: u64)
    | SettleIx(creator: Pubkey, player: Pubkey, maxScore: u64, salt: u64, score: u64)

  /** The accounts whose lamports an instruction may move. */
  function Parties(ix: Instruction): set<Account>
  {
    match ix
    case SetupIx(c, p, _, _) => {Wallet(c), Authority(p)}
    case JoinIx(p, _) => {Wallet(p), Authority(p)}
    case SubmitIx(_, _) => {}
    case SettleIx(_, p, _, _, _) => {Wallet(p), Authority(p)}
  }

  /** Dispatches one instruction to its handler. An accepted instruction touches at most the game
      at its player's address and the balances of its own parties. */
  function Execute(s: State, ix: Instruction, h: Hasher): (r: Result<State, Error>)
    ensures r.Ok? ==> OthersUnchanged(s, r.value, ix.player)
    ensures r.Ok? ==> forall a :: a !in Parties(ix) ==> Balance(r.value.balances, a) == Balance(s.balances, a)
  {
    match ix
    case SetupIx(c, p, bet, com) => Setup(s, c, p, bet, com)
    case JoinIx(p, r) => Join(s, p, r)
    case SubmitIx(p, score) => Submit(s, p, score)
    case SettleIx(c, p, m, salt, score) => Settle(s, c, p, m, salt, score, h)
  }

  /** A sequence of transactions: a failed one is rolled back entirely and the next one starts
      from the state before it. */
  function Run(s: State, ixs: seq<Instruction>, h: Hasher): (r: State)
    ensures s.games.Keys <= r.games.Keys
    ensures forall a :: (forall i :: 0 <= i < |ixs| ==> a !in Parties(ixs[i])) ==>
              Balance(r.balances, a) == Balance(s.balances, a)
    decreases |ixs|
  {
    if |ixs| == 0 then s
    else
      var next := Execute(s, ixs[0], h);
      Run(if next.Ok? then next.value else s, ixs[1..], h)
  }
}
