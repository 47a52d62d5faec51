/** What the program guarantees across instructions: the stored-under-its-player invariant, the
    fields that are never rewritten, one game per player, who may act, commitment binding and
    escrow sufficiency. */
module BlackhatFacts {
  import opened Wrappers
  import opened Types
  import opened Commitment
  import opened Ledger
  import opened Escrow
  import opened PayoutFacts
  import opened Blackhat

  /** A transaction that fails leaves no trace: the run continues from the state before it, so its
      partial effects (a record written before a failed transfer, say) are never seen. */
  lemma RunRollsBackFailure(s: State, ix: Instruction, rest: seq<Instruction>, h: Hasher)
    requires Execute(s, ix, h).Err?
    ensures Run(s, [ix] + rest, h) == Run(s, rest, h)
  {
    assert ([ix] + rest)[1..] == rest;
  }

  /** Every instruction keeps each game stored under its own player's key. */
  lemma ExecutePreservesValid(s: State, ix: Instruction, h: Hasher)
    requires Valid(s)
    requires Execute(s, ix, h).Ok?
    ensures Valid(Execute(s, ix, h).value)
  {
    var s' := Execute(s, ix, h).value;
    forall p | p in s'.games
      ensures s'.games[p].player == p
    {
      if p !in s.games {
        assert ix.SetupIx? && ix.player == p;
      }
    }
  }

  /** So does every run of transactions. */
  lemma {:induction false} RunPreservesValid(s: State, ixs: seq<Instruction>, h: Hasher)
    requires Valid(s)
    ensures Valid(Run(s, ixs, h))
    decreases |ixs|
  {
    if |ixs| > 0 {
      var next := Execute(s, ixs[0], h);
      if next.Ok? {
        ExecutePreservesValid(s, ixs[0], h);
      }
      RunPreservesValid(if next.Ok? then next.value else s, ixs[1..], h);
    }
  }

  /** No instruction removes a game or changes its creator, player, bet or commitment; a stored
      score stays stored; the payout field is never written. */
  lemma ExecuteKeepsGame(s: State, ix: Instruction, h: Hasher, p: Pubkey)
    requires p in s.games
    requires Execute(s, ix, h).Ok?
    ensures p in Execute(s, ix, h).value.games
    ensures SameTerms(s.games[p], Execute(s, ix, h).value.games[p])
    ensures s.games[p].score.Some? ==> Execute(s, ix, h).value.games[p].score == s.games[p].score
    ensures Execute(s, ix, h).value.games[p].payout == s.games[p].payout
  {
  }

  /** The same holds over any run, whatever its transactions and whoever signs them. */
  lemma {:induction false} RunKeepsGame(s: State, ixs: seq<Instruction>, h: Hasher, p: Pubkey)
    requires p in s.games
    ensures p in Run(s, ixs, h).games
    ensures SameTerms(s.games[p], Run(s, ixs, h).games[p])
    ensures s.games[p].score.Some? ==> Run(s, ixs, h).games[p].score == s.games[p].score
    ensures Run(s, ixs, h).games[p].payout == s.games[p].payout
    decreases |ixs|
  {
    if |ixs| > 0 {
      var next := Execute(s, ixs[0], h);
      if next.Ok? {
        ExecuteKeepsGame(s, ixs[0], h, p);
      }
      RunKeepsGame(if next.Ok? then next.value else s, ixs[1..], h, p);
    }
  }

  /** A game created by setup keeps its terms forever, and its payout field stays unset. */
  lemma {:induction false} SetupTermsAreFinal(s: State, creator: Pubkey, player: Pubkey, bet: u64,
                                              commitment: Digest, ixs: seq<Instruction>, h: Hasher)
    requires Setup(s, creator, player, bet, commitment).Ok?
    ensures player in Run(Setup(s, creator, player, bet, commitment).value, ixs, h).games
    ensures var g := Run(Setup(s, creator, player, bet, commitment).value, ixs, h).games[player];
            && g.creator == creator && g.player == player && g.bet == bet && g.commitment == commitment
            && g.payout.None?
  {
    var s1 := Setup(s, creator, player, bet, commitment).value;
    RunKeepsGame(s1, ixs, h, player);
  }

  /** At most one game per player: once setup has succeeded for a player, every later setup for
      that player fails, whatever happened in between. */
  lemma {:induction false} OneGamePerPlayer(s: State, creator: Pubkey, player: Pubkey, bet: u64,
                                            commitment: Digest, ixs: seq<Instruction>, h: Hasher,
                                            creator2: Pubkey, bet2: u64, commitment2: Digest)
    requires Setup(s, creator, player, bet, commitment).Ok?
    ensures var later := Run(Setup(s, creator, player, bet, commitment).value, ixs, h);
            Setup(later, creator2, player, bet2, commitment2) == Err(AccountAlreadyInUse)
  {
    RunKeepsGame(Setup(s, creator, player, bet, commitment).value, ixs, h, player);
  }

  /** Only the game's player can join or submit, and only its creator can settle. */
  lemma OnlyPartiesAct(s: State, player: Pubkey, creator: Pubkey, r: u64, score: u64,
                       maxScore: u64, salt: u64, h: Hasher)
    ensures Join(s, player, r).Ok? ==> player in s.games && s.games[player].player == player
    ensures Submit(s, player, score).Ok? ==> player in s.games && s.games[player].player == player
    ensures Settle(s, creator, player, maxScore, salt, score, h).Ok? ==>
              player in s.games && s.games[player].creator == creator
  {
  }

  /** Settlement succeeds only with a reveal that opens the stored commitment; the creator of an
      existing game who reveals anything else gets CommitmentMismatch, and no lamports move. */
  lemma SettleBindsCommitment(s: State, creator: Pubkey, player: Pubkey, maxScore: u64, salt: u64,
                              score: u64, h: Hasher)
    ensures Settle(s, creator, player, maxScore, salt, score, h).Ok? ==>
              Opens(h, s.games[player].commitment, maxScore, salt)
    ensures player in s.games && s.games[player].creator == creator
            && !Opens(h, s.games[player].commitment, maxScore, salt) ==>
              Settle(s, creator, player, maxScore, salt, score, h) == Err(CommitmentMismatch)
  {
  }

  /** No transaction of the run is a settle of player's game that goes through; settles of it that
      fail (a wrong reveal, say) and are rolled back may occur. */
  predicate NoPaidSettle(s: State, ixs: seq<Instruction>, h: Hasher, player: Pubkey)
    decreases |ixs|
  {
    |ixs| == 0 ||
    var next := Execute(s, ixs[0], h);
    && !(ixs[0].SettleIx? && ixs[0].player == player && next.Ok?)
    && NoPaidSettle(if next.Ok? then next.value else s, ixs[1..], h, player)
  }

  /** Only settle pays out of an escrow authority: every other instruction leaves it at least as
      full as before. */
  lemma ExecuteKeepsAuthority(s: State, ix: Instruction, h: Hasher, player: Pubkey)
    requires !(ix.SettleIx? && ix.player == player)
    requires Execute(s, ix, h).Ok?
    ensures Balance(Execute(s, ix, h).value.balances, Authority(player)) >= Balance(s.balances, Authority(player))
  {
  }

  /** Hence, until the first settle of a game that goes through, its authority's balance never
      shrinks. */
  lemma {:induction false} AuthorityNeverShrinks(s: State, ixs: seq<Instruction>, h: Hasher, player: Pubkey)
    requires NoPaidSettle(s, ixs, h, player)
    ensures Balance(Run(s, ixs, h).balances, Authority(player)) >= Balance(s.balances, Authority(player))
    decreases |ixs|
  {
    if |ixs| > 0 {
      var next := Execute(s, ixs[0], h);
      if next.Ok? {
        ExecuteKeepsAuthority(s, ixs[0], h, player);
      }
      AuthorityNeverShrinks(if next.Ok? then next.value else s, ixs[1..], h, player);
    }
  }

  /** After setup and join, and whatever transactions follow short of a settle of this game that
      goes through (a submit, joins, other games, settles rejected and rolled back), the escrow
      authority holds at least the payout of any reveal, so settle does not fail for lack of funds
      until one has paid. */
  lemma EscrowCoversPayout(s: State, creator: Pubkey, player: Pubkey, bet: u64, commitment: Digest,
                           r: u64, ixs: seq<Instruction>, maxScore: u64, salt: u64, score: u64, h: Hasher)
    requires Setup(s, creator, player, bet, commitment).Ok?
    requires Join(Setup(s, creator, player, bet, commitment).value, player, r).Ok?
    requires NoPaidSettle(Join(Setup(s, creator, player, bet, commitment).value, player, r).value, ixs, h, player)
    requires Payout(bet, maxScore, score).Ok?
    ensures var s3 := Run(Join(Setup(s, creator, player, bet, commitment).value, player, r).value, ixs, h);
            && Payout(bet, maxScore, score).value <= Balance(s3.balances, Authority(player))
            && Settle(s3, creator, player, maxScore, salt, score, h) != Err(InsufficientFunds)
  {
    var s1 := Setup(s, creator, player, bet, commitment).value;
    var s2 := Join(s1, player, r).value;
    assert Balance(s1.balances, Authority(player)) >= 9 * bet;
    assert s1.games[player].bet == bet;
    assert Balance(s2.balances, Authority(player)) >= 10 * bet;
    var s3 := Run(s2, ixs, h);
    AuthorityNeverShrinks(s2, ixs, h, player);
    RunKeepsGame(s2, ixs, h, player);
    PayoutAtMostTenBets(bet, maxScore, score);
    assert s3.games[player].bet == bet;
    var settled := SettleGame(s3.games[player], creator, maxScore, salt, score, h);
    if settled.Ok? {
      assert settled.value.lamports == Payout(bet, maxScore, score).value;
    }
  }
}
