/** Where the program's behaviour departs from the rules it is meant to keep. Submit is meant to
    set the score once (the comment at lib.rs:48), join and submit are meant to be write-once,
    settle is meant to use the submitted score and a settled game is meant to be final. As
    written, submit writes nothing, join overwrites, settle ignores the stored score, and a
    settled game can be settled again. */
module Divergences {
  import opened Wrappers
  import opened Types
  import opened Commitment
  import opened Ledger
  import opened Escrow
  import opened Blackhat

  /** As written, submit never records the score, however its conversion turns out. */
  lemma SubmitAsWrittenNeverRecords(g: Game, caller: Pubkey, score: u64, converted: bool)
    requires g.score.None?
    ensures SubmitAsWritten(g, caller, score, converted).Ok? ==>
              SubmitAsWritten(g, caller, score, converted).value.score.None?
    ensures SubmitAsWritten(g, caller, score, converted) != SubmitGame(g, caller, score) <==> caller == g.player
  {
  }

  /** The intended submit is write-once: a second submit is refused and the first score stays. */
  lemma SubmitIsWriteOnce(g: Game, s1: u64, s2: u64)
    requires g.score.None?
    ensures SubmitGame(g, g.player, s1).Ok?
    ensures var g1 := SubmitGame(g, g.player, s1).value;
            && SubmitGame(g1, g.player, s2) == Err(ScoreAlreadySet)
            && g1.score == Some(s1)
  {
  }

  /** Join has no write-once guard: a second join succeeds, replaces the randomness and asks for
      another bet. */
  lemma JoinOverwrites(g: Game, r1: u64, r2: u64)
    ensures JoinGame(g, g.player, r1).Ok?
    ensures var g1 := JoinGame(g, g.player, r1).value.game;
            && JoinGame(g1, g.player, r2).Ok?
            && JoinGame(g1, g.player, r2).value.game.userRandom == Some(r2)
            && JoinGame(g1, g.player, r2).value.lamports == g.bet
  {
  }

  /** Settle reads only the creator, player, bet and commitment of the record: the stored score,
      the user randomness and the payout field make no difference to its outcome. */
  lemma SettleIgnoresStoredFields(g1: Game, g2: Game, caller: Pubkey, maxScore: u64, salt: u64,
                                  score: u64, h: Hasher)
    requires SameTerms(g1, g2)
    ensures SettleGame(g1, caller, maxScore, salt, score, h).Ok? <==>
            SettleGame(g2, caller, maxScore, salt, score, h).Ok?
    ensures SettleGame(g1, caller, maxScore, salt, score, h).Ok? ==>
              SettleGame(g1, caller, maxScore, salt, score, h).value.lamports ==
              SettleGame(g2, caller, maxScore, salt, score, h).value.lamports
    ensures SettleGame(g1, caller, maxScore, salt, score, h).Err? ==>
              SettleGame(g1, caller, maxScore, salt, score, h).error ==
              SettleGame(g2, caller, maxScore, salt, score, h).error
  {
  }

  /** In particular settle needs no submitted score, and pays for whatever score the creator
      passes, even one different from the stored score. */
  lemma SettleWithoutSubmit(g: Game, maxScore: u64, salt: u64, score: u64, h: Hasher)
    requires g.score != Some(score)
    requires Opens(h, g.commitment, maxScore, salt)
    requires Payout(g.bet, maxScore, score).Ok?
    ensures SettleGame(g, g.creator, maxScore, salt, score, h) ==
            Ok(Step(g, Payout(g.bet, maxScore, score).value))
  {
  }

  /** A settled game is left exactly as it was, so the same settle can be sent again; it succeeds
      once more whenever the authority can still fund the payout. */
  lemma SettleIsReplayable(s: State, creator: Pubkey, player: Pubkey, maxScore: u64, salt: u64,
                           score: u64, h: Hasher)
    requires Settle(s, creator, player, maxScore, salt, score, h).Ok?
    ensures var s1 := Settle(s, creator, player, maxScore, salt, score, h).value;
            var pay := SettleGame(s.games[player], creator, maxScore, salt, score, h).value.lamports;
            Settle(s1, creator, player, maxScore, salt, score, h).Ok? <==>
            Transfer(s1.balances, Authority(player), Wallet(player), pay).Ok?
  {
  }
}
