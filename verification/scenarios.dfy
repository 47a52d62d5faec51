/** Four worked games, run against concrete keys and balances: a creator funded with 1000
    lamports, a player with 100, a bet of 100 and the commitment to (max_score 50, salt 42). */
module Scenarios {
  import opened Wrappers
  import opened Types
  import opened Commitment
  import opened Ledger
  import opened Escrow
  import opened Blackhat

  /** The key whose 32 bytes all equal b. */
  function Key(b: u8): (k: Pubkey)
    ensures k[0] == b
  {
    seq(32, i => b)
  }

  function Creator(): Pubkey { Key(1) }
  function Player(): Pubkey { Key(2) }

  function Start(): State
  {
    State(map[], map[Wallet(Creator()) := 1000, Wallet(Player()) := 100])
  }

  /** Setup and join, shared by every scenario; all ten bets end up with the authority. */
  lemma Funded(h: Hasher)
    ensures Setup(Start(), Creator(), Player(), 100, Commit(h, 50, 42)).Ok?
    ensures var s1 := Setup(Start(), Creator(), Player(), 100, Commit(h, 50, 42)).value;
            && Join(s1, Player(), 7).Ok?
            && Balance(Join(s1, Player(), 7).value.balances, Authority(Player())) == 1000
            && Balance(Join(s1, Player(), 7).value.balances, Wallet(Player())) == 0
            && Balance(Join(s1, Player(), 7).value.balances, Wallet(Creator())) == 100
  {
    assert Creator() != Player() by { assert Creator()[0] != Player()[0]; }
  }

  function Joined(h: Hasher): State
  {
    Funded(h);
    Join(Setup(Start(), Creator(), Player(), 100, Commit(h, 50, 42)).value, Player(), 7).value
  }

  /** Score 20 under the maximum 50 pays (100 - 20) * 100 / 10 = 800 to the player. */
  lemma RevealPaysEightHundred(h: Hasher)
    ensures Submit(Joined(h), Player(), 20).Ok?
    ensures var s3 := Submit(Joined(h), Player(), 20).value;
            && Settle(s3, Creator(), Player(), 50, 42, 20, h).Ok?
            && Balance(Settle(s3, Creator(), Player(), 50, 42, 20, h).value.balances, Wallet(Player())) == 800
            && Balance(Settle(s3, Creator(), Player(), 50, 42, 20, h).value.balances, Authority(Player())) == 200
  {
    Funded(h);
  }

  /** Score 60 exceeds the maximum 50, so settle succeeds and pays nothing. */
  lemma VoidScorePaysNothing(h: Hasher)
    ensures Submit(Joined(h), Player(), 60).Ok?
    ensures var s3 := Submit(Joined(h), Player(), 60).value;
            && Settle(s3, Creator(), Player(), 50, 42, 60, h).Ok?
            && Settle(s3, Creator(), Player(), 50, 42, 60, h).value.balances == s3.balances
  {
    Funded(h);
  }

  /** Revealing a different salt fails and moves nothing, for every hash function under
      which the altered reveal does not collide with the committed one. */
  lemma AlteredSaltRejected(h: Hasher, salt: u64)
    requires Commit(h, 50, salt) != Commit(h, 50, 42)
    ensures Settle(Joined(h), Creator(), Player(), 50, salt, 20, h) == Err(CommitmentMismatch)
  {
    Funded(h);
  }

  /** A second submit with another score is refused and the first score stays. */
  lemma SecondSubmitRefused(h: Hasher)
    ensures Submit(Joined(h), Player(), 20).Ok?
    ensures var s3 := Submit(Joined(h), Player(), 20).value;
            && Submit(s3, Player(), 30) == Err(ScoreAlreadySet)
            && s3.games[Player()].score == Some(20)
  {
    Funded(h);
  }
}
