/** Properties of the settlement arithmetic. */
module PayoutFacts {
  import opened Wrappers
  import opened Types
  import opened Escrow

  /** Any payout settle can compute is at most ten bets: the nine the creator locked plus the one
      the player locked. */
  lemma PayoutAtMostTenBets(bet: u64, maxScore: u64, score: u64)
    requires Payout(bet, maxScore, score).Ok?
    ensures Payout(bet, maxScore, score).value <= 10 * bet
  {
    var p := Payout(bet, maxScore, score).value;
    if score <= maxScore {
      assert (100 - score) * bet <= 100 * bet by {
        assert 0 <= 100 - score <= 100;
        MulMonotone(100 - score, 100, bet);
      }
    }
  }

  /** The zero score, which the formula pays most for, pays exactly ten bets whenever the product
      fits in a u64: the escrow of ten bets is not larger than needed. */
  lemma ZeroScorePaysTenBets(bet: u64, maxScore: u64)
    requires 100 * bet <= U64_MAX
    ensures Payout(bet, maxScore, 0) == Ok(10 * bet)
  {
  }

  /** A higher score never pays more, across the void boundary too. */
  lemma PayoutNonIncreasing(bet: u64, maxScore: u64, s1: u64, s2: u64)
    requires s1 <= s2
    requires Payout(bet, maxScore, s1).Ok? && Payout(bet, maxScore, s2).Ok?
    ensures Payout(bet, maxScore, s2).value <= Payout(bet, maxScore, s1).value
  {
    if s2 <= maxScore {
      var a, b := (100 - s1) * bet, (100 - s2) * bet;
      MulMonotone(100 - s2, 100 - s1, bet);
      DivMonotone(b, a);
    }
  }

  /** Below both the committed maximum and 100, a score the formula can pay for leaves every
      higher score payable as well. */
  lemma PayoutDefinedUpward(bet: u64, maxScore: u64, s1: u64, s2: u64)
    requires s1 <= s2 <= maxScore && s2 <= 100
    requires Payout(bet, maxScore, s1).Ok?
    ensures Payout(bet, maxScore, s2).Ok?
  {
    MulMonotone(100 - s2, 100 - s1, bet);
  }

  /** A score above 100 that does not exceed the committed maximum makes `100 - score` underflow,
      so settle aborts instead of paying. */
  lemma PayoutUnderflows(bet: u64, maxScore: u64, score: u64)
    requires 100 < score <= maxScore
    ensures Payout(bet, maxScore, score) == Err(ArithmeticOverflow)
  {
  }

  /** The worked example: a bet of 100 and a score of 20 under a maximum of 50 pays 800. */
  lemma PayoutExample()
    ensures Payout(100, 50, 20) == Ok(800)
    ensures Payout(100, 50, 60) == Ok(0)
  {
  }

  lemma MulMonotone(x: nat, y: nat, k: nat)
    requires x <= y
    ensures x * k <= y * k
  {
  }

  lemma DivMonotone(a: nat, b: nat)
    requires a <= b
    ensures a / 10 <= b / 10
  {
  }
}
