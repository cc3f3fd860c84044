/**
 The random walk shared by the gambler's-ruin scripts: two players hold
 capitals A and B, and every round the loser hands one unit to the winner.
 Rounds are given explicitly as a sequence of outcomes (`true`: A wins the round).
 */
module Walk {
  import opened Common
  import Choices

  /** The two players' capitals. */
  datatype Capitals = Capitals(a: int, b: int)

  /** How a game ended: the final capitals and the number of rounds played. */
  datatype Finish = Finish(final: Capitals, rounds: nat)

  /** One round: the winner takes one unit from the loser. */
  function Step(c: Capitals, aWins: bool): Capitals
  {
    if aWins then Capitals(c.a + 1, c.b - 1) else Capitals(c.a - 1, c.b + 1)
  }

  /** One of the players is ruined. */
  predicate Absorbed(c: Capitals)
  {
    c.a == 0 || c.b == 0
  }

  /** Capitals after playing the rounds `coins` in order (no stopping rule). */
  function After(c: Capitals, coins: seq<bool>): Capitals
    decreases |coins|
  {
    if |coins| == 0 then c else After(Step(c, coins[0]), coins[1..])
  }

  /** A wins the round drawn by `random.choices(['A', 'B'], [p, q])` with draw `u`. */
  function AWins(p: real, q: real, u: real): bool
  {
    Choices.Choose([p, q], u) == 0
  }

  /** The round outcomes produced by the draws `us` at weights [p, q]. */
  function Coins(p: real, q: real, us: seq<real>): (coins: seq<bool>)
    ensures |coins| == |us|
    ensures forall i :: 0 <= i < |us| ==> coins[i] == AWins(p, q, us[i])
  {
    seq(|us|, i requires 0 <= i < |us| => AWins(p, q, us[i]))
  }

  predicate AllUniform(us: seq<real>)
  {
    forall i :: 0 <= i < |us| ==> Choices.Uniform(us[i])
  }

  /** Every round conserves the total capital, so every prefix of a game does. */
  lemma {:induction false} AfterConserves(c: Capitals, coins: seq<bool>)
    ensures After(c, coins).a + After(c, coins).b == c.a + c.b
    decreases |coins|
  {
    if |coins| > 0 {
      AfterConserves(Step(c, coins[0]), coins[1..]);
    }
  }

  /** After k rounds A's capital has moved by at most k. */
  lemma {:induction false} AfterDistance(c: Capitals, coins: seq<bool>)
    ensures c.a - |coins| <= After(c, coins).a <= c.a + |coins|
    ensures c.b - |coins| <= After(c, coins).b <= c.b + |coins|
    decreases |coins|
  {
    if |coins| > 0 {
      AfterDistance(Step(c, coins[0]), coins[1..]);
    }
  }

  /** Playing one more round after a prefix is one more step. */
  lemma {:induction false} AfterSnoc(c: Capitals, coins: seq<bool>, x: bool)
    ensures After(c, coins + [x]) == Step(After(c, coins), x)
    decreases |coins|
  {
    if |coins| == 0 {
      assert (coins + [x])[1..] == [];
    } else {
      assert (coins + [x])[1..] == coins[1..] + [x];
      AfterSnoc(Step(c, coins[0]), coins[1..], x);
    }
  }

  lemma AfterPrefixStep(c: Capitals, coins: seq<bool>, k: nat)
    requires k < |coins|
    ensures After(c, coins[..k + 1]) == Step(After(c, coins[..k]), coins[k])
  {
    assert coins[..k + 1] == coins[..k] + [coins[k]];
    AfterSnoc(c, coins[..k], coins[k]);
  }

  /** A prefix of k + 1 rounds is the first round followed by k more. */
  lemma AfterHead(c: Capitals, coins: seq<bool>, k: nat)
    requires k < |coins|
    ensures After(c, coins[..k + 1]) == After(Step(c, coins[0]), coins[1..][..k])
  {
    assert coins[..k + 1][1..] == coins[1..][..k];
  }

  /** When A loses every round, A's capital falls by one per round. */
  lemma {:induction false} AfterAllLost(c: Capitals, coins: seq<bool>)
    requires forall i :: 0 <= i < |coins| ==> !coins[i]
    ensures After(c, coins) == Capitals(c.a - |coins|, c.b + |coins|)
    decreases |coins|
  {
    if |coins| > 0 {
      AfterAllLost(Step(c, coins[0]), coins[1..]);
    }
  }

  /** When A wins every round, A's capital grows by one per round. */
  lemma {:induction false} AfterAllWon(c: Capitals, coins: seq<bool>)
    requires forall i :: 0 <= i < |coins| ==> coins[i]
    ensures After(c, coins) == Capitals(c.a + |coins|, c.b - |coins|)
    decreases |coins|
  {
    if |coins| > 0 {
      AfterAllWon(Step(c, coins[0]), coins[1..]);
    }
  }

  /** With p = 0 player A never wins a round, whatever the draws. */
  lemma NeverWinsAtZero(q: real, us: seq<real>)
    requires q > 0.0 && AllUniform(us)
    ensures forall i :: 0 <= i < |us| ==> !Coins(0.0, q, us)[i]
  {
    forall i | 0 <= i < |us| ensures !Coins(0.0, q, us)[i] {
      assert Choices.NonNegative([0.0, q]);
      Choices.TotalTwo(0.0, q);
      Choices.ChooseHasWeight([0.0, q], us[i]);
    }
  }

  /** With q = 0 player A wins every round, whatever the draws. */
  lemma AlwaysWinsAtZeroQ(p: real, us: seq<real>)
    requires p > 0.0 && AllUniform(us)
    ensures forall i :: 0 <= i < |us| ==> Coins(p, 0.0, us)[i]
  {
    forall i | 0 <= i < |us| ensures Coins(p, 0.0, us)[i] {
      assert Choices.NonNegative([p, 0.0]);
      Choices.TotalTwo(p, 0.0);
      Choices.ChooseHasWeight([p, 0.0], us[i]);
    }
  }
}
