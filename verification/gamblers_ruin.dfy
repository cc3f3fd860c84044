/**
 Gambler's ruin, as compared in the ruin-probability scripts: the closed-form
 probability that player A (capital a) is ruined by player B (capital b) when A
 wins each round with probability p and B with probability q, and the Monte
 Carlo estimate obtained by playing whole games. The estimate's draws are
 explicit: `games[i]` holds the uniform draws of game i.
 */
module GamblersRuin {
  import opened Common
  import opened Walk
  import Choices

  /** The closed form's branch test `p == 0.5 and q == 0.5`. */
  predicate Symmetric(p: real, q: real)
  {
    p == 0.5 && q == 0.5
  }

  /**
   `theory_probability`: A's ruin probability, 1 - a/(a+b) in the symmetric game
   and ((q/p)^a - (q/p)^(a+b)) / (1 - (q/p)^(a+b)) otherwise, or the
   ZeroDivisionError Python raises for it.
   */
  function TheoryProbability(p: real, q: real, a: nat, b: nat): Fallible<real>
  {
    var n := a + b;
    if Symmetric(p, q) then
      (if n == 0 then Fail(ZeroDivision) else Ok(1.0 - a as real / n as real))
    else if p == 0.0 then Fail(ZeroDivision)
    else
      var r := q / p;
      if Pow(r, n) == 1.0 then Fail(ZeroDivision)
      else Ok((Pow(r, a) - Pow(r, n)) / (1.0 - Pow(r, n)))
  }

  // ---------------------------------------------------------------------------
  // Powers of a non-negative ratio

  lemma {:induction false} PowNonNegative(x: real, n: nat)
    requires x >= 0.0
    ensures Pow(x, n) >= 0.0
  {
    if n > 0 {
      PowNonNegative(x, n - 1);
    }
  }

  lemma {:induction false} PowOfOne(n: nat)
    ensures Pow(1.0, n) == 1.0
  {
    if n > 0 {
      PowOfOne(n - 1);
    }
  }

  lemma {:induction false} PowOfZero(n: nat)
    requires n > 0
    ensures Pow(0.0, n) == 0.0
  {
  }

  /** For 0 <= x <= 1 the powers never increase with the exponent. */
  lemma {:induction false} PowAntitone(x: real, m: nat, n: nat)
    requires 0.0 <= x <= 1.0 && m <= n
    ensures Pow(x, n) <= Pow(x, m)
    decreases n - m
  {
    if m < n {
      PowAntitone(x, m, n - 1);
      PowNonNegative(x, n - 1);
      assert Pow(x, n) == x * Pow(x, n - 1);
      assert x * Pow(x, n - 1) <= 1.0 * Pow(x, n - 1);
    }
  }

  /** For x >= 1 the powers never decrease with the exponent. */
  lemma {:induction false} PowMonotone(x: real, m: nat, n: nat)
    requires x >= 1.0 && m <= n
    ensures Pow(x, m) <= Pow(x, n)
    decreases n - m
  {
    if m < n {
      PowMonotone(x, m, n - 1);
      PowNonNegative(x, n - 1);
      assert Pow(x, n) == x * Pow(x, n - 1);
      assert x * Pow(x, n - 1) >= 1.0 * Pow(x, n - 1);
    }
  }

  lemma {:induction false} PowBelowOne(x: real, n: nat)
    requires 0.0 <= x < 1.0 && n > 0
    ensures Pow(x, n) < 1.0
  {
    PowAntitone(x, 1, n);
  }

  lemma {:induction false} PowAboveOne(x: real, n: nat)
    requires x > 1.0 && n > 0
    ensures Pow(x, n) > 1.0
  {
    PowMonotone(x, 1, n);
  }

  /** A positive power of a non-negative ratio is 1 only for the ratio 1. */
  lemma PowIsOne(x: real, n: nat)
    requires x >= 0.0 && n > 0
    ensures Pow(x, n) == 1.0 <==> x == 1.0
  {
    if x < 1.0 {
      PowBelowOne(x, n);
    } else if x > 1.0 {
      PowAboveOne(x, n);
    } else {
      PowOfOne(n);
    }
  }

  // ---------------------------------------------------------------------------
  // Properties of the closed form

  /** The spec's boundary case: a fair game between equal capitals is a coin toss. */
  lemma SymmetricEqualCapitals(a: nat)
    requires a > 0
    ensures TheoryProbability(0.5, 0.5, a, a) == Ok(0.5)
  {
    var x := a as real;
    assert (a + a) as real == 2.0 * x;
    DivideBy(x, 2.0 * x, 0.5);
  }

  /**
   Away from the symmetric branch, whenever the formula is defined it is 1 when A
   starts with nothing and 0 when B does.
   */
  lemma GeneralBoundaries(p: real, q: real, a: nat, b: nat)
    requires !Symmetric(p, q) && p != 0.0 && Pow(q / p, a + b) != 1.0
    ensures a == 0 ==> TheoryProbability(p, q, a, b) == Ok(1.0)
    ensures b == 0 ==> TheoryProbability(p, q, a, b) == Ok(0.0)
  {
    var r := q / p;
    if a == 0 {
      assert Pow(r, a) == 1.0;
      DivideBy(1.0 - Pow(r, a + b), 1.0 - Pow(r, a + b), 1.0);
    }
  }

  /** With p = 0 outside the symmetric branch, q / p divides by zero. */
  lemma CertainLossDividesByZero(q: real, a: nat, b: nat)
    ensures TheoryProbability(0.0, q, a, b) == Fail(ZeroDivision)
  {
  }

  /** For genuine weights p > 0, q >= 0 with p + q = 1 and a non-empty table, the formula never fails. */
  lemma TheoryDefined(p: real, q: real, a: nat, b: nat)
    requires 0.0 < p && 0.0 <= q && p + q == 1.0 && a + b > 0
    ensures TheoryProbability(p, q, a, b).Ok?
  {
    if !Symmetric(p, q) {
      RatioNotOne(p, q);
      PowIsOne(q / p, a + b);
    }
  }

  /** Whenever it is defined, for non-negative p and q the closed form is a probability. */
  lemma TheoryInUnitInterval(p: real, q: real, a: nat, b: nat)
    requires p >= 0.0 && q >= 0.0
    requires TheoryProbability(p, q, a, b).Ok?
    ensures 0.0 <= TheoryProbability(p, q, a, b).value <= 1.0
  {
    var n := a + b;
    if Symmetric(p, q) {
      FractionInUnit(a as real, n as real);
    } else {
      var r := q / p;
      assert r >= 0.0;
      assert n > 0;
      var big := Pow(r, n);
      var small := Pow(r, a);
      if r < 1.0 {
        PowAntitone(r, a, n);
        PowAntitone(r, 0, a);
        PowBelowOne(r, n);
        FractionInUnit(small - big, 1.0 - big);
      } else {
        assert r != 1.0 by {
          if r == 1.0 {
            PowOfOne(n);
          }
        }
        PowMonotone(r, a, n);
        PowMonotone(r, 0, a);
        PowAboveOne(r, n);
        FractionInUnitNegative(small - big, 1.0 - big);
      }
    }
  }

  /** Real division is undone by multiplication. */
  lemma CombineOverDivision(p: real, q: real, x: real, y: real, d: real)
    requires d != 0.0
    ensures p * (x / d) + q * (y / d) == (p * x + q * y) / d
  {
    assert (x / d) * d == x;
    assert (y / d) * d == y;
    assert (p * (x / d) + q * (y / d)) * d == p * ((x / d) * d) + q * ((y / d) * d);
  }

  /** The fair game's straight line satisfies the ruin recurrence with weights 1/2. */
  lemma SymmetricBalance(n: nat, a: nat)
    requires 0 < a < n
    ensures 1.0 - a as real / n as real
         == 0.5 * (1.0 - (a + 1) as real / n as real) + 0.5 * (1.0 - (a - 1) as real / n as real)
  {
    var m := n as real;
    var x := a as real / m;
    var e := 1.0 / m;
    assert x == a as real * e;
    assert (a + 1) as real / m == (a as real + 1.0) * e;
    assert (a - 1) as real / m == (a as real - 1.0) * e;
  }

  /**
   The general closed form satisfies the ruin recurrence once the powers obey
   p r^(k+1) + q r^(k-1) = r^k, which holds because p r = q.
   */
  lemma GeneralBalance(p: real, q: real, r: real, big: real, here: real, up: real, down: real,
                       x: Fallible<real>, y: Fallible<real>, z: Fallible<real>)
    requires p + q == 1.0 && p * r == q && big != 1.0
    requires up == r * here && here == r * down
    requires x == Ok((here - big) / (1.0 - big))
    requires y == Ok((up - big) / (1.0 - big))
    requires z == Ok((down - big) / (1.0 - big))
    ensures x.value == p * y.value + q * z.value
  {
    NumeratorBalance(p, q, r, big, here, up, down);
    CombineOverDivision(p, q, up - big, down - big, 1.0 - big);
  }

  lemma NumeratorBalance(p: real, q: real, r: real, big: real, here: real, up: real, down: real)
    requires p + q == 1.0 && p * r == q
    requires up == r * here && here == r * down
    ensures p * (up - big) + q * (down - big) == here - big
  {
    assert p * up == (p * r) * here;
    assert q * down == (p * r) * down;
    assert (p * r) * down == p * (r * down);
    assert p * (up - big) == p * up - p * big;
    assert q * (down - big) == q * down - q * big;
    assert q * here + p * here == (p + q) * here;
    assert p * big + q * big == (p + q) * big;
  }

  /**
   First-step analysis: with p + q = 1 the closed form satisfies the ruin
   recurrence R(a) = p R(a+1) + q R(a-1) at every interior capital, which with
   R(0) = 1 and R(n) = 0 (`TheoryEndpoints`) makes it the ruin probability of the
   walk that the experimental loop plays.
   */
  lemma FirstStepAnalysis(p: real, q: real, n: nat, a: nat)
    requires 0.0 < p && 0.0 < q && p + q == 1.0 && 0 < a < n
    ensures TheoryProbability(p, q, a, n - a).Ok?
    ensures TheoryProbability(p, q, a + 1, n - (a + 1)).Ok?
    ensures TheoryProbability(p, q, a - 1, n - (a - 1)).Ok?
    ensures TheoryProbability(p, q, a, n - a).value
         == p * TheoryProbability(p, q, a + 1, n - (a + 1)).value
          + q * TheoryProbability(p, q, a - 1, n - (a - 1)).value
  {
    if Symmetric(p, q) {
      SymmetricBalance(n, a);
    } else {
      FirstStepGeneral(p, q, n, a);
    }
  }

  lemma FirstStepGeneral(p: real, q: real, n: nat, a: nat)
    requires 0.0 < p && 0.0 < q && p + q == 1.0 && 0 < a < n && !Symmetric(p, q)
    ensures TheoryProbability(p, q, a, n - a).Ok?
    ensures TheoryProbability(p, q, a + 1, n - (a + 1)).Ok?
    ensures TheoryProbability(p, q, a - 1, n - (a - 1)).Ok?
    ensures TheoryProbability(p, q, a, n - a).value
         == p * TheoryProbability(p, q, a + 1, n - (a + 1)).value
          + q * TheoryProbability(p, q, a - 1, n - (a - 1)).value
  {
    GeneralValues(p, q, n, a);
    BalanceAt(p, q, q / p, Pow(q / p, n), a, TheoryProbability(p, q, a, n - a),
              TheoryProbability(p, q, a + 1, n - (a + 1)), TheoryProbability(p, q, a - 1, n - (a - 1)));
  }

  /** The three neighbouring closed forms, written out with the common ratio r = q/p. */
  lemma GeneralValues(p: real, q: real, n: nat, a: nat)
    requires 0.0 < p && 0.0 < q && p + q == 1.0 && 0 < a < n && !Symmetric(p, q)
    ensures Pow(q / p, n) != 1.0
    ensures TheoryProbability(p, q, a, n - a) == Ok((Pow(q / p, a) - Pow(q / p, n)) / (1.0 - Pow(q / p, n)))
    ensures TheoryProbability(p, q, a + 1, n - (a + 1)) == Ok((Pow(q / p, a + 1) - Pow(q / p, n)) / (1.0 - Pow(q / p, n)))
    ensures TheoryProbability(p, q, a - 1, n - (a - 1)) == Ok((Pow(q / p, a - 1) - Pow(q / p, n)) / (1.0 - Pow(q / p, n)))
  {
    var r := q / p;
    RatioNotOne(p, q);
    PowIsOne(r, n);
    var big := Pow(r, n);
    GeneralValue(p, q, a, n - a, n, r, big);
    GeneralValue(p, q, a + 1, n - (a + 1), n, r, big);
    GeneralValue(p, q, a - 1, n - (a - 1), n, r, big);
  }

  lemma BalanceAt(p: real, q: real, r: real, big: real, a: nat, x: Fallible<real>, y: Fallible<real>, z: Fallible<real>)
    requires a > 0 && p > 0.0 && p + q == 1.0 && r == q / p && big != 1.0
    requires x == Ok((Pow(r, a) - big) / (1.0 - big))
    requires y == Ok((Pow(r, a + 1) - big) / (1.0 - big))
    requires z == Ok((Pow(r, a - 1) - big) / (1.0 - big))
    ensures x.value == p * y.value + q * z.value
  {
    PowStep(r, a);
    PowStep(r, a - 1);
    RatioTimes(p, q);
    GeneralBalance(p, q, r, big, Pow(r, a), Pow(r, a + 1), Pow(r, a - 1), x, y, z);
  }

  /** Kept apart from `BalanceAt`, whose context makes this nonlinear step costly. */
  lemma RatioTimes(p: real, q: real)
    requires p != 0.0
    ensures p * (q / p) == q
  {
  }

  /** Kept apart from `BalanceAt` for the same reason. */
  lemma PowStep(x: real, k: nat)
    ensures Pow(x, k + 1) == x * Pow(x, k)
  {
  }

  /** Outside the fair game, genuine weights give a ratio q/p that is non-negative and not 1. */
  lemma RatioNotOne(p: real, q: real)
    requires 0.0 < p && 0.0 <= q && p + q == 1.0 && !Symmetric(p, q)
    ensures q / p >= 0.0 && q / p != 1.0
  {
    assert q != p;
    assert (q / p) * p == q;
  }

  lemma GeneralValue(p: real, q: real, a: nat, b: nat, n: nat, r: real, big: real)
    requires a + b == n
    requires !Symmetric(p, q) && p != 0.0 && r == q / p && big == Pow(r, n) && big != 1.0
    ensures TheoryProbability(p, q, a, b) == Ok((Pow(r, a) - big) / (1.0 - big))
  {
  }

  /** The closed form's boundary values: certain ruin from 0, none from the whole table. */
  lemma TheoryEndpoints(p: real, q: real, n: nat)
    requires 0.0 < p && 0.0 <= q && p + q == 1.0 && n > 0
    ensures TheoryProbability(p, q, 0, n) == Ok(1.0)
    ensures TheoryProbability(p, q, n, 0) == Ok(0.0)
  {
    if !Symmetric(p, q) {
      RatioNotOne(p, q);
      PowIsOne(q / p, n);
      GeneralBoundaries(p, q, 0, n);
      GeneralBoundaries(p, q, n, 0);
    } else {
      DivideBy(n as real, n as real, 1.0);
    }
  }

  // ---------------------------------------------------------------------------
  // The simulated game

  /**
   One game of `experimental_probability`: rounds are played while neither
   capital is 0, so a game that starts with a zero capital plays none.
   */
  function PlayToRuin(c: Capitals, coins: seq<bool>): (r: Fallible<Finish>)
    ensures r.Ok? ==> r.value.rounds <= |coins|
    ensures r.Fail? ==> r.error == DrawsExhausted
    decreases |coins|
  {
    if Absorbed(c) then Ok(Finish(c, 0))
    else if |coins| == 0 then Fail(DrawsExhausted)
    else
      match PlayToRuin(Step(c, coins[0]), coins[1..])
      case Ok(f) => Ok(Finish(f.final, f.rounds + 1))
      case Fail(e) => Fail(e)
  }

  /**
   A finished game stopped at the first ruin: its final capitals are those
   after its rounds, one player is at 0, and no shorter prefix ruined anyone.
   A game runs out of draws only if no prefix of them ruins anyone.
   */
  lemma {:induction false} PlayToRuinStopsAtFirstRuin(c: Capitals, coins: seq<bool>)
    ensures var r := PlayToRuin(c, coins);
      r.Ok? ==> r.value.final == After(c, coins[..r.value.rounds]) && Absorbed(r.value.final)
    ensures var r := PlayToRuin(c, coins);
      r.Ok? ==> forall k :: 0 <= k < r.value.rounds ==> !Absorbed(After(c, coins[..k]))
    ensures PlayToRuin(c, coins).Fail? ==> forall k :: 0 <= k <= |coins| ==> !Absorbed(After(c, coins[..k]))
    decreases |coins|
  {
    if !Absorbed(c) && |coins| > 0 {
      var c' := Step(c, coins[0]);
      var rest := coins[1..];
      PlayToRuinStopsAtFirstRuin(c', rest);
      var r := PlayToRuin(c, coins);
      forall k | 0 < k <= |coins|
        ensures After(c, coins[..k]) == After(c', rest[..k - 1])
      {
        AfterHead(c, coins, k - 1);
      }
      if r.Ok? {
        var f := PlayToRuin(c', rest).value;
        assert r.value.final == f.final && r.value.rounds == f.rounds + 1;
      }
    }
  }

  /** Each round of a game moves one unit, so the table total is the same at the end. */
  lemma GameConservesTotal(c: Capitals, coins: seq<bool>)
    requires PlayToRuin(c, coins).Ok?
    ensures PlayToRuin(c, coins).value.final.a + PlayToRuin(c, coins).value.final.b == c.a + c.b
  {
    var f := PlayToRuin(c, coins).value;
    PlayToRuinStopsAtFirstRuin(c, coins);
    AfterConserves(c, coins[..f.rounds]);
  }

  /** A game with A at 0 is an immediate loss; with B at 0 an immediate win. */
  lemma ZeroCapitalGames(c: Capitals, coins: seq<bool>)
    ensures c.a == 0 ==> PlayToRuin(c, coins) == Ok(Finish(c, 0))
    ensures c.b == 0 ==> PlayToRuin(c, coins) == Ok(Finish(c, 0))
  {
  }

  /** A game counts as a loss when A's capital ended at 0. */
  function LossOf(f: Finish): nat
  {
    if f.final.a == 0 then 1 else 0
  }

  /** `a_loses` after the games `games`, or the failure of a game that did not finish. */
  function Losses(c: Capitals, p: real, q: real, games: seq<seq<real>>): (r: Fallible<nat>)
    ensures r.Ok? ==> r.value <= |games|
    ensures r.Fail? ==> r.error == DrawsExhausted
    decreases |games|
  {
    if |games| == 0 then Ok(0)
    else
      match Losses(c, p, q, games[..|games| - 1])
      case Fail(e) => Fail(e)
      case Ok(n) =>
        match PlayToRuin(c, Coins(p, q, games[|games| - 1]))
        case Fail(e) => Fail(e)
        case Ok(f) => Ok(n + LossOf(f))
  }

  /** `experimental_probability`: the fraction of games in which A was ruined. */
  function ExperimentalProbability(games: seq<seq<real>>, a: nat, b: nat, p: real, q: real): (r: Fallible<real>)
    ensures |games| == 0 ==> r == Fail(ZeroDivision)
    ensures r.Ok? ==> 0.0 <= r.value <= 1.0
    ensures r.Fail? ==> r.error == ZeroDivision || r.error == DrawsExhausted
  {
    match Losses(Capitals(a, b), p, q, games)
    case Fail(e) => Fail(e)
    case Ok(n) =>
      if |games| == 0 then Fail(ZeroDivision)
      else FractionInUnit(n as real, |games| as real); Ok(n as real / |games| as real)
  }

  /** With A at 0 every game is a loss; with only B at 0 none is. */
  lemma {:induction false} LossesAtZeroCapital(c: Capitals, p: real, q: real, games: seq<seq<real>>)
    requires c.a == 0 || c.b == 0
    ensures Losses(c, p, q, games) == Ok(if c.a == 0 then |games| else 0)
    decreases |games|
  {
    if |games| > 0 {
      LossesAtZeroCapital(c, p, q, games[..|games| - 1]);
    }
  }

  /** The experimental endpoints are exact: ruin is certain from 0 and impossible against 0. */
  lemma ExperimentalEndpoints(games: seq<seq<real>>, a: nat, b: nat, p: real, q: real)
    requires |games| > 0
    ensures a == 0 ==> ExperimentalProbability(games, a, b, p, q) == Ok(1.0)
    ensures a > 0 && b == 0 ==> ExperimentalProbability(games, a, b, p, q) == Ok(0.0)
  {
    if a == 0 || b == 0 {
      LossesAtZeroCapital(Capitals(a, b), p, q, games);
      var n := |games| as real;
      assert n / n == 1.0;
    }
  }

  /** With p = 0 and both capitals positive, A loses every round and so every game. */
  lemma CertainLossGame(a: nat, b: nat, q: real, us: seq<real>)
    requires a > 0 && b > 0 && q > 0.0 && AllUniform(us)
    requires PlayToRuin(Capitals(a, b), Coins(0.0, q, us)).Ok?
    ensures PlayToRuin(Capitals(a, b), Coins(0.0, q, us)).value.final.a == 0
  {
    var coins := Coins(0.0, q, us);
    var f := PlayToRuin(Capitals(a, b), coins).value;
    PlayToRuinStopsAtFirstRuin(Capitals(a, b), coins);
    NeverWinsAtZero(q, us);
    AfterAllLost(Capitals(a, b), coins[..f.rounds]);
  }

  /** With q = 0 and both capitals positive, A wins every round and so every game. */
  lemma CertainWinGame(a: nat, b: nat, p: real, us: seq<real>)
    requires a > 0 && b > 0 && p > 0.0 && AllUniform(us)
    requires PlayToRuin(Capitals(a, b), Coins(p, 0.0, us)).Ok?
    ensures PlayToRuin(Capitals(a, b), Coins(p, 0.0, us)).value.final.a == a + b
  {
    var coins := Coins(p, 0.0, us);
    var f := PlayToRuin(Capitals(a, b), coins).value;
    PlayToRuinStopsAtFirstRuin(Capitals(a, b), coins);
    AlwaysWinsAtZeroQ(p, us);
    AfterAllWon(Capitals(a, b), coins[..f.rounds]);
  }

  predicate GamesUniform(games: seq<seq<real>>)
  {
    forall g :: 0 <= g < |games| ==> AllUniform(games[g])
  }

  lemma {:induction false} LossesCertain(a: nat, b: nat, p: real, q: real, games: seq<seq<real>>)
    requires a > 0 && b > 0 && GamesUniform(games)
    requires (p == 0.0 && q > 0.0) || (p > 0.0 && q == 0.0)
    requires Losses(Capitals(a, b), p, q, games).Ok?
    ensures Losses(Capitals(a, b), p, q, games).value == if p == 0.0 then |games| else 0
    decreases |games|
  {
    if |games| > 0 {
      var init := games[..|games| - 1];
      assert GamesUniform(init) by {
        forall g | 0 <= g < |init| ensures AllUniform(init[g]) {
          assert init[g] == games[g];
        }
      }
      LossesCertain(a, b, p, q, init);
      var us := games[|games| - 1];
      if p == 0.0 {
        CertainLossGame(a, b, q, us);
      } else {
        CertainWinGame(a, b, p, us);
      }
    }
  }

  // ---------------------------------------------------------------------------
  // The sweep over p (p = x/10, q = 1 - p, x = 0..10)

  function SweepP(x: nat): real
  {
    x as real / 10.0
  }

  /** `round(1 - p, 1)`, which is exactly (10 - x)/10 on the sweep. */
  function SweepQ(x: nat): real
  {
    (10 - x) as real / 10.0
  }

  /** The `except ZeroDivisionError: lst.append(1.0)` fallback. */
  function OrFallback(r: Fallible<real>): real
  {
    if r.Fail? && r.error == ZeroDivision then 1.0 else if r.Ok? then r.value else 1.0
  }

  /** `generate_theory_list(a, b)` of the p sweep. */
  function TheorySweepOverP(a: nat, b: nat): (r: seq<real>)
    ensures |r| == 11
  {
    seq(11, x requires 0 <= x < 11 => OrFallback(TheoryProbability(SweepP(x), SweepQ(x), a, b)))
  }

  /**
   The p sweep's landmarks: p = 0 hits the ZeroDivisionError fallback 1.0,
   p = 0.5 is the symmetric value 1 - a/(a+b), and p = 1 is certain ruin only
   for A = 0. Every entry is a probability.
   */
  lemma TheorySweepOverPValues(a: nat, b: nat)
    ensures TheorySweepOverP(a, b)[0] == 1.0
    ensures a + b > 0 ==> TheorySweepOverP(a, b)[5] == 1.0 - a as real / (a + b) as real
    ensures a + b > 0 ==> TheorySweepOverP(a, b)[10] == if a == 0 then 1.0 else 0.0
    ensures forall x :: 0 <= x < 11 ==> 0.0 <= TheorySweepOverP(a, b)[x] <= 1.0
  {
    var r := TheorySweepOverP(a, b);
    assert SweepP(0) == 0.0;
    assert SweepP(5) == 0.5 && SweepQ(5) == 0.5;
    if a + b > 0 {
      assert SweepP(10) == 1.0 && SweepQ(10) == 0.0;
      TheoryEndpointsAtCertainWin(a, b);
    }
    forall x | 0 <= x < 11 ensures 0.0 <= r[x] <= 1.0 {
      var t := TheoryProbability(SweepP(x), SweepQ(x), a, b);
      if t.Ok? {
        TheoryInUnitInterval(SweepP(x), SweepQ(x), a, b);
      }
    }
  }

  lemma TheoryEndpointsAtCertainWin(a: nat, b: nat)
    requires a + b > 0
    ensures TheoryProbability(1.0, 0.0, a, b) == Ok(if a == 0 then 1.0 else 0.0)
  {
    var n := a + b;
    assert 0.0 / 1.0 == 0.0;
    PowOfZero(n);
    if a > 0 {
      PowOfZero(a);
    }
  }

  /** One entry of `generate_experimental_list`: ZeroDivisionError becomes 1.0, the rest propagates. */
  function CatchZeroDivision(r: Fallible<real>): Fallible<real>
  {
    if r.Fail? && r.error == ZeroDivision then Ok(1.0) else r
  }

  /** The games of one sweep: the same number of games at every point. */
  predicate SweepDraws(draws: seq<seq<seq<real>>>, iterations: nat)
  {
    |draws| == 11 && forall x :: 0 <= x < 11 ==> |draws[x]| == iterations
  }

  /**
   `generate_experimental_list(iterations, a, b)`: `draws[x]` are the
   `iterations` games played at p = x/10.
   */
  function ExperimentalSweepOverP(a: nat, b: nat, iterations: nat, draws: seq<seq<seq<real>>>): (r: Fallible<seq<real>>)
    requires SweepDraws(draws, iterations)
    ensures r.Ok? ==> |r.value| == 11
    ensures r.Ok? ==> forall x :: 0 <= x < 11 ==>
      CatchZeroDivision(ExperimentalProbability(draws[x], a, b, SweepP(x), SweepQ(x))) == Ok(r.value[x])
    ensures r.Ok? ==> forall x :: 0 <= x < 11 ==> 0.0 <= r.value[x] <= 1.0
    ensures r.Fail? ==> r.error == DrawsExhausted
  {
    AllOk(seq(11, x requires 0 <= x < 11 =>
      CatchZeroDivision(ExperimentalProbability(draws[x], a, b, SweepP(x), SweepQ(x)))))
  }

  /**
   At the ends of the p sweep the estimate is exact whatever the draws: with
   p = 0 (and B holding capital) A is always ruined, with p = 1 never. With no
   games at all, every entry is the ZeroDivisionError fallback 1.0.
   */
  lemma ExperimentalSweepOverPEnds(a: nat, b: nat, iterations: nat, draws: seq<seq<seq<real>>>)
    requires SweepDraws(draws, iterations) && a > 0 && b > 0
    requires forall x :: 0 <= x < 11 ==> GamesUniform(draws[x])
    requires ExperimentalSweepOverP(a, b, iterations, draws).Ok?
    ensures ExperimentalSweepOverP(a, b, iterations, draws).value[0] == 1.0
    ensures iterations > 0 ==> ExperimentalSweepOverP(a, b, iterations, draws).value[10] == 0.0
    ensures iterations == 0 ==> forall x :: 0 <= x < 11 ==> ExperimentalSweepOverP(a, b, iterations, draws).value[x] == 1.0
  {
    var r := ExperimentalSweepOverP(a, b, iterations, draws).value;
    assert SweepP(0) == 0.0 && SweepQ(0) == 1.0;
    assert SweepP(10) == 1.0 && SweepQ(10) == 0.0;
    assert CatchZeroDivision(ExperimentalProbability(draws[0], a, b, 0.0, 1.0)) == Ok(r[0]);
    assert CatchZeroDivision(ExperimentalProbability(draws[10], a, b, 1.0, 0.0)) == Ok(r[10]);
    CertainExperiment(draws[0], a, b, 0.0, 1.0);
    CertainExperiment(draws[10], a, b, 1.0, 0.0);
  }

  /** A certain outcome per round makes every estimate exact: 1 when p = 0, 0 when q = 0. */
  lemma CertainExperiment(games: seq<seq<real>>, a: nat, b: nat, p: real, q: real)
    requires a > 0 && b > 0 && GamesUniform(games)
    requires (p == 0.0 && q > 0.0) || (p > 0.0 && q == 0.0)
    ensures var e := ExperimentalProbability(games, a, b, p, q);
      e.Ok? ==> e.value == if p == 0.0 then 1.0 else 0.0
  {
    var l := Losses(Capitals(a, b), p, q, games);
    if l.Ok? && |games| > 0 {
      LossesCertain(a, b, p, q, games);
      var n := |games| as real;
      assert n / n == 1.0;
    }
  }

  // ---------------------------------------------------------------------------
  // The sweep over capitals (a = 0, 10, ..., 100 and b = 100 - a)

  /** `generate_theory_list(p, q)` of the capital sweep: no guard, so one ZeroDivisionError aborts it. */
  function TheorySweepOverCapital(p: real, q: real): (r: Fallible<seq<real>>)
    ensures r.Ok? ==> |r.value| == 11
    ensures r.Ok? ==> forall j :: 0 <= j < 11 ==> TheoryProbability(p, q, 10 * j, 100 - 10 * j) == Ok(r.value[j])
    ensures r.Fail? ==> r.error == ZeroDivision
  {
    AllOk(seq(11, j requires 0 <= j < 11 => TheoryProbability(p, q, 10 * j, 100 - 10 * j)))
  }

  /** Without a guard, p = 0 outside the symmetric branch aborts the whole capital sweep. */
  lemma TheorySweepOverCapitalUnguarded(q: real)
    ensures TheorySweepOverCapital(0.0, q) == Fail(ZeroDivision)
  {
    assert TheoryProbability(0.0, q, 10 * 0, 100 - 10 * 0).Fail?;
  }

  /** Whenever the capital sweep succeeds it runs from certain ruin (A = 0) to none (A = 100). */
  lemma TheorySweepOverCapitalEnds(p: real, q: real)
    requires TheorySweepOverCapital(p, q).Ok?
    ensures TheorySweepOverCapital(p, q).value[0] == 1.0
    ensures TheorySweepOverCapital(p, q).value[10] == 0.0
  {
    var r := TheorySweepOverCapital(p, q).value;
    assert TheoryProbability(p, q, 0, 100) == Ok(r[0]);
    assert TheoryProbability(p, q, 100, 0) == Ok(r[10]);
    if !Symmetric(p, q) {
      GeneralBoundaries(p, q, 0, 100);
      GeneralBoundaries(p, q, 100, 0);
    } else {
      DivideBy(100.0, 100.0, 1.0);
    }
  }

  /** In the fair game the capital sweep is the straight line 1 - a/100, strictly falling. */
  lemma TheorySweepOverCapitalSymmetric()
    ensures TheorySweepOverCapital(0.5, 0.5).Ok?
    ensures forall j :: 0 <= j < 11 ==> TheorySweepOverCapital(0.5, 0.5).value[j] == 1.0 - j as real / 10.0
    ensures forall i, j :: 0 <= i < j < 11 ==>
      TheorySweepOverCapital(0.5, 0.5).value[j] < TheorySweepOverCapital(0.5, 0.5).value[i]
  {
    forall j | 0 <= j < 11 ensures TheoryProbability(0.5, 0.5, 10 * j, 100 - 10 * j).Ok? {
      assert 10 * j + (100 - 10 * j) == 100;
    }
    var r := TheorySweepOverCapital(0.5, 0.5).value;
    forall j | 0 <= j < 11 ensures r[j] == 1.0 - j as real / 10.0 {
      assert TheoryProbability(0.5, 0.5, 10 * j, 100 - 10 * j) == Ok(r[j]);
      assert (10 * j) as real / 100.0 == j as real / 10.0;
    }
  }

  /** `generate_experimental_list(iterations, p, q)`: `draws[j]` are the games at a = 10 j. */
  function ExperimentalSweepOverCapital(p: real, q: real, iterations: nat, draws: seq<seq<seq<real>>>): (r: Fallible<seq<real>>)
    requires SweepDraws(draws, iterations)
    ensures r.Ok? ==> |r.value| == 11
    ensures r.Ok? ==> forall j :: 0 <= j < 11 ==>
      ExperimentalProbability(draws[j], 10 * j, 100 - 10 * j, p, q) == Ok(r.value[j])
  {
    AllOk(seq(11, j requires 0 <= j < 11 => ExperimentalProbability(draws[j], 10 * j, 100 - 10 * j, p, q)))
  }

  /**
   Whatever the draws, a successful capital sweep holds probabilities and is
   exact at its ends (1 at a = 0, 0 at a = 100); with no games it fails with
   the ZeroDivisionError of its first entry.
   */
  lemma ExperimentalSweepOverCapitalEnds(p: real, q: real, iterations: nat, draws: seq<seq<seq<real>>>)
    requires SweepDraws(draws, iterations)
    ensures var r := ExperimentalSweepOverCapital(p, q, iterations, draws);
      r.Ok? ==> forall j :: 0 <= j < 11 ==> 0.0 <= r.value[j] <= 1.0
    ensures var r := ExperimentalSweepOverCapital(p, q, iterations, draws);
      r.Ok? ==> r.value[0] == 1.0 && r.value[10] == 0.0
    ensures iterations == 0 ==> ExperimentalSweepOverCapital(p, q, iterations, draws) == Fail(ZeroDivision)
  {
    var r := ExperimentalSweepOverCapital(p, q, iterations, draws);
    if r.Ok? {
      assert ExperimentalProbability(draws[0], 0, 100, p, q) == Ok(r.value[0]);
      assert ExperimentalProbability(draws[10], 100, 0, p, q) == Ok(r.value[10]);
      ExperimentalEndpoints(draws[0], 0, 100, p, q);
      ExperimentalEndpoints(draws[10], 100, 0, p, q);
    }
    if iterations == 0 {
      assert ExperimentalProbability(draws[0], 10 * 0, 100 - 10 * 0, p, q) == Fail(ZeroDivision);
    }
  }
}
