/**
 `games_handler` of the strategy experiment: play `n` games with the basic
 strategy and `n` games with each threshold 8..20, game g of every strategy
 drawing from the same indices (the same random seed), and report each
 strategy's share of wins. The handler works on the games' outcomes;
 `Comparison` ties it to the games' indices.
 */
module StrategyHandler {
  import opened Common
  import BlackjackBust
  import BlackjackStrategy

  /** The thresholds `range(8, 21)`. */
  function Thresholds(): (r: seq<int>)
    ensures |r| == 13 && forall i :: 0 <= i < 13 ==> r[i] == 8 + i
  {
    seq(13, i => 8 + i)
  }

  /** The win ratio of the basic strategy, and of each threshold in `Thresholds()` order. */
  datatype Report = Report(basic: real, thresholds: seq<real>)

  /**
   The wins among the first `n` games, stopping at the first game that fails;
   a game beyond the outcomes is an exhausted draw.
   */
  function Wins(outcomes: seq<Fallible<bool>>, n: int): (r: Fallible<nat>)
    ensures r.Ok? ==> r.value <= Max(n, 0)
    decreases Max(n, 0)
  {
    if n <= 0 then Ok(0)
    else
      match Wins(outcomes, n - 1)
      case Fail(e) => Fail(e)
      case Ok(w) =>
        if n - 1 >= |outcomes| then Fail(DrawsExhausted)
        else if outcomes[n - 1].Fail? then Fail(outcomes[n - 1].error)
        else Ok(w + (if outcomes[n - 1].value then 1 else 0))
  }

  /** `score / num_of_games`. */
  function Share(wins: nat, n: int): real
    requires n != 0
  {
    wins as real / n as real
  }

  /**
   The counting loop against its reference: it succeeds exactly when each of
   the first `n` games exists and finishes, and then counts the games won;
   a failure is the error of the first game that fails, or an exhausted draw
   when the games run out.
   */
  lemma WinsCount(outcomes: seq<Fallible<bool>>, n: int)
    ensures Wins(outcomes, n).Ok? <==> n <= 0 || (n <= |outcomes| && forall g :: 0 <= g < n ==> outcomes[g].Ok?)
    ensures Wins(outcomes, n).Ok? ==> Wins(outcomes, n).value == Count(outcomes[..Max(n, 0)], Ok(true))
    ensures Wins(outcomes, n).Fail? ==>
      (exists g :: 0 <= g < n && g < |outcomes| && outcomes[g] == Fail(Wins(outcomes, n).error) &&
        forall j :: 0 <= j < g ==> outcomes[j].Ok?) ||
      (Wins(outcomes, n).error == DrawsExhausted && |outcomes| < n && forall j :: 0 <= j < |outcomes| ==> outcomes[j].Ok?)
  {
    WinsOk(outcomes, n);
    WinsValue(outcomes, n);
    WinsFail(outcomes, n);
  }

  lemma {:induction false} WinsOk(outcomes: seq<Fallible<bool>>, n: int)
    ensures Wins(outcomes, n).Ok? <==> n <= 0 || (n <= |outcomes| && forall g :: 0 <= g < n ==> outcomes[g].Ok?)
    decreases Max(n, 0)
  {
    if n > 0 {
      WinsOk(outcomes, n - 1);
    }
  }

  lemma {:induction false} WinsValue(outcomes: seq<Fallible<bool>>, n: int)
    ensures Wins(outcomes, n).Ok? ==> Wins(outcomes, n).value == Count(outcomes[..Max(n, 0)], Ok(true))
    decreases Max(n, 0)
  {
    if n > 0 {
      WinsValue(outcomes, n - 1);
      if Wins(outcomes, n - 1).Ok? && n - 1 < |outcomes| {
        assert outcomes[..n] == outcomes[..n - 1] + [outcomes[n - 1]];
        CountAppend(outcomes[..n - 1], Ok(true), outcomes[n - 1]);
      }
    }
  }

  lemma {:induction false} WinsFail(outcomes: seq<Fallible<bool>>, n: int)
    ensures Wins(outcomes, n).Fail? ==>
      (exists g :: 0 <= g < n && g < |outcomes| && outcomes[g] == Fail(Wins(outcomes, n).error) &&
        forall j :: 0 <= j < g ==> outcomes[j].Ok?) ||
      (Wins(outcomes, n).error == DrawsExhausted && |outcomes| < n && forall j :: 0 <= j < |outcomes| ==> outcomes[j].Ok?)
    decreases Max(n, 0)
  {
    if n > 0 {
      WinsFail(outcomes, n - 1);
      WinsOk(outcomes, n - 1);
    }
  }

  /** A share of at most all the games is between 0 and 1, for a negative `n` too. */
  lemma ShareInUnit(wins: nat, n: int)
    requires n != 0 && wins <= Max(n, 0)
    ensures 0.0 <= Share(wins, n) <= 1.0
  {
    if n > 0 {
      FractionInUnit(wins as real, n as real);
    } else {
      FractionInUnitNegative(wins as real, n as real);
    }
  }

  /** The threshold loops, one list of outcomes per threshold, appending each ratio. */
  function Rates(byThreshold: seq<seq<Fallible<bool>>>, n: int): (r: Fallible<seq<real>>)
    requires n != 0
    ensures r.Ok? ==> |r.value| == |byThreshold|
  {
    if |byThreshold| == 0 then Ok([])
    else
      match Rates(byThreshold[..|byThreshold| - 1], n)
      case Fail(e) => Fail(e)
      case Ok(rs) =>
        match Wins(byThreshold[|byThreshold| - 1], n)
        case Fail(e) => Fail(e)
        case Ok(w) => Ok(rs + [Share(w, n)])
  }

  /**
   The whole handler on the outcomes: the basic games first (with zero games
   the division fails), then the thresholds in order.
   */
  function Handler(n: int, basic: seq<Fallible<bool>>, byThreshold: seq<seq<Fallible<bool>>>): Fallible<Report>
  {
    match Wins(basic, n)
    case Fail(e) => Fail(e)
    case Ok(w) =>
      if n == 0 then Fail(ZeroDivision)
      else
        match Rates(byThreshold, n)
        case Fail(e) => Fail(e)
        case Ok(rs) => Ok(Report(Share(w, n), rs))
  }

  /** Each ratio is the share of wins of its threshold's first `n` games. */
  lemma {:induction false} RatesShares(byThreshold: seq<seq<Fallible<bool>>>, n: int)
    requires n != 0
    ensures Rates(byThreshold, n).Ok? <==> forall i :: 0 <= i < |byThreshold| ==> Wins(byThreshold[i], n).Ok?
    ensures Rates(byThreshold, n).Ok? ==> forall i :: 0 <= i < |byThreshold| ==>
      Rates(byThreshold, n).value[i] == Share(Wins(byThreshold[i], n).value, n)
  {
    if |byThreshold| > 0 {
      var init := byThreshold[..|byThreshold| - 1];
      RatesShares(init, n);
      assert forall i :: 0 <= i < |init| ==> init[i] == byThreshold[i];
    }
  }

  /**
   What the handler reports: it fails with `ZeroDivisionError` for zero games
   and otherwise succeeds exactly when every strategy's first `n` games finish;
   then it reports, for the basic strategy and for each threshold, the share
   of those games won, each between 0 and 1.
   */
  lemma HandlerShape(n: int, basic: seq<Fallible<bool>>, byThreshold: seq<seq<Fallible<bool>>>)
    ensures n == 0 ==> Handler(n, basic, byThreshold) == Fail(ZeroDivision)
    ensures Handler(n, basic, byThreshold).Ok? <==>
      n != 0 && Wins(basic, n).Ok? && forall i :: 0 <= i < |byThreshold| ==> Wins(byThreshold[i], n).Ok?
    ensures Handler(n, basic, byThreshold).Ok? ==>
      Handler(n, basic, byThreshold).value.basic == Share(Count(basic[..Max(n, 0)], Ok(true)), n) &&
      0.0 <= Handler(n, basic, byThreshold).value.basic <= 1.0
    ensures Handler(n, basic, byThreshold).Ok? ==>
      |Handler(n, basic, byThreshold).value.thresholds| == |byThreshold| &&
      forall i :: 0 <= i < |byThreshold| ==>
        Handler(n, basic, byThreshold).value.thresholds[i] == Share(Count(byThreshold[i][..Max(n, 0)], Ok(true)), n) &&
        0.0 <= Handler(n, basic, byThreshold).value.thresholds[i] <= 1.0
  {
    WinsCount(basic, n);
    if n != 0 {
      RatesShares(byThreshold, n);
      if Wins(basic, n).Ok? {
        ShareInUnit(Wins(basic, n).value, n);
      }
      forall i | 0 <= i < |byThreshold| && Wins(byThreshold[i], n).Ok?
        ensures Wins(byThreshold[i], n).value == Count(byThreshold[i][..Max(n, 0)], Ok(true))
        ensures 0.0 <= Share(Wins(byThreshold[i], n).value, n) <= 1.0
      {
        WinsCount(byThreshold[i], n);
        ShareInUnit(Wins(byThreshold[i], n).value, n);
      }
    }
  }

  /** What a strategy's games return, game g drawing with `picks[g]`. */
  function Outcomes(s: BlackjackStrategy.Strategy, picks: seq<seq<int>>): (r: seq<Fallible<bool>>)
    ensures |r| == |picks|
  {
    if |picks| == 0 then []
    else Outcomes(s, picks[..|picks| - 1]) + [BlackjackStrategy.Play(s, picks[|picks| - 1])]
  }

  /** Game g's outcome is the game played with its own picks, whatever the other games drew. */
  lemma {:induction false} OutcomesAt(s: BlackjackStrategy.Strategy, picks: seq<seq<int>>, g: nat)
    requires g < |picks|
    ensures Outcomes(s, picks)[g] == BlackjackStrategy.Play(s, picks[g])
    decreases |picks|
  {
    var init := picks[..|picks| - 1];
    var last := BlackjackStrategy.Play(s, picks[|picks| - 1]);
    assert Outcomes(s, picks) == Outcomes(s, init) + [last];
    if g < |picks| - 1 {
      OutcomesAt(s, init, g);
      assert init[g] == picks[g];
    }
  }

  /** Every threshold's outcomes on the same games. */
  function ThresholdOutcomes(picks: seq<seq<int>>): (r: seq<seq<Fallible<bool>>>)
    ensures |r| == 13 && forall i :: 0 <= i < 13 ==> r[i] == Outcomes(BlackjackStrategy.Threshold(Thresholds()[i]), picks)
  {
    seq(13, i requires 0 <= i < 13 => Outcomes(BlackjackStrategy.Threshold(Thresholds()[i]), picks))
  }

  /** `games_handler(n)` where game g of every strategy draws with `picks[g]`. */
  function Comparison(n: int, picks: seq<seq<int>>): Fallible<Report>
  {
    Handler(n, Outcomes(BlackjackStrategy.Basic, picks), ThresholdOutcomes(picks))
  }

  /** Indices that `randrange` could return for every game, 52 of them or more. */
  ghost predicate Enough(picks: seq<seq<int>>, n: int)
  {
    n <= |picks| && forall g :: 0 <= g < |picks| ==> BlackjackBust.LegalPicks(picks[g]) && |picks[g]| >= 52
  }

  lemma OutcomesOk(s: BlackjackStrategy.Strategy, picks: seq<seq<int>>, n: int)
    requires Enough(picks, n)
    ensures forall g :: 0 <= g < n ==> Outcomes(s, picks)[g].Ok?
  {
    forall g | 0 <= g < n
      ensures Outcomes(s, picks)[g].Ok?
    {
      OutcomesAt(s, picks, g);
      BlackjackStrategy.PlayTotal(s, picks[g]);
    }
  }

  /**
   With indices `randrange` could return and enough of them, the handler
   never meets a `KeyError` or an empty deck: it reports for every non-zero
   number of games, with all 13 thresholds.
   */
  lemma ComparisonTotal(n: int, picks: seq<seq<int>>)
    requires Enough(picks, n) && n != 0
    ensures Comparison(n, picks).Ok? && |Comparison(n, picks).value.thresholds| == 13
  {
    var basic := Outcomes(BlackjackStrategy.Basic, picks);
    var byThreshold := ThresholdOutcomes(picks);
    OutcomesOk(BlackjackStrategy.Basic, picks, n);
    WinsCount(basic, n);
    forall i | 0 <= i < 13
      ensures Wins(byThreshold[i], n).Ok?
    {
      OutcomesOk(BlackjackStrategy.Threshold(Thresholds()[i]), picks, n);
      WinsCount(byThreshold[i], n);
    }
    HandlerShape(n, basic, byThreshold);
  }

  /** A game that fails stops every longer count with its error. */
  lemma {:induction false} WinsStop(outcomes: seq<Fallible<bool>>, g: nat, n: int, e: Error)
    requires Wins(outcomes, g).Ok? && g < n
    requires if g < |outcomes| then outcomes[g] == Fail(e) else e == DrawsExhausted
    ensures Wins(outcomes, n) == Fail(e)
    decreases n
  {
    if n - 1 > g {
      WinsStop(outcomes, g, n - 1, e);
    }
  }

  lemma WinsNext(outcomes: seq<Fallible<bool>>, g: nat, w: nat)
    requires Wins(outcomes, g) == Ok(w) && g < |outcomes| && outcomes[g].Ok?
    ensures Wins(outcomes, g + 1) == Ok(w + (if outcomes[g].value then 1 else 0))
  {
  }

  /** The games of one strategy, one after another: game g's `random.seed` gives it `picks[g]`. */
  method PlayAll(s: BlackjackStrategy.Strategy, picks: seq<seq<int>>) returns (outcomes: seq<Fallible<bool>>)
    ensures outcomes == Outcomes(s, picks)
    decreases |picks|
  {
    if |picks| == 0 {
      return [];
    }
    var earlier := PlayAll(s, picks[..|picks| - 1]);
    var won := BlackjackStrategy.StrategyGame(s, picks[|picks| - 1]);
    outcomes := earlier + [won];
  }

  /** `for seed in range(100, num_of_games + 100)`: count the wins among the first `n` games. */
  method CountWins(outcomes: seq<Fallible<bool>>, n: int) returns (r: Fallible<nat>)
    ensures r == Wins(outcomes, n)
  {
    var score: nat := 0;
    if n <= 0 {
      return Ok(score);
    }
    var game: nat := 0;
    while game < n
      invariant game <= n
      invariant Wins(outcomes, game) == Ok(score)
    {
      if game >= |outcomes| {
        WinsStop(outcomes, game, n, DrawsExhausted);
        return Fail(DrawsExhausted);
      }
      var won := outcomes[game];
      if won.Fail? {
        WinsStop(outcomes, game, n, won.error);
        return Fail(won.error);
      }
      WinsNext(outcomes, game, score);
      if won.value {
        score := score + 1;
      }
      game := game + 1;
    }
    return Ok(score);
  }

  /** `games_handler(num_of_games)`: the basic strategy, then each threshold in turn. */
  method GamesHandler(n: int, picks: seq<seq<int>>) returns (r: Fallible<Report>)
    ensures r == Comparison(n, picks)
  {
    var games := PlayAll(BlackjackStrategy.Basic, picks);
    var basic := CountWins(games, n);
    if basic.Fail? {
      return Fail(basic.error);
    }
    if n == 0 {
      return Fail(ZeroDivision);
    }
    var rates: seq<real> := [];
    var values := Thresholds();
    var byThreshold := ThresholdOutcomes(picks);
    for i := 0 to 13
      invariant Rates(byThreshold[..i], n) == Ok(rates)
    {
      games := PlayAll(BlackjackStrategy.Threshold(values[i]), picks);
      var current := CountWins(games, n);
      assert byThreshold[..i + 1][..i] == byThreshold[..i];
      if current.Fail? {
        RatesStop(byThreshold, i, n, current.error);
        return Fail(current.error);
      }
      rates := rates + [Share(current.value, n)];
    }
    assert byThreshold[..13] == byThreshold;
    return Ok(Report(Share(basic.value, n), rates));
  }

  /** A threshold whose games fail stops the remaining thresholds with its error. */
  lemma {:induction false} RatesStop(byThreshold: seq<seq<Fallible<bool>>>, i: nat, n: int, e: Error)
    requires n != 0 && i < |byThreshold|
    requires Rates(byThreshold[..i], n).Ok? && Wins(byThreshold[i], n) == Fail(e)
    ensures Rates(byThreshold, n) == Fail(e)
    decreases |byThreshold|
  {
    var init := byThreshold[..|byThreshold| - 1];
    if i < |byThreshold| - 1 {
      assert init[..i] == byThreshold[..i] && init[i] == byThreshold[i];
      RatesStop(init, i, n, e);
    } else {
      assert init == byThreshold[..i];
    }
  }
}
