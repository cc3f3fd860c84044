/**
 The `play_game` variants of the game-length and trajectory scripts. Unlike
 the ruin-probability estimate they play a round before the first zero check
 (a `while True` loop with a `break`), so every game lasts at least one round.
 Round outcomes come from the uniform draws of `random.choices(['A', 'B'], [p, 1 - p])`.
 */
module RuinGames {
  import opened Common
  import opened Walk
  import GamblersRuin

  /** A `while True` game: step first, then stop as soon as either capital is 0. */
  function PlayRounds(c: Capitals, coins: seq<bool>): (r: Fallible<Finish>)
    ensures r.Ok? ==> 1 <= r.value.rounds <= |coins|
    ensures r.Fail? ==> r.error == DrawsExhausted
    decreases |coins|
  {
    if |coins| == 0 then Fail(DrawsExhausted)
    else
      var next := Step(c, coins[0]);
      if Absorbed(next) then Ok(Finish(next, 1))
      else
        match PlayRounds(next, coins[1..])
        case Ok(f) => Ok(Finish(f.final, f.rounds + 1))
        case Fail(e) => Fail(e)
  }

  /**
   A finished game stopped after the first round that ruined a player: its
   final capitals are those after its rounds and no shorter non-empty prefix
   ruined anyone. A game runs out of draws only if no non-empty prefix does.
   */
  lemma {:induction false} PlayRoundsStopsAtFirstRuin(c: Capitals, coins: seq<bool>)
    ensures var r := PlayRounds(c, coins);
      r.Ok? ==> r.value.final == After(c, coins[..r.value.rounds]) && Absorbed(r.value.final)
    ensures var r := PlayRounds(c, coins);
      r.Ok? ==> forall k :: 0 < k < r.value.rounds ==> !Absorbed(After(c, coins[..k]))
    ensures PlayRounds(c, coins).Fail? ==> forall k :: 0 < k <= |coins| ==> !Absorbed(After(c, coins[..k]))
    decreases |coins|
  {
    if |coins| > 0 {
      var next := Step(c, coins[0]);
      var rest := coins[1..];
      assert After(c, coins[..1]) == next by {
        AfterHead(c, coins, 0);
      }
      if !Absorbed(next) {
        PlayRoundsStopsAtFirstRuin(next, rest);
        forall k | 0 < k <= |coins|
          ensures After(c, coins[..k]) == After(next, rest[..k - 1])
        {
          AfterHead(c, coins, k - 1);
        }
      }
    }
  }

  /**
   From a position where nobody is ruined, the `while True` game and the
   `while a != 0 and b != 0` game of the ruin-probability estimate play the
   same rounds and end the same way.
   */
  lemma {:induction false} PlayRoundsAgreesWithPlayToRuin(c: Capitals, coins: seq<bool>)
    requires !Absorbed(c)
    ensures PlayRounds(c, coins) == GamblersRuin.PlayToRuin(c, coins)
    decreases |coins|
  {
    if |coins| > 0 {
      var next := Step(c, coins[0]);
      if !Absorbed(next) {
        PlayRoundsAgreesWithPlayToRuin(next, coins[1..]);
      }
    }
  }

  /** Every round moves one unit, so the table total at the end is the starting total. */
  lemma PlayRoundsConserves(c: Capitals, coins: seq<bool>)
    requires PlayRounds(c, coins).Ok?
    ensures PlayRounds(c, coins).value.final.a + PlayRounds(c, coins).value.final.b == c.a + c.b
  {
    var f := PlayRounds(c, coins).value;
    PlayRoundsStopsAtFirstRuin(c, coins);
    AfterConserves(c, coins[..f.rounds]);
  }

  // ---------------------------------------------------------------------------
  // Game length and its maximum

  /** The round outcomes of `play_game(a, b, p)`: weights [p, 1 - p]. */
  function GameCoins(p: real, us: seq<real>): seq<bool>
  {
    Coins(p, 1.0 - p, us)
  }

  /** `play_game` of the game-length script: the number of rounds played. */
  function GameLength(a: int, b: int, p: real, us: seq<real>): (r: Fallible<nat>)
    ensures r.Ok? ==> 1 <= r.value <= |us|
    ensures r.Fail? ==> r.error == DrawsExhausted
  {
    match PlayRounds(Capitals(a, b), GameCoins(p, us))
    case Ok(f) => Ok(f.rounds)
    case Fail(e) => Fail(e)
  }

  /**
   A ruined player lost at least one unit per round of its capital: a game
   that ruins A lasts at least a rounds, one that ruins B at least b, so every
   game lasts at least min(a, b) rounds.
   */
  lemma GameLengthAtLeast(a: int, b: int, p: real, us: seq<real>)
    requires GameLength(a, b, p, us).Ok?
    ensures var c := Capitals(a, b);
      var f := PlayRounds(c, GameCoins(p, us)).value;
      (f.final.a == 0 ==> f.rounds >= a) && (f.final.b == 0 ==> f.rounds >= b)
    ensures GameLength(a, b, p, us).value >= Min(a, b)
  {
    var c := Capitals(a, b);
    var coins := GameCoins(p, us);
    var f := PlayRounds(c, coins).value;
    PlayRoundsStopsAtFirstRuin(c, coins);
    AfterDistance(c, coins[..f.rounds]);
  }

  /** With p = 0 A loses every round, so the game lasts exactly a rounds once enough draws are given. */
  lemma GameLengthCertainLoss(a: nat, b: nat, us: seq<real>)
    requires a > 0 && b > 0 && AllUniform(us) && |us| >= a
    ensures GameLength(a, b, 0.0, us) == Ok(a)
  {
    var c := Capitals(a, b);
    var coins := GameCoins(0.0, us);
    NeverWinsAtZero(1.0, us);
    PlayRoundsStopsAtFirstRuin(c, coins);
    AfterAllLost(c, coins[..a]);
    var r := PlayRounds(c, coins);
    if r.Ok? {
      AfterAllLost(c, coins[..r.value.rounds]);
    }
  }

  /** With p = 1 A wins every round, so the game lasts exactly b rounds once enough draws are given. */
  lemma GameLengthCertainWin(a: nat, b: nat, us: seq<real>)
    requires a > 0 && b > 0 && AllUniform(us) && |us| >= b
    ensures GameLength(a, b, 1.0, us) == Ok(b)
  {
    var c := Capitals(a, b);
    var coins := GameCoins(1.0, us);
    AlwaysWinsAtZeroQ(1.0, us);
    PlayRoundsStopsAtFirstRuin(c, coins);
    AfterAllWon(c, coins[..b]);
    var r := PlayRounds(c, coins);
    if r.Ok? {
      AfterAllWon(c, coins[..r.value.rounds]);
    }
  }

  /**
   `current_highest` after the games `games` at one p: the longest game, and 0
   when no game was played.
   */
  function MaxLength(a: int, b: int, p: real, games: seq<seq<real>>): (r: Fallible<nat>)
    ensures r.Ok? ==> forall g :: 0 <= g < |games| ==>
      GameLength(a, b, p, games[g]).Ok? && GameLength(a, b, p, games[g]).value <= r.value
    ensures r.Ok? && |games| > 0 ==> exists g :: 0 <= g < |games| && GameLength(a, b, p, games[g]) == Ok(r.value)
    ensures |games| == 0 ==> r == Ok(0)
    ensures r.Fail? ==> exists g :: 0 <= g < |games| && GameLength(a, b, p, games[g]).Fail?
    ensures r.Fail? ==> r.error == DrawsExhausted
    decreases |games|
  {
    if |games| == 0 then Ok(0)
    else
      var init := games[..|games| - 1];
      var last := games[|games| - 1];
      assert forall g :: 0 <= g < |init| ==> init[g] == games[g];
      match MaxLength(a, b, p, init)
      case Fail(e) => Fail(e)
      case Ok(m) =>
        match GameLength(a, b, p, last)
        case Fail(e) => Fail(e)
        case Ok(l) => Ok(if l > m then l else m)
  }

  /** `generate_game_grap`'s sweep: the longest of each point's games, for p = x/10. */
  function LengthSweep(a: int, b: int, draws: seq<seq<seq<real>>>): (r: Fallible<seq<nat>>)
    requires |draws| == 11
    ensures r.Ok? ==> |r.value| == 11
    ensures r.Ok? ==> forall x :: 0 <= x < 11 ==> MaxLength(a, b, GamblersRuin.SweepP(x), draws[x]) == Ok(r.value[x])
    ensures r.Fail? ==> r.error == DrawsExhausted
  {
    AllOk(seq(11, x requires 0 <= x < 11 => MaxLength(a, b, GamblersRuin.SweepP(x), draws[x])))
  }

  /** At p = 0 the longest game is a rounds and at p = 1 it is b, whatever the draws. */
  lemma LengthSweepEnds(a: nat, b: nat, draws: seq<seq<seq<real>>>)
    requires |draws| == 11 && a > 0 && b > 0
    requires forall x, g :: 0 <= x < 11 && 0 <= g < |draws[x]| ==> AllUniform(draws[x][g])
    requires |draws[0]| > 0 && |draws[10]| > 0
    requires LengthSweep(a, b, draws).Ok?
    ensures LengthSweep(a, b, draws).value[0] == a
    ensures LengthSweep(a, b, draws).value[10] == b
  {
    var r := LengthSweep(a, b, draws).value;
    assert GamblersRuin.SweepP(0) == 0.0 && GamblersRuin.SweepP(10) == 1.0;
    assert MaxLength(a, b, 0.0, draws[0]) == Ok(r[0]);
    assert MaxLength(a, b, 1.0, draws[10]) == Ok(r[10]);
    var g0 :| 0 <= g0 < |draws[0]| && GameLength(a, b, 0.0, draws[0][g0]) == Ok(r[0]);
    CertainLossLength(a, b, draws[0][g0]);
    var g10 :| 0 <= g10 < |draws[10]| && GameLength(a, b, 1.0, draws[10][g10]) == Ok(r[10]);
    CertainWinLength(a, b, draws[10][g10]);
  }

  /** A finished game at p = 0 lasted a rounds. */
  lemma CertainLossLength(a: nat, b: nat, us: seq<real>)
    requires a > 0 && b > 0 && AllUniform(us) && GameLength(a, b, 0.0, us).Ok?
    ensures GameLength(a, b, 0.0, us) == Ok(a)
  {
    var c := Capitals(a, b);
    var coins := GameCoins(0.0, us);
    var f := PlayRounds(c, coins).value;
    NeverWinsAtZero(1.0, us);
    PlayRoundsStopsAtFirstRuin(c, coins);
    AfterAllLost(c, coins[..f.rounds]);
  }

  /** A finished game at p = 1 lasted b rounds. */
  lemma CertainWinLength(a: nat, b: nat, us: seq<real>)
    requires a > 0 && b > 0 && AllUniform(us) && GameLength(a, b, 1.0, us).Ok?
    ensures GameLength(a, b, 1.0, us) == Ok(b)
  {
    var c := Capitals(a, b);
    var coins := GameCoins(1.0, us);
    var f := PlayRounds(c, coins).value;
    AlwaysWinsAtZeroQ(1.0, us);
    PlayRoundsStopsAtFirstRuin(c, coins);
    AfterAllWon(c, coins[..f.rounds]);
  }

  // ---------------------------------------------------------------------------
  // Winner of a game and the win-count trajectory

  /** `play_game` of the win-trajectory script: false as soon as A is at 0, true as soon as B is. */
  function PlayForWinner(a: int, b: int, p: real, us: seq<real>): (r: Fallible<bool>)
    ensures r.Fail? ==> r.error == DrawsExhausted
  {
    match PlayRounds(Capitals(a, b), GameCoins(p, us))
    case Ok(f) => Ok(f.final.a != 0)
    case Fail(e) => Fail(e)
  }

  /**
   The winner is A exactly when the game ended with B at 0 (and A not), and
   with a + b > 0 A then holds the whole table.
   */
  lemma PlayForWinnerMeaning(a: int, b: int, p: real, us: seq<real>)
    requires PlayForWinner(a, b, p, us).Ok?
    ensures var f := PlayRounds(Capitals(a, b), GameCoins(p, us)).value;
      PlayForWinner(a, b, p, us).value <==> f.final.a != 0 && f.final.b == 0
    ensures var f := PlayRounds(Capitals(a, b), GameCoins(p, us)).value;
      !PlayForWinner(a, b, p, us).value <==> f.final.a == 0
    ensures PlayForWinner(a, b, p, us).value ==> PlayRounds(Capitals(a, b), GameCoins(p, us)).value.final.a == a + b
  {
    PlayRoundsStopsAtFirstRuin(Capitals(a, b), GameCoins(p, us));
    PlayRoundsConserves(Capitals(a, b), GameCoins(p, us));
  }

  /** One win-count trajectory point: (game number, wins so far). */
  datatype Point = Point(game: nat, wins: nat)

  /**
   The trajectory recorded from the game results `results`: it starts at
   (0, 0) and appends (game, wins) after every game.
   */
  function WinTrajectory(results: seq<bool>): (r: seq<Point>)
    ensures |r| == |results| + 1
    ensures r[0] == Point(0, 0)
    ensures forall i :: 0 <= i < |r| ==> r[i].game == i
    ensures forall i :: 0 <= i < |r| ==> r[i].wins == CountTrue(results[..i])
    decreases |results|
  {
    if |results| == 0 then [Point(0, 0)]
    else
      var init := results[..|results| - 1];
      var prev := WinTrajectory(init);
      var last := prev[|prev| - 1];
      assert forall i :: 0 <= i <= |init| ==> results[..i] == init[..i];
      assert results[..|results|] == init + [results[|results| - 1]];
      CountAppend(init, true, results[|results| - 1]);
      prev + [Point(|results|, last.wins + (if results[|results| - 1] then 1 else 0))]
  }

  /** Wins never decrease, rise by at most one per game, and never exceed the games played. */
  lemma WinTrajectorySteps(results: seq<bool>)
    ensures forall i :: 0 <= i < |results| ==>
      WinTrajectory(results)[i + 1].wins == WinTrajectory(results)[i].wins + (if results[i] then 1 else 0)
    ensures forall i :: 0 <= i < |WinTrajectory(results)| ==> WinTrajectory(results)[i].wins <= i
  {
    var r := WinTrajectory(results);
    forall i | 0 <= i < |results|
      ensures r[i + 1].wins == r[i].wins + (if results[i] then 1 else 0)
    {
      assert results[..i + 1] == results[..i] + [results[i]];
      CountAppend(results[..i], true, results[i]);
    }
  }

  /** The winners of the games `games`, in order. */
  function Winners(a: int, b: int, p: real, games: seq<seq<real>>): (r: Fallible<seq<bool>>)
    ensures r.Ok? ==> |r.value| == |games|
    ensures r.Ok? ==> forall g :: 0 <= g < |games| ==> PlayForWinner(a, b, p, games[g]) == Ok(r.value[g])
    ensures r.Fail? ==> r.error == DrawsExhausted
  {
    AllOk(seq(|games|, g requires 0 <= g < |games| => PlayForWinner(a, b, p, games[g])))
  }

  /** The probabilities of the win-trajectory script. */
  const WinProbabilities: seq<real> := [0.3, 0.5, 0.7]

  /** `generate_game_grap`'s trajectories: one per p in (0.3, 0.5, 0.7), each over its own games. */
  function WinTrajectories(a: int, b: int, draws: seq<seq<seq<real>>>): (r: Fallible<seq<seq<Point>>>)
    requires |draws| == |WinProbabilities|
    ensures r.Ok? ==> |r.value| == 3
    ensures r.Ok? ==> forall j :: 0 <= j < 3 ==>
      Winners(a, b, WinProbabilities[j], draws[j]).Ok? &&
      r.value[j] == WinTrajectory(Winners(a, b, WinProbabilities[j], draws[j]).value)
    ensures r.Ok? ==> forall j :: 0 <= j < 3 ==> |r.value[j]| == |draws[j]| + 1
  {
    var runs := seq(3, j requires 0 <= j < 3 => Winners(a, b, WinProbabilities[j], draws[j]));
    assert forall j :: 0 <= j < 3 ==> runs[j] == Winners(a, b, WinProbabilities[j], draws[j]);
    match AllOk(runs)
    case Fail(e) => Fail(e)
    case Ok(results) => Ok(seq(3, j requires 0 <= j < 3 => WinTrajectory(results[j])))
  }

  // ---------------------------------------------------------------------------
  // Capital trajectory

  /** One capital trajectory point: (turn, A's capital). */
  datatype Turn = Turn(turn: nat, capital: int)

  /** The points a `while True` game appends from turn `turn` on. */
  function Track(c: Capitals, coins: seq<bool>, turn: nat): (r: Fallible<seq<Turn>>)
    ensures r.Fail? ==> r.error == DrawsExhausted
    decreases |coins|
  {
    if |coins| == 0 then Fail(DrawsExhausted)
    else
      var next := Step(c, coins[0]);
      if Absorbed(next) then Ok([Turn(turn + 1, next.a)])
      else
        match Track(next, coins[1..], turn + 1)
        case Ok(rest) => Ok([Turn(turn + 1, next.a)] + rest)
        case Fail(e) => Fail(e)
  }

  /**
   The appended points are the game's rounds: one per round, numbered on from
   `turn`, each holding A's capital after that many rounds.
   */
  lemma {:induction false} TrackFollowsGame(c: Capitals, coins: seq<bool>, turn: nat)
    ensures Track(c, coins, turn).Ok? <==> PlayRounds(c, coins).Ok?
    ensures Track(c, coins, turn).Ok? ==>
      |Track(c, coins, turn).value| == PlayRounds(c, coins).value.rounds &&
      forall i :: 0 <= i < |Track(c, coins, turn).value| ==>
        Track(c, coins, turn).value[i] == Turn(turn + i + 1, After(c, coins[..i + 1]).a)
    decreases |coins|
  {
    if |coins| > 0 {
      var next := Step(c, coins[0]);
      var rest := coins[1..];
      AfterHead(c, coins, 0);
      if !Absorbed(next) {
        TrackFollowsGame(next, rest, turn + 1);
        var t := Track(c, coins, turn);
        if t.Ok? {
          var tail := Track(next, rest, turn + 1).value;
          forall i | 0 <= i < |t.value|
            ensures t.value[i] == Turn(turn + i + 1, After(c, coins[..i + 1]).a)
          {
            if i > 0 {
              AfterHead(c, coins, i);
              assert t.value[i] == tail[i - 1];
            }
          }
        }
      }
    }
  }

  /** `play_game` of the capital-trajectory script: [(0, a)] followed by one point per round. */
  function CapitalTrajectory(a: int, b: int, p: real, us: seq<real>): (r: Fallible<seq<Turn>>)
    ensures r.Ok? ==> |r.value| >= 2 && r.value[0] == Turn(0, a)
    ensures r.Fail? ==> r.error == DrawsExhausted
  {
    TrackFollowsGame(Capitals(a, b), GameCoins(p, us), 0);
    match Track(Capitals(a, b), GameCoins(p, us), 0)
    case Ok(rest) => Ok([Turn(0, a)] + rest)
    case Fail(e) => Fail(e)
  }

  /**
   The trajectory lists A's capital after every prefix of the game, turn i at
   index i, from 0 to the game's length T (T + 1 points).
   */
  lemma CapitalTrajectoryFollowsGame(a: int, b: int, p: real, us: seq<real>)
    requires CapitalTrajectory(a, b, p, us).Ok?
    ensures var coins := GameCoins(p, us);
      var t := CapitalTrajectory(a, b, p, us).value;
      PlayRounds(Capitals(a, b), coins).Ok? &&
      |t| == PlayRounds(Capitals(a, b), coins).value.rounds + 1 &&
      forall i :: 0 <= i < |t| ==> t[i] == Turn(i, After(Capitals(a, b), coins[..i]).a)
  {
    var c := Capitals(a, b);
    var coins := GameCoins(p, us);
    TrackFollowsGame(c, coins, 0);
    var t := CapitalTrajectory(a, b, p, us).value;
    var rest := Track(c, coins, 0).value;
    forall i | 0 <= i < |t|
      ensures t[i] == Turn(i, After(c, coins[..i]).a)
    {
      if i > 0 {
        assert t[i] == rest[i - 1];
      }
    }
  }

  /**
   The shape of a capital trajectory: consecutive capitals differ by exactly 1;
   the last is 0 or a + b; and for a, b > 0 every point before the last lies
   strictly between 0 and a + b.
   */
  lemma CapitalTrajectoryShape(a: int, b: int, p: real, us: seq<real>)
    requires CapitalTrajectory(a, b, p, us).Ok?
    ensures var t := CapitalTrajectory(a, b, p, us).value;
      forall i :: 0 <= i < |t| - 1 ==> t[i + 1].capital == t[i].capital + 1 || t[i + 1].capital == t[i].capital - 1
    ensures var t := CapitalTrajectory(a, b, p, us).value;
      t[|t| - 1].capital == 0 || t[|t| - 1].capital == a + b
    ensures var t := CapitalTrajectory(a, b, p, us).value;
      a > 0 && b > 0 ==> forall i :: 0 <= i < |t| - 1 ==> 0 < t[i].capital < a + b
  {
    var c := Capitals(a, b);
    var coins := GameCoins(p, us);
    var t := CapitalTrajectory(a, b, p, us).value;
    CapitalTrajectoryFollowsGame(a, b, p, us);
    var f := PlayRounds(c, coins).value;
    PlayRoundsStopsAtFirstRuin(c, coins);
    forall i | 0 <= i < |t| - 1
      ensures t[i + 1].capital == t[i].capital + 1 || t[i + 1].capital == t[i].capital - 1
    {
      AfterPrefixStep(c, coins, i);
    }
    AfterConserves(c, coins[..f.rounds]);
    if a > 0 && b > 0 {
      InteriorPositive(c, coins, f.rounds);
    }
  }

  /**
   Starting strictly inside the table, a game that meets no ruin in its first
   n - 1 rounds stays strictly inside for all of them.
   */
  lemma {:induction false} InteriorPositive(c: Capitals, coins: seq<bool>, n: nat)
    requires c.a > 0 && c.b > 0 && n <= |coins|
    requires forall k :: 0 < k < n ==> !Absorbed(After(c, coins[..k]))
    ensures forall i :: 0 <= i < n ==> 0 < After(c, coins[..i]).a < c.a + c.b
    decreases n
  {
    if n > 1 {
      InteriorPositive(c, coins, n - 1);
      var i := n - 1;
      AfterPrefixStep(c, coins, i - 1);
      AfterConserves(c, coins[..i]);
      AfterConserves(c, coins[..i - 1]);
    } else if n == 1 {
      assert coins[..0] == [];
    }
  }

  /** The probabilities of the capital-trajectory script. */
  const CapitalProbabilities: seq<real> := [0.25, 0.5, 0.75]

  /**
   `generate_game_grap`: one capital trajectory per p in (0.25, 0.5, 0.75),
   then the y-axis ticks `range(0, a + b + 1, round((a + b) / 20))`, whose step
   is 0 (ValueError) whenever |a + b| <= 10.
   */
  function CapitalTrajectories(a: int, b: int, draws: seq<seq<real>>): (r: Fallible<seq<seq<Turn>>>)
    requires |draws| == |CapitalProbabilities|
    ensures r.Ok? ==> |r.value| == 3
    ensures r.Ok? ==> forall j :: 0 <= j < 3 ==> CapitalTrajectory(a, b, CapitalProbabilities[j], draws[j]) == Ok(r.value[j])
    ensures r.Ok? <==> (forall j :: 0 <= j < 3 ==> CapitalTrajectory(a, b, CapitalProbabilities[j], draws[j]).Ok?) && Abs(a + b) > 10
    ensures r.Fail? ==> r.error == DrawsExhausted || (r.error == BadValue && Abs(a + b) <= 10)
  {
    RoundQuotientZero(a + b, 20);
    var games := AllOk(seq(3, j requires 0 <= j < 3 => CapitalTrajectory(a, b, CapitalProbabilities[j], draws[j])));
    if games.Ok? && Round((a + b) as real / 20 as real) == 0 then Fail(BadValue) else games
  }
}
