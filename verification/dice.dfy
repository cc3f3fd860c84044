/**
 The dice games: the player and the croupier each roll one die, and the player
 wins the roll when the player's number is below the croupier's. One script
 estimates the win probability, two play a capital walk (a win pays 1 or 1.4,
 anything else costs 1) recorded every 10 rolls until bankruptcy. The closed
 forms 15/36, -1/6 and 0 come from the 36 equally likely outcomes.
 */
module Dice {
  import opened Common

  /** One roll of both dice, `random.randint(1, 6)` each. */
  datatype Roll = Roll(croupier: int, player: int)

  /** A roll `random.randint(1, 6)` can produce. */
  predicate Legal(r: Roll)
  {
    1 <= r.croupier <= 6 && 1 <= r.player <= 6
  }

  /** The scripts' win test, `player_roll < croupier_roll`; a tie is a loss. */
  predicate PlayerWins(r: Roll)
  {
    r.player < r.croupier
  }

  /** The reading of the scripts' headers, "player's roll > opponent's roll". */
  predicate PlayerBeats(r: Roll)
  {
    r.player > r.croupier
  }

  /** Rolls of the first p player values against croupier value c. */
  function RowOf(c: int, p: nat): (r: seq<Roll>)
    ensures |r| == p
  {
    if p == 0 then [] else RowOf(c, p - 1) + [Roll(c, p)]
  }

  /** All rolls with croupier values 1..c, croupier-major. */
  function Grid(c: nat): (r: seq<Roll>)
    ensures |r| == 6 * c
  {
    if c == 0 then [] else Grid(c - 1) + RowOf(c, 6)
  }

  /** The 36 equally likely outcomes. */
  function AllRolls(): seq<Roll>
  {
    Grid(6)
  }

  /** Number of rolls the player wins. */
  function Wins(rs: seq<Roll>): (n: nat)
    ensures n <= |rs|
  {
    if |rs| == 0 then 0 else Wins(rs[..|rs| - 1]) + (if PlayerWins(rs[|rs| - 1]) then 1 else 0)
  }

  /** Number of rolls the player beats under the headers' reading. */
  function Beats(rs: seq<Roll>): (n: nat)
    ensures n <= |rs|
  {
    if |rs| == 0 then 0 else Beats(rs[..|rs| - 1]) + (if PlayerBeats(rs[|rs| - 1]) then 1 else 0)
  }

  lemma {:induction false} WinsConcat(a: seq<Roll>, b: seq<Roll>)
    ensures Wins(a + b) == Wins(a) + Wins(b) && Beats(a + b) == Beats(a) + Beats(b)
    decreases |b|
  {
    if |b| == 0 {
      assert a + b == a;
    } else {
      assert (a + b)[..|a + b| - 1] == a + b[..|b| - 1];
      WinsConcat(a, b[..|b| - 1]);
    }
  }

  /** Entry k of row c is the roll (c, k + 1). */
  lemma {:induction false} RowAt(c: int, p: nat, k: nat)
    requires k < p
    ensures RowOf(c, p)[k] == Roll(c, k + 1)
  {
    if k < p - 1 {
      RowAt(c, p - 1, k);
    }
  }

  /** Against croupier value c >= 1 the player wins with the values below c and beats c with the values above it. */
  lemma {:induction false} RowCounts(c: int, p: nat)
    requires c >= 1
    ensures Wins(RowOf(c, p)) == Min(p, c - 1)
    ensures Beats(RowOf(c, p)) == (if p > c then p - c else 0)
  {
    if p > 0 {
      RowCounts(c, p - 1);
    }
  }

  /** 0 + 1 + ... + n. */
  function Triangle(n: nat): nat
  {
    if n == 0 then 0 else Triangle(n - 1) + n
  }

  /**
   Croupier values 1..c give 0 + 1 + ... + (c - 1) wins and
   5 + 4 + ... + (6 - c) beats.
   */
  lemma {:induction false} GridCounts(c: nat)
    requires c <= 6
    ensures Wins(Grid(c)) + c == Triangle(c)
    ensures Beats(Grid(c)) + Triangle(6 - c) + c == Triangle(6)
  {
    if c > 0 {
      GridCounts(c - 1);
      WinsConcat(Grid(c - 1), RowOf(c, 6));
      RowCounts(c, 6);
      assert Triangle(6 - c + 1) == Triangle(6 - c) + 6 - c + 1;
    }
  }

  /** Where a legal roll sits in the croupier-major enumeration. */
  function Position(r: Roll): int
  {
    6 * (r.croupier - 1) + r.player - 1
  }

  /** Entry k of the enumeration is a roll whose position is k. */
  lemma {:induction false} GridAt(c: nat, k: nat)
    requires k < 6 * c
    ensures 1 <= Grid(c)[k].croupier <= c && 1 <= Grid(c)[k].player <= 6
    ensures Position(Grid(c)[k]) == k
  {
    if k < 6 * (c - 1) {
      GridAt(c - 1, k);
    } else {
      RowAt(c, 6, k - 6 * (c - 1));
    }
  }

  /** Every roll with croupier value up to c sits at its position. */
  lemma {:induction false} GridHas(c: nat, r: Roll)
    requires 1 <= r.croupier <= c && 1 <= r.player <= 6
    ensures Position(r) < 6 * c && Grid(c)[Position(r)] == r
  {
    if r.croupier < c {
      GridHas(c - 1, r);
    } else {
      RowAt(c, 6, r.player - 1);
    }
  }

  /**
   The enumeration is a bijection between the 36 positions and the legal
   rolls, so each outcome appears exactly once; the player wins 15 of them
   (so `15/36` is the win probability), and the headers' reading also counts
   15.
   */
  lemma Enumeration()
    ensures |AllRolls()| == 36
    ensures forall k :: 0 <= k < 36 ==> Legal(AllRolls()[k]) && Position(AllRolls()[k]) == k
    ensures forall r :: Legal(r) ==> 0 <= Position(r) < 36 && AllRolls()[Position(r)] == r
    ensures Wins(AllRolls()) == 15 && Beats(AllRolls()) == 15
  {
    GridCounts(6);
    forall k | 0 <= k < 36 ensures Legal(AllRolls()[k]) && Position(AllRolls()[k]) == k {
      GridAt(6, k);
    }
    forall r | Legal(r) ensures 0 <= Position(r) < 36 && AllRolls()[Position(r)] == r {
      GridHas(6, r);
    }
  }

  /** `round(15/36, 4)` before rounding: the share of the 36 outcomes the player wins. */
  const TheoreticalWinChance: real := 15.0 / 36.0

  lemma TheoreticalWinChanceIsShare()
    ensures TheoreticalWinChance == Wins(AllRolls()) as real / |AllRolls()| as real
  {
    WinsOfAll();
    ShareOfRolls(AllRolls());
  }

  lemma WinsOfAll()
    ensures Wins(AllRolls()) == 15 && |AllRolls()| == 36
  {
    GridCounts(6);
    assert Triangle(6) == 21;
  }

  lemma ShareOfRolls(rs: seq<Roll>)
    requires Wins(rs) == 15 && |rs| == 36
    ensures TheoreticalWinChance == Wins(rs) as real / |rs| as real
  {
  }

  /**
   `roll_the_dices` of the probability script: the share of the first n rolls
   the player wins. `range(n)` is empty for n <= 0, so n < 0 gives 0 / n = 0
   and n = 0 divides by zero.
   */
  method RollTheDices(n: int, rolls: seq<Roll>) returns (r: Fallible<real>)
    ensures r == Fail(ZeroDivision) <==> n == 0
    ensures r == Fail(DrawsExhausted) <==> n > |rolls|
    ensures r.Ok? ==> r.value == (if n < 0 then 0.0 else Wins(rolls[..n]) as real / n as real)
    ensures r.Ok? ==> 0.0 <= r.value <= 1.0
  {
    var wins := 0;
    var k := 0;
    while k < n
      invariant 0 <= k && (n >= 0 ==> k <= n) && k <= |rolls| && wins == Wins(rolls[..k])
    {
      if k >= |rolls| {
        return Fail(DrawsExhausted);
      }
      assert rolls[..k + 1][..k] == rolls[..k];
      if rolls[k].player < rolls[k].croupier {
        wins := wins + 1;
      }
      k := k + 1;
    }
    if n == 0 {
      return Fail(ZeroDivision);
    }
    if n < 0 {
      return Ok(0.0);
    }
    FractionInUnit(wins as real, n as real);
    return Ok(wins as real / n as real);
  }

  /** The two capital games: a win pays 1 (`exB`) or 1.4 (`exC`); anything else costs 1. */
  datatype Payout = EvenMoney | Bonus

  function WinAmount(game: Payout): real
  {
    match game
    case EvenMoney => 1.0
    case Bonus => 1.4
  }

  /** The capital change of one roll. */
  function Payoff(game: Payout, r: Roll): real
  {
    if PlayerWins(r) then WinAmount(game) else -1.0
  }

  /** Total capital change over a sequence of rolls. */
  function Gain(game: Payout, rs: seq<Roll>): real
  {
    if |rs| == 0 then 0.0 else Gain(game, rs[..|rs| - 1]) + Payoff(game, rs[|rs| - 1])
  }

  /** The gain is the win amount per win less one per other roll. */
  lemma {:induction false} GainByWins(game: Payout, rs: seq<Roll>)
    ensures Gain(game, rs) == Wins(rs) as real * WinAmount(game) - (|rs| - Wins(rs)) as real
  {
    if |rs| > 0 {
      GainByWins(game, rs[..|rs| - 1]);
    }
  }

  /** The expected change per roll: the gain over the 36 outcomes, over 36. */
  function Expectation(game: Payout): real
  {
    Gain(game, AllRolls()) / 36.0
  }

  /** The constants the theoretical lines use: -1/6 per roll at even money, 0 with the 1.4 payout. */
  lemma Expectations()
    ensures Expectation(EvenMoney) == -1.0 / 6.0
    ensures Expectation(Bonus) == 0.0
  {
    Enumeration();
    GainByWins(EvenMoney, AllRolls());
    GainByWins(Bonus, AllRolls());
  }

  /** A capital graph: the recorded capitals and the roll numbers they were recorded at. */
  datatype Series = Series(capitals: seq<real>, iterations: seq<int>)

  /** The experimental result: the series and the average win per game. */
  datatype Experiment = Experiment(capitals: seq<real>, iterations: seq<int>, winPerGame: real)

  /** `capital_value_list.append(c)` and `iterations_number_list.append(t)`. */
  function Record(s: Series, c: real, t: int): (r: Series)
    ensures |r.capitals| == |s.capitals| + 1 && |r.iterations| == |s.iterations| + 1
  {
    Series(s.capitals + [c], s.iterations + [t])
  }

  /**
   The rest of `calculate_experimental`'s loop after k rolls with capital
   `capital`: roll, and stop at bankruptcy (recording it), or record at every
   tenth roll and go on, until `games` rolls are played.
   */
  function Continue(game: Payout, games: int, rolls: seq<Roll>, k: nat, capital: real, acc: Series): (r: Fallible<Series>)
    ensures r.Ok? ==> |r.value.capitals| >= |acc.capitals| && |r.value.iterations| >= |acc.iterations|
    decreases if k < games then games - k else 0
  {
    if k >= games then Ok(acc)
    else if k >= |rolls| then Fail(DrawsExhausted)
    else
      var c := capital + Payoff(game, rolls[k]);
      if c <= 0.0 then Ok(Record(acc, c, k + 1))
      else Continue(game, games, rolls, k + 1, c, if (k + 1) % 10 == 0 then Record(acc, c, k + 1) else acc)
  }

  /** The whole loop from the starting capital, both lists starting with the start. */
  function Played(game: Payout, start: int, games: int, rolls: seq<Roll>): Fallible<Series>
  {
    Continue(game, games, rolls, 0, start as real, Series([start as real], [0]))
  }

  /** `win_per_game`: the capital change over the last recorded roll number, which may be 0. */
  function WinPerGame(s: Series): Fallible<real>
    requires |s.capitals| > 0 && |s.iterations| > 0
  {
    var t := s.iterations[|s.iterations| - 1];
    if t == 0 then Fail(ZeroDivision)
    else Ok((s.capitals[|s.capitals| - 1] - s.capitals[0]) / t as real)
  }

  /** What `calculate_experimental` returns for the given rolls. */
  function Outcome(game: Payout, start: int, games: int, rolls: seq<Roll>): Fallible<Experiment>
  {
    match Played(game, start, games, rolls)
    case Fail(e) => Fail(e)
    case Ok(s) =>
      match WinPerGame(s)
      case Fail(e) => Fail(e)
      case Ok(w) => Ok(Experiment(s.capitals, s.iterations, w))
  }

  /** `calculate_experimental` without the printing. */
  method CalculateExperimental(game: Payout, start: int, games: int, rolls: seq<Roll>) returns (r: Fallible<Experiment>)
    ensures r == Outcome(game, start, games, rolls)
  {
    var capital := start as real;
    var acc := Series([start as real], [0]);
    var k := 0;
    while k < games
      invariant Continue(game, games, rolls, k, capital, acc) == Played(game, start, games, rolls)
      invariant |acc.capitals| > 0 && |acc.iterations| > 0
      decreases games - k
    {
      if k >= |rolls| {
        return Fail(DrawsExhausted);
      }
      capital := capital + Payoff(game, rolls[k]);
      if capital <= 0.0 {
        acc := Record(acc, capital, k + 1);
        break;
      }
      if (k + 1) % 10 == 0 {
        acc := Record(acc, capital, k + 1);
      }
      k := k + 1;
    }
    var last := acc.iterations[|acc.iterations| - 1];
    if last == 0 {
      return Fail(ZeroDivision);
    }
    return Ok(Experiment(acc.capitals, acc.iterations, (acc.capitals[|acc.capitals| - 1] - acc.capitals[0]) / last as real));
  }

  lemma GainStep(game: Payout, rolls: seq<Roll>, k: nat)
    requires k < |rolls|
    ensures Gain(game, rolls[..k + 1]) == Gain(game, rolls[..k]) + Payoff(game, rolls[k])
  {
    assert rolls[..k + 1][..k] == rolls[..k];
  }

  /** Both lists have the same length and start with the starting capital at roll 0. */
  predicate Starts(start: int, s: Series)
  {
    |s.capitals| == |s.iterations| >= 1 && s.capitals[0] == start as real && s.iterations[0] == 0
  }

  /** Roll numbers strictly increase. */
  predicate Increasing(its: seq<int>)
  {
    forall i, j :: 0 <= i < j < |its| ==> its[i] < its[j]
  }

  /** Every recorded capital is the start plus the gain of the rolls up to its roll number, which is at most `bound`. */
  predicate Tracks(game: Payout, start: int, rolls: seq<Roll>, bound: int, s: Series)
  {
    |s.capitals| == |s.iterations| &&
    forall j :: 0 <= j < |s.iterations| ==>
      0 <= s.iterations[j] <= bound && s.iterations[j] <= |rolls| &&
      s.capitals[j] == start as real + Gain(game, rolls[..s.iterations[j]])
  }

  /** Entries 1..n-1 are tenth-roll checkpoints with positive capital. */
  predicate Checkpoints(s: Series, n: int)
  {
    |s.capitals| == |s.iterations| && n <= |s.iterations| &&
    forall j :: 0 < j < n ==> s.iterations[j] % 10 == 0 && s.capitals[j] > 0.0
  }

  /** The capital stayed positive after each of rolls 1..k. */
  predicate Solvent(game: Payout, start: int, rolls: seq<Roll>, k: int)
  {
    k <= |rolls| && forall t :: 1 <= t <= k ==> start as real + Gain(game, rolls[..t]) > 0.0
  }

  /** The state of `calculate_experimental`'s loop after k rolls. */
  predicate Sampled(game: Payout, start: int, rolls: seq<Roll>, k: nat, capital: real, acc: Series)
  {
    k <= |rolls| && capital == start as real + Gain(game, rolls[..k]) &&
    Starts(start, acc) && Increasing(acc.iterations) && Tracks(game, start, rolls, k, acc) &&
    Checkpoints(acc, |acc.iterations|) && Solvent(game, start, rolls, k) &&
    acc.iterations[|acc.iterations| - 1] % 10 == 0 && k < acc.iterations[|acc.iterations| - 1] + 10
  }

  /** The last entry is a bankruptcy: it is not the starting entry and its capital is not positive. */
  predicate Bankrupt(s: Series)
  {
    |s.capitals| > 1 && s.capitals[|s.capitals| - 1] <= 0.0
  }

  /**
   What `calculate_experimental` records: both lists start at the start, roll
   numbers increase and never pass `games`, every capital is the start plus
   the gains so far, every entry but the last is a tenth-roll checkpoint with
   positive capital; a bankrupt last entry is the first roll whose capital is
   not positive, and otherwise the capital stayed positive for all `games`
   rolls and the last entry is the last checkpoint.
   */
  predicate Valid(game: Payout, start: int, games: int, rolls: seq<Roll>, s: Series)
  {
    Starts(start, s) && Increasing(s.iterations) && Tracks(game, start, rolls, Max(games, 0), s) &&
    Checkpoints(s, |s.iterations| - 1) &&
    (Bankrupt(s) ==> Solvent(game, start, rolls, s.iterations[|s.iterations| - 1] - 1)) &&
    (!Bankrupt(s) ==>
      s.iterations[|s.iterations| - 1] % 10 == 0 && games - 10 < s.iterations[|s.iterations| - 1] &&
      Solvent(game, start, rolls, Max(games, 0)))
  }

  /** A finished loop: a valid series, or the rolls ran out. */
  predicate Settled(game: Payout, start: int, games: int, rolls: seq<Roll>, r: Fallible<Series>)
  {
    (r.Ok? ==> Valid(game, start, games, rolls, r.value)) && (r.Fail? ==> r.error == DrawsExhausted)
  }

  lemma SampledStart(game: Payout, start: int, rolls: seq<Roll>)
    ensures Sampled(game, start, rolls, 0, start as real, Series([start as real], [0]))
  {
    assert rolls[..0] == [];
  }

  /** A roll that leaves the capital positive keeps the loop state, recorded or not. */
  lemma SampledStep(game: Payout, start: int, rolls: seq<Roll>, k: nat, capital: real, acc: Series)
    requires Sampled(game, start, rolls, k, capital, acc) && k < |rolls|
    requires capital + Payoff(game, rolls[k]) > 0.0
    ensures var c := capital + Payoff(game, rolls[k]);
      Sampled(game, start, rolls, k + 1, c, if (k + 1) % 10 == 0 then Record(acc, c, k + 1) else acc)
  {
    GainStep(game, rolls, k);
    if (k + 1) % 10 == 0 {
      SampledRecord(game, start, rolls, k, capital, acc);
    }
  }

  /** A tenth roll that leaves the capital positive is recorded and keeps the loop state. */
  lemma SampledRecord(game: Payout, start: int, rolls: seq<Roll>, k: nat, capital: real, acc: Series)
    requires Sampled(game, start, rolls, k, capital, acc) && k < |rolls|
    requires capital + Payoff(game, rolls[k]) > 0.0 && (k + 1) % 10 == 0
    ensures Sampled(game, start, rolls, k + 1, capital + Payoff(game, rolls[k]), Record(acc, capital + Payoff(game, rolls[k]), k + 1))
  {
    GainStep(game, rolls, k);
    var c := capital + Payoff(game, rolls[k]);
    var r := Record(acc, c, k + 1);
    assert r.capitals[|r.capitals| - 1] == c && r.iterations[|r.iterations| - 1] == k + 1;
    assert forall j :: 0 <= j < |acc.iterations| ==> r.iterations[j] == acc.iterations[j] && r.capitals[j] == acc.capitals[j];
    assert Tracks(game, start, rolls, k + 1, r);
    assert Increasing(r.iterations);
  }

  /** The loop ends after `games` rolls: the series is valid. */
  lemma SampledDone(game: Payout, start: int, games: int, rolls: seq<Roll>, k: nat, capital: real, acc: Series)
    requires Sampled(game, start, rolls, k, capital, acc) && k == Max(games, 0)
    ensures Valid(game, start, games, rolls, acc)
  {
  }

  /** The loop stops at the first roll leaving the capital non-positive: the series with it recorded is valid. */
  lemma SampledBroke(game: Payout, start: int, games: int, rolls: seq<Roll>, k: nat, capital: real, acc: Series)
    requires Sampled(game, start, rolls, k, capital, acc) && k < |rolls| && k < games
    requires capital + Payoff(game, rolls[k]) <= 0.0
    ensures Valid(game, start, games, rolls, Record(acc, capital + Payoff(game, rolls[k]), k + 1))
  {
    GainStep(game, rolls, k);
    var r := Record(acc, capital + Payoff(game, rolls[k]), k + 1);
    assert r.capitals[|r.capitals| - 1] == capital + Payoff(game, rolls[k]) && r.iterations[|r.iterations| - 1] == k + 1;
    assert forall j :: 0 <= j < |acc.iterations| ==> r.iterations[j] == acc.iterations[j] && r.capitals[j] == acc.capitals[j];
  }

  lemma ContinueDone(game: Payout, start: int, games: int, rolls: seq<Roll>, k: nat, capital: real, acc: Series)
    requires Sampled(game, start, rolls, k, capital, acc) && k == Max(games, 0)
    ensures Settled(game, start, games, rolls, Continue(game, games, rolls, k, capital, acc)) == true
  {
    SampledDone(game, start, games, rolls, k, capital, acc);
  }

  lemma ContinueBroke(game: Payout, start: int, games: int, rolls: seq<Roll>, k: nat, capital: real, acc: Series)
    requires Sampled(game, start, rolls, k, capital, acc) && k < |rolls| && k < games
    requires capital + Payoff(game, rolls[k]) <= 0.0
    ensures Settled(game, start, games, rolls, Continue(game, games, rolls, k, capital, acc)) == true
  {
    SampledBroke(game, start, games, rolls, k, capital, acc);
  }

  /** A roll leaving the capital positive hands the loop on to the next roll. */
  lemma ContinueOn(game: Payout, games: int, rolls: seq<Roll>, k: nat, capital: real, acc: Series)
    requires k < games && k < |rolls| && capital + Payoff(game, rolls[k]) > 0.0
    ensures var c := capital + Payoff(game, rolls[k]);
      Continue(game, games, rolls, k, capital, acc) ==
      Continue(game, games, rolls, k + 1, c, if (k + 1) % 10 == 0 then Record(acc, c, k + 1) else acc)
  {
  }

  /**
   The loop from any reachable state settles. (`Settled` is compared with
   `true` in these three lemmas so that it is proved as one fact from the
   branch lemmas rather than unfolded conjunct by conjunct.)
   */
  lemma {:induction false} ContinueValid(game: Payout, start: int, games: int, rolls: seq<Roll>, k: nat, capital: real, acc: Series)
    requires Sampled(game, start, rolls, k, capital, acc) && k <= Max(games, 0)
    ensures Settled(game, start, games, rolls, Continue(game, games, rolls, k, capital, acc)) == true
    decreases if k < games then games - k else 0
  {
    if k >= games {
      ContinueDone(game, start, games, rolls, k, capital, acc);
    } else if k < |rolls| {
      var c := capital + Payoff(game, rolls[k]);
      if c <= 0.0 {
        ContinueBroke(game, start, games, rolls, k, capital, acc);
      } else {
        var next := if (k + 1) % 10 == 0 then Record(acc, c, k + 1) else acc;
        SampledStep(game, start, rolls, k, capital, acc);
        ContinueValid(game, start, games, rolls, k + 1, c, next);
        ContinueOn(game, games, rolls, k, capital, acc);
      }
    }
  }

  /**
   The experimental result is a valid series, the only failures are running
   out of rolls and a series that never got past roll 0, and the average win
   per game is the gain per roll over the recorded rolls.
   */
  lemma OutcomeShape(game: Payout, start: int, games: int, rolls: seq<Roll>)
    ensures Played(game, start, games, rolls).Ok? ==> Valid(game, start, games, rolls, Played(game, start, games, rolls).value)
    ensures Outcome(game, start, games, rolls).Ok? ==>
      var e := Outcome(game, start, games, rolls).value;
      var t := e.iterations[|e.iterations| - 1];
      Valid(game, start, games, rolls, Series(e.capitals, e.iterations)) && t > 0 &&
      e.winPerGame == Gain(game, rolls[..t]) / t as real
    ensures Outcome(game, start, games, rolls).Fail? ==>
      Outcome(game, start, games, rolls).error == DrawsExhausted ||
      (Outcome(game, start, games, rolls).error == ZeroDivision &&
       Played(game, start, games, rolls) == Ok(Series([start as real], [0])))
  {
    SampledStart(game, start, rolls);
    ContinueValid(game, start, games, rolls, 0, start as real, Series([start as real], [0]));
    var p := Played(game, start, games, rolls);
    if p.Ok? {
      var s := p.value;
      if s.iterations[|s.iterations| - 1] == 0 {
        assert |s.iterations| == 1 by {
          if |s.iterations| > 1 {
            assert false;
          }
        }
        assert s == Series([start as real], [0]);
      }
    }
  }

  /** With whole capitals and even money, a bankrupt game ends at exactly 0: the capital moves by 1 per roll. */
  lemma EvenMoneyBankruptAtZero(start: int, games: int, rolls: seq<Roll>, s: Series)
    requires start > 0 && Valid(EvenMoney, start, games, rolls, s) && Bankrupt(s)
    ensures s.capitals[|s.capitals| - 1] == 0.0
  {
    var t := s.iterations[|s.iterations| - 1];
    assert t > 0 by {
      assert s.iterations[0] < t;
    }
    GainStep(EvenMoney, rolls, t - 1);
    GainByWins(EvenMoney, rolls[..t - 1]);
    var before := start as real + Gain(EvenMoney, rolls[..t - 1]);
    assert before == (start + 2 * Wins(rolls[..t - 1]) - (t - 1)) as real;
    assert before > 0.0 by {
      if t - 1 >= 1 {
        assert Solvent(EvenMoney, start, rolls, t - 1);
      }
    }
  }

  /** `calculate_theoretical` of the even-money game: the line from capital c at roll 0 to 0 at roll 6c. */
  function TheoryEvenMoney(c: int): Experiment
  {
    Experiment([c as real, 0.0], [0, c * 6], -1.0 / 6.0)
  }

  /** `calculate_theoretical` of the 1.4 game: a flat line at capital c over n rolls. */
  function TheoryBonus(c: int, n: int): Experiment
  {
    Experiment([c as real, c as real], [0, n], 0.0)
  }

  /** Both theoretical lines follow the expected change per roll: their end point is the start plus the rolls times the expectation. */
  lemma TheoryFollowsExpectation(c: int, n: int)
    ensures var e := TheoryEvenMoney(c);
      e.winPerGame == Expectation(EvenMoney) &&
      e.capitals[1] == e.capitals[0] + e.iterations[1] as real * Expectation(EvenMoney)
    ensures var e := TheoryBonus(c, n);
      e.winPerGame == Expectation(Bonus) &&
      e.capitals[1] == e.capitals[0] + e.iterations[1] as real * Expectation(Bonus)
  {
    Expectations();
  }
}
