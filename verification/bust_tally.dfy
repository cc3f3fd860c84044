/**
 `games_handler` of the bust experiment: play a number of games, tally how
 many cards each took to bust (the tally starts with 0, 1 and 2 cards at
 zero), then walk the tally in ascending order of cards, reporting for each
 number of cards how many games ended with exactly that many and the share of
 games that had bust by then.
 */
module BustTally {
  import opened Common
  import opened BlackjackBust

  /** `probability_dict` after the games: 0, 1 and 2 start at zero, then each result is counted. */
  function Tally(results: seq<nat>): map<nat, nat>
  {
    if |results| == 0 then map[0 := 0, 1 := 0, 2 := 0]
    else
      var m := Tally(results[..|results| - 1]);
      var x := results[|results| - 1];
      m[x := if x in m then m[x] + 1 else 1]
  }

  /** The tally has the three starting keys and every result, and counts each result. */
  lemma {:induction false} TallyCounts(results: seq<nat>, k: nat)
    ensures k in Tally(results) <==> k <= 2 || k in results
    ensures k in Tally(results) ==> Tally(results)[k] == Count(results, k)
  {
    if |results| > 0 {
      var init := results[..|results| - 1];
      TallyCounts(init, k);
      CountPositive(init, k);
      assert results == init + [results[|results| - 1]];
    }
  }

  /** Number of games that bust with fewer than `bound` cards. */
  function CountBelow(results: seq<nat>, bound: nat): nat
  {
    if |results| == 0 then 0
    else CountBelow(results[..|results| - 1], bound) + (if results[|results| - 1] < bound then 1 else 0)
  }

  lemma {:induction false} CountBelowStep(results: seq<nat>, k: nat)
    ensures CountBelow(results, k + 1) == CountBelow(results, k) + Count(results, k)
  {
    if |results| > 0 {
      CountBelowStep(results[..|results| - 1], k);
    }
  }

  lemma {:induction false} CountBelowGrows(results: seq<nat>, a: nat, b: nat)
    requires a <= b
    ensures CountBelow(results, a) <= CountBelow(results, b)
  {
    if |results| > 0 {
      CountBelowGrows(results[..|results| - 1], a, b);
    }
  }

  lemma {:induction false} CountBelowAll(results: seq<nat>, bound: nat)
    requires forall i :: 0 <= i < |results| ==> results[i] < bound
    ensures CountBelow(results, bound) == |results|
  {
    if |results| > 0 {
      CountBelowAll(results[..|results| - 1], bound);
    }
  }

  /** The largest result, 0 for none. */
  function Largest(results: seq<nat>): (r: nat)
    ensures forall i :: 0 <= i < |results| ==> results[i] <= r
  {
    if |results| == 0 then 0 else Max(Largest(results[..|results| - 1]), results[|results| - 1])
  }

  /** A bound above every key of the tally. */
  function Bound(results: seq<nat>): (r: nat)
    ensures r >= 3
    ensures forall i :: 0 <= i < |results| ==> results[i] < r
  {
    1 + Max(2, Largest(results))
  }

  /** One step of the report loop: a number of cards, the games that bust with exactly that many, and `prev_value` after it. */
  datatype Row = Row(cards: nat, games: nat, upTo: nat)

  /** `prev_value` after the rows so far. */
  function Reached(rows: seq<Row>): nat
  {
    if |rows| == 0 then 0 else rows[|rows| - 1].upTo
  }

  /** The loop over `sorted(probability_dict.items())`, for the keys below `bound`. */
  function Rows(m: map<nat, nat>, bound: nat): seq<Row>
  {
    if bound == 0 then []
    else
      var rows := Rows(m, bound - 1);
      var k: nat := bound - 1;
      if k in m then rows + [Row(k, m[k], Reached(rows) + m[k])] else rows
  }

  /** Some row of `rows` is for `k` cards. */
  ghost predicate Listed(rows: seq<Row>, k: nat)
  {
    exists i :: 0 <= i < |rows| && rows[i].cards == k
  }

  /** The report lists the tally's keys below `bound`, each once, in ascending order. */
  lemma {:induction false} RowsCards(m: map<nat, nat>, bound: nat)
    ensures forall i :: 0 <= i < |Rows(m, bound)| ==> Rows(m, bound)[i].cards < bound && Rows(m, bound)[i].cards in m
    ensures forall i, j :: 0 <= i < j < |Rows(m, bound)| ==> Rows(m, bound)[i].cards < Rows(m, bound)[j].cards
    ensures forall k: nat :: k < bound && k in m ==> Listed(Rows(m, bound), k)
  {
    if bound > 0 {
      RowsCards(m, bound - 1);
      var rows := Rows(m, bound - 1);
      if bound - 1 in m {
        var next := Rows(m, bound);
        assert next[|rows|].cards == bound - 1;
        assert forall i :: 0 <= i < |rows| ==> next[i] == rows[i];
      }
    }
  }

  /** Each row counts the games with exactly its cards, and `prev_value` the games with at most that many. */
  lemma {:induction false} RowsCounts(results: seq<nat>, bound: nat)
    ensures forall i :: 0 <= i < |Rows(Tally(results), bound)| ==>
      Rows(Tally(results), bound)[i].games == Count(results, Rows(Tally(results), bound)[i].cards) &&
      Rows(Tally(results), bound)[i].upTo == CountBelow(results, Rows(Tally(results), bound)[i].cards + 1)
    ensures Reached(Rows(Tally(results), bound)) == CountBelow(results, bound)
  {
    if bound > 0 {
      var k: nat := bound - 1;
      RowsCounts(results, k);
      CountBelowStep(results, k);
      TallyCounts(results, k);
      CountPositive(results, k);
      var rows := Rows(Tally(results), k);
      if k in Tally(results) {
        assert Rows(Tally(results), bound) == rows + [Row(k, Count(results, k), CountBelow(results, k + 1))];
      } else {
        assert Rows(Tally(results), bound) == rows;
      }
    } else {
      CountBelowNone(results, 0);
    }
  }

  lemma {:induction false} CountBelowNone(results: seq<nat>, bound: nat)
    requires forall i :: 0 <= i < |results| ==> results[i] >= bound
    ensures CountBelow(results, bound) == 0
  {
    if |results| > 0 {
      CountBelowNone(results[..|results| - 1], bound);
    }
  }

  /** The rows of the report after all games. */
  function Report(results: seq<nat>): seq<Row>
  {
    Rows(Tally(results), Bound(results))
  }

  /**
   The report's rows list 0, 1, 2 and every result, each once and in
   ascending order; each row counts the games that bust with exactly its
   cards, and its running total the games that bust with at most its cards.
   */
  ghost predicate Lists(rows: seq<Row>, results: seq<nat>)
  {
    (forall i, j :: 0 <= i < j < |rows| ==> rows[i].cards < rows[j].cards) &&
    (forall k: nat :: Listed(rows, k) <==> k <= 2 || k in results) &&
    (forall i :: 0 <= i < |rows| ==>
      rows[i].games == Count(results, rows[i].cards) && rows[i].upTo == CountBelow(results, rows[i].cards + 1))
  }

  lemma ReportLists(results: seq<nat>)
    ensures Lists(Report(results), results)
  {
    var m := Tally(results);
    var bound := Bound(results);
    var rows := Report(results);
    assert rows == Rows(m, bound);
    RowsCards(m, bound);
    RowsCounts(results, bound);
    forall k: nat
      ensures Listed(rows, k) <==> k <= 2 || k in results
    {
      TallyCounts(results, k);
      if k in results {
        var i :| 0 <= i < |results| && results[i] == k;
      }
    }
  }

  /** The first three rows are for 0, 1 and 2 cards. */
  lemma FirstRows(results: seq<nat>)
    ensures |Report(results)| >= 3
    ensures Report(results)[0].cards == 0 && Report(results)[1].cards == 1 && Report(results)[2].cards == 2
  {
    var rows := Report(results);
    ReportLists(results);
    assert Listed(rows, 0) && Listed(rows, 1) && Listed(rows, 2);
    var i0 :| 0 <= i0 < |rows| && rows[i0].cards == 0;
    var i1 :| 0 <= i1 < |rows| && rows[i1].cards == 1;
    var i2 :| 0 <= i2 < |rows| && rows[i2].cards == 2;
    assert i0 < i1 < i2;
  }

  /** Running totals never decrease, and the last one counts every game. */
  lemma RowsCumulative(results: seq<nat>)
    ensures forall i, j :: 0 <= i < j < |Report(results)| ==> Report(results)[i].upTo <= Report(results)[j].upTo
    ensures |Report(results)| > 0 && Report(results)[|Report(results)| - 1].upTo == |results|
  {
    var rows := Report(results);
    ReportLists(results);
    FirstRows(results);
    forall i, j | 0 <= i < j < |rows|
      ensures rows[i].upTo <= rows[j].upTo
    {
      CountBelowGrows(results, rows[i].cards + 1, rows[j].cards + 1);
    }
    RowsCounts(results, Bound(results));
    CountBelowAll(results, Bound(results));
  }

  /** With fewer than three cards no game busts: the rows for 0, 1 and 2 cards are empty. */
  lemma EarlyRows(results: seq<nat>)
    requires forall i :: 0 <= i < |results| ==> results[i] >= 3
    ensures |Report(results)| >= 3
    ensures forall k :: 0 <= k <= 2 ==> Report(results)[k].games == 0 && Report(results)[k].upTo == 0
  {
    FirstRows(results);
    ReportLists(results);
    CountBelowNone(results, 3);
    forall k: nat | k <= 2
      ensures Count(results, k) == 0 && CountBelow(results, k + 1) == 0
    {
      CountPositive(results, k);
      CountBelowGrows(results, k + 1, 3);
    }
  }

  /** A line of the printed lists: cards drawn, number of such games, probability of having bust by then. */
  datatype Line = Line(cards: nat, pulls: nat, probability: real)

  /** The three printed lists, line by line: the running total of each row over the number of games. */
  function Lines(rows: seq<Row>, n: int): (r: seq<Line>)
    requires n != 0
    ensures |r| == |rows|
    ensures forall i :: 0 <= i < |rows| ==>
      r[i].cards == rows[i].cards && r[i].pulls == rows[i].games && r[i].probability == rows[i].upTo as real / n as real
  {
    seq(|rows|, i requires 0 <= i < |rows| => Line(rows[i].cards, rows[i].games, rows[i].upTo as real / n as real))
  }

  /** What each game returns, game g drawing with `picks[g]`. */
  function Outcomes(picks: seq<seq<int>>): (r: seq<Fallible<nat>>)
    ensures |r| == |picks| && forall g :: 0 <= g < |picks| ==> r[g] == Game(picks[g])
  {
    seq(|picks|, g requires 0 <= g < |picks| => Game(picks[g]))
  }

  /** The results of the first `n` games, stopping at the first that fails; a game beyond the outcomes is an exhausted draw. */
  function Results(outcomes: seq<Fallible<nat>>, n: int): (r: Fallible<seq<nat>>)
    ensures r.Ok? ==> |r.value| == Max(n, 0)
    decreases Max(n, 0)
  {
    if n <= 0 then Ok([])
    else
      match Results(outcomes, n - 1)
      case Fail(e) => Fail(e)
      case Ok(rs) =>
        if n - 1 >= |outcomes| then Fail(DrawsExhausted)
        else if outcomes[n - 1].Fail? then Fail(outcomes[n - 1].error)
        else Ok(rs + [outcomes[n - 1].value])
  }

  /** Each result is what its game returned. */
  lemma {:induction false} ResultsGames(outcomes: seq<Fallible<nat>>, n: int)
    ensures Results(outcomes, n).Ok? ==> forall g :: 0 <= g < |Results(outcomes, n).value| ==>
      g < |outcomes| && outcomes[g] == Ok(Results(outcomes, n).value[g])
    decreases Max(n, 0)
  {
    if n > 0 {
      ResultsGames(outcomes, n - 1);
    }
  }

  /** `games_handler(n)` on the games' outcomes: the lists it prints, or the error it stops with. */
  function Handler(n: int, outcomes: seq<Fallible<nat>>): Fallible<seq<Line>>
  {
    match Results(outcomes, n)
    case Fail(e) => Fail(e)
    case Ok(results) =>
      if n == 0 then Fail(ZeroDivision)
      else Ok(Lines(Report(results), n))
  }

  lemma DivideGrows(x: real, y: real, d: real)
    requires d > 0.0 && x <= y
    ensures x / d <= y / d
  {
    assert y / d - x / d == (y - x) / d;
  }

  /**
   What the printed lists say about the results: the cards column lists 0, 1,
   2 and every result, each once and in ascending order; each line counts the
   games that bust with exactly its cards, and its probability is the share
   of the `n` games that bust with at most its cards.
   */
  ghost predicate Prints(lines: seq<Line>, results: seq<nat>, n: int)
    requires n != 0
  {
    (forall i, j :: 0 <= i < j < |lines| ==> lines[i].cards < lines[j].cards) &&
    (forall k: nat :: (exists i :: 0 <= i < |lines| && lines[i].cards == k) <==> k <= 2 || k in results) &&
    (forall i :: 0 <= i < |lines| ==>
      lines[i].pulls == Count(results, lines[i].cards) &&
      lines[i].probability == CountBelow(results, lines[i].cards + 1) as real / n as real)
  }

  lemma LinesPrint(results: seq<nat>, n: int)
    requires n != 0
    ensures Prints(Lines(Report(results), n), results, n)
  {
    var rows := Report(results);
    var lines := Lines(rows, n);
    ReportLists(results);
    forall k: nat
      ensures (exists i :: 0 <= i < |lines| && lines[i].cards == k) <==> Listed(rows, k)
    {
    }
  }

  /** With every game played, the probabilities never decrease down the list and the last is 1. */
  lemma LinesCumulative(results: seq<nat>, n: int)
    requires n == |results| > 0
    ensures forall i, j :: 0 <= i < j < |Lines(Report(results), n)| ==>
      Lines(Report(results), n)[i].probability <= Lines(Report(results), n)[j].probability
    ensures |Lines(Report(results), n)| > 0 && Lines(Report(results), n)[|Lines(Report(results), n)| - 1].probability == 1.0
  {
    RowsCumulative(results);
    LinesGrow(Report(results), n);
  }

  /** Dividing non-decreasing running totals by a positive count keeps them in order, and a total of `n` gives 1. */
  lemma LinesGrow(rows: seq<Row>, n: int)
    requires n > 0 && |rows| > 0 && rows[|rows| - 1].upTo == n
    requires forall i, j :: 0 <= i < j < |rows| ==> rows[i].upTo <= rows[j].upTo
    ensures forall i, j :: 0 <= i < j < |Lines(rows, n)| ==> Lines(rows, n)[i].probability <= Lines(rows, n)[j].probability
    ensures |Lines(rows, n)| > 0 && Lines(rows, n)[|rows| - 1].probability == 1.0
  {
    var lines := Lines(rows, n);
    forall i, j | 0 <= i < j < |lines|
      ensures lines[i].probability <= lines[j].probability
    {
      DivideGrows(rows[i].upTo as real, rows[j].upTo as real, n as real);
    }
    assert lines[|rows| - 1].probability == n as real / n as real;
    DivideBy(n as real, n as real, 1.0);
  }

  /** Every game that ends busts with at least three cards, and only exhausted draws stop a game. */
  ghost predicate Legal(outcomes: seq<Fallible<nat>>)
  {
    forall g :: 0 <= g < |outcomes| ==>
      (outcomes[g].Ok? ==> outcomes[g].value >= 3) && (outcomes[g].Fail? ==> outcomes[g].error == DrawsExhausted)
  }

  lemma OutcomesLegal(picks: seq<seq<int>>)
    requires forall g :: 0 <= g < |picks| ==> LegalPicks(picks[g])
    ensures Legal(Outcomes(picks))
  {
    forall g | 0 <= g < |picks|
      ensures Game(picks[g]).Ok? ==> Game(picks[g]).value >= 3
      ensures Game(picks[g]).Fail? ==> Game(picks[g]).error == DrawsExhausted
    {
      GameShape(picks[g]);
    }
  }

  /** Legal games give results of at least three cards, and only missing or exhausted draws stop the run. */
  lemma {:induction false} ResultsLegal(outcomes: seq<Fallible<nat>>, n: int)
    requires Legal(outcomes)
    ensures Results(outcomes, n).Fail? ==> Results(outcomes, n).error == DrawsExhausted
    ensures Results(outcomes, n).Ok? ==> forall i :: 0 <= i < |Results(outcomes, n).value| ==> Results(outcomes, n).value[i] >= 3
    decreases Max(n, 0)
  {
    if n > 0 {
      ResultsLegal(outcomes, n - 1);
    }
  }

  /** With every result at least three, the first three lines are empty. */
  lemma EarlyLines(results: seq<nat>, n: int)
    requires n != 0
    requires forall i :: 0 <= i < |results| ==> results[i] >= 3
    ensures |Lines(Report(results), n)| >= 3
    ensures forall k :: 0 <= k <= 2 ==>
      Lines(Report(results), n)[k].cards == k && Lines(Report(results), n)[k].pulls == 0 &&
      Lines(Report(results), n)[k].probability == 0.0
  {
    FirstRows(results);
    EarlyRows(results);
  }

  /**
   `games_handler` on legal games: it stops only for lack of draws (or with
   `ZeroDivisionError` for no games), and otherwise prints every result.
   */
  lemma HandlerShape(n: int, outcomes: seq<Fallible<nat>>)
    requires Legal(outcomes)
    ensures n == 0 ==> Handler(n, outcomes) == Fail(ZeroDivision)
    ensures n != 0 && Handler(n, outcomes).Fail? ==> Handler(n, outcomes).error == DrawsExhausted
    ensures Handler(n, outcomes).Ok? ==>
      n != 0 && Results(outcomes, n).Ok? && Prints(Handler(n, outcomes).value, Results(outcomes, n).value, n)
  {
    ResultsLegal(outcomes, n);
    if n != 0 && Results(outcomes, n).Ok? {
      LinesPrint(Results(outcomes, n).value, n);
    }
  }

  /**
   On legal games the printed probabilities start with three zeros (no game
   busts with fewer than three cards) and end with 1 (every game has bust by
   the largest number of cards).
   */
  lemma HandlerEnds(n: int, outcomes: seq<Fallible<nat>>)
    requires Legal(outcomes)
    ensures Handler(n, outcomes).Ok? ==> |Handler(n, outcomes).value| >= 3 && forall k :: 0 <= k <= 2 ==>
      Handler(n, outcomes).value[k].cards == k && Handler(n, outcomes).value[k].pulls == 0 &&
      Handler(n, outcomes).value[k].probability == 0.0
    ensures Handler(n, outcomes).Ok? && n > 0 ==>
      Handler(n, outcomes).value[|Handler(n, outcomes).value| - 1].probability == 1.0
  {
    ResultsLegal(outcomes, n);
    if n != 0 && Results(outcomes, n).Ok? {
      var results := Results(outcomes, n).value;
      EarlyLines(results, n);
      if n > 0 {
        LinesCumulative(results, n);
      }
    }
  }

  /** A game that fails stops every longer run with its error. */
  lemma {:induction false} ResultsStop(outcomes: seq<Fallible<nat>>, g: nat, n: int, e: Error)
    requires Results(outcomes, g).Ok? && g < n
    requires if g < |outcomes| then outcomes[g] == Fail(e) else e == DrawsExhausted
    ensures Results(outcomes, n) == Fail(e)
    decreases n
  {
    if n - 1 > g {
      ResultsStop(outcomes, g, n - 1, e);
    }
  }

  /** One more game played: its result joins the results and the tally. */
  lemma ResultsNext(outcomes: seq<Fallible<nat>>, game: nat, results: seq<nat>, x: nat)
    requires Results(outcomes, game) == Ok(results) && game < |outcomes| && outcomes[game] == Ok(x)
    ensures Results(outcomes, game + 1) == Ok(results + [x])
    ensures Tally(results + [x]) == Tally(results)[x := if x in Tally(results) then Tally(results)[x] + 1 else 1]
  {
    assert (results + [x])[..|results|] == results;
  }

  /**
   The games loop of `games_handler`, counting into the tally as it goes;
   game g's `blackjack_game()` returns `outcomes[g]`.
   */
  method PlayGames(n: int, outcomes: seq<Fallible<nat>>) returns (r: Fallible<seq<nat>>, tally: map<nat, nat>)
    ensures r == Results(outcomes, n)
    ensures r.Ok? ==> tally == Tally(r.value)
  {
    var results: seq<nat> := [];
    tally := map[0 := 0, 1 := 0, 2 := 0];
    if n <= 0 {
      return Ok(results), tally;
    }
    var game: nat := 0;
    while game < n
      invariant game <= n
      invariant Results(outcomes, game) == Ok(results)
      invariant tally == Tally(results)
    {
      if game >= |outcomes| {
        ResultsStop(outcomes, game, n, DrawsExhausted);
        return Fail(DrawsExhausted), tally;
      }
      var c := outcomes[game];
      if c.Fail? {
        ResultsStop(outcomes, game, n, c.error);
        return Fail(c.error), tally;
      }
      ResultsNext(outcomes, game, results, c.value);
      tally := tally[c.value := if c.value in tally then tally[c.value] + 1 else 1];
      results := results + [c.value];
      game := game + 1;
    }
    return Ok(results), tally;
  }

  /** The loop over the sorted tally, keeping `prev_value`. */
  method ListRows(tally: map<nat, nat>, bound: nat) returns (rows: seq<Row>)
    ensures rows == Rows(tally, bound)
  {
    rows := [];
    var k: nat := 0;
    while k < bound
      invariant k <= bound
      invariant rows == Rows(tally, k)
    {
      if k in tally {
        rows := rows + [Row(k, tally[k], Reached(rows) + tally[k])];
      }
      k := k + 1;
    }
  }

  /** `games_handler` on the games' outcomes. */
  method GamesHandler(n: int, outcomes: seq<Fallible<nat>>) returns (r: Fallible<seq<Line>>)
    ensures r == Handler(n, outcomes)
  {
    var results, tally := PlayGames(n, outcomes);
    if results.Fail? {
      return Fail(results.error);
    }
    if n == 0 {
      return Fail(ZeroDivision);
    }
    var rows := ListRows(tally, 1 + Max(2, Largest(results.value)));
    return Ok(Lines(rows, n));
  }

  /** The outcomes of `blackjack_game` for each game's indices, one game after another. */
  method PlayAll(picks: seq<seq<int>>) returns (outcomes: seq<Fallible<nat>>)
    ensures outcomes == Outcomes(picks)
  {
    outcomes := [];
    for g := 0 to |picks|
      invariant outcomes == Outcomes(picks[..g])
    {
      var c := BlackjackGame(picks[g]);
      assert picks[..g + 1] == picks[..g] + [picks[g]];
      outcomes := outcomes + [c];
    }
    assert picks[..|picks|] == picks;
  }
}
