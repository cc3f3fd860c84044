/**
 The three-node Markov chain walked step by step: from the current node the
 next one is drawn with the weights of the current row of the base matrix, the
 visit counts are updated, and every `leap` steps the visit frequencies so far
 are recorded.
 */
module VisitChain {
  import opened Common
  import Choices
  import MatrixPowers

  /**
   The row selected by `base_matrix[x_pos]` on a list of three rows: Python
   counts negative indices from the end and rejects anything else.
   */
  function RowIndex(x: int): (r: Fallible<nat>)
    ensures r.Ok? <==> -3 <= x < 3
    ensures r.Ok? ==> r.value < 3 && (r.value == x || r.value == x + 3)
    ensures r.Fail? ==> r.error == IndexOutOfRange
  {
    if 0 <= x < 3 then Ok(x) else if -3 <= x < 0 then Ok(x + 3) else Fail(IndexOutOfRange)
  }

  /** The node drawn from `node` with the uniform draw `u`. */
  function Next(node: nat, u: real): (r: nat)
    requires node < 3
    ensures r < 3
  {
    Choices.Choose(MatrixPowers.BaseMatrix[node], u)
  }

  /** The node reached from `start` after one transition per draw. */
  function Position(start: nat, us: seq<real>): (r: nat)
    requires start < 3
    ensures r < 3
  {
    if |us| == 0 then start else Next(Position(start, us[..|us| - 1]), us[|us| - 1])
  }

  /** The nodes visited by the transitions, in order; the start itself is not a visit. */
  function Path(start: nat, us: seq<real>): (nodes: seq<nat>)
    requires start < 3
    ensures |nodes| == |us|
    ensures forall i :: 0 <= i < |nodes| ==> nodes[i] < 3
  {
    if |us| == 0 then [] else Path(start, us[..|us| - 1]) + [Position(start, us)]
  }

  /** The visit counts of the three nodes. */
  function Tally(nodes: seq<nat>): seq<nat>
  {
    [Count(nodes, 0), Count(nodes, 1), Count(nodes, 2)]
  }

  /** `[x / cur_iter for x in status_dic.values()]` on three counts. */
  function Row(counts: seq<nat>, t: nat): seq<real>
    requires |counts| == 3 && t > 0
  {
    [counts[0] as real / t as real, counts[1] as real / t as real, counts[2] as real / t as real]
  }

  /** Visit frequencies of the three nodes over the first t steps. */
  function Frequencies(nodes: seq<nat>, t: nat): seq<real>
    requires t > 0
  {
    Row(Tally(nodes), t)
  }

  /** Every step visits one of the three nodes, so the counts add up to the number of steps. */
  lemma {:induction false} CountsAddUp(nodes: seq<nat>)
    requires forall i :: 0 <= i < |nodes| ==> nodes[i] < 3
    ensures Count(nodes, 0) + Count(nodes, 1) + Count(nodes, 2) == |nodes|
    decreases |nodes|
  {
    if |nodes| > 0 {
      CountsAddUp(nodes[..|nodes| - 1]);
    }
  }

  /** A recorded row is a probability distribution over the three nodes. */
  lemma FrequenciesDistribution(nodes: seq<nat>)
    requires |nodes| > 0 && forall i :: 0 <= i < |nodes| ==> nodes[i] < 3
    ensures |Frequencies(nodes, |nodes|)| == 3
    ensures forall k :: 0 <= k < 3 ==> 0.0 <= Frequencies(nodes, |nodes|)[k] <= 1.0
    ensures SumReal(Frequencies(nodes, |nodes|)) == 1.0
  {
    var t := |nodes| as real;
    var c0, c1, c2 := Count(nodes, 0) as real, Count(nodes, 1) as real, Count(nodes, 2) as real;
    CountsAddUp(nodes);
    MatrixPowers.SumThree(c0 / t, c1 / t, c2 / t);
    SumOfFractions(c0, c1, c2, t);
    DivideBy(t, t, 1.0);
    FractionInUnit(c0, t);
    FractionInUnit(c1, t);
    FractionInUnit(c2, t);
  }

  /** The path of a prefix of the draws is the prefix of the path. */
  lemma {:induction false} PathPrefix(start: nat, us: seq<real>, t: nat)
    requires start < 3 && t <= |us|
    ensures Path(start, us[..t]) == Path(start, us)[..t]
    decreases |us|
  {
    if t < |us| {
      var init := us[..|us| - 1];
      PathPrefix(start, init, t);
      assert init[..t] == us[..t];
      assert Path(start, us) == Path(start, init) + [Position(start, us)];
      assert Path(start, us)[..t] == Path(start, init)[..t];
    } else {
      assert us[..t] == us;
    }
  }

  /** Step t + 1 visits the node reached by the first t + 1 draws. */
  lemma PathAt(start: nat, us: seq<real>, t: nat)
    requires start < 3 && t < |us|
    ensures Path(start, us)[t] == Position(start, us[..t + 1])
    ensures Position(start, us[..t + 1]) == Next(Position(start, us[..t]), us[t])
    ensures Path(start, us)[..t + 1] == Path(start, us)[..t] + [Path(start, us)[t]]
  {
    PathPrefix(start, us, t + 1);
    assert us[..t + 1][..t] == us[..t];
  }

  lemma TallyStep(nodes: seq<nat>, node: nat)
    requires node < 3
    ensures Tally(nodes + [node]) == Tally(nodes)[node := Tally(nodes)[node] + 1]
  {
    CountAppend(nodes, 0, node);
    CountAppend(nodes, 1, node);
    CountAppend(nodes, 2, node);
  }

  /** The rows recorded during the first t visits of `nodes` when recording every `size` steps. */
  function Rows(nodes: seq<nat>, t: nat, size: nat): seq<seq<real>>
    requires t <= |nodes| && size > 0
  {
    if t == 0 then []
    else Rows(nodes, t - 1, size) + (if t % size == 0 then [Frequencies(nodes[..t], t)] else [])
  }

  /** After t steps there is one row per multiple of `size`, row j taken after Checkpoint(j, size) steps. */
  lemma {:induction false} RowsLayout(nodes: seq<nat>, t: nat, size: nat)
    requires t <= |nodes| && size > 0
    ensures |Rows(nodes, t, size)| == t / size
    ensures forall j :: 0 <= j < t / size ==>
      Checkpoint(j, size) <= t && Rows(nodes, t, size)[j] == Frequencies(nodes[..Checkpoint(j, size)], Checkpoint(j, size))
  {
    if t > 0 {
      RowsLayout(nodes, t - 1, size);
      RowCountStep(t, size);
      var before := Rows(nodes, t - 1, size);
      var k := (t - 1) / size;
      if t % size == 0 {
        forall j | 0 <= j < t / size
          ensures Checkpoint(j, size) <= t && Rows(nodes, t, size)[j] == Frequencies(nodes[..Checkpoint(j, size)], Checkpoint(j, size))
        {
          if j < k {
            assert Rows(nodes, t, size)[j] == before[j];
          }
        }
      } else {
        assert Rows(nodes, t, size) == before;
      }
    }
  }

  /** After `done` steps the loop's node and counts are those of the path so far. */
  predicate Walked(start: nat, us: seq<real>, done: nat, node: nat, counts: seq<nat>)
    requires start < 3
  {
    done <= |us| && node == Position(start, us[..done]) && counts == Tally(Path(start, us)[..done])
  }

  /** One loop pass: draw the next node and count the visit. */
  lemma WalkStep(start: nat, us: seq<real>, done: nat, node: nat, counts: seq<nat>)
    requires start < 3 && done < |us| && Walked(start, us, done, node, counts)
    ensures node < 3 && |counts| == 3
    ensures Next(node, us[done]) == Path(start, us)[done]
    ensures Walked(start, us, done + 1, Next(node, us[done]), counts[Next(node, us[done]) := counts[Next(node, us[done])] + 1])
    ensures counts[Next(node, us[done]) := counts[Next(node, us[done])] + 1] == Tally(Path(start, us)[..done + 1])
  {
    PathAt(start, us, done);
    TallyStep(Path(start, us)[..done], Next(node, us[done]));
  }

  /** Recording after one more step appends the frequency row exactly at multiples of `leap`. */
  lemma RowsStep(nodes: seq<nat>, done: nat, leap: int, counts: seq<nat>)
    requires done < |nodes| && leap != 0 && counts == Tally(nodes[..done + 1])
    ensures Rows(nodes, done + 1, Abs(leap)) ==
      Rows(nodes, done, Abs(leap)) + (if (done + 1) % leap == 0 then [Row(counts, done + 1)] else [])
  {
    RecordStep(done, leap);
  }

  /**
   What the walk from a valid start node produces: leap = 0 fails at the first
   `cur_iter % leap` once a draw has been made, running out of draws fails,
   and otherwise the rows recorded along the path.
   */
  function Outcome(start: nat, iterations: nat, leap: int, us: seq<real>): Fallible<seq<seq<real>>>
    requires start < 3 && iterations > 0
  {
    if leap == 0 then (if |us| == 0 then Fail(DrawsExhausted) else Fail(ZeroDivision))
    else if |us| < iterations then Fail(DrawsExhausted)
    else Ok(Rows(Path(start, us), iterations, Abs(leap)))
  }

  /** The loop's variables after `done` passes with leap != 0: the walk so far and the rows it recorded. */
  predicate Recorded(start: nat, us: seq<real>, leap: int, done: nat, node: nat, counts: seq<nat>, results: seq<seq<real>>)
    requires start < 3
  {
    leap != 0 && Walked(start, us, done, node, counts) && results == Rows(Path(start, us), done, Abs(leap))
  }

  /**
   One pass of `calculations_handler`'s loop with leap != 0 and its draw present:
   move, count the visit, and at a multiple of leap append the frequency row.
   */
  method Pass(start: nat, us: seq<real>, leap: int, t: nat, node: nat, counts: seq<nat>, results: seq<seq<real>>)
    returns (node': nat, counts': seq<nat>, results': seq<seq<real>>)
    requires start < 3 && 0 < t <= |us| && Recorded(start, us, leap, t - 1, node, counts, results)
    ensures Recorded(start, us, leap, t, node', counts', results')
  {
    WalkStep(start, us, t - 1, node, counts);
    node' := Next(node, us[t - 1]);
    counts' := counts[node' := counts[node'] + 1];
    RowsStep(Path(start, us), t - 1, leap, counts');
    results' := results;
    if t % leap == 0 {
      results' := results + [Row(counts', t)];
    }
  }

  /** The loop of `calculations_handler` from a valid start node. */
  method Run(start: nat, iterations: nat, leap: int, us: seq<real>) returns (r: Fallible<seq<seq<real>>>)
    requires start < 3 && iterations > 0
    ensures r == Outcome(start, iterations, leap, us)
  {
    if leap == 0 {
      // The first pass draws and moves before `cur_iter % leap` raises.
      return if |us| == 0 then Fail(DrawsExhausted) else Fail(ZeroDivision);
    }
    var node := start;
    var counts: seq<nat> := [0, 0, 0];
    var results: seq<seq<real>> := [];
    var t := 1;
    while t <= iterations
      invariant 1 <= t <= iterations + 1
      invariant Recorded(start, us, leap, t - 1, node, counts, results)
    {
      if t - 1 >= |us| {
        return Fail(DrawsExhausted);
      }
      node, counts, results := Pass(start, us, leap, t, node, counts, results);
      t := t + 1;
    }
    return Ok(results);
  }

  /**
   `calculations_handler`: walk `iterations` steps from `x_pos` with one draw
   per step, and every `leap` steps record the visit frequencies so far.
   Row j is the frequency vector after (j + 1) * |leap| steps. The errors are
   the script's own, in the order it meets them: the start row lookup, the
   draw, then `cur_iter % leap` with leap = 0.
   */
  method CalculationsHandler(xPos: int, iterations: int, leap: int, us: seq<real>) returns (r: Fallible<seq<seq<real>>>)
    ensures iterations <= 0 ==> r == Ok([])
    ensures r == Fail(IndexOutOfRange) <==> iterations > 0 && RowIndex(xPos).Fail?
    ensures r == Fail(DrawsExhausted) <==>
      iterations > 0 && RowIndex(xPos).Ok? && |us| < (if leap == 0 then 1 else iterations)
    ensures r == Fail(ZeroDivision) <==> iterations > 0 && RowIndex(xPos).Ok? && leap == 0 && |us| >= 1
    ensures r.Ok? && iterations > 0 ==>
      leap != 0 && |r.value| == iterations / Abs(leap) &&
      forall j :: 0 <= j < |r.value| ==>
        Checkpoint(j, Abs(leap)) <= |us| && r.value[j] == Frequencies(Path(RowIndex(xPos).value, us)[..Checkpoint(j, Abs(leap))], Checkpoint(j, Abs(leap)))
  {
    if iterations <= 0 {
      return Ok([]);
    }
    var row := RowIndex(xPos);
    if row.Fail? {
      return Fail(IndexOutOfRange);
    }
    r := Run(row.value, iterations, leap, us);
    if leap != 0 && |us| >= iterations {
      RowsLayout(Path(row.value, us), iterations, Abs(leap));
    }
  }

  /** Every recorded row of a run is a distribution over the three nodes. */
  lemma RowsAreDistributions(start: nat, us: seq<real>, t: nat)
    requires start < 3 && 0 < t <= |us|
    ensures |Frequencies(Path(start, us)[..t], t)| == 3
    ensures forall k :: 0 <= k < 3 ==> 0.0 <= Frequencies(Path(start, us)[..t], t)[k] <= 1.0
    ensures SumReal(Frequencies(Path(start, us)[..t], t)) == 1.0
  {
    FrequenciesDistribution(Path(start, us)[..t]);
  }

  /** Every row of the base matrix is a positive weight vector summing to 1. */
  lemma BaseRowsPositive()
    ensures forall i, j :: 0 <= i < 3 && 0 <= j < 3 ==> MatrixPowers.BaseMatrix[i][j] > 0.0
    ensures forall i :: 0 <= i < 3 ==> Choices.Total(MatrixPowers.BaseMatrix[i]) == 1.0
  {
    MatrixPowers.BaseMatrixStochastic();
    Choices.TotalThree(0.64, 0.32, 0.04);
    Choices.TotalThree(0.4, 0.5, 0.1);
    Choices.TotalThree(0.25, 0.5, 0.25);
  }

  /** A drawn node always has positive weight in the current row, so every transition is possible. */
  lemma NextHasWeight(node: nat, u: real)
    requires node < 3 && Choices.Uniform(u)
    ensures MatrixPowers.BaseMatrix[node][Next(node, u)] > 0.0
  {
    BaseRowsPositive();
    var row := MatrixPowers.BaseMatrix[node];
    assert Choices.NonNegative(row);
    Choices.ChooseHasWeight(row, u);
  }
}
