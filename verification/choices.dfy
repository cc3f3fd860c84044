/**
 Python's `random.choices(population, weights)[0]` with the uniform draw
 `u = random.random()` made an explicit input. CPython accumulates the weights,
 multiplies u by their total and bisects the cumulative list (searching all but
 the last slot), so the chosen index is the first one whose cumulative weight
 exceeds `u * total`, or the last index when none does.
 */
module Choices {
  import opened Common

  /**
   Index picked when the scaled draw is `u * total` and the cumulative weight
   before `weights` is `before`: the first slot whose cumulative weight exceeds
   the scaled draw, or the last slot.
   */
  function PickFrom(weights: seq<real>, u: real, total: real, before: real): (i: nat)
    requires |weights| > 0
    ensures i < |weights|
    decreases |weights|
  {
    if |weights| == 1 || u * total < before + weights[0] then 0
    else 1 + PickFrom(weights[1..], u, total, before + weights[0])
  }

  /** Total of the weights, first to last (CPython's `cum_weights[-1]`). */
  function Total(weights: seq<real>): real
    decreases |weights|
  {
    if |weights| == 0 then 0.0 else weights[0] + Total(weights[1..])
  }

  /** Index returned by `random.choices(range(len(weights)), weights)` for the draw `u`. */
  function Choose(weights: seq<real>, u: real): (i: nat)
    requires |weights| > 0
    ensures i < |weights|
  {
    PickFrom(weights, u, Total(weights), 0.0)
  }

  /** A legal output of `random.random()`. */
  predicate Uniform(u: real)
  {
    0.0 <= u < 1.0
  }

  predicate NonNegative(weights: seq<real>)
  {
    forall i :: 0 <= i < |weights| ==> weights[i] >= 0.0
  }

  lemma {:induction false} PickFromHasWeight(weights: seq<real>, u: real, total: real, before: real)
    requires |weights| > 0 && NonNegative(weights)
    requires before <= u * total < before + Total(weights)
    ensures weights[PickFrom(weights, u, total, before)] > 0.0
    decreases |weights|
  {
    if |weights| == 1 {
      assert Total(weights[1..]) == 0.0;
    } else if u * total < before + weights[0] {
    } else {
      var rest := weights[1..];
      assert NonNegative(rest) by {
        forall i | 0 <= i < |rest| ensures rest[i] >= 0.0 {
          assert rest[i] == weights[i + 1];
        }
      }
      PickFromHasWeight(rest, u, total, before + weights[0]);
      assert weights[PickFrom(weights, u, total, before)] == rest[PickFrom(rest, u, total, before + weights[0])];
    }
  }

  /**
   A draw never selects an outcome of weight zero: with weights [p, q] and p = 0
   the first outcome never happens, and with q = 0 the second never does.
   */
  lemma ChooseHasWeight(weights: seq<real>, u: real)
    requires |weights| > 0 && NonNegative(weights) && Total(weights) > 0.0
    requires Uniform(u)
    ensures weights[Choose(weights, u)] > 0.0
  {
    var t := Total(weights);
    ScaledDrawBelow(u, t);
    ChooseHasWeightAt(weights, u, t);
  }

  lemma ChooseHasWeightAt(weights: seq<real>, u: real, t: real)
    requires |weights| > 0 && NonNegative(weights) && t == Total(weights)
    requires 0.0 <= u * t < t
    ensures weights[Choose(weights, u)] > 0.0
  {
    PickFromHasWeight(weights, u, t, 0.0);
  }

  lemma ScaledDrawBelow(u: real, t: real)
    requires Uniform(u) && t > 0.0
    ensures 0.0 <= u * t < t
  {
    assert t - u * t == (1.0 - u) * t;
    assert (1.0 - u) * t > 0.0;
  }

  /** With two outcomes the draw picks the first exactly when u * total < first weight. */
  lemma ChooseTwo(w0: real, w1: real, u: real)
    ensures Choose([w0, w1], u) == 0 <==> u * (w0 + w1) < w0
  {
    TotalTwo(w0, w1);
  }

  /**
   `Choose` for two weights that add up to one, where scaling the draw by the
   total changes nothing: the first index exactly when u is below the first weight.
   */
  function ChooseOfTwo(w: seq<real>, u: real): (i: nat)
    requires |w| == 2
    ensures i < 2
  {
    if u < w[0] then 0 else 1
  }

  lemma ChooseOfTwoAgrees(w: seq<real>, u: real)
    requires |w| == 2 && w[0] + w[1] == 1.0
    ensures ChooseOfTwo(w, u) == Choose(w, u)
  {
    assert w == [w[0], w[1]];
    ChooseTwo(w[0], w[1], u);
  }

  lemma TotalTwo(w0: real, w1: real)
    ensures Total([w0, w1]) == w0 + w1
  {
    assert [w0, w1][1..] == [w1];
    assert [w1][1..] == [];
    assert Total([w1]) == w1 + Total([w1][1..]);
    assert Total([w0, w1]) == w0 + Total([w0, w1][1..]);
  }

  lemma TotalThree(w0: real, w1: real, w2: real)
    ensures Total([w0, w1, w2]) == w0 + w1 + w2
  {
    assert [w0, w1, w2][1..] == [w1, w2];
    TotalTwo(w1, w2);
    assert Total([w0, w1, w2]) == w0 + Total([w0, w1, w2][1..]);
  }
}
