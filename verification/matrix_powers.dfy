/**
 Powers of a Markov transition matrix, multiplied from scratch, and the loop
 that multiplies by the base matrix until the largest entry stops moving by
 more than a convergence criterion. Matrices are sequences of rows of exact reals.
 */
module MatrixPowers {
  import opened Common

  type Matrix = seq<seq<real>>

  /** `m` has `rows` rows of `cols` entries each. */
  predicate IsMatrix(m: Matrix, rows: nat, cols: nat)
  {
    |m| == rows && forall i :: 0 <= i < rows ==> |m[i]| == cols
  }

  /** `a` (M x K) and `b` (K x N) can be multiplied: b has a first row to size the result by. */
  predicate Multipliable(a: Matrix, b: Matrix)
  {
    |b| > 0 && IsMatrix(b, |b|, |b[0]|) && IsMatrix(a, |a|, |b|)
  }

  /** The first n terms of row i of `a` times column j of `b`: sum of a[i][k] * b[k][j] for k < n. */
  function DotUpTo(a: Matrix, b: Matrix, i: nat, j: nat, n: nat): real
    requires Multipliable(a, b) && i < |a| && j < |b[0]| && n <= |b|
  {
    if n == 0 then 0.0 else DotUpTo(a, b, i, j, n - 1) + a[i][n - 1] * b[n - 1][j]
  }

  /** Entry (i, j) of the product: the full sum over k. */
  function Entry(a: Matrix, b: Matrix, i: nat, j: nat): real
    requires Multipliable(a, b) && i < |a| && j < |b[0]|
  {
    DotUpTo(a, b, i, j, |b|)
  }

  /** The matrix product as a value. */
  function Product(a: Matrix, b: Matrix): (r: Matrix)
    requires Multipliable(a, b)
    ensures IsMatrix(r, |a|, |b[0]|)
  {
    seq(|a|, i requires 0 <= i < |a| => seq(|b[0]|, j requires 0 <= j < |b[0]| => Entry(a, b, i, j)))
  }

  /**
   `multiply_matrix_by_matrix`: an (M x K) times (K x N) product has shape
   M x N and entry (i, j) is the sum over k of first[i][k] * second[k][j],
   accumulated in the order of the triple loop.
   */
  method Multiply(a: Matrix, b: Matrix) returns (r: Matrix)
    requires Multipliable(a, b)
    ensures IsMatrix(r, |a|, |b[0]|)
    ensures forall i, j :: 0 <= i < |a| && 0 <= j < |b[0]| ==> r[i][j] == Entry(a, b, i, j)
    ensures r == Product(a, b)
  {
    var cols := |b[0]|;
    r := [];
    var i := 0;
    while i < |a|
      invariant 0 <= i <= |a|
      invariant |r| == i
      invariant forall i' :: 0 <= i' < i ==> |r[i']| == cols
      invariant forall i', j :: 0 <= i' < i && 0 <= j < cols ==> r[i'][j] == Entry(a, b, i', j)
    {
      var row := [];
      var j := 0;
      while j < cols
        invariant 0 <= j <= cols
        invariant |row| == j
        invariant forall j' :: 0 <= j' < j ==> row[j'] == Entry(a, b, i, j')
      {
        var acc := 0.0;
        var k := 0;
        while k < |b|
          invariant 0 <= k <= |b|
          invariant acc == DotUpTo(a, b, i, j, k)
        {
          acc := acc + a[i][k] * b[k][j];
          k := k + 1;
        }
        row := row + [acc];
        j := j + 1;
      }
      r := r + [row];
      i := i + 1;
    }
    SameMatrix(r, Product(a, b), |a|, |b[0]|);
  }

  /** Two matrices of the same shape with the same entries are equal. */
  lemma SameMatrix(m: Matrix, n: Matrix, rows: nat, cols: nat)
    requires IsMatrix(m, rows, cols) && IsMatrix(n, rows, cols)
    requires forall i, j :: 0 <= i < rows && 0 <= j < cols ==> m[i][j] == n[i][j]
    ensures m == n
  {
    forall i | 0 <= i < rows ensures m[i] == n[i] {
      assert forall j :: 0 <= j < cols ==> m[i][j] == n[i][j];
    }
  }

  /** A square n x n matrix with n > 0. */
  predicate Square(m: Matrix)
  {
    |m| > 0 && IsMatrix(m, |m|, |m|)
  }

  /** P^k for k >= 1, built as the loop builds it: P^(k+1) = P^k * P. */
  function Power(p: Matrix, k: nat): (r: Matrix)
    requires Square(p) && k >= 1
    ensures IsMatrix(r, |p|, |p|)
  {
    if k == 1 then p else Product(Power(p, k - 1), p)
  }

  /** Row-major flattening: `[x for sublist in m for x in sublist]`. */
  function Flatten(m: Matrix): seq<real>
  {
    if |m| == 0 then [] else Flatten(m[..|m| - 1]) + m[|m| - 1]
  }

  /** The flattening holds exactly the matrix's entries. */
  lemma {:induction false} FlattenMembers(m: Matrix)
    ensures forall i, j :: 0 <= i < |m| && 0 <= j < |m[i]| ==> m[i][j] in Flatten(m)
    ensures forall x :: x in Flatten(m) ==> exists i, j :: 0 <= i < |m| && 0 <= j < |m[i]| && m[i][j] == x
    decreases |m|
  {
    if |m| > 0 {
      var init := m[..|m| - 1];
      var last := m[|m| - 1];
      FlattenMembers(init);
      assert forall i :: 0 <= i < |init| ==> init[i] == m[i];
      assert forall x :: x in last ==> exists j :: 0 <= j < |last| && last[j] == x;
    }
  }

  /** For a rows x cols matrix the flattening has rows * cols entries. */
  lemma {:induction false} FlattenLength(m: Matrix, rows: nat, cols: nat)
    requires IsMatrix(m, rows, cols)
    ensures |Flatten(m)| == rows * cols
    decreases rows
  {
    if rows > 0 {
      FlattenLength(m[..rows - 1], rows - 1, cols);
      assert (rows - 1) * cols + cols == rows * cols;
    }
  }

  /** Row-major order: entry (i, j) of a rows x cols matrix sits at position i * cols + j of the flattening. */
  lemma {:induction false} FlattenAt(m: Matrix, rows: nat, cols: nat, i: nat, j: nat)
    requires IsMatrix(m, rows, cols) && i < rows && j < cols
    ensures |Flatten(m)| == rows * cols
    ensures i * cols + j < rows * cols && Flatten(m)[i * cols + j] == m[i][j]
    decreases rows
  {
    var init := m[..rows - 1];
    var k := i * cols + j;
    FlattenLength(init, rows - 1, cols);
    FlattenLength(m, rows, cols);
    assert Flatten(m) == Flatten(init) + m[rows - 1];
    LayoutBound(i, j, rows, cols);
    if i < rows - 1 {
      FlattenAt(init, rows - 1, cols, i, j);
      LayoutBound(i, j, rows - 1, cols);
      assert Flatten(m)[k] == Flatten(init)[k];
    } else {
      assert k == (rows - 1) * cols + j;
    }
  }

  lemma LayoutBound(i: nat, j: nat, rows: nat, cols: nat)
    requires i < rows && j < cols
    ensures i * cols + j < rows * cols
  {
    assert (rows - i) * cols >= cols by {
      MulAtLeast(rows - i, cols);
    }
    assert rows * cols == i * cols + (rows - i) * cols;
  }

  /** The largest of a non-empty sequence of reals. */
  function MaxOf(s: seq<real>): (r: real)
    requires |s| > 0
    ensures r in s
    ensures forall i :: 0 <= i < |s| ==> s[i] <= r
  {
    if |s| == 1 then s[0]
    else
      var rest := MaxOf(s[1..]);
      assert forall i :: 1 <= i < |s| ==> s[i] == s[1..][i - 1];
      if s[0] >= rest then s[0] else rest
  }

  /** `highest`: the largest entry of a matrix with at least one entry. */
  function Highest(m: Matrix): real
    requires |m| > 0 && |m[0]| > 0
  {
    FlattenMembers(m);
    assert m[0][0] in Flatten(m);
    MaxOf(Flatten(m))
  }

  /** The largest entry is an entry of the matrix and no entry exceeds it. */
  lemma HighestIsMax(m: Matrix)
    requires |m| > 0 && |m[0]| > 0
    ensures exists i, j :: 0 <= i < |m| && 0 <= j < |m[i]| && m[i][j] == Highest(m)
    ensures forall i, j :: 0 <= i < |m| && 0 <= j < |m[i]| ==> m[i][j] <= Highest(m)
  {
    FlattenMembers(m);
    assert m[0][0] in Flatten(m);
  }

  function AbsReal(x: real): real
  {
    if x < 0.0 then -x else x
  }

  /** The loop's stopping test after multiplying P^k by P: the largest entry moved by less than the criterion. */
  predicate Settled(p: Matrix, k: nat, criterion: real)
    requires Square(p) && k >= 1
  {
    Moved(Power(p, k), Power(p, k + 1)) < criterion
  }

  /** How far the largest entry moved from one power to the next. */
  function Moved(prev: Matrix, next: Matrix): real
    requires |prev| > 0 && |prev[0]| > 0 && |next| > 0 && |next[0]| > 0
  {
    AbsReal(Highest(prev) - Highest(next))
  }

  /** One multiplication by the base matrix: P^k becomes P^(k+1). */
  method NextPower(p: Matrix, prev: Matrix, ghost k: nat) returns (next: Matrix)
    requires Square(p) && k >= 1 && prev == Power(p, k)
    ensures next == Power(p, k + 1)
  {
    next := Multiply(prev, p);
  }

  /** P^1 .. P^n, each flattened, in the order the loop records them. */
  function History(p: Matrix, n: nat): seq<seq<real>>
    requires Square(p)
  {
    if n == 0 then [] else History(p, n - 1) + [Flatten(Power(p, n))]
  }

  /** Entry i of the recorded history is P^(i+1) flattened. */
  lemma {:induction false} HistoryEntries(p: Matrix, n: nat)
    requires Square(p)
    ensures |History(p, n)| == n
    ensures forall i :: 0 <= i < n ==> History(p, n)[i] == Flatten(Power(p, i + 1))
  {
    if n > 0 {
      HistoryEntries(p, n - 1);
    }
  }

  /** The stopping test failed for every counter from 1 up to n - 1. */
  predicate UnsettledBelow(p: Matrix, criterion: real, n: nat)
    requires Square(p)
  {
    forall k :: 1 <= k < n ==> !Settled(p, k, criterion)
  }

  lemma UnsettledStep(p: Matrix, criterion: real, n: nat)
    requires Square(p) && n >= 1 && UnsettledBelow(p, criterion, n) && !Settled(p, n, criterion)
    ensures UnsettledBelow(p, criterion, n + 1)
  {
  }

  /** What `calculation_handler` returns: the flattened powers and the final counter. */
  datatype Converged = Converged(history: seq<seq<real>>, counter: nat)

  /**
   `calculation_handler` on the base matrix `p`, with at most `fuel` passes of
   the `while True` loop: row i of the history is P^(i+1) flattened, the
   counter is the first k whose largest entry moved by less than the criterion
   from P^k to P^(k+1), and the history holds P^1 .. P^(counter+1).
   */
  method Converge(p: Matrix, criterion: real, fuel: nat) returns (r: Fallible<Converged>)
    requires Square(p)
    ensures r.Ok? ==> r.value.counter >= 1 && r.value.history == History(p, r.value.counter + 1)
    ensures r.Ok? ==> Settled(p, r.value.counter, criterion)
    ensures r.Ok? ==> forall k :: 1 <= k < r.value.counter ==> !Settled(p, k, criterion)
    ensures r.Fail? ==> r.error == OutOfFuel && forall k :: 1 <= k <= fuel ==> !Settled(p, k, criterion)
  {
    var result: seq<seq<real>> := [];
    var next := p;
    var counter := 1;
    while counter <= fuel
      invariant 1 <= counter <= fuel + 1
      invariant next == Power(p, counter)
      invariant result == History(p, counter - 1)
      invariant UnsettledBelow(p, criterion, counter)
    {
      var prev := next;
      next := NextPower(p, next, counter);
      result := result + [Flatten(prev)];
      if Moved(prev, next) < criterion {
        result := result + [Flatten(next)];
        return Ok(Converged(result, counter));
      }
      UnsettledStep(p, criterion, counter);
      counter := counter + 1;
    }
    return Fail(OutOfFuel);
  }

  // ---------------------------------------------------------------------------
  // Stochastic matrices

  /** Every entry is non-negative and every row sums to 1. */
  predicate Stochastic(m: Matrix)
  {
    forall i :: 0 <= i < |m| ==> SumReal(m[i]) == 1.0 && forall j :: 0 <= j < |m[i]| ==> m[i][j] >= 0.0
  }

  /** The base matrix of `calculation_handler`. */
  const BaseMatrix: Matrix := [[0.64, 0.32, 0.04], [0.4, 0.5, 0.1], [0.25, 0.5, 0.25]]

  lemma SumThree(x: real, y: real, z: real)
    ensures SumReal([x, y, z]) == x + y + z
  {
    assert [x, y, z] == [x, y] + [z];
    SumRealAppend([x, y], z);
    assert [x, y] == [x] + [y];
    SumRealAppend([x], y);
    assert [x] == [] + [x];
    SumRealAppend([], x);
  }

  /** The base matrix is a square transition matrix with positive entries. */
  lemma BaseMatrixStochastic()
    ensures Square(BaseMatrix) && Stochastic(BaseMatrix)
    ensures forall i, j :: 0 <= i < 3 && 0 <= j < 3 ==> BaseMatrix[i][j] > 0.0
  {
    SumThree(0.64, 0.32, 0.04);
    SumThree(0.4, 0.5, 0.1);
    SumThree(0.25, 0.5, 0.25);
  }

  /** Sum over the first n columns of row i of a product. */
  function RowSumUpTo(a: Matrix, b: Matrix, i: nat, n: nat, k: nat): real
    requires Multipliable(a, b) && i < |a| && n <= |b[0]| && k <= |b|
  {
    if n == 0 then 0.0 else RowSumUpTo(a, b, i, n - 1, k) + DotUpTo(a, b, i, n - 1, k)
  }

  /** Swapping the order of summation: the first n columns of row i sum to sum_k a[i][k] * (sum of b[k][..n]). */
  lemma {:induction false} RowSumSwap(a: Matrix, b: Matrix, i: nat, n: nat, k: nat)
    requires Multipliable(a, b) && i < |a| && n <= |b[0]| && k < |b|
    ensures RowSumUpTo(a, b, i, n, k + 1) == RowSumUpTo(a, b, i, n, k) + a[i][k] * SumReal(b[k][..n])
    decreases n
  {
    if n > 0 {
      RowSumSwap(a, b, i, n - 1, k);
      assert b[k][..n] == b[k][..n - 1] + [b[k][n - 1]];
      SumRealAppend(b[k][..n - 1], b[k][n - 1]);
      var c := a[i][k];
      assert c * SumReal(b[k][..n]) == c * SumReal(b[k][..n - 1]) + c * b[k][n - 1];
    }
  }

  /** Row i of a product with stochastic rows in `b`: the first k terms contribute the sum of a[i][..k]. */
  lemma {:induction false} RowSumPartial(a: Matrix, b: Matrix, i: nat, k: nat)
    requires Multipliable(a, b) && i < |a| && k <= |b| && Stochastic(b)
    ensures RowSumUpTo(a, b, i, |b[0]|, k) == SumReal(a[i][..k])
    decreases k
  {
    var n := |b[0]|;
    if k == 0 {
      ZeroRow(a, b, i, n);
    } else {
      RowSumPartial(a, b, i, k - 1);
      RowSumSwap(a, b, i, n, k - 1);
      assert b[k - 1][..n] == b[k - 1];
      assert a[i][..k] == a[i][..k - 1] + [a[i][k - 1]];
      SumRealAppend(a[i][..k - 1], a[i][k - 1]);
    }
  }

  lemma {:induction false} ZeroRow(a: Matrix, b: Matrix, i: nat, n: nat)
    requires Multipliable(a, b) && i < |a| && n <= |b[0]|
    ensures RowSumUpTo(a, b, i, n, 0) == 0.0
    decreases n
  {
    if n > 0 {
      ZeroRow(a, b, i, n - 1);
    }
  }

  /** The row sum of a product row, as the column-by-column sum. */
  lemma {:induction false} ProductRowSum(a: Matrix, b: Matrix, i: nat, n: nat)
    requires Multipliable(a, b) && i < |a| && n <= |b[0]|
    ensures SumReal(Product(a, b)[i][..n]) == RowSumUpTo(a, b, i, n, |b|)
    decreases n
  {
    if n > 0 {
      ProductRowSum(a, b, i, n - 1);
      var row := Product(a, b)[i];
      assert row[..n] == row[..n - 1] + [row[n - 1]];
      SumRealAppend(row[..n - 1], row[n - 1]);
    }
  }

  lemma {:induction false} DotNonNegative(a: Matrix, b: Matrix, i: nat, j: nat, n: nat)
    requires Multipliable(a, b) && i < |a| && j < |b[0]| && n <= |b|
    requires Stochastic(a) && Stochastic(b)
    ensures DotUpTo(a, b, i, j, n) >= 0.0
    decreases n
  {
    if n > 0 {
      DotNonNegative(a, b, i, j, n - 1);
      assert a[i][n - 1] >= 0.0 && b[n - 1][j] >= 0.0;
    }
  }

  /** The product of two stochastic matrices is stochastic. */
  lemma ProductStochastic(a: Matrix, b: Matrix)
    requires Multipliable(a, b) && Stochastic(a) && Stochastic(b)
    ensures Stochastic(Product(a, b))
  {
    var r := Product(a, b);
    forall i | 0 <= i < |r|
      ensures SumReal(r[i]) == 1.0 && forall j :: 0 <= j < |r[i]| ==> r[i][j] >= 0.0
    {
      ProductRowSum(a, b, i, |b[0]|);
      assert r[i][..|b[0]|] == r[i];
      RowSumPartial(a, b, i, |b|);
      assert a[i][..|b|] == a[i];
      forall j | 0 <= j < |r[i]| ensures r[i][j] >= 0.0 {
        DotNonNegative(a, b, i, j, |b|);
      }
    }
  }

  /** Every power of a stochastic matrix is stochastic: its rows still sum to 1. */
  lemma {:induction false} PowerStochastic(p: Matrix, k: nat)
    requires Square(p) && Stochastic(p) && k >= 1
    ensures Stochastic(Power(p, k))
    decreases k
  {
    if k > 1 {
      PowerStochastic(p, k - 1);
      ProductStochastic(Power(p, k - 1), p);
    }
  }

  /** Every flattened power of the base matrix holds 9 probabilities. */
  lemma BasePowersAreProbabilities(k: nat)
    requires k >= 1
    ensures |Flatten(Power(BaseMatrix, k))| == 9
    ensures forall x :: x in Flatten(Power(BaseMatrix, k)) ==> 0.0 <= x <= 1.0
  {
    BaseMatrixStochastic();
    PowerStochastic(BaseMatrix, k);
    FlattenMembers(Power(BaseMatrix, k));
    var m := Power(BaseMatrix, k);
    FlattenLength(m, 3, 3);
    forall i, j | 0 <= i < 3 && 0 <= j < 3 ensures m[i][j] <= 1.0 {
      EntryAtMostRowSum(m[i], j);
    }
  }

  /** In a row of non-negative entries, no entry exceeds the row sum. */
  lemma {:induction false} EntryAtMostRowSum(row: seq<real>, j: nat)
    requires j < |row| && forall t :: 0 <= t < |row| ==> row[t] >= 0.0
    ensures row[j] <= SumReal(row)
    decreases |row|
  {
    var init := row[..|row| - 1];
    assert forall t :: 0 <= t < |init| ==> init[t] == row[t];
    SumNonNegative(init);
    if j < |row| - 1 {
      EntryAtMostRowSum(init, j);
    }
  }

  lemma {:induction false} SumNonNegative(row: seq<real>)
    requires forall t :: 0 <= t < |row| ==> row[t] >= 0.0
    ensures SumReal(row) >= 0.0
    decreases |row|
  {
    if |row| > 0 {
      var init := row[..|row| - 1];
      assert forall t :: 0 <= t < |init| ==> init[t] == row[t];
      SumNonNegative(init);
    }
  }
}
