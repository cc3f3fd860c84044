/**
 Shared vocabulary of the exercise models: the Python exceptions the scripts can
 raise, a Result-like wrapper for them, and small arithmetic helpers over
 sequences (sums, counts, integer powers of reals).
 */
module Common {

  /** The failures a modelled script can end in. */
  datatype Error =
    | ZeroDivision    // Python's ZeroDivisionError (`/`, `%` or `**` by zero)
    | KeyMissing      // Python's KeyError on a dict lookup
    | IndexOutOfRange // Python's IndexError on a list index
    | BadValue        // Python's ValueError (a `range` step of 0, `max` of an empty list, `randrange(0)`)
    | DrawsExhausted  // the explicit random draws ran out before the process ended
    | OutOfFuel       // a deterministic loop did not stop within the model's iteration bound

  /** Either the value a script computes or the exception it raises. */
  datatype Fallible<+T> = Ok(value: T) | Fail(error: Error)

  /**
   The values of a sequence of computations run in order, or the first
   exception: a Python loop that appends one result per step aborts at the
   first step that raises.
   */
  function AllOk<T>(rs: seq<Fallible<T>>): (r: Fallible<seq<T>>)
    ensures r.Ok? <==> forall i :: 0 <= i < |rs| ==> rs[i].Ok?
    ensures r.Ok? ==> |r.value| == |rs| && forall i :: 0 <= i < |rs| ==> rs[i] == Ok(r.value[i])
    ensures r.Fail? ==> exists i :: 0 <= i < |rs| && rs[i] == Fail(r.error) && forall j :: 0 <= j < i ==> rs[j].Ok?
    decreases |rs|
  {
    if |rs| == 0 then Ok([])
    else if rs[0].Fail? then Fail(rs[0].error)
    else
      var tail := AllOk(rs[1..]);
      assert forall i :: 0 < i < |rs| ==> rs[i] == rs[1..][i - 1];
      match tail
      case Fail(e) =>
        var i :| 0 <= i < |rs| - 1 && rs[1..][i] == Fail(e) && forall j :: 0 <= j < i ==> rs[1..][j].Ok?;
        assert rs[i + 1] == Fail(e);
        Fail(e)
      case Ok(vs) => Ok([rs[0].value] + vs)
  }

  /** Sum of a sequence of integers. */
  function Sum(s: seq<int>): int
  {
    if |s| == 0 then 0 else Sum(s[..|s| - 1]) + s[|s| - 1]
  }

  /** Python's `list.pop(i)`: the list without its i-th element; putting it back at i restores the list. */
  function RemoveAt<T>(s: seq<T>, i: nat): (r: seq<T>)
    requires i < |s|
    ensures |r| == |s| - 1
    ensures s == r[..i] + [s[i]] + r[i..]
  {
    s[..i] + s[i + 1..]
  }

  /** Four copies of each element, element after element: a deck built as `['2'] * 4 + ['3'] * 4 + ...`. */
  function FourOfEach<T>(s: seq<T>): (d: seq<T>)
    ensures |d| == 4 * |s|
  {
    if |s| == 0 then [] else FourOfEach(s[..|s| - 1]) + [s[|s| - 1], s[|s| - 1], s[|s| - 1], s[|s| - 1]]
  }

  /** Sum of a sequence of reals. */
  function SumReal(s: seq<real>): real
  {
    if |s| == 0 then 0.0 else SumReal(s[..|s| - 1]) + s[|s| - 1]
  }

  /** Number of occurrences of `x` in `s`. */
  function Count<T(==)>(s: seq<T>, x: T): (n: nat)
    ensures n <= |s|
  {
    if |s| == 0 then 0 else Count(s[..|s| - 1], x) + (if s[|s| - 1] == x then 1 else 0)
  }

  /** Number of `true` entries of `s`. */
  function CountTrue(s: seq<bool>): (n: nat)
    ensures n <= |s|
  {
    Count(s, true)
  }

  /** `x` raised to the natural power `n` (Python's `x ** n` on a float and an int). */
  function Pow(x: real, n: nat): real
  {
    if n == 0 then 1.0 else x * Pow(x, n - 1)
  }

  /** Absolute value of an integer. */
  function Abs(x: int): nat
  {
    if x < 0 then -x else x
  }

  /**
   Python's `round(x)` on an exact real: the nearest integer, and the even one
   of the two when x lies halfway between them.
   */
  function Round(x: real): (r: int)
    ensures -0.5 <= r as real - x <= 0.5
    ensures r as real - x == 0.5 || x - r as real == 0.5 ==> r % 2 == 0
  {
    var f := x.Floor;
    var d := x - f as real;
    if d < 0.5 then f else if d > 0.5 then f + 1 else if f % 2 == 0 then f else f + 1
  }

  /** `round(x)` is 0 exactly on [-0.5, 0.5]: the ends are halfway cases whose even neighbour is 0. */
  lemma RoundZero(x: real)
    ensures Round(x) == 0 <==> -0.5 <= x <= 0.5
  {
    var r := Round(x);
    if -0.5 <= x <= 0.5 && r != 0 {
      assert false;
    }
  }

  /** `round(n / d)` is 0 exactly when n is at most half of d in magnitude. */
  lemma RoundQuotientZero(n: int, d: int)
    requires d != 0
    ensures Round(n as real / d as real) == 0 <==> 2 * Abs(n) <= Abs(d)
  {
    var x, m := n as real, Abs(d) as real;
    RoundZero(x / d as real);
    if d > 0 {
      QuotientHalf(x, m);
    } else {
      NegateQuotient(x, d as real);
      QuotientHalf(-x, m);
    }
  }

  /** Negating both sides of a quotient keeps its value. */
  lemma NegateQuotient(x: real, d: real)
    requires d != 0.0
    ensures x / d == (-x) / (-d)
  {
    var q := (-x) / (-d);
    assert q * (-d) == -x;
    DivideBy(x, d, q);
  }

  /** For a positive m, x / m lies in [-0.5, 0.5] exactly when x lies in [-m/2, m/2]. */
  lemma QuotientHalf(x: real, m: real)
    requires m > 0.0
    ensures -0.5 <= x / m <= 0.5 <==> -m <= 2.0 * x <= m
  {
    var q := x / m;
    assert q * m == x;
    if q > 0.5 {
      assert x - 0.5 * m == (q - 0.5) * m > 0.0;
    } else if q < -0.5 {
      assert -0.5 * m - x == (-0.5 - q) * m > 0.0;
    } else {
      assert 0.5 * m - x == (0.5 - q) * m >= 0.0;
      assert x + 0.5 * m == (q + 0.5) * m >= 0.0;
    }
  }

  /** Python's `min` on two integers. */
  function Min(x: int, y: int): int
  {
    if x <= y then x else y
  }

  /** Python's `max` on two integers. */
  function Max(x: int, y: int): int
  {
    if x >= y then x else y
  }

  lemma SumAppend(s: seq<int>, x: int)
    ensures Sum(s + [x]) == Sum(s) + x
  {
    assert (s + [x])[..|s|] == s;
  }

  lemma SumRealAppend(s: seq<real>, x: real)
    ensures SumReal(s + [x]) == SumReal(s) + x
  {
    assert (s + [x])[..|s|] == s;
  }

  lemma CountAppend<T>(s: seq<T>, x: T, y: T)
    ensures Count(s + [y], x) == Count(s, x) + (if y == x then 1 else 0)
  {
    assert (s + [y])[..|s|] == s;
  }

  lemma {:induction false} SumConcat(s: seq<int>, t: seq<int>)
    ensures Sum(s + t) == Sum(s) + Sum(t)
    decreases |t|
  {
    if |t| == 0 {
      assert s + t == s;
    } else {
      var t' := t[..|t| - 1];
      assert s + t == (s + t') + [t[|t| - 1]];
      SumAppend(s + t', t[|t| - 1]);
      SumConcat(s, t');
    }
  }

  /** `x` occurs in `s` exactly when it is counted there. */
  lemma {:induction false} CountPositive<T>(s: seq<T>, x: T)
    ensures Count(s, x) > 0 <==> x in s
  {
    if |s| > 0 {
      CountPositive(s[..|s| - 1], x);
      assert s == s[..|s| - 1] + [s[|s| - 1]];
    }
  }

  lemma {:induction false} CountConcat<T>(s: seq<T>, t: seq<T>, x: T)
    ensures Count(s + t, x) == Count(s, x) + Count(t, x)
    decreases |t|
  {
    if |t| == 0 {
      assert s + t == s;
    } else {
      var t' := t[..|t| - 1];
      assert s + t == (s + t') + [t[|t| - 1]];
      CountAppend(s + t', x, t[|t| - 1]);
      CountConcat(s, t', x);
    }
  }

  lemma FourCopies<T>(x: T, c: T)
    ensures Count([x, x, x, x], c) == 4 * Count([x], c)
  {
    CountAppend([], c, x);
    CountAppend([x], c, x);
    CountAppend([x, x], c, x);
    CountAppend([x, x, x], c, x);
    assert [] + [x] == [x] && [x] + [x] == [x, x] && [x, x] + [x] == [x, x, x] && [x, x, x] + [x] == [x, x, x, x];
  }

  /** Each element occurs four times as often in `FourOfEach(s)` as in `s`, and nothing else occurs. */
  lemma {:induction false} FourOfEachCounts<T>(s: seq<T>, c: T)
    ensures Count(FourOfEach(s), c) == 4 * Count(s, c)
    ensures c in FourOfEach(s) <==> c in s
  {
    if |s| > 0 {
      var last := s[|s| - 1];
      var init := s[..|s| - 1];
      FourOfEachCounts(init, c);
      CountConcat(FourOfEach(init), [last, last, last, last], c);
      CountConcat(init, [last], c);
      FourCopies(last, c);
      assert s == init + [last];
    }
  }

  /** In a sequence without repeats each element occurs once. */
  lemma {:induction false} CountDistinct<T>(s: seq<T>, c: T)
    requires forall i, j :: 0 <= i < j < |s| ==> s[i] != s[j]
    ensures Count(s, c) == (if c in s then 1 else 0)
  {
    if |s| > 0 {
      CountDistinct(s[..|s| - 1], c);
      assert s == s[..|s| - 1] + [s[|s| - 1]];
    }
  }

  /**
   How many of 1..t are multiples of `leap` grows by one exactly at a multiple:
   this is why a loop that records every `leap` iterations records t / leap rows.
   */
  lemma MultiplesStep(t: nat, leap: nat)
    requires leap > 0
    ensures (t + 1) / leap == t / leap + (if (t + 1) % leap == 0 then 1 else 0)
  {
    var q := t / leap;
    var m := t % leap;
    assert t == q * leap + m;
    if m == leap - 1 {
      assert t + 1 == (q + 1) * leap;
      DivModUnique(t + 1, leap, q + 1, 0);
    } else {
      assert t + 1 == q * leap + (m + 1);
      DivModUnique(t + 1, leap, q, m + 1);
    }
  }

  /**
   The step after which row j of a recorder that writes every `size` steps is
   written: the (j + 1)-th multiple of `size`.
   */
  function Checkpoint(j: nat, size: nat): nat
  {
    (j + 1) * size
  }

  /** Reaching step t adds a row exactly when t is a multiple of `size`, and that row is number t / size. */
  lemma RowCountStep(t: nat, size: nat)
    requires t > 0 && size > 0
    ensures t % size == 0 ==> t / size == (t - 1) / size + 1 && Checkpoint((t - 1) / size, size) == t
    ensures t % size != 0 ==> t / size == (t - 1) / size
  {
    MultiplesStep(t - 1, size);
    assert (t / size) * size + t % size == t;
  }

  /**
   Python's `t % leap == 0` tests divisibility, so a negative leap
   records at the same steps as its magnitude.
   */
  lemma RecordStep(t: nat, leap: int)
    requires leap != 0
    ensures (t + 1) % leap == 0 <==> (t + 1) % Abs(leap) == 0
  {
    var size := Abs(leap);
    var q := (t + 1) / size;
    var m := (t + 1) % size;
    if leap < 0 {
      assert t + 1 == (-q) * leap + m;
      DivModUnique(t + 1, size, q, m);
      EuclidNegative(t + 1, leap, -q, m);
    }
  }

  /** Dafny's `%` by a negative divisor has the same remainder as by its magnitude. */
  lemma EuclidNegative(n: int, d: int, q: int, m: int)
    requires d < 0 && 0 <= m < -d && n == q * d + m
    ensures n % d == m
  {
    var q' := n / d;
    var m' := n % d;
    assert q' * d + m' == q * d + m;
    assert (q' - q) * d == m - m';
    if q' > q {
      MulAtLeast(q' - q, -d);
    } else if q' < q {
      MulAtLeast(q - q', -d);
    }
  }

  /** Euclidean division is determined by any quotient/remainder pair in range. */
  lemma DivModUnique(n: int, d: int, q: int, m: int)
    requires d > 0 && 0 <= m < d && n == q * d + m
    ensures n / d == q && n % d == m
  {
    var q' := n / d;
    var m' := n % d;
    assert (q' - q) * d == m - m' by {
      assert q' * d + m' == q * d + m;
      assert (q' - q) * d == q' * d - q * d;
    }
    if q' > q {
      MulAtLeast(q' - q, d);
    } else if q' < q {
      MulAtLeast(q - q', d);
    }
  }

  lemma MulAtLeast(k: int, d: int)
    requires k >= 1 && d > 0
    ensures k * d >= d
  {
    assert k * d == (k - 1) * d + d;
    assert (k - 1) * d >= 0;
  }

  // Exact real division helpers

  /**
   A quotient num / den kept unevaluated. The Python code evaluates such a
   quotient to a float; keeping the pair keeps division out of the proofs
   about the loops that produce it.
   */
  datatype Fraction = Fraction(num: int, den: int)

  /** The exact value of a fraction. */
  function Value(f: Fraction): real
    requires f.den != 0
  {
    f.num as real / f.den as real
  }

  /** A fraction between 0 and its positive denominator has a value in [0, 1]. */
  lemma ValueInUnit(f: Fraction)
    requires 0 <= f.num <= f.den && f.den > 0
    ensures 0.0 <= Value(f) <= 1.0
  {
    FractionInUnit(f.num as real, f.den as real);
  }

  lemma DivideBy(x: real, d: real, y: real)
    requires d != 0.0 && y * d == x
    ensures x / d == y
  {
  }

  lemma FractionInUnit(x: real, d: real)
    requires d > 0.0 && 0.0 <= x <= d
    ensures 0.0 <= x / d <= 1.0
  {
    assert x / d * d == x;
  }

  lemma FractionInUnitNegative(x: real, d: real)
    requires d < 0.0 && d <= x <= 0.0
    ensures 0.0 <= x / d <= 1.0
  {
    var y := x / d;
    assert y * d == x;
    assert y * (-d) == -x;
    FractionInUnit(-x, -d);
    assert (-x) / (-d) * (-d) == -x;
    assert (y - (-x) / (-d)) * (-d) == 0.0;
  }

  /** Three fractions over one denominator add up to the fraction of the sum. */
  lemma SumOfFractions(x: real, y: real, z: real, d: real)
    requires d != 0.0
    ensures x / d + y / d + z / d == (x + y + z) / d
  {
    assert (x / d) * d == x && (y / d) * d == y && (z / d) * d == z;
    assert (x / d + y / d + z / d) * d == (x / d) * d + (y / d) * d + (z / d) * d;
    DivideBy(x + y + z, d, x / d + y / d + z / d);
  }
}
