/**
 The N-user login chain: every user is logged out (0) or logged in (1); each
 iteration every user draws a next state, the number of logged-in users is the
 chain's state, and the loop tallies how often each state occurs, recording the
 frequency of one tracked state every `leap` iterations. Two weightings of the
 logged-in users are modelled: fixed weights, and weights that depend on the
 state at the start of the iteration.
 */
module LoginChain {
  import opened Common
  import Choices

  /** How a logged-in user's next state is weighted. */
  datatype Rule =
    | Fixed     // `chances_logged = [0.5, 0.5]`
    | Adaptive  // stay logged in with weight 0.008 x + 0.1, x the current state

  /** Weights of [log out / stay out, log in] for a logged-out user. */
  const LoggedOutWeights: seq<real> := [0.8, 0.2]

  /** Weights of [log out, stay logged in] for a logged-in user under the fixed rule. */
  const LoggedInWeights: seq<real> := [0.5, 0.5]

  /** The adaptive stay-logged-in weight for state x. */
  function LoginWeight(x: int): real
  {
    0.008 * x as real + 0.1
  }

  /** The weights a logged-in user draws with when the iteration starts in state x. */
  function StayWeights(rule: Rule, x: int): (w: seq<real>)
    ensures |w| == 2
  {
    match rule
    case Fixed => LoggedInWeights
    case Adaptive => [1.0 - LoginWeight(x), LoginWeight(x)]
  }

  /** Every user is logged out or logged in. */
  predicate Binary(users: seq<int>)
  {
    forall i :: 0 <= i < |users| ==> users[i] == 0 || users[i] == 1
  }

  /**
   A user's next state: 0 keeps drawing from the logged-out row, anything else
   from `stay`. Both rows add up to one, so `random.choices` reduces to comparing
   the draw with the first weight (`NextStateDraws`).
   */
  function NextState(user: int, stay: seq<real>, u: real): (r: int)
    requires |stay| == 2
    ensures r == 0 || r == 1
  {
    if user == 0 then Choices.ChooseOfTwo(LoggedOutWeights, u) else Choices.ChooseOfTwo(stay, u)
  }

  /** A user's next state is what `random.choices` draws from the user's row of weights. */
  lemma NextStateDraws(user: int, rule: Rule, x: int, u: real)
    ensures NextState(user, StayWeights(rule, x), u) ==
      Choices.Choose(if user == 0 then LoggedOutWeights else StayWeights(rule, x), u)
  {
    if user == 0 {
      Choices.ChooseOfTwoAgrees(LoggedOutWeights, u);
    } else {
      Choices.ChooseOfTwoAgrees(StayWeights(rule, x), u);
    }
  }

  /** Both rows of weights are probability rows: each adds up to one. */
  lemma WeightRowsTotalOne(rule: Rule, x: int)
    ensures Choices.Total(LoggedOutWeights) == 1.0
    ensures Choices.Total(StayWeights(rule, x)) == 1.0
  {
    Choices.TotalTwo(0.8, 0.2);
    var w := StayWeights(rule, x);
    assert w == [w[0], w[1]];
    Choices.TotalTwo(w[0], w[1]);
  }

  /**
   The adaptive row has no negative weight exactly for states -12..112, and for
   the states 0..100 that 100 users can reach the stay weight lies in [0.1, 0.9].
   */
  lemma AdaptiveWeightRange(x: int)
    ensures Choices.NonNegative(StayWeights(Adaptive, x)) <==> -12 <= x <= 112
    ensures 0 <= x <= 100 ==> 0.1 <= LoginWeight(x) <= 0.9
  {
    var w := StayWeights(Adaptive, x);
    assert Choices.NonNegative(w) <==> w[0] >= 0.0 && w[1] >= 0.0;
  }

  /** Users 0..|users|-1 each move with their own draw, all with the same logged-in weights. */
  function Moves(users: seq<int>, stay: seq<real>, us: seq<real>): (r: seq<int>)
    requires |us| >= |users| && |stay| == 2
    ensures |r| == |users| && Binary(r)
  {
    if |users| == 0 then []
    else Moves(users[..|users| - 1], stay, us) + [NextState(users[|users| - 1], stay, us[|users| - 1])]
  }

  /**
   One iteration: user i moves with draw us[i]. The logged-in weights are
   computed once, from the state before anyone moves.
   */
  function Step(rule: Rule, users: seq<int>, us: seq<real>): (r: seq<int>)
    requires |us| >= |users|
    ensures |r| == |users| && Binary(r)
  {
    Moves(users, StayWeights(rule, Sum(users)), us)
  }

  /** User i's next state is drawn from their own row with their own draw. */
  lemma {:induction false} MovesAt(users: seq<int>, stay: seq<real>, us: seq<real>, i: nat)
    requires |us| >= |users| && |stay| == 2 && i < |users|
    ensures Moves(users, stay, us)[i] == NextState(users[i], stay, us[i])
    decreases |users|
  {
    if i < |users| - 1 {
      MovesAt(users[..|users| - 1], stay, us, i);
    }
  }

  /** The draws hold one full row per iteration for the first n iterations. */
  predicate Enough(width: nat, draws: seq<seq<real>>, n: nat)
  {
    n <= |draws| && forall k :: 0 <= k < n ==> |draws[k]| >= width
  }

  /** The users after n iterations. */
  function After(rule: Rule, users: seq<int>, draws: seq<seq<real>>, n: nat): (r: seq<int>)
    requires Enough(|users|, draws, n)
    ensures |r| == |users|
    ensures n > 0 ==> Binary(r)
  {
    if n == 0 then users else Step(rule, After(rule, users, draws, n - 1), draws[n - 1])
  }

  /** The chain states observed after each of the first n iterations. */
  function States(rule: Rule, users: seq<int>, draws: seq<seq<real>>, n: nat): (r: seq<int>)
    requires Enough(|users|, draws, n)
    ensures |r| == n
  {
    if n == 0 then [] else States(rule, users, draws, n - 1) + [Sum(After(rule, users, draws, n))]
  }

  /** A logged-in count lies between 0 and the number of users. */
  lemma {:induction false} SumBinary(users: seq<int>)
    requires Binary(users)
    ensures 0 <= Sum(users) <= |users|
    decreases |users|
  {
    if |users| > 0 {
      var init := users[..|users| - 1];
      assert forall i :: 0 <= i < |init| ==> init[i] == users[i];
      SumBinary(init);
    }
  }

  /** Every observed state is a key of `status_dic`, which holds the states 0..len(users). */
  lemma {:induction false} StatesAreKeys(rule: Rule, users: seq<int>, draws: seq<seq<real>>, n: nat)
    requires Enough(|users|, draws, n)
    ensures forall k :: 0 <= k < n ==> 0 <= States(rule, users, draws, n)[k] <= |users|
  {
    if n > 0 {
      StatesAreKeys(rule, users, draws, n - 1);
      SumBinary(After(rule, users, draws, n));
    }
  }

  /** `status_dic[state] += 1`: one more occurrence of state s. */
  function Bump(counts: seq<nat>, s: nat): (r: seq<nat>)
    requires s < |counts|
  {
    counts[s := counts[s] + 1]
  }

  /** Occurrences of each state 0..m among `states`: the values of `status_dic`. */
  function TallyStates(states: seq<int>, m: nat): (r: seq<nat>)
    ensures |r| == m + 1
  {
    (if m == 0 then [] else TallyStates(states, m - 1)) + [Count(states, m)]
  }

  /** A tallied state's count is its number of occurrences. */
  lemma {:induction false} TallyAt(states: seq<int>, m: nat, x: int)
    requires 0 <= x <= m
    ensures TallyStates(states, m)[x] == Count(states, x)
  {
    if x < m {
      TallyAt(states, m - 1, x);
    }
  }

  /** Observing state s once more raises its tally by one and leaves the others alone. */
  lemma {:induction false} TallyStatesStep(states: seq<int>, m: nat, s: nat)
    requires s <= m
    ensures TallyStates(states + [s], m) == Bump(TallyStates(states, m), s)
  {
    var before := TallyStates(states, m);
    CountAppend(states, m, s);
    if m == 0 {
      assert before == [Count(states, 0)];
    } else if s < m {
      var init := TallyStates(states, m - 1);
      TallyStatesStep(states, m - 1, s);
      assert before == init + [Count(states, m)];
      assert before[s := before[s] + 1] == init[s := init[s] + 1] + [Count(states, m)];
    } else {
      TallyUnchanged(states, m - 1, s);
      assert before[s := before[s] + 1] == TallyStates(states, m - 1) + [Count(states, m) + 1];
    }
  }

  /** Observing a state above m changes none of the tallies 0..m. */
  lemma {:induction false} TallyUnchanged(states: seq<int>, m: nat, s: int)
    requires s > m
    ensures TallyStates(states + [s], m) == TallyStates(states, m)
  {
    CountAppend(states, m, s);
    if m > 0 {
      TallyUnchanged(states, m - 1, s);
    }
  }

  /** Raising one count raises the total by one. */
  lemma {:induction false} SumBump(c: seq<nat>, s: nat)
    requires s < |c|
    ensures Sum(Bump(c, s)) == Sum(c) + 1
    decreases |c|
  {
    var n := |c| - 1;
    var d := c[s := c[s] + 1];
    assert d[..n] == (if s < n then c[..n][s := c[s] + 1] else c[..n]);
    if s < n {
      SumBump(c[..n], s);
    }
  }

  /** The tallies of states that are all keys add up to the number of iterations observed. */
  lemma {:induction false} TallyTotal(states: seq<int>, m: nat)
    requires forall k :: 0 <= k < |states| ==> 0 <= states[k] <= m
    ensures Sum(TallyStates(states, m)) == |states|
    decreases |states|
  {
    if |states| == 0 {
      ZeroTally(m);
    } else {
      var init := states[..|states| - 1];
      var s := states[|states| - 1];
      assert states == init + [s];
      TallyTotal(init, m);
      TallyStatesStep(init, m, s);
      SumBump(TallyStates(init, m), s);
    }
  }

  lemma {:induction false} ZeroTally(m: nat)
    ensures Sum(TallyStates([], m)) == 0
  {
    if m > 0 {
      ZeroTally(m - 1);
    }
  }

  /** The value recorded at iteration t: how often state x occurred, over t. */
  function Frequency(states: seq<int>, x: int, t: nat): Fraction
  {
    Fraction(Count(states, x), t)
  }

  /** The values recorded during the first t iterations when recording every `size` iterations. */
  function Rows(states: seq<int>, x: int, t: nat, size: nat): seq<Fraction>
    requires t <= |states| && size > 0
  {
    if t == 0 then []
    else Rows(states, x, t - 1, size) + (if t % size == 0 then [Frequency(states[..t], x, t)] else [])
  }

  /** After t iterations there is one value per multiple of `size`, value j taken after (j + 1) * size iterations. */
  lemma {:induction false} RowsLayout(states: seq<int>, x: int, t: nat, size: nat)
    requires t <= |states| && size > 0
    ensures |Rows(states, x, t, size)| == t / size
    ensures forall j :: 0 <= j < t / size ==>
      Checkpoint(j, size) <= t && Rows(states, x, t, size)[j] == Frequency(states[..Checkpoint(j, size)], x, Checkpoint(j, size))
  {
    if t > 0 {
      RowsLayout(states, x, t - 1, size);
      RowCountStep(t, size);
      var before := Rows(states, x, t - 1, size);
      var k := (t - 1) / size;
      if t % size == 0 {
        forall j | 0 <= j < t / size
          ensures Checkpoint(j, size) <= t && Rows(states, x, t, size)[j] == Frequency(states[..Checkpoint(j, size)], x, Checkpoint(j, size))
        {
          if j < k {
            assert Rows(states, x, t, size)[j] == before[j];
          }
        }
      } else {
        assert Rows(states, x, t, size) == before;
      }
    }
  }

  /** Every recorded value is a frequency: a count out of a positive number of iterations, so it lies in [0, 1]. */
  lemma {:induction false} RowsInUnit(states: seq<int>, x: int, t: nat, size: nat)
    requires t <= |states| && size > 0
    ensures forall j :: 0 <= j < |Rows(states, x, t, size)| ==>
      0 <= Rows(states, x, t, size)[j].num <= Rows(states, x, t, size)[j].den && Rows(states, x, t, size)[j].den > 0
    ensures forall j :: 0 <= j < |Rows(states, x, t, size)| ==> 0.0 <= Value(Rows(states, x, t, size)[j]) <= 1.0
  {
    if t > 0 {
      RowsInUnit(states, x, t - 1, size);
      ValueInUnit(Frequency(states[..t], x, t));
    }
  }

  /** What one `change_state` call returns, together with the users list it leaves behind. */
  datatype Tracked = Tracked(results: seq<Fraction>, users: seq<int>)

  /**
   What `change_state` produces for iterations > 0, in the order the loop meets
   its failures: a missing draw, `iteration % leap` with leap = 0 after the
   first iteration's draws, the lookup of the tracked state at the first
   multiple of leap; otherwise the recorded frequencies and the final users.
   */
  function Outcome(rule: Rule, users: seq<int>, iterations: nat, x: int, leap: int, draws: seq<seq<real>>): Fallible<Tracked>
    requires iterations > 0
  {
    var width := |users|;
    if leap == 0 then (if Enough(width, draws, 1) then Fail(ZeroDivision) else Fail(DrawsExhausted))
    else if !(0 <= x <= width) && iterations >= Abs(leap) then
      (if Enough(width, draws, Abs(leap)) then Fail(KeyMissing) else Fail(DrawsExhausted))
    else if !Enough(width, draws, iterations) then Fail(DrawsExhausted)
    else Ok(Tracked(Rows(States(rule, users, draws, iterations), x, iterations, Abs(leap)), After(rule, users, draws, iterations)))
  }

  /** Values recorded during the first t iterations depend only on the first t states. */
  lemma {:induction false} RowsPrefix(states: seq<int>, other: seq<int>, x: int, t: nat, size: nat)
    requires t <= |states| && t <= |other| && size > 0 && states[..t] == other[..t]
    ensures Rows(states, x, t, size) == Rows(other, x, t, size)
  {
    if t > 0 {
      assert states[..t - 1] == states[..t][..t - 1] == other[..t][..t - 1] == other[..t - 1];
      RowsPrefix(states, other, x, t - 1, size);
    }
  }

  /** A positive multiple of leap is at least |leap|. */
  lemma PositiveMultiple(t: nat, leap: int)
    requires leap != 0 && t > 0
    ensures t % leap == 0 ==> t >= Abs(leap)
  {
    RecordStep(t - 1, leap);
  }

  /** A condition that holds at every multiple of leap, and from |leap| on, still holds from |leap| on one step later. */
  lemma DueAtFirstMultiple(done: nat, leap: int, ok: bool)
    requires leap != 0 && (done >= Abs(leap) ==> ok) && ((done + 1) % leap == 0 ==> ok)
    ensures done + 1 >= Abs(leap) ==> ok
  {
    if done + 1 == Abs(leap) {
      RecordStep(done, leap);
      assert (done + 1) % Abs(leap) == 0;
    }
  }

  /** The variables `change_state` carries from one iteration to the next. */
  datatype Progress = Progress(current: seq<int>, counts: seq<nat>, results: seq<Fraction>)

  /**
   The bookkeeping of one pass at iteration t, once the users have moved to
   `next`: the new state is counted, and at a multiple of leap the tracked
   state's frequency is appended.
   */
  function Pass(x: int, leap: int, p: Progress, next: seq<int>, t: nat): (r: Progress)
    requires leap != 0 && t > 0 && |p.counts| == |next| + 1 && Binary(next)
    requires t % leap == 0 ==> 0 <= x < |p.counts|
    ensures |r.current| == |next| && |r.counts| == |p.counts|
  {
    SumBinary(next);
    var counted := Bump(p.counts, Sum(next));
    Progress(next, counted, if t % leap == 0 then p.results + [Fraction(counted[x], t)] else p.results)
  }

  /** Recording after one more state appends the tracked frequency exactly at multiples of `leap`. */
  lemma RowsSnoc(states: seq<int>, s: int, x: int, leap: int)
    requires leap != 0
    ensures Rows(states + [s], x, |states| + 1, Abs(leap)) ==
      Rows(states, x, |states|, Abs(leap)) +
      (if (|states| + 1) % leap == 0 then [Frequency(states + [s], x, |states| + 1)] else [])
  {
    var longer := states + [s];
    RecordStep(|states|, leap);
    assert longer[..|states|] == states[..|states|];
    RowsPrefix(longer, states, x, |states|, Abs(leap));
    assert longer[..|states| + 1] == longer;
  }

  /** A pass counts the new state: the tally of `states` becomes that of `states` followed by the new state. */
  lemma PassCounts(x: int, leap: int, p: Progress, next: seq<int>, states: seq<int>)
    requires leap != 0 && Binary(next) && p.counts == TallyStates(states, |next|)
    requires (|states| + 1) % leap == 0 ==> 0 <= x <= |next|
    ensures Pass(x, leap, p, next, |states| + 1).current == next
    ensures Pass(x, leap, p, next, |states| + 1).counts == TallyStates(states + [Sum(next)], |next|)
  {
    SumBinary(next);
    var s := Sum(next);
    assert Pass(x, leap, p, next, |states| + 1).counts == Bump(p.counts, s);
    TallyStatesStep(states, |next|, s);
  }

  /** A pass records the tracked frequency of `states` followed by the new state exactly at multiples of leap. */
  lemma PassRecords(x: int, leap: int, p: Progress, next: seq<int>, states: seq<int>)
    requires leap != 0 && Binary(next)
    requires p.counts == TallyStates(states, |next|) && p.results == Rows(states, x, |states|, Abs(leap))
    requires (|states| + 1) % leap == 0 ==> 0 <= x <= |next|
    ensures Pass(x, leap, p, next, |states| + 1).results == Rows(states + [Sum(next)], x, |states| + 1, Abs(leap))
  {
    var t, longer := |states| + 1, states + [Sum(next)];
    var r := Pass(x, leap, p, next, t);
    PassCounts(x, leap, p, next, states);
    RowsSnoc(states, Sum(next), x, leap);
    if t % leap == 0 {
      TallyAt(longer, |next|, x);
      assert r.results == p.results + [Frequency(longer, x, t)];
    } else {
      assert r.results == p.results;
    }
  }

  /**
   The loop's state after n passes with leap != 0: the draws used so far exist,
   the users are those after n iterations, the counts tally the states seen and
   the recorded frequencies are those of the first n iterations.
   */
  predicate Looped(rule: Rule, users: seq<int>, draws: seq<seq<real>>, x: int, leap: int, n: nat, p: Progress)
  {
    leap != 0 && Enough(|users|, draws, n) && (n >= Abs(leap) ==> 0 <= x <= |users|) &&
    p.current == After(rule, users, draws, n) &&
    p.counts == TallyStates(States(rule, users, draws, n), |users|) &&
    p.results == Rows(States(rule, users, draws, n), x, n, Abs(leap))
  }

  /** A further pass with its draws present moves the users to those after n + 1 iterations and appends their state. */
  lemma StepShape(rule: Rule, users: seq<int>, draws: seq<seq<real>>, x: int, leap: int, n: nat, p: Progress)
    requires Looped(rule, users, draws, x, leap, n, p)
    requires n < |draws| && |draws[n]| >= |users|
    ensures |draws[n]| >= |p.current| && |p.counts| == |Step(rule, p.current, draws[n])| + 1
    ensures Binary(Step(rule, p.current, draws[n]))
    ensures Enough(|users|, draws, n + 1) && Step(rule, p.current, draws[n]) == After(rule, users, draws, n + 1)
    ensures States(rule, users, draws, n + 1) == States(rule, users, draws, n) + [Sum(After(rule, users, draws, n + 1))]
  {
    assert Enough(|users|, draws, n + 1);
  }

  /** A further pass, when its draws exist and the tracked state is a key if a value is due, keeps `Looped`. */
  lemma LoopedStep(rule: Rule, users: seq<int>, draws: seq<seq<real>>, x: int, leap: int, n: nat, p: Progress)
    requires Looped(rule, users, draws, x, leap, n, p)
    requires n < |draws| && |draws[n]| >= |users|
    requires (n + 1) % leap == 0 ==> 0 <= x < |p.counts|
    ensures |draws[n]| >= |p.current| && |p.counts| == |Step(rule, p.current, draws[n])| + 1
    ensures Binary(Step(rule, p.current, draws[n]))
    ensures Looped(rule, users, draws, x, leap, n + 1, Pass(x, leap, p, Step(rule, p.current, draws[n]), n + 1))
  {
    StepShape(rule, users, draws, x, leap, n, p);
    DueAtFirstMultiple(n, leap, 0 <= x <= |users|);
    var next, states := After(rule, users, draws, n + 1), States(rule, users, draws, n);
    PassCounts(x, leap, p, next, states);
    PassRecords(x, leap, p, next, states);
  }

  /** When every pass finds its draws, `change_state` returns the loop's results and users. */
  lemma OutcomeCompleted(rule: Rule, users: seq<int>, iterations: nat, x: int, leap: int, draws: seq<seq<real>>, p: Progress)
    requires iterations > 0 && Looped(rule, users, draws, x, leap, iterations, p)
    ensures Outcome(rule, users, iterations, x, leap, draws) == Ok(Tracked(p.results, p.current))
  {
  }

  /** Running out of draws at pass t, before the tracked state was found missing, fails with `DrawsExhausted`. */
  lemma OutcomeExhausted(rule: Rule, users: seq<int>, iterations: nat, x: int, leap: int, draws: seq<seq<real>>, t: nat)
    requires leap != 0 && 1 <= t <= iterations && !Enough(|users|, draws, t)
    requires t - 1 >= Abs(leap) ==> 0 <= x <= |users|
    ensures Outcome(rule, users, iterations, x, leap, draws) == Fail(DrawsExhausted)
  {
    if !(0 <= x <= |users|) && iterations >= Abs(leap) {
      assert !Enough(|users|, draws, Abs(leap));
    }
  }

  /** Reaching the first multiple of leap with the tracked state missing fails with `KeyMissing`. */
  lemma OutcomeKeyMissing(rule: Rule, users: seq<int>, iterations: nat, x: int, leap: int, draws: seq<seq<real>>, t: nat)
    requires leap != 0 && 1 <= t <= iterations && Enough(|users|, draws, t) && t % leap == 0
    requires !(0 <= x <= |users|) && t - 1 < Abs(leap)
    ensures Outcome(rule, users, iterations, x, leap, draws) == Fail(KeyMissing)
  {
    PositiveMultiple(t, leap);
  }

  /** The loop variables before the first pass: the users as given, every count zero, nothing recorded. */
  lemma LoopedStart(rule: Rule, users: seq<int>, draws: seq<seq<real>>, x: int, leap: int)
    requires leap != 0
    ensures Looped(rule, users, draws, x, leap, 0, Progress(users, TallyStates([], |users|), []))
  {
  }

  /**
   The body of `change_state`'s loop at iteration t: move every user, count the
   new state and record at a multiple of leap, or fail the way the whole call fails.
   */
  method Advance(rule: Rule, users: seq<int>, iterations: nat, x: int, leap: int, draws: seq<seq<real>>, t: nat, p: Progress)
    returns (r: Fallible<Progress>)
    requires 1 <= t <= iterations && Looped(rule, users, draws, x, leap, t - 1, p)
    ensures r.Ok? ==> Looped(rule, users, draws, x, leap, t, r.value)
    ensures r.Fail? ==> Outcome(rule, users, iterations, x, leap, draws) == Fail(r.error)
  {
    if t > |draws| || |draws[t - 1]| < |users| {
      OutcomeExhausted(rule, users, iterations, x, leap, draws, t);
      return Fail(DrawsExhausted);
    }
    var due := t % leap == 0;
    if due && !(0 <= x < |p.counts|) {
      OutcomeKeyMissing(rule, users, iterations, x, leap, draws, t);
      return Fail(KeyMissing);
    }
    LoopedStep(rule, users, draws, x, leap, t - 1, p);
    var next := Step(rule, p.current, draws[t - 1]);
    return Ok(Pass(x, leap, p, next, t));
  }

  /** The loop of `change_state` for iterations > 0 and leap != 0. */
  method Run(rule: Rule, users: seq<int>, iterations: nat, x: int, leap: int, draws: seq<seq<real>>)
    returns (r: Fallible<Tracked>)
    requires iterations > 0 && leap != 0
    ensures r == Outcome(rule, users, iterations, x, leap, draws)
  {
    var p := Progress(users, TallyStates([], |users|), []);
    LoopedStart(rule, users, draws, x, leap);
    var t := 1;
    while t <= iterations
      invariant 1 <= t <= iterations + 1
      invariant Looped(rule, users, draws, x, leap, t - 1, p)
    {
      var passed := Advance(rule, users, iterations, x, leap, draws, t, p);
      if passed.Fail? {
        return Fail(passed.error);
      }
      p := passed.value;
      t := t + 1;
    }
    OutcomeCompleted(rule, users, iterations, x, leap, draws, p);
    return Ok(Tracked(p.results, p.current));
  }

  /**
   `change_state`: run the chain for `iterations` iterations from `users`,
   with one row of draws per iteration, and record the frequency of state
   `x` every `leap` iterations. The users list the loop mutates in place is
   returned with the results.
   */
  method ChangeState(rule: Rule, users: seq<int>, iterations: int, x: int, leap: int, draws: seq<seq<real>>)
    returns (r: Fallible<Tracked>)
    ensures iterations <= 0 ==> r == Ok(Tracked([], users))
    ensures iterations > 0 ==> r == Outcome(rule, users, iterations, x, leap, draws)
  {
    if iterations <= 0 {
      return Ok(Tracked([], users));
    }
    if leap == 0 {
      // the first iteration moves every user before `iteration % leap` raises
      if |draws| == 0 || |draws[0]| < |users| {
        return Fail(DrawsExhausted);
      }
      return Fail(ZeroDivision);
    }
    r := Run(rule, users, iterations, x, leap, draws);
  }

  /** A successful run records |iterations / leap| frequencies, value j after (j + 1) |leap| iterations, each in [0, 1], and leaves every user logged in or out. */
  lemma OutcomeShape(rule: Rule, users: seq<int>, iterations: nat, x: int, leap: int, draws: seq<seq<real>>)
    requires iterations > 0 && Outcome(rule, users, iterations, x, leap, draws).Ok?
    ensures var tr := Outcome(rule, users, iterations, x, leap, draws).value;
      leap != 0 && |tr.results| == iterations / Abs(leap) && |tr.users| == |users| && Binary(tr.users)
    ensures var tr := Outcome(rule, users, iterations, x, leap, draws).value;
      forall j :: 0 <= j < |tr.results| ==>
        tr.results[j].den == Checkpoint(j, Abs(leap)) <= iterations && 0.0 <= Value(tr.results[j]) <= 1.0
  {
    var states := States(rule, users, draws, iterations);
    RowsLayout(states, x, iterations, Abs(leap));
    RowsInUnit(states, x, iterations, Abs(leap));
  }

  /** What one `change_state` call does, including iterations <= 0, where the loop does not run. */
  function Single(rule: Rule, users: seq<int>, iterations: int, x: int, leap: int, draws: seq<seq<real>>): Fallible<Tracked>
  {
    if iterations <= 0 then Ok(Tracked([], users)) else Outcome(rule, users, iterations, x, leap, draws)
  }

  /** The series drawn for the tracked states, and the users list they leave behind. */
  datatype Graph = Graph(series: seq<seq<Fraction>>, users: seq<int>)

  /** Draws for the k-th tracked state; a missing block is an empty one. */
  function Block(draws: seq<seq<seq<real>>>, k: nat): seq<seq<real>>
  {
    if k < |draws| then draws[k] else []
  }

  /**
   `show_graph`'s loop as a fold: one `change_state` call per tracked state, each
   starting from the users the previous call left, stopping at the first failure.
   */
  function Tracks(rule: Rule, users: seq<int>, iterations: int, xs: seq<int>, leap: int, draws: seq<seq<seq<real>>>): Fallible<Graph>
    decreases |xs|
  {
    if |xs| == 0 then Ok(Graph([], users))
    else match Tracks(rule, users, iterations, xs[..|xs| - 1], leap, draws)
      case Fail(e) => Fail(e)
      case Ok(g) =>
        match Single(rule, g.users, iterations, xs[|xs| - 1], leap, Block(draws, |xs| - 1))
        case Fail(e) => Fail(e)
        case Ok(tr) => Ok(Graph(g.series + [tr.results], tr.users))
  }

  /** Once a call fails, later tracked states change nothing: the graph fails with the same error. */
  lemma {:induction false} TracksFailurePersists(rule: Rule, users: seq<int>, iterations: int, xs: seq<int>, leap: int, draws: seq<seq<seq<real>>>, k: nat)
    requires k <= |xs| && Tracks(rule, users, iterations, xs[..k], leap, draws).Fail?
    ensures Tracks(rule, users, iterations, xs, leap, draws) == Tracks(rule, users, iterations, xs[..k], leap, draws)
    decreases |xs|
  {
    if k < |xs| {
      var prefix := xs[..|xs| - 1];
      assert prefix[..k] == xs[..k];
      TracksFailurePersists(rule, users, iterations, prefix, leap, draws, k);
    } else {
      assert xs[..k] == xs;
    }
  }

  /** The colours `show_graph` zips the tracked states with; states beyond the eleventh are not drawn. */
  const Colours := 11

  /**
   The x-axis ticks `show_graph` sets once its loop is done. Under the fixed
   rule the ticks are cleared. Under the adaptive rule they are
   `range(0, round(n / leap) + 1, round(n / (leap * 10)))` labelled by
   `range(0, n + 1, round(n // 10))`: leap = 0 divides by zero, and a step of 0
   raises ValueError.
   */
  function Axis(rule: Rule, iterations: int, leap: int, g: Fallible<Graph>): Fallible<Graph>
  {
    if g.Fail? || rule.Fixed? then g
    else if leap == 0 then Fail(ZeroDivision)
    else if Round(iterations as real / (leap * 10) as real) == 0 || iterations / 10 == 0 then Fail(BadValue)
    else g
  }

  /** What `show_graph` ends in: the tracked series, or the first failure of the loop or of the ticks. */
  function Shown(rule: Rule, users: seq<int>, iterations: int, xs: seq<int>, leap: int, draws: seq<seq<seq<real>>>): Fallible<Graph>
  {
    Axis(rule, iterations, leap, Tracks(rule, users, iterations, xs[..Min(|xs|, Colours)], leap, draws))
  }

  /**
   `show_graph` without the drawing: `zip(xs_to_track, colors)` keeps at most
   eleven tracked states, each call mutates the one shared users list, and the
   x-axis ticks are computed last.
   */
  method ShowGraph(rule: Rule, users: seq<int>, iterations: int, xs: seq<int>, leap: int, draws: seq<seq<seq<real>>>)
    returns (r: Fallible<Graph>)
    ensures r == Shown(rule, users, iterations, xs, leap, draws)
  {
    r := TrackStates(rule, users, iterations, xs[..Min(|xs|, Colours)], leap, draws);
    if r.Ok? && rule.Adaptive? {
      if leap == 0 {
        return Fail(ZeroDivision);
      }
      if Round(iterations as real / (leap * 10) as real) == 0 || iterations / 10 == 0 {
        return Fail(BadValue);
      }
    }
  }

  /**
   When the tracking loop succeeds, the fixed rule's graph is the tracked
   series. The adaptive rule's graph is the series exactly when leap != 0,
   |n| > 5 |leap| and n is not in 0..9. Otherwise leap = 0 gives
   ZeroDivisionError and the rest give ValueError. For example n = 40 with
   leap = 10 gives ValueError.
   */
  lemma ShowGraphAxis(rule: Rule, users: seq<int>, iterations: int, xs: seq<int>, leap: int, draws: seq<seq<seq<real>>>)
    requires Tracks(rule, users, iterations, xs[..Min(|xs|, Colours)], leap, draws).Ok?
    ensures rule.Fixed? ==> Shown(rule, users, iterations, xs, leap, draws) == Tracks(rule, users, iterations, xs[..Min(|xs|, Colours)], leap, draws)
    ensures rule.Adaptive? ==>
      (Shown(rule, users, iterations, xs, leap, draws).Ok? <==> leap != 0 && Abs(iterations) > 5 * Abs(leap) && !(0 <= iterations < 10))
    ensures rule.Adaptive? ==> (Shown(rule, users, iterations, xs, leap, draws) == Fail(ZeroDivision) <==> leap == 0)
    ensures Shown(rule, users, iterations, xs, leap, draws).Ok? ==>
      Shown(rule, users, iterations, xs, leap, draws) == Tracks(rule, users, iterations, xs[..Min(|xs|, Colours)], leap, draws)
    ensures Shown(rule, users, iterations, xs, leap, draws).Fail? ==>
      Shown(rule, users, iterations, xs, leap, draws).error == ZeroDivision || Shown(rule, users, iterations, xs, leap, draws).error == BadValue
  {
    if leap != 0 {
      RoundQuotientZero(iterations, leap * 10);
      assert Abs(leap * 10) == 10 * Abs(leap);
    }
  }

  /** Once the tracking loop fails, `show_graph` fails with the same error before reaching the ticks. */
  lemma ShowGraphLoopFailure(rule: Rule, users: seq<int>, iterations: int, xs: seq<int>, leap: int, draws: seq<seq<seq<real>>>)
    requires Tracks(rule, users, iterations, xs[..Min(|xs|, Colours)], leap, draws).Fail?
    ensures Shown(rule, users, iterations, xs, leap, draws) == Tracks(rule, users, iterations, xs[..Min(|xs|, Colours)], leap, draws)
  {
  }

  /** The `for x, color in ...` loop: one `change_state` call per tracked state, stopping at the first failure. */
  method TrackStates(rule: Rule, users: seq<int>, iterations: int, xs: seq<int>, leap: int, draws: seq<seq<seq<real>>>)
    returns (r: Fallible<Graph>)
    ensures r == Tracks(rule, users, iterations, xs, leap, draws)
    decreases |xs|
  {
    if |xs| == 0 {
      return Ok(Graph([], users));
    }
    var earlier := TrackStates(rule, users, iterations, xs[..|xs| - 1], leap, draws);
    if earlier.Fail? {
      return Fail(earlier.error);
    }
    var one := ChangeState(rule, earlier.value.users, iterations, xs[|xs| - 1], leap, Block(draws, |xs| - 1));
    if one.Fail? {
      return Fail(one.error);
    }
    return Ok(Graph(earlier.value.series + [one.value.results], one.value.users));
  }

  /** Every successful graph has one series per drawn state, each of |iterations / leap| values (none for iterations <= 0). */
  lemma {:induction false} TracksShape(rule: Rule, users: seq<int>, iterations: int, xs: seq<int>, leap: int, draws: seq<seq<seq<real>>>)
    requires Tracks(rule, users, iterations, xs, leap, draws).Ok?
    ensures var g := Tracks(rule, users, iterations, xs, leap, draws).value;
      |g.series| == |xs| && |g.users| == |users| &&
      forall k :: 0 <= k < |xs| ==> |g.series[k]| == (if iterations <= 0 then 0 else iterations / Abs(leap))
    decreases |xs|
  {
    if |xs| > 0 {
      var prefix := xs[..|xs| - 1];
      TracksShape(rule, users, iterations, prefix, leap, draws);
      var g := Tracks(rule, users, iterations, prefix, leap, draws).value;
      if iterations > 0 {
        OutcomeShape(rule, g.users, iterations, xs[|xs| - 1], leap, Block(draws, |xs| - 1));
      }
    }
  }
}
