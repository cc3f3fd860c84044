/**
 The population-control scripts: a population splits into men and women, the
 couples are `min(men, women)`, a share `fertility` of them have children, and
 the children form the next generation, for 10 generations. Under the one-child
 policy a couple has one child; under the one-son policy it has children until
 the first boy. In the law-breaking variants each couple first draws whether it
 breaks the law, and a law-breaking couple has 6 children under either policy.
 Every `random.choices` draw is an explicit uniform value in a draw sequence.
 */
module Population {
  import opened Common
  import Choices

  datatype Policy = OneChild | OneSon

  /** `Obeyed`: no couple draws whether to break the law; `Broken(rate)`: each couple does, with weight `rate`. */
  datatype Law = Obeyed | Broken(rate: real)

  datatype Generation = Generation(men: int, women: int)

  /** The children of some couples, how many of the couples broke the law, and the next unused draw. */
  datatype Births = Births(boys: nat, girls: nat, breakers: nat, next: nat)

  /** The census of a run: population per generation and the generation numbers. */
  datatype Census = Census(population: seq<int>, generations: seq<int>)

  /** `num_of_man = floor(num_of_people * men_factor)` and the rest are women. */
  function Initial(people: int, menFactor: real): (g: Generation)
    ensures g.men + g.women == people
  {
    var men := (people as real * menFactor).Floor;
    Generation(men, people - men)
  }

  function Size(g: Generation): int
  {
    g.men + g.women
  }

  /** `num_of_pairs = min(num_of_man, num_of_woman)`. */
  function Pairs(g: Generation): int
  {
    Min(g.men, g.women)
  }

  /** `len(range(floor(num_of_pairs * fertility)))`: the couples that have children. */
  function Fertile(g: Generation, fertility: real): nat
  {
    Max((Pairs(g) as real * fertility).Floor, 0)
  }

  /** `random.choices(["male", "female"], [men_factor, 1 - men_factor])[0] == "male"`. */
  predicate IsBoy(menFactor: real, u: real)
  {
    Choices.ChooseOfTwo([menFactor, 1.0 - menFactor], u) == 0
  }

  /** `random.choices([True, False], [rate, 1 - rate])[0]`. */
  predicate Cheats(rate: real, u: real)
  {
    Choices.ChooseOfTwo([rate, 1.0 - rate], u) == 0
  }

  /** A fixed number k of children from the draws at pos, pos + 1, ... */
  function Children(menFactor: real, draws: seq<real>, pos: nat, k: nat): (r: Fallible<Births>)
    ensures r.Ok? ==> r.value.breakers == 0 && r.value.next == pos + k
    ensures r.Fail? ==> r.error == DrawsExhausted
    decreases k
  {
    if k == 0 then Ok(Births(0, 0, 0, pos))
    else if pos >= |draws| then Fail(DrawsExhausted)
    else
      match Children(menFactor, draws, pos + 1, k - 1)
      case Fail(e) => Fail(e)
      case Ok(b) =>
        if IsBoy(menFactor, draws[pos]) then Ok(Births(b.boys + 1, b.girls, 0, b.next))
        else Ok(Births(b.boys, b.girls + 1, 0, b.next))
  }

  /** The one-son couple's `while True` loop: daughters until the first son. */
  function UntilSon(menFactor: real, draws: seq<real>, pos: nat): (r: Fallible<Births>)
    ensures r.Ok? ==> r.value.breakers == 0 && pos < r.value.next <= |draws|
    ensures r.Fail? ==> r.error == DrawsExhausted
    decreases |draws| - pos
  {
    if pos >= |draws| then Fail(DrawsExhausted)
    else if IsBoy(menFactor, draws[pos]) then Ok(Births(1, 0, 0, pos + 1))
    else
      match UntilSon(menFactor, draws, pos + 1)
      case Fail(e) => Fail(e)
      case Ok(b) => Ok(Births(b.boys, b.girls + 1, 0, b.next))
  }

  /** The children of a couple that keeps the law. */
  function Lawful(policy: Policy, menFactor: real, draws: seq<real>, pos: nat): Fallible<Births>
  {
    match policy
    case OneChild => Children(menFactor, draws, pos, 1)
    case OneSon => UntilSon(menFactor, draws, pos)
  }

  /** The children of one couple: a law-breaking couple has 6. */
  function Couple(policy: Policy, law: Law, menFactor: real, draws: seq<real>, pos: nat): Fallible<Births>
  {
    match law
    case Obeyed => Lawful(policy, menFactor, draws, pos)
    case Broken(rate) =>
      if pos >= |draws| then Fail(DrawsExhausted)
      else if Cheats(rate, draws[pos]) then
        match Children(menFactor, draws, pos + 1, 6)
        case Fail(e) => Fail(e)
        case Ok(b) => Ok(Births(b.boys, b.girls, 1, b.next))
      else Lawful(policy, menFactor, draws, pos + 1)
  }

  /** The births of a first batch followed by a second, ending where the second ends. */
  function Plus(a: Births, b: Births): Births
  {
    Births(a.boys + b.boys, a.girls + b.girls, a.breakers + b.breakers, b.next)
  }

  /** Sums the births of a first batch into those of the rest. */
  function Join(a: Births, rest: Fallible<Births>): Fallible<Births>
  {
    match rest
    case Fail(e) => Fail(e)
    case Ok(b) => Ok(Plus(a, b))
  }

  /** The children of k couples in turn. */
  function Couples(policy: Policy, law: Law, menFactor: real, draws: seq<real>, pos: nat, k: nat): Fallible<Births>
    decreases k
  {
    if k == 0 then Ok(Births(0, 0, 0, pos))
    else
      match Couple(policy, law, menFactor, draws, pos)
      case Fail(e) => Fail(e)
      case Ok(a) => Join(a, Couples(policy, law, menFactor, draws, a.next, k - 1))
  }

  /** The next generation: the fertile couples' sons and daughters. */
  function Breed(policy: Policy, law: Law, menFactor: real, fertility: real, draws: seq<real>, g: Generation, pos: nat): Fallible<Births>
  {
    Couples(policy, law, menFactor, draws, pos, Fertile(g, fertility))
  }

  /** The next `count` generations after g, drawing from pos on. */
  function Evolve(policy: Policy, law: Law, menFactor: real, fertility: real, draws: seq<real>, g: Generation, pos: nat, count: nat): (r: Fallible<seq<Generation>>)
    ensures r.Ok? ==> |r.value| == count
    decreases count
  {
    if count == 0 then Ok([])
    else
      match Breed(policy, law, menFactor, fertility, draws, g, pos)
      case Fail(e) => Fail(e)
      case Ok(b) =>
        var h := Generation(b.boys, b.girls);
        match Evolve(policy, law, menFactor, fertility, draws, h, b.next, count - 1)
        case Fail(e) => Fail(e)
        case Ok(rest) => Ok([h] + rest)
  }

  function Sizes(gs: seq<Generation>): (r: seq<int>)
    ensures |r| == |gs|
    ensures forall j :: 0 <= j < |gs| ==> r[j] == Size(gs[j])
  {
    if |gs| == 0 then [] else [Size(gs[0])] + Sizes(gs[1..])
  }

  /** `range(0, 11)`. */
  function Numbers(n: nat): (r: seq<int>)
    ensures |r| == n
    ensures forall j :: 0 <= j < n ==> r[j] == j
  {
    if n == 0 then [] else Numbers(n - 1) + [n - 1]
  }

  /** The generations the scripts simulate after the first. */
  const Rounds: nat := 10

  /** What the four `calculate_population_*` functions record before plotting. */
  function Outcome(policy: Policy, law: Law, people: int, menFactor: real, fertility: real, draws: seq<real>): Fallible<Census>
  {
    match Evolve(policy, law, menFactor, fertility, draws, Initial(people, menFactor), 0, Rounds)
    case Fail(e) => Fail(e)
    case Ok(gs) => Ok(Census([people] + Sizes(gs), Numbers(Rounds + 1)))
  }

  lemma JoinPlus(a: Births, b: Births, rest: Fallible<Births>)
    ensures Join(a, Join(b, rest)) == Join(Plus(a, b), rest)
  {
  }

  /** Births of one child drawn from u, ending at `next`. */
  function Child(menFactor: real, u: real, next: nat): Births
  {
    if IsBoy(menFactor, u) then Births(1, 0, 0, next) else Births(0, 1, 0, next)
  }

  lemma ChildrenStep(menFactor: real, draws: seq<real>, pos: nat, k: nat)
    requires k > 0 && pos < |draws|
    ensures Children(menFactor, draws, pos, k) ==
      Join(Child(menFactor, draws[pos], pos + 1), Children(menFactor, draws, pos + 1, k - 1))
  {
  }

  lemma UntilSonStep(menFactor: real, draws: seq<real>, pos: nat)
    requires pos < |draws| && !IsBoy(menFactor, draws[pos])
    ensures UntilSon(menFactor, draws, pos) ==
      Join(Child(menFactor, draws[pos], pos + 1), UntilSon(menFactor, draws, pos + 1))
  {
  }

  /** The `for _ in range(k)` loop of children. */
  method HaveChildren(menFactor: real, draws: seq<real>, pos: nat, k: nat) returns (r: Fallible<Births>)
    ensures r == Children(menFactor, draws, pos, k)
  {
    var acc := Births(0, 0, 0, pos);
    var p := pos;
    var i := 0;
    while i < k
      invariant i <= k && p == pos + i && acc.next == p
      invariant Join(acc, Children(menFactor, draws, p, k - i)) == Children(menFactor, draws, pos, k)
    {
      if p >= |draws| {
        return Fail(DrawsExhausted);
      }
      ChildrenStep(menFactor, draws, p, k - i);
      JoinPlus(acc, Child(menFactor, draws[p], p + 1), Children(menFactor, draws, p + 1, k - i - 1));
      acc := Plus(acc, Child(menFactor, draws[p], p + 1));
      p := p + 1;
      i := i + 1;
    }
    return Ok(acc);
  }

  /** The `while True` loop of the one-son couple. */
  method HaveSon(menFactor: real, draws: seq<real>, pos: nat) returns (r: Fallible<Births>)
    ensures r == UntilSon(menFactor, draws, pos)
  {
    var acc := Births(0, 0, 0, pos);
    var p := pos;
    while true
      invariant acc.next == p
      invariant Join(acc, UntilSon(menFactor, draws, p)) == UntilSon(menFactor, draws, pos)
      decreases |draws| - p
    {
      if p >= |draws| {
        return Fail(DrawsExhausted);
      }
      if IsBoy(menFactor, draws[p]) {
        return Ok(Plus(acc, Births(1, 0, 0, p + 1)));
      }
      UntilSonStep(menFactor, draws, p);
      JoinPlus(acc, Child(menFactor, draws[p], p + 1), UntilSon(menFactor, draws, p + 1));
      acc := Plus(acc, Child(menFactor, draws[p], p + 1));
      p := p + 1;
    }
  }

  /** One couple of the inner `for` loop, law-breaking draw first when there is one. */
  method HaveFamily(policy: Policy, law: Law, menFactor: real, draws: seq<real>, pos: nat) returns (r: Fallible<Births>)
    ensures r == Couple(policy, law, menFactor, draws, pos)
  {
    var start := pos;
    if law.Broken? {
      if pos >= |draws| {
        return Fail(DrawsExhausted);
      }
      if Choices.ChooseOfTwo([law.rate, 1.0 - law.rate], draws[pos]) == 0 {
        var six := HaveChildren(menFactor, draws, pos + 1, 6);
        if six.Fail? {
          return Fail(six.error);
        }
        return Ok(Births(six.value.boys, six.value.girls, 1, six.value.next));
      }
      start := pos + 1;
    }
    match policy
    case OneChild =>
      r := HaveChildren(menFactor, draws, start, 1);
    case OneSon =>
      r := HaveSon(menFactor, draws, start);
  }

  /** The inner `for _ in range(floor(num_of_pairs * fertility))` loop. */
  method HaveGeneration(policy: Policy, law: Law, menFactor: real, draws: seq<real>, pos: nat, k: nat) returns (r: Fallible<Births>)
    ensures r == Couples(policy, law, menFactor, draws, pos, k)
  {
    var acc := Births(0, 0, 0, pos);
    var i := 0;
    while i < k
      invariant i <= k
      invariant Join(acc, Couples(policy, law, menFactor, draws, acc.next, k - i)) == Couples(policy, law, menFactor, draws, pos, k)
    {
      var c := HaveFamily(policy, law, menFactor, draws, acc.next);
      if c.Fail? {
        return Fail(c.error);
      }
      JoinPlus(acc, c.value, Couples(policy, law, menFactor, draws, c.value.next, k - i - 1));
      acc := Plus(acc, c.value);
      i := i + 1;
    }
    return Ok(acc);
  }

  /** Prepends the generations already simulated to those still to come. */
  function After(done: seq<Generation>, rest: Fallible<seq<Generation>>): Fallible<seq<Generation>>
  {
    match rest
    case Fail(e) => Fail(e)
    case Ok(gs) => Ok(done + gs)
  }

  lemma EvolveStep(policy: Policy, law: Law, menFactor: real, fertility: real, draws: seq<real>, g: Generation, pos: nat, count: nat, done: seq<Generation>, b: Births)
    requires count > 0 && Breed(policy, law, menFactor, fertility, draws, g, pos) == Ok(b)
    ensures After(done, Evolve(policy, law, menFactor, fertility, draws, g, pos, count)) ==
      After(done + [Generation(b.boys, b.girls)], Evolve(policy, law, menFactor, fertility, draws, Generation(b.boys, b.girls), b.next, count - 1))
  {
    var rest := Evolve(policy, law, menFactor, fertility, draws, Generation(b.boys, b.girls), b.next, count - 1);
    if rest.Ok? {
      assert done + ([Generation(b.boys, b.girls)] + rest.value) == done + [Generation(b.boys, b.girls)] + rest.value;
    }
  }

  /** A breeding that fails stops the run with its error. */
  lemma EvolveStop(policy: Policy, law: Law, menFactor: real, fertility: real, draws: seq<real>, g: Generation, pos: nat, count: nat, done: seq<Generation>, e: Error)
    requires count > 0 && Breed(policy, law, menFactor, fertility, draws, g, pos) == Fail(e)
    ensures After(done, Evolve(policy, law, menFactor, fertility, draws, g, pos, count)) == Fail(e)
  {
  }

  lemma OutcomeOf(policy: Policy, law: Law, people: int, menFactor: real, fertility: real, draws: seq<real>, run: Fallible<seq<Generation>>)
    requires run == Evolve(policy, law, menFactor, fertility, draws, Initial(people, menFactor), 0, Rounds)
    ensures run.Fail? ==> Outcome(policy, law, people, menFactor, fertility, draws) == Fail(run.error)
    ensures run.Ok? ==> Outcome(policy, law, people, menFactor, fertility, draws) == Ok(Census([people] + Sizes(run.value), Numbers(Rounds + 1)))
  {
  }

  /** The generation loop of a `calculate_population_*` function: the census it prints. */
  method RunGenerations(policy: Policy, law: Law, people: int, menFactor: real, fertility: real, draws: seq<real>) returns (r: Fallible<Census>)
    ensures r == Outcome(policy, law, people, menFactor, fertility, draws)
  {
    var g := Initial(people, menFactor);
    var pos := 0;
    var done: seq<Generation> := [];
    var i := 0;
    ghost var run := Evolve(policy, law, menFactor, fertility, draws, g, pos, Rounds);
    OutcomeOf(policy, law, people, menFactor, fertility, draws, run);
    if run.Ok? {
      assert [] + run.value == run.value;
    }
    while i < Rounds
      invariant i <= Rounds
      invariant After(done, Evolve(policy, law, menFactor, fertility, draws, g, pos, Rounds - i)) == run
    {
      var b := HaveGeneration(policy, law, menFactor, draws, pos, Fertile(g, fertility));
      if b.Fail? {
        EvolveStop(policy, law, menFactor, fertility, draws, g, pos, Rounds - i, done, b.error);
        return Fail(b.error);
      }
      EvolveStep(policy, law, menFactor, fertility, draws, g, pos, Rounds - i, done, b.value);
      g := Generation(b.value.boys, b.value.girls);
      done := done + [g];
      pos := b.value.next;
      i := i + 1;
    }
    assert done + [] == done;
    return Ok(Census([people] + Sizes(done), Numbers(Rounds + 1)));
  }

  /**
   What a `calculate_population_*` function ends in: the census it prints,
   unless the y-axis ticks `range(0, num_of_people + 1, num_of_people // 10)`
   that follow get a step of 0, which raises ValueError.
   */
  function Calculated(policy: Policy, law: Law, people: int, menFactor: real, fertility: real, draws: seq<real>): Fallible<Census>
  {
    match Outcome(policy, law, people, menFactor, fertility, draws)
    case Fail(e) => Fail(e)
    case Ok(c) => if people / 10 == 0 then Fail(BadValue) else Ok(c)
  }

  /** A `calculate_population_*` function without the printing and drawing. */
  method CalculatePopulation(policy: Policy, law: Law, people: int, menFactor: real, fertility: real, draws: seq<real>) returns (r: Fallible<Census>)
    ensures r == Calculated(policy, law, people, menFactor, fertility, draws)
  {
    r := RunGenerations(policy, law, people, menFactor, fertility, draws);
    if r.Ok? && people / 10 == 0 {
      r := Fail(BadValue);
    }
  }

  /**
   The function returns the printed census exactly when the generations finish
   and `num_of_people` is outside 0..9. It fails by running out of draws, or
   with ValueError for 0 to 9 people.
   */
  lemma CalculatedFailure(policy: Policy, law: Law, people: int, menFactor: real, fertility: real, draws: seq<real>)
    ensures Calculated(policy, law, people, menFactor, fertility, draws).Ok? <==>
      Outcome(policy, law, people, menFactor, fertility, draws).Ok? && !(0 <= people < 10)
    ensures Calculated(policy, law, people, menFactor, fertility, draws).Ok? ==>
      Calculated(policy, law, people, menFactor, fertility, draws) == Outcome(policy, law, people, menFactor, fertility, draws)
    ensures Calculated(policy, law, people, menFactor, fertility, draws).Fail? ==>
      Calculated(policy, law, people, menFactor, fertility, draws).error == DrawsExhausted ||
      (Calculated(policy, law, people, menFactor, fertility, draws).error == BadValue && 0 <= people < 10)
  {
    OutcomeShape(policy, law, people, menFactor, fertility, draws);
  }

  /** Boys among the children drawn from s. */
  function Boys(menFactor: real, s: seq<real>): (n: nat)
    ensures n <= |s|
  {
    if |s| == 0 then 0 else (if IsBoy(menFactor, s[0]) then 1 else 0) + Boys(menFactor, s[1..])
  }

  /** k children need k draws; the boys among them are the boy draws. */
  lemma {:induction false} ChildrenCounts(menFactor: real, draws: seq<real>, pos: nat, k: nat)
    requires pos <= |draws|
    ensures Children(menFactor, draws, pos, k).Ok? <==> pos + k <= |draws|
    ensures Children(menFactor, draws, pos, k).Ok? ==>
      var b := Children(menFactor, draws, pos, k).value;
      b.boys + b.girls == k && b.boys == Boys(menFactor, draws[pos..pos + k])
    decreases k
  {
    if k > 0 && pos < |draws| {
      ChildrenCounts(menFactor, draws, pos + 1, k - 1);
      if pos + k <= |draws| {
        assert draws[pos..pos + k][1..] == draws[pos + 1..pos + k];
      }
    }
  }

  /**
   A one-son couple has daughters and then exactly one son: the draws it uses
   are girls except the last, a boy. It runs out of draws exactly when no boy
   is left to draw.
   */
  lemma {:induction false} UntilSonShape(menFactor: real, draws: seq<real>, pos: nat)
    ensures UntilSon(menFactor, draws, pos).Ok? ==>
      var b := UntilSon(menFactor, draws, pos).value;
      b.boys == 1 && b.girls == b.next - pos - 1 && IsBoy(menFactor, draws[b.next - 1]) &&
      forall i :: pos <= i < b.next - 1 ==> !IsBoy(menFactor, draws[i])
    ensures UntilSon(menFactor, draws, pos).Fail? <==> forall i :: pos <= i < |draws| ==> !IsBoy(menFactor, draws[i])
    decreases |draws| - pos
  {
    if pos < |draws| && !IsBoy(menFactor, draws[pos]) {
      UntilSonShape(menFactor, draws, pos + 1);
    }
  }

  /** Every draw is a legal `random.random()` value. */
  predicate AllUniform(draws: seq<real>)
  {
    forall i :: 0 <= i < |draws| ==> Choices.Uniform(draws[i])
  }

  /**
   One couple: a law-breaking couple has exactly 6 children; otherwise one
   child, or under the one-son policy exactly one son. Only the law-breaking
   variant breaks the law, and never with weight 0 and a legal draw.
   */
  lemma CoupleShape(policy: Policy, law: Law, menFactor: real, draws: seq<real>, pos: nat)
    ensures Couple(policy, law, menFactor, draws, pos).Ok? ==>
      var b := Couple(policy, law, menFactor, draws, pos).value;
      b.breakers <= 1 &&
      (b.breakers == 1 ==> b.boys + b.girls == 6) &&
      (b.breakers == 0 && policy == OneChild ==> b.boys + b.girls == 1) &&
      (b.breakers == 0 && policy == OneSon ==> b.boys == 1) &&
      (law == Obeyed ==> b.breakers == 0) &&
      (law.Broken? && law.rate <= 0.0 && Choices.Uniform(draws[pos]) ==> b.breakers == 0)
  {
    var start := if law.Broken? then pos + 1 else pos;
    if start <= |draws| {
      ChildrenCounts(menFactor, draws, start, 6);
      ChildrenCounts(menFactor, draws, start, 1);
    }
    UntilSonShape(menFactor, draws, start);
  }

  /**
   k couples: under the one-child policy k children plus 5 more per
   law-breaking couple; under the one-son policy one son per law-abiding
   couple and up to 6 per law-breaking one. Without law-breaking, or with
   weight 0 and legal draws, no couple breaks the law.
   */
  lemma {:induction false} CouplesShape(policy: Policy, law: Law, menFactor: real, draws: seq<real>, pos: nat, k: nat)
    ensures Couples(policy, law, menFactor, draws, pos, k).Ok? ==>
      var b := Couples(policy, law, menFactor, draws, pos, k).value;
      b.breakers <= k &&
      (policy == OneChild ==> b.boys + b.girls == k + 5 * b.breakers) &&
      (policy == OneSon ==> k - b.breakers <= b.boys <= k + 5 * b.breakers) &&
      (law == Obeyed ==> b.breakers == 0) &&
      (law.Broken? && law.rate <= 0.0 && AllUniform(draws) ==> b.breakers == 0)
    decreases k
  {
    if k > 0 {
      var c := Couple(policy, law, menFactor, draws, pos);
      if c.Ok? {
        CoupleShape(policy, law, menFactor, draws, pos);
        CouplesShape(policy, law, menFactor, draws, c.value.next, k - 1);
        if law.Broken? && c.value.next > pos {
          assert pos < |draws|;
        }
      }
    }
  }

  /** Running out of draws is the only way a run can fail. */
  lemma {:induction false} CouplesFail(policy: Policy, law: Law, menFactor: real, draws: seq<real>, pos: nat, k: nat)
    ensures Couples(policy, law, menFactor, draws, pos, k).Fail? ==> Couples(policy, law, menFactor, draws, pos, k).error == DrawsExhausted
    decreases k
  {
    if k > 0 {
      var c := Couple(policy, law, menFactor, draws, pos);
      if c.Ok? {
        CouplesFail(policy, law, menFactor, draws, c.value.next, k - 1);
      }
    }
  }

  lemma ScaleDown(x: real, f: real)
    requires x >= 0.0 && 0.0 <= f <= 1.0
    ensures 0.0 <= x * f <= x
  {
    assert x * (1.0 - f) >= 0.0;
  }

  lemma FloorAtMost(y: real, p: int)
    requires y <= p as real
    ensures y.Floor <= p
  {
    assert y.Floor as real <= y;
  }

  /** With a fertility of at most 1 no more couples have children than there are couples, at most half the people. */
  lemma FertileAtMostPairs(g: Generation, fertility: real)
    requires 0.0 <= fertility <= 1.0 && g.men >= 0 && g.women >= 0
    ensures Fertile(g, fertility) <= Pairs(g) && 2 * Pairs(g) <= Size(g)
  {
    var p := Pairs(g);
    assert 0 <= p && 2 * p <= Size(g) by {
      assert Min(g.men, g.women) <= g.men && Min(g.men, g.women) <= g.women;
    }
    ScaleDown(p as real, fertility);
    FloorAtMost(p as real * fertility, p);
  }

  /** A share of men in [0, 1] splits a non-negative population into non-negative parts. */
  lemma InitialSplit(people: int, menFactor: real)
    requires people >= 0 && 0.0 <= menFactor <= 1.0
    ensures Initial(people, menFactor).men >= 0 && Initial(people, menFactor).women >= 0
  {
    ScaleDown(people as real, menFactor);
  }

  /** The generation that generation j of gs was bred from. */
  function Parent(g: Generation, gs: seq<Generation>, j: nat): Generation
    requires j < |gs|
  {
    if j == 0 then g else gs[j - 1]
  }

  /** Each generation of gs has exactly its parents' fertile couples as its size. */
  predicate SizesFollow(fertility: real, g: Generation, gs: seq<Generation>)
  {
    forall j :: 0 <= j < |gs| ==> Size(gs[j]) == Fertile(Parent(g, gs, j), fertility)
  }

  /** Each generation of gs is at most half its parents' generation. */
  predicate Halving(g: Generation, gs: seq<Generation>)
  {
    forall j :: 0 <= j < |gs| ==> 2 * Size(gs[j]) <= Size(Parent(g, gs, j))
  }

  /** Each generation of gs has exactly its parents' fertile couples as its men. */
  predicate SonsFollow(fertility: real, g: Generation, gs: seq<Generation>)
  {
    forall j :: 0 <= j < |gs| ==> gs[j].men == Fertile(Parent(g, gs, j), fertility)
  }

  lemma ConsFollow(fertility: real, g: Generation, h: Generation, rest: seq<Generation>)
    ensures Size(h) == Fertile(g, fertility) && SizesFollow(fertility, h, rest) ==> SizesFollow(fertility, g, [h] + rest)
    ensures 2 * Size(h) <= Size(g) && Halving(h, rest) ==> Halving(g, [h] + rest)
    ensures h.men == Fertile(g, fertility) && SonsFollow(fertility, h, rest) ==> SonsFollow(fertility, g, [h] + rest)
  {
    var gs := [h] + rest;
    forall j | 1 <= j < |gs| ensures gs[j] == rest[j - 1] && Parent(g, gs, j) == Parent(h, rest, j - 1) {
    }
  }

  /** No generation has a negative number of men or women. */
  predicate Natural(gs: seq<Generation>)
  {
    forall j :: 0 <= j < |gs| ==> gs[j].men >= 0 && gs[j].women >= 0
  }

  /** With a fertility of at most 1, a run of generations that follow their parents halves each time. */
  lemma HalvingFromSizes(fertility: real, g: Generation, gs: seq<Generation>)
    requires 0.0 <= fertility <= 1.0 && g.men >= 0 && g.women >= 0
    requires SizesFollow(fertility, g, gs) && Natural(gs)
    ensures Halving(g, gs)
  {
    forall j | 0 <= j < |gs|
      ensures 2 * Size(gs[j]) <= Size(Parent(g, gs, j))
    {
      FertileAtMostPairs(Parent(g, gs, j), fertility);
    }
  }

  /**
   Law-abiding one-child policy: every fertile couple has exactly one child,
   so every generation is exactly its parents' fertile couples.
   */
  lemma {:induction false} EvolveOneChild(menFactor: real, fertility: real, draws: seq<real>, g: Generation, pos: nat, count: nat)
    ensures Evolve(OneChild, Obeyed, menFactor, fertility, draws, g, pos, count).Ok? ==>
      SizesFollow(fertility, g, Evolve(OneChild, Obeyed, menFactor, fertility, draws, g, pos, count).value)
    decreases count
  {
    if count > 0 {
      var b := Breed(OneChild, Obeyed, menFactor, fertility, draws, g, pos);
      if b.Ok? {
        var h := Generation(b.value.boys, b.value.girls);
        var rest := Evolve(OneChild, Obeyed, menFactor, fertility, draws, h, b.value.next, count - 1);
        EvolveOneChild(menFactor, fertility, draws, h, b.value.next, count - 1);
        if rest.Ok? {
          OneChildBirths(menFactor, draws, pos, Fertile(g, fertility));
          ConsFollow(fertility, g, h, rest.value);
        }
      }
    }
  }

  /** Law-abiding one-son policy: every fertile couple has exactly one son, so each generation's men are its parents' fertile couples. */
  lemma {:induction false} EvolveOneSon(menFactor: real, fertility: real, draws: seq<real>, g: Generation, pos: nat, count: nat)
    ensures Evolve(OneSon, Obeyed, menFactor, fertility, draws, g, pos, count).Ok? ==>
      SonsFollow(fertility, g, Evolve(OneSon, Obeyed, menFactor, fertility, draws, g, pos, count).value)
    decreases count
  {
    if count > 0 {
      var b := Breed(OneSon, Obeyed, menFactor, fertility, draws, g, pos);
      if b.Ok? {
        var h := Generation(b.value.boys, b.value.girls);
        var rest := Evolve(OneSon, Obeyed, menFactor, fertility, draws, h, b.value.next, count - 1);
        EvolveOneSon(menFactor, fertility, draws, h, b.value.next, count - 1);
        if rest.Ok? {
          OneSonBirths(menFactor, draws, pos, Fertile(g, fertility));
          ConsFollow(fertility, g, h, rest.value);
        }
      }
    }
  }

  /** Births are counts, so no generation of a run is negative. */
  lemma {:induction false} EvolveNatural(policy: Policy, law: Law, menFactor: real, fertility: real, draws: seq<real>, g: Generation, pos: nat, count: nat)
    ensures Evolve(policy, law, menFactor, fertility, draws, g, pos, count).Ok? ==>
      Natural(Evolve(policy, law, menFactor, fertility, draws, g, pos, count).value)
    decreases count
  {
    if count > 0 {
      var b := Breed(policy, law, menFactor, fertility, draws, g, pos);
      if b.Ok? {
        var h := Generation(b.value.boys, b.value.girls);
        EvolveNatural(policy, law, menFactor, fertility, draws, h, b.value.next, count - 1);
      }
    }
  }

  /** k law-abiding one-child couples have k children. */
  lemma OneChildBirths(menFactor: real, draws: seq<real>, pos: nat, k: nat)
    ensures Couples(OneChild, Obeyed, menFactor, draws, pos, k).Ok? ==>
      Couples(OneChild, Obeyed, menFactor, draws, pos, k).value.boys + Couples(OneChild, Obeyed, menFactor, draws, pos, k).value.girls == k
  {
    CouplesShape(OneChild, Obeyed, menFactor, draws, pos, k);
  }

  /** k law-abiding one-son couples have k sons. */
  lemma OneSonBirths(menFactor: real, draws: seq<real>, pos: nat, k: nat)
    ensures Couples(OneSon, Obeyed, menFactor, draws, pos, k).Ok? ==>
      Couples(OneSon, Obeyed, menFactor, draws, pos, k).value.boys == k
  {
    CouplesShape(OneSon, Obeyed, menFactor, draws, pos, k);
  }

  lemma {:induction false} EvolveFail(policy: Policy, law: Law, menFactor: real, fertility: real, draws: seq<real>, g: Generation, pos: nat, count: nat)
    ensures Evolve(policy, law, menFactor, fertility, draws, g, pos, count).Fail? ==>
      Evolve(policy, law, menFactor, fertility, draws, g, pos, count).error == DrawsExhausted
    decreases count
  {
    if count > 0 {
      CouplesFail(policy, law, menFactor, draws, pos, Fertile(g, fertility));
      var b := Breed(policy, law, menFactor, fertility, draws, g, pos);
      if b.Ok? {
        EvolveFail(policy, law, menFactor, fertility, draws, Generation(b.value.boys, b.value.girls), b.value.next, count - 1);
      }
    }
  }

  /**
   The census: 11 population figures for generations 0..10, starting with
   the initial population, failing only when the draws run out.
   */
  lemma OutcomeShape(policy: Policy, law: Law, people: int, menFactor: real, fertility: real, draws: seq<real>)
    ensures Outcome(policy, law, people, menFactor, fertility, draws).Ok? ==>
      var c := Outcome(policy, law, people, menFactor, fertility, draws).value;
      |c.population| == |c.generations| == Rounds + 1 && c.population[0] == people &&
      forall j :: 0 <= j <= Rounds ==> c.generations[j] == j
    ensures Outcome(policy, law, people, menFactor, fertility, draws).Fail? ==>
      Outcome(policy, law, people, menFactor, fertility, draws).error == DrawsExhausted
  {
    EvolveFail(policy, law, menFactor, fertility, draws, Initial(people, menFactor), 0, Rounds);
  }

  lemma EvolveHalving(menFactor: real, fertility: real, draws: seq<real>, g: Generation, pos: nat, count: nat)
    requires 0.0 <= fertility <= 1.0 && g.men >= 0 && g.women >= 0
    ensures Evolve(OneChild, Obeyed, menFactor, fertility, draws, g, pos, count).Ok? ==>
      Halving(g, Evolve(OneChild, Obeyed, menFactor, fertility, draws, g, pos, count).value)
  {
    EvolveOneChild(menFactor, fertility, draws, g, pos, count);
    EvolveNatural(OneChild, Obeyed, menFactor, fertility, draws, g, pos, count);
    var run := Evolve(OneChild, Obeyed, menFactor, fertility, draws, g, pos, count);
    if run.Ok? {
      HalvingFromSizes(fertility, g, run.value);
    }
  }

  lemma HalvingCensus(people: int, g: Generation, gs: seq<Generation>)
    requires Size(g) == people && Halving(g, gs)
    ensures forall j :: 0 <= j < |gs| ==> 2 * ([people] + Sizes(gs))[j + 1] <= ([people] + Sizes(gs))[j]
  {
    var c := [people] + Sizes(gs);
    forall j | 0 <= j < |gs| ensures 2 * c[j + 1] <= c[j] {
      assert c[j + 1] == Size(gs[j]);
      assert c[j] == Size(Parent(g, gs, j));
    }
  }

  /**
   Under the law-abiding one-child policy, with shares in [0, 1], each census
   figure is at most half the one before.
   */
  lemma OutcomeHalves(people: int, menFactor: real, fertility: real, draws: seq<real>)
    requires people >= 0 && 0.0 <= menFactor <= 1.0 && 0.0 <= fertility <= 1.0
    ensures Outcome(OneChild, Obeyed, people, menFactor, fertility, draws).Ok? ==>
      var c := Outcome(OneChild, Obeyed, people, menFactor, fertility, draws).value;
      forall j :: 0 <= j < Rounds ==> 2 * c.population[j + 1] <= c.population[j]
  {
    var g := Initial(people, menFactor);
    InitialSplit(people, menFactor);
    EvolveHalving(menFactor, fertility, draws, g, 0, Rounds);
    var r := Evolve(OneChild, Obeyed, menFactor, fertility, draws, g, 0, Rounds);
    if r.Ok? {
      HalvingCensus(people, g, r.value);
    }
  }
}
