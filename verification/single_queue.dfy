/**
 The single-server queue of `calculate_time`: tasks arrive one after another,
 each after an inter-arrival gap, and are served first come, first served.
 The script keeps four lists: the arrival times, the end times, the queue
 position seen on arrival and the queue length left behind on departure.
 The gaps and service times (Poisson samples in the script) are inputs.
 */
module SingleQueue {
  import opened Common

  /** One sampled task: the time since the previous arrival and the time its service takes. */
  datatype Task = Task(gap: real, service: real)

  /** The lists the arrival loop fills, index i for task i. */
  datatype Log = Log(arrivals: seq<real>, ends: seq<real>, onArrival: seq<nat>)

  /** Everything the script computes: the arrival loop's lists and the queue length at each departure. */
  datatype Report = Report(arrivals: seq<real>, ends: seq<real>, onArrival: seq<nat>, onDeparture: seq<nat>)

  /** `sum(1 for element in ending_time_list if element > t)`: earlier tasks still in the system at time t. */
  function Waiting(ends: seq<real>, t: real): (n: nat)
    ensures n <= |ends|
  {
    if |ends| == 0 then 0 else Waiting(ends[..|ends| - 1], t) + (if ends[|ends| - 1] > t then 1 else 0)
  }

  /** `sum(1 for num in scheduled_list if num < t)`: tasks that arrived before time t. */
  function Before(times: seq<real>, t: real): (n: nat)
    ensures n <= |times|
  {
    if |times| == 0 then 0 else Before(times[..|times| - 1], t) + (if times[|times| - 1] < t then 1 else 0)
  }

  function Max(x: real, y: real): real
  {
    if x >= y then x else y
  }

  /**
   One pass of the arrival loop for a task arriving at `arrival`. A task that
   finds the server busy ends `service` after `ending_time_list[counter - 1]`;
   `counter` is still 0 there, so Python's index -1 takes the last end time.
   */
  function Admit(log: Log, arrival: real, service: real): (r: Log)
    ensures |r.arrivals| == |log.arrivals| + 1 && |r.ends| == |log.ends| + 1 && |r.onArrival| == |log.onArrival| + 1
  {
    var position := Waiting(log.ends, arrival);
    var end := if position != 0 then log.ends[|log.ends| - 1] + service else arrival + service;
    Log(log.arrivals + [arrival], log.ends + [end], log.onArrival + [position])
  }

  /** `li_time_sum` after k tasks: the sum of their gaps. */
  function Clock(tasks: seq<Task>, k: nat): real
    requires k <= |tasks|
  {
    if k == 0 then 0.0 else Clock(tasks, k - 1) + tasks[k - 1].gap
  }

  /** The lists after admitting the first k tasks. */
  function History(tasks: seq<Task>, k: nat): (r: Log)
    requires k <= |tasks|
    ensures |r.arrivals| == k && |r.ends| == k && |r.onArrival| == k
  {
    if k == 0 then Log([], [], [])
    else Admit(History(tasks, k - 1), Clock(tasks, k), tasks[k - 1].service)
  }

  /** The number of tasks the loop admits: the first k whose clock exceeds `maxTime`, if some clock among the given tasks does. */
  function Admitted(maxTime: real, tasks: seq<Task>, k: nat): (r: Fallible<nat>)
    requires k <= |tasks|
    ensures r.Ok? ==> k <= r.value <= |tasks|
    decreases |tasks| - k
  {
    if Clock(tasks, k) > maxTime then Ok(k)
    else if k == |tasks| then Fail(DrawsExhausted)
    else Admitted(maxTime, tasks, k + 1)
  }

  /** `temp if temp > 0 else 0`. */
  function Clamp(x: int): nat
  {
    if x > 0 then x else 0
  }

  /** The departure loop over the first n end times: tasks that arrived before the end, less two, less the index. */
  function Departures(arrivals: seq<real>, ends: seq<real>, n: nat): (r: seq<nat>)
    requires n <= |ends|
    ensures |r| == n
  {
    if n == 0 then []
    else Departures(arrivals, ends, n - 1) + [Clamp(Before(arrivals, ends[n - 1]) - 2 - (n - 1))]
  }

  /**
   What `calculate_time` computes from the sampled tasks, or running out of
   samples before the clock passes `maxTime`. After its loops the plotting sets
   the y-axis ticks to `range(0, max(queue_list_scheduled) + 1)`, and `max` of
   an empty list raises ValueError.
   */
  function Outcome(maxTime: real, tasks: seq<Task>): Fallible<Report>
  {
    match Admitted(maxTime, tasks, 0)
    case Fail(e) => Fail(e)
    case Ok(n) =>
      var log := History(tasks, n);
      if |log.onArrival| == 0 then Fail(BadValue)
      else Ok(Report(log.arrivals, log.ends, log.onArrival, Departures(log.arrivals, log.ends, |log.ends|)))
  }

  /** Every task counts: the loop stops at the first clock past `maxTime`. */
  lemma {:induction false} AdmittedIsFirst(maxTime: real, tasks: seq<Task>, k: nat)
    requires k <= |tasks| && Admitted(maxTime, tasks, k).Ok?
    ensures Clock(tasks, Admitted(maxTime, tasks, k).value) > maxTime
    ensures forall j :: k <= j < Admitted(maxTime, tasks, k).value ==> Clock(tasks, j) <= maxTime
    decreases |tasks| - k
  {
    if Clock(tasks, k) <= maxTime {
      AdmittedIsFirst(maxTime, tasks, k + 1);
    }
  }

  /** Task i arrives at the clock after its own gap. */
  lemma {:induction false} HistoryArrivals(tasks: seq<Task>, k: nat)
    requires k <= |tasks|
    ensures forall i :: 0 <= i < k ==> History(tasks, k).arrivals[i] == Clock(tasks, i + 1)
  {
    if k > 0 {
      HistoryArrivals(tasks, k - 1);
      HistoryStable(tasks, k - 1, k);
    }
  }

  /** Admitting later tasks leaves the entries of the first m tasks as they were. */
  lemma {:induction false} HistoryStable(tasks: seq<Task>, m: nat, k: nat)
    requires m <= k <= |tasks|
    ensures History(tasks, k).arrivals[..m] == History(tasks, m).arrivals
    ensures History(tasks, k).ends[..m] == History(tasks, m).ends
    ensures History(tasks, k).onArrival[..m] == History(tasks, m).onArrival
    decreases k
  {
    if m < k {
      HistoryStable(tasks, m, k - 1);
      HistoryStep(tasks, k);
      PrefixOfPrefix(History(tasks, k).arrivals, History(tasks, k - 1).arrivals, m);
      PrefixOfPrefix(History(tasks, k).ends, History(tasks, k - 1).ends, m);
      PrefixOfPrefix(History(tasks, k).onArrival, History(tasks, k - 1).onArrival, m);
    }
  }

  /** Admitting one task only appends to the log. */
  lemma HistoryStep(tasks: seq<Task>, k: nat)
    requires 0 < k <= |tasks|
    ensures History(tasks, k).arrivals[..k - 1] == History(tasks, k - 1).arrivals
    ensures History(tasks, k).ends[..k - 1] == History(tasks, k - 1).ends
    ensures History(tasks, k).onArrival[..k - 1] == History(tasks, k - 1).onArrival
  {
    var before, now := History(tasks, k - 1), History(tasks, k);
    assert now.arrivals[..k - 1] == before.arrivals;
    assert now.ends[..k - 1] == before.ends;
  }

  lemma PrefixOfPrefix<T>(s: seq<T>, t: seq<T>, m: nat)
    requires |t| <= |s| && s[..|t|] == t && m <= |t|
    ensures s[..m] == t[..m]
  {
  }

  /** With non-negative gaps the clock never goes back. */
  lemma {:induction false} ClockMonotone(tasks: seq<Task>, i: nat, j: nat)
    requires i <= j <= |tasks| && forall t :: 0 <= t < |tasks| ==> tasks[t].gap >= 0.0
    ensures Clock(tasks, i) <= Clock(tasks, j)
    decreases j
  {
    if i < j {
      ClockMonotone(tasks, i, j - 1);
    }
  }

  /** With non-negative gaps, arrival times never decrease. */
  lemma ArrivalsNondecreasing(tasks: seq<Task>, k: nat, i: nat, j: nat)
    requires k <= |tasks| && i <= j < k && forall t :: 0 <= t < |tasks| ==> tasks[t].gap >= 0.0
    ensures History(tasks, k).arrivals[i] <= History(tasks, k).arrivals[j]
  {
    HistoryArrivals(tasks, k);
    ClockMonotone(tasks, i + 1, j + 1);
  }

  predicate Sorted(s: seq<real>)
  {
    forall i, j :: 0 <= i <= j < |s| ==> s[i] <= s[j]
  }

  /** In a sorted list of end times some end lies after t exactly when the last one does. */
  lemma {:induction false} WaitingLast(ends: seq<real>, t: real)
    requires Sorted(ends)
    ensures Waiting(ends, t) != 0 <==> |ends| > 0 && ends[|ends| - 1] > t
    decreases |ends|
  {
    if |ends| > 0 && ends[|ends| - 1] <= t {
      var init := ends[..|ends| - 1];
      assert Sorted(init);
      WaitingLast(init, t);
    }
  }

  /** With non-negative service times, end times never decrease. */
  lemma {:induction false} EndsSorted(tasks: seq<Task>, k: nat)
    requires k <= |tasks| && forall t :: 0 <= t < |tasks| ==> tasks[t].service >= 0.0
    ensures Sorted(History(tasks, k).ends)
  {
    if k > 0 {
      EndsSorted(tasks, k - 1);
      var before, now := History(tasks, k - 1), History(tasks, k);
      WaitingLast(before.ends, Clock(tasks, k));
      assert forall i :: 0 <= i < k - 1 ==> now.ends[i] == before.ends[i];
      assert forall i :: 0 <= i < k - 1 ==> now.ends[i] <= now.ends[k - 1];
    }
  }

  /**
   The end time the script gives the k-th task, once the earlier end times are
   sorted: service after its arrival for the first task, and after the later of
   its arrival and the previous end for every later one.
   */
  lemma LastEnd(tasks: seq<Task>, k: nat)
    requires 0 < k <= |tasks| && Sorted(History(tasks, k - 1).ends)
    ensures History(tasks, k).ends[k - 1] ==
      (if k == 1 then Clock(tasks, k) else Max(Clock(tasks, k), History(tasks, k - 1).ends[k - 2])) + tasks[k - 1].service
  {
    WaitingLast(History(tasks, k - 1).ends, Clock(tasks, k));
  }

  /**
   With non-negative service times the script's rule is the FIFO (Lindley)
   recursion: the first task ends `service` after it arrives, every later one
   `service` after the later of its arrival and the previous task's end.
   */
  lemma Lindley(tasks: seq<Task>, k: nat, i: nat)
    requires i < k <= |tasks| && forall t :: 0 <= t < |tasks| ==> tasks[t].service >= 0.0
    ensures History(tasks, k).ends[i] ==
      (if i == 0 then History(tasks, k).arrivals[0] else Max(History(tasks, k).arrivals[i], History(tasks, k).ends[i - 1])) +
      tasks[i].service
  {
    var now, upTo := History(tasks, k), History(tasks, i + 1);
    HistoryStable(tasks, i + 1, k);
    EndsSorted(tasks, i);
    LastEnd(tasks, i + 1);
    assert now.ends[i] == now.ends[..i + 1][i] == upTo.ends[i];
    assert now.arrivals[i] == now.arrivals[..i + 1][i] == upTo.arrivals[i] == Clock(tasks, i + 1);
    if i > 0 {
      HistoryStable(tasks, i, i + 1);
      assert now.ends[i - 1] == now.ends[..i + 1][i - 1] == upTo.ends[i - 1];
      assert upTo.ends[i - 1] == upTo.ends[..i][i - 1] == History(tasks, i).ends[i - 1];
    }
  }

  /** The position seen on arrival counts the earlier tasks still in the system, so it is at most the number of earlier tasks. */
  lemma OnArrivalCountsEarlier(tasks: seq<Task>, k: nat, i: nat)
    requires i < k <= |tasks|
    ensures History(tasks, k).onArrival[i] == Waiting(History(tasks, k).ends[..i], History(tasks, k).arrivals[i])
    ensures History(tasks, k).onArrival[i] <= i
  {
    var now, upTo := History(tasks, k), History(tasks, i + 1);
    HistoryStable(tasks, i + 1, k);
    HistoryStable(tasks, i, k);
    assert now.onArrival[i] == now.onArrival[..i + 1][i] == upTo.onArrival[i];
    assert now.arrivals[i] == now.arrivals[..i + 1][i] == upTo.arrivals[i];
  }

  /** Counting arrivals before t splits over a concatenation. */
  lemma {:induction false} BeforeConcat(s: seq<real>, u: seq<real>, t: real)
    ensures Before(s + u, t) == Before(s, t) + Before(u, t)
    decreases |u|
  {
    if |u| > 0 {
      assert (s + u)[..|s + u| - 1] == s + u[..|u| - 1];
      assert (s + u)[|s + u| - 1] == u[|u| - 1];
      BeforeConcat(s, u[..|u| - 1], t);
    } else {
      assert s + u == s;
    }
  }

  /** When every time is before t, all of them count. */
  lemma {:induction false} BeforeAll(s: seq<real>, t: real)
    requires forall i :: 0 <= i < |s| ==> s[i] < t
    ensures Before(s, t) == |s|
    decreases |s|
  {
    if |s| > 0 {
      BeforeAll(s[..|s| - 1], t);
    }
  }

  /**
   With non-negative gaps and positive service times, tasks 0..i have all
   arrived before task i ends, so the departure value is the number of later
   tasks already in the system, less the one the server takes next, and never
   below zero.
   */
  lemma OnDepartureCountsLaterArrivals(tasks: seq<Task>, k: nat, i: nat)
    requires i < k <= |tasks|
    requires forall t :: 0 <= t < |tasks| ==> tasks[t].gap >= 0.0 && tasks[t].service > 0.0
    ensures Departures(History(tasks, k).arrivals, History(tasks, k).ends, k)[i] ==
      Clamp(Before(History(tasks, k).arrivals[i + 1..], History(tasks, k).ends[i]) - 1)
  {
    var log := History(tasks, k);
    var e := log.ends[i];
    assert Departures(log.arrivals, log.ends, k)[i] == Clamp(Before(log.arrivals, e) - 2 - i) by {
      DeparturesAt(log.arrivals, log.ends, k, i);
    }
    assert Before(log.arrivals, e) == i + 1 + Before(log.arrivals[i + 1..], e) by {
      Lindley(tasks, k, i);
      ArrivedBy(tasks, k, i, e);
      BeforeSplit(log.arrivals, i, e);
    }
  }

  /** With non-negative gaps, every task up to i has arrived by any time after task i's arrival. */
  lemma ArrivedBy(tasks: seq<Task>, k: nat, i: nat, e: real)
    requires i < k <= |tasks| && forall t :: 0 <= t < |tasks| ==> tasks[t].gap >= 0.0
    requires History(tasks, k).arrivals[i] < e
    ensures forall j :: 0 <= j <= i ==> History(tasks, k).arrivals[j] < e
  {
    HistoryArrivals(tasks, k);
    forall j | 0 <= j <= i ensures History(tasks, k).arrivals[j] < e {
      ClockMonotone(tasks, j + 1, i + 1);
    }
  }

  /** When the first i + 1 times are before e, they all count, and the rest count on their own. */
  lemma BeforeSplit(times: seq<real>, i: nat, e: real)
    requires i < |times| && forall j :: 0 <= j <= i ==> times[j] < e
    ensures Before(times, e) == i + 1 + Before(times[i + 1..], e)
  {
    assert times == times[..i + 1] + times[i + 1..];
    BeforeConcat(times[..i + 1], times[i + 1..], e);
    BeforeAll(times[..i + 1], e);
  }

  /** Entry i of the departure list is computed from end time i and index i. */
  lemma {:induction false} DeparturesAt(arrivals: seq<real>, ends: seq<real>, n: nat, i: nat)
    requires i < n <= |ends|
    ensures Departures(arrivals, ends, n)[i] == Clamp(Before(arrivals, ends[i]) - 2 - i)
    decreases n
  {
    if i < n - 1 {
      DeparturesAt(arrivals, ends, n - 1, i);
    }
  }

  /**
   `calculate_time` without the printing and drawing: admit tasks while the
   clock is at most `maxTime`, compute the queue length at each departure, then
   fail where the y-axis ticks take `max` of an empty list of positions.
   */
  method CalculateTime(maxTime: real, tasks: seq<Task>) returns (r: Fallible<Report>)
    ensures r == Outcome(maxTime, tasks)
  {
    var clock := 0.0;
    var log := Log([], [], []);
    var k := 0;
    while clock <= maxTime
      invariant k <= |tasks| && clock == Clock(tasks, k) && log == History(tasks, k)
      invariant Admitted(maxTime, tasks, 0) == Admitted(maxTime, tasks, k)
      decreases |tasks| - k
    {
      if k == |tasks| {
        return Fail(DrawsExhausted);
      }
      clock := clock + tasks[k].gap;
      log := Admit(log, clock, tasks[k].service);
      k := k + 1;
    }
    var departures: seq<nat> := [];
    var i := 0;
    while i < |log.ends|
      invariant i <= |log.ends| && departures == Departures(log.arrivals, log.ends, i)
    {
      departures := departures + [Clamp(Before(log.arrivals, log.ends[i]) - 2 - i)];
      i := i + 1;
    }
    if |log.onArrival| == 0 {
      return Fail(BadValue);
    }
    return Ok(Report(log.arrivals, log.ends, log.onArrival, departures));
  }

  /**
   A report has four lists of one length, at least one task, every arrival but
   the last at most `maxTime` and the last one past it.
   */
  lemma OutcomeShape(maxTime: real, tasks: seq<Task>)
    requires Outcome(maxTime, tasks).Ok?
    ensures var rep := Outcome(maxTime, tasks).value;
      |rep.ends| == |rep.arrivals| && |rep.onArrival| == |rep.arrivals| && |rep.onDeparture| == |rep.arrivals|
    ensures var rep := Outcome(maxTime, tasks).value;
      maxTime >= 0.0 && |rep.arrivals| > 0 && rep.arrivals[|rep.arrivals| - 1] > maxTime &&
      forall i :: 0 <= i < |rep.arrivals| - 1 ==> rep.arrivals[i] <= maxTime
  {
    var n := Admitted(maxTime, tasks, 0).value;
    AdmittedIsFirst(maxTime, tasks, 0);
    HistoryArrivals(tasks, n);
    var rep := Outcome(maxTime, tasks).value;
    forall i | 0 <= i < |rep.arrivals| - 1 ensures rep.arrivals[i] <= maxTime {
      assert rep.arrivals[i] == Clock(tasks, i + 1);
    }
  }

  /**
   The two ways `calculate_time` fails: the tasks run out before one arrives
   after `maxTime`, or `maxTime` < 0 admits no task and the plotting's `max`
   of the empty position list raises ValueError.
   */
  lemma OutcomeFailure(maxTime: real, tasks: seq<Task>)
    ensures maxTime < 0.0 ==> Outcome(maxTime, tasks) == Fail(BadValue)
    ensures Outcome(maxTime, tasks).Fail? ==>
      (Outcome(maxTime, tasks).error == BadValue <==> maxTime < 0.0) &&
      (Outcome(maxTime, tasks).error == BadValue || Outcome(maxTime, tasks).error == DrawsExhausted)
  {
    var a := Admitted(maxTime, tasks, 0);
    if a.Ok? {
      AdmittedIsFirst(maxTime, tasks, 0);
      if a.value == 0 {
        assert Clock(tasks, 0) > maxTime;
      }
    } else {
      AdmittedFails(maxTime, tasks, 0);
    }
  }

  /** The arrival loop fails only by running out of tasks, and only once the clock has reached 0 <= `maxTime`. */
  lemma {:induction false} AdmittedFails(maxTime: real, tasks: seq<Task>, k: nat)
    requires k <= |tasks| && Admitted(maxTime, tasks, k).Fail?
    ensures Admitted(maxTime, tasks, k).error == DrawsExhausted && Clock(tasks, k) <= maxTime
    decreases |tasks| - k
  {
    if Clock(tasks, k) <= maxTime && k < |tasks| {
      AdmittedFails(maxTime, tasks, k + 1);
    }
  }
}
