/**
 The lock-free latency maximum: any number of `recordLatency` calls, every load, addition and
 compare-and-swap a step of its own.
 */
module LatencyMax {
  import opened Sums

  /** Where a call is: before the count, before the sum, before the load, before the swap, or back. */
  datatype Stage = Entered | Counted | Looping | Loaded(seen: nat) | Returned

  datatype Call = Call(ns: int, stage: Stage)

  datatype State = State(max: nat, count: nat, sum: nat, calls: seq<Call>)

  /** A new call for a duration, or the next step of call `i`. */
  datatype Step = Begin(ns: int) | Go(i: nat)

  const IDLE := State(0, 0, 0, [])

  predicate CanStep(s: State, e: Step) {
    e.Go? ==> e.i < |s.calls| && !s.calls[e.i].stage.Returned?
  }

  function Do(s: State, e: Step): State
    requires CanStep(s, e)
  {
    match e
    case Begin(ns) => s.(calls := s.calls + [Call(ns, if ns <= 0 then Returned else Entered)])
    case Go(i) =>
      var c := s.calls[i];
      if c.ns <= 0 then s
      else match c.stage
        case Entered => s.(count := s.count + 1, calls := s.calls[i := c.(stage := Counted)])
        case Counted => s.(sum := s.sum + c.ns, calls := s.calls[i := c.(stage := Looping)])
        case Looping =>
          s.(calls := s.calls[i := c.(stage := if c.ns <= s.max then Returned else Loaded(s.max))])
        case Loaded(seen) =>
          if s.max == seen then s.(max := c.ns, calls := s.calls[i := c.(stage := Returned)])
          else s.(calls := s.calls[i := c.(stage := Looping)])
        case Returned => s
  }

  // ----- what every state keeps

  function Positive(c: Call): int {
    if c.ns > 0 then 1 else 0
  }

  function PositiveNs(c: Call): int {
    if c.ns > 0 then c.ns else 0
  }

  /** 1 if the call has been counted. */
  function CountOf(c: Call): int {
    if c.ns > 0 && !c.stage.Entered? then 1 else 0
  }

  /** What the call has added to the sum. */
  function NsOf(c: Call): int {
    if c.ns > 0 && !c.stage.Entered? && !c.stage.Counted? then c.ns else 0
  }

  ghost predicate Inv(s: State) {
    && (forall i :: 0 <= i < |s.calls| ==> CallInv(s.calls[i], s.max))
    && (s.max == 0 || exists i :: 0 <= i < |s.calls| && s.calls[i].ns == s.max)
    && s.count == Sum(s.calls, CountOf)
    && s.sum == Sum(s.calls, NsOf)
  }

  predicate CallInv(c: Call, max: nat) {
    && (c.ns <= 0 ==> c.stage.Returned?)
    && (c.stage.Returned? ==> c.ns <= max)
    && (c.stage.Loaded? ==> c.stage.seen <= max && c.stage.seen < c.ns)
  }

  lemma BeginKeepsInv(s: State, ns: int)
    requires Inv(s)
    ensures Inv(Do(s, Begin(ns)))
  {
    var s' := Do(s, Begin(ns));
    SumAppend(s.calls, CountOf, s'.calls[|s.calls|]);
    SumAppend(s.calls, NsOf, s'.calls[|s.calls|]);
    if s.max != 0 {
      var j :| 0 <= j < |s.calls| && s.calls[j].ns == s.max;
      assert s'.calls[j].ns == s'.max;
    }
  }

  /** Count and sum after a step of call i. */
  lemma GoKeepsSums(s: State, i: nat)
    requires Inv(s) && CanStep(s, Go(i))
    ensures var s' := Do(s, Go(i)); s'.count == Sum(s'.calls, CountOf) && s'.sum == Sum(s'.calls, NsOf)
  {
    var s' := Do(s, Go(i));
    assert CallInv(s.calls[i], s.max);
    SumUpdate(s.calls, CountOf, i, s'.calls[i]);
    SumUpdate(s.calls, NsOf, i, s'.calls[i]);
    assert s'.calls == s.calls[i := s'.calls[i]];
  }

  /** Every step keeps the invariant, and the maximum never falls. */
  lemma InvStep(s: State, e: Step)
    requires Inv(s) && CanStep(s, e)
    ensures Inv(Do(s, e)) && s.max <= Do(s, e).max
  {
    var s' := Do(s, e);
    match e
    case Begin(ns) => BeginKeepsInv(s, ns);
    case Go(i) =>
      hide Sum;
      GoKeepsSums(s, i);
      assert CallInv(s.calls[i], s.max);
      if s'.max != s.max {
        assert s'.calls[i].ns == s'.max;
      } else if s.max != 0 {
        var j :| 0 <= j < |s.calls| && s.calls[j].ns == s.max;
        assert s'.calls[j].ns == s'.max;
      }
  }

  // ----- runs

  ghost predicate IsRun(s: State, steps: seq<Step>)
    decreases |steps|, 0
  {
    steps == [] || (IsRun(s, steps[..|steps| - 1]) && CanStep(After(s, steps[..|steps| - 1]), steps[|steps| - 1]))
  }

  ghost function After(s: State, steps: seq<Step>): State
    requires IsRun(s, steps)
    decreases |steps|, 1
  {
    if steps == [] then s else Do(After(s, steps[..|steps| - 1]), steps[|steps| - 1])
  }

  /** In every run the maximum is 0 or a submitted duration, dominates every finished call, and the
      count and the sum are those of the calls that got that far. */
  lemma {:induction false} RunInvariant(steps: seq<Step>)
    requires IsRun(IDLE, steps)
    ensures Inv(After(IDLE, steps))
    decreases |steps|
  {
    if steps != [] {
      RunInvariant(steps[..|steps| - 1]);
      InvStep(After(IDLE, steps[..|steps| - 1]), steps[|steps| - 1]);
    }
  }

  lemma {:induction false} MaxIsMonotone(s: State, steps: seq<Step>, k: nat)
    requires Inv(s) && IsRun(s, steps) && k <= |steps|
    ensures IsRun(s, steps[..k])
    ensures Inv(After(s, steps)) && After(s, steps[..k]).max <= After(s, steps).max
    decreases |steps|
  {
    if k == |steps| {
      assert steps[..k] == steps;
    }
    if steps != [] {
      var before := steps[..|steps| - 1];
      MaxIsMonotone(s, before, if k < |steps| then k else |before|);
      InvStep(After(s, before), steps[|steps| - 1]);
      if k < |steps| {
        assert before[..k] == steps[..k];
      }
    }
  }

  ghost predicate Quiescent(s: State) {
    forall i :: 0 <= i < |s.calls| ==> s.calls[i].stage.Returned?
  }

  /** With no call in flight the maximum is the greatest positive duration (0 if there is none), the
      count and the sum are exact, and the average cannot exceed the maximum. */
  lemma QuiescentIsExact(steps: seq<Step>)
    requires IsRun(IDLE, steps) && Quiescent(After(IDLE, steps))
    ensures var s := After(IDLE, steps);
      && (forall i :: 0 <= i < |s.calls| ==> s.calls[i].ns <= s.max)
      && (s.max == 0 || exists i :: 0 <= i < |s.calls| && s.calls[i].ns == s.max)
      && s.count == Sum(s.calls, Positive)
      && s.sum == Sum(s.calls, PositiveNs)
      && s.sum <= s.count * s.max
  {
    RunInvariant(steps);
    var s := After(IDLE, steps);
    assert forall i :: 0 <= i < |s.calls| ==> CallInv(s.calls[i], s.max);
    AllCounted(s.calls);
    AverageBelowMax(s.calls, s.max);
  }

  lemma AllCounted(calls: seq<Call>)
    requires forall i :: 0 <= i < |calls| ==> calls[i].stage.Returned?
    ensures Sum(calls, CountOf) == Sum(calls, Positive) && Sum(calls, NsOf) == Sum(calls, PositiveNs)
  {
    SumMonotone(calls, CountOf, Positive);
    SumMonotone(calls, Positive, CountOf);
    SumMonotone(calls, NsOf, PositiveNs);
    SumMonotone(calls, PositiveNs, NsOf);
  }

  lemma {:induction false} AverageBelowMax(calls: seq<Call>, max: nat)
    requires forall i :: 0 <= i < |calls| ==> calls[i].ns <= max
    ensures Sum(calls, PositiveNs) <= Sum(calls, Positive) * max
    decreases |calls|
  {
    if calls != [] {
      var before, c := calls[..|calls| - 1], calls[|calls| - 1];
      assert forall i :: 0 <= i < |before| ==> before[i] == calls[i];
      AverageBelowMax(before, max);
      Distributes(max, Sum(before, Positive), Positive(c));
    }
  }

  /** The durations submitted, in order. */
  ghost function Durations(steps: seq<Step>): seq<int>
    decreases |steps|
  {
    if steps == [] then []
    else Durations(steps[..|steps| - 1]) + if steps[|steps| - 1].Begin? then [steps[|steps| - 1].ns] else []
  }

  lemma StepKeepsDurations(s: State, e: Step)
    requires CanStep(s, e)
    ensures var s' := Do(s, e);
      && |s'.calls| == |s.calls| + (if e.Begin? then 1 else 0)
      && (forall i :: 0 <= i < |s.calls| ==> s'.calls[i].ns == s.calls[i].ns)
      && (e.Begin? ==> s'.calls[|s.calls|].ns == e.ns)
  {
  }

  /** The calls of a state are the durations submitted so far. */
  lemma {:induction false} CallsAreDurations(steps: seq<Step>)
    requires IsRun(IDLE, steps)
    ensures var calls, ds := After(IDLE, steps).calls, Durations(steps);
      |calls| == |ds| && forall i :: 0 <= i < |ds| ==> calls[i].ns == ds[i]
    decreases |steps|
  {
    hide Do;
    if steps != [] {
      CallsAreDurations(steps[..|steps| - 1]);
      StepKeepsDurations(After(IDLE, steps[..|steps| - 1]), steps[|steps| - 1]);
    }
  }

  function One(ns: int): int {
    if ns > 0 then 1 else 0
  }

  function Ns(ns: int): int {
    if ns > 0 then ns else 0
  }

  lemma {:induction false} SumsOverDurations(calls: seq<Call>, ds: seq<int>)
    requires |calls| == |ds| && forall i :: 0 <= i < |ds| ==> calls[i].ns == ds[i]
    ensures Sum(calls, Positive) == Sum(ds, One) && Sum(calls, PositiveNs) == Sum(ds, Ns)
    decreases |ds|
  {
    if ds != [] {
      SumsOverDurations(calls[..|ds| - 1], ds[..|ds| - 1]);
    }
  }

  /** In terms of what was submitted: with no call in flight the maximum is the greatest duration, or 0 if none is
      positive, and count and sum are those of the positive durations. */
  lemma ExactOverDurations(steps: seq<Step>)
    requires IsRun(IDLE, steps) && Quiescent(After(IDLE, steps))
    ensures var s, ds := After(IDLE, steps), Durations(steps);
      && (forall i :: 0 <= i < |ds| ==> ds[i] <= s.max)
      && (s.max == 0 || s.max in ds)
      && s.count == Sum(ds, One) && s.sum == Sum(ds, Ns)
  {
    QuiescentIsExact(steps);
    CallsAreDurations(steps);
    SumsOverDurations(After(IDLE, steps).calls, Durations(steps));
  }

  /** A failed compare-and-swap means progress elsewhere: if the maximum differs from what call `i`
      loaded, some other call raised it since. */
  lemma {:induction false} FailedSwapMeansRaise(s: State, steps: seq<Step>, i: nat, seen: nat)
    requires IsRun(s, steps) && i < |s.calls|
    requires s.calls[i].stage == Loaded(seen) && s.max == seen
    requires forall q :: 0 <= q < |steps| ==> steps[q] != Go(i)
    ensures i < |After(s, steps).calls| && After(s, steps).calls[i] == s.calls[i]
    ensures After(s, steps).max != seen ==>
      exists r :: 0 <= r < |steps| && Raises(s, steps, r) && steps[r].Go? && steps[r].i != i
    decreases |steps|
  {
    if steps != [] {
      var n := |steps| - 1;
      var before := steps[..n];
      forall q | 0 <= q < |before|
        ensures before[q] != Go(i)
      {
        assert before[q] == steps[q];
      }
      FailedSwapMeansRaise(s, before, i, seen);
      if After(s, before).max != seen {
        var r :| 0 <= r < |before| && Raises(s, before, r) && before[r].Go? && before[r].i != i;
        assert before[..r] == steps[..r] && before[..r + 1] == steps[..r + 1];
        assert Raises(s, steps, r) && steps[r] == before[r];
      } else if After(s, steps).max != seen {
        assert steps[..n + 1] == steps;
        assert Raises(s, steps, n);
      }
    }
  }

  /** Step r changed the maximum. */
  ghost predicate Raises(s: State, steps: seq<Step>, r: nat)
    requires r < |steps|
  {
    IsRun(s, steps[..r]) && IsRun(s, steps[..r + 1]) && After(s, steps[..r]).max != After(s, steps[..r + 1]).max
  }

  // ----- progress

  /** The steps a call needs if nobody raises the maximum any more. */
  function Weight(c: Call, max: nat): int {
    match c.stage
    case Entered => 4
    case Counted => 3
    case Looping => 2
    case Loaded(seen) => if seen == max then 1 else 3
    case Returned => 0
  }

  function Unfinished(c: Call): int {
    if c.stage.Returned? then 0 else 1
  }

  ghost function WeightUnder(max: nat): (w: Call -> int)
    ensures forall c :: w(c) == Weight(c, max)
  {
    (c: Call) => Weight(c, max)
  }

  /** How many calls are in flight. */
  ghost function Open(s: State): (n: nat) {
    UnfinishedAtLeast0(s.calls);
    Sum(s.calls, Unfinished)
  }

  lemma UnfinishedAtLeast0(s: seq<Call>)
    ensures Sum(s, Unfinished) >= 0
  {
    var none := (c: Call) => 0;
    SumOfZeros(s, none);
    SumMonotone(s, none, Unfinished);
  }

  /** Two for every pair of n calls. */
  function Pairs(n: nat): nat {
    if n == 0 then 0 else Pairs(n - 1) + 2 * (n - 1)
  }

  lemma {:induction false} PairsClosed(n: nat)
    ensures Pairs(n) == n * (n - 1)
  {
    if n > 0 {
      PairsClosed(n - 1);
    }
  }

  /** A bound on the steps left: every raise costs each other unfinished call at most two more. */
  ghost function StepsLeft(s: State): int {
    Sum(s.calls, WeightUnder(s.max)) + Pairs(Open(s))
  }

  /** A step that leaves the maximum alone lowers the weight of its call. */
  lemma QuietStepDecreases(s: State, i: nat)
    requires Inv(s) && CanStep(s, Go(i)) && Do(s, Go(i)).max == s.max
    ensures StepsLeft(Do(s, Go(i))) < StepsLeft(s)
  {
    var c, c' := s.calls[i], Do(s, Go(i)).calls[i];
    assert CallInv(c, s.max);
    SumUpdate(s.calls, Unfinished, i, c');
    SumUpdate(s.calls, WeightUnder(s.max), i, c');
    assert Do(s, Go(i)).calls == s.calls[i := c'];
    assert Open(Do(s, Go(i))) == Open(s) || Open(Do(s, Go(i))) == Open(s) - 1;
  }

  /** When the maximum changes, no call in flight has more than two steps more to go. */
  lemma WeightsAfterRaise(calls: seq<Call>, max: nat, max': nat)
    ensures Sum(calls, WeightUnder(max')) <= Sum(calls, WeightUnder(max)) + 2 * Sum(calls, Unfinished)
  {
    var w := (c: Call) => WeightUnder(max)(c) + 2 * Unfinished(c);
    SumLinear(calls, WeightUnder(max), Unfinished, 2, w);
    SumMonotone(calls, WeightUnder(max'), w);
  }

  /** The step that raises the maximum finishes its call. */
  lemma RaiseDecreases(s: State, i: nat)
    requires Inv(s) && CanStep(s, Go(i)) && Do(s, Go(i)).max != s.max
    ensures StepsLeft(Do(s, Go(i))) < StepsLeft(s)
  {
    var s' := Do(s, Go(i));
    var c' := s'.calls[i];
    SumUpdate(s.calls, Unfinished, i, c');
    SumUpdate(s.calls, WeightUnder(s.max), i, c');
    assert s'.calls == s.calls[i := c'];
    WeightsAfterRaise(s'.calls, s.max, s'.max);
    assert Open(s') == Open(s) - 1;
  }

  /** Each step of a call, whoever is scheduled, brings the end nearer. */
  lemma StepsDecrease(s: State, i: nat)
    requires Inv(s) && CanStep(s, Go(i))
    ensures StepsLeft(Do(s, Go(i))) < StepsLeft(s)
  {
    if Do(s, Go(i)).max == s.max {
      QuietStepDecreases(s, i);
    } else {
      RaiseDecreases(s, i);
    }
  }

  /** Lock freedom: from any reachable state the calls in flight take at most StepsLeft steps between
      them, under every schedule. */
  lemma {:induction false} SchedulesAreFinite(s: State, steps: seq<Step>)
    requires Inv(s) && IsRun(s, steps) && forall k :: 0 <= k < |steps| ==> steps[k].Go?
    ensures Inv(After(s, steps)) && |steps| + StepsLeft(After(s, steps)) <= StepsLeft(s)
    decreases |steps|
  {
    if steps != [] {
      var before := steps[..|steps| - 1];
      forall k | 0 <= k < |before|
        ensures before[k].Go?
      {
        assert before[k] == steps[k];
      }
      SchedulesAreFinite(s, before);
      InvStep(After(s, before), steps[|steps| - 1]);
      StepsDecrease(After(s, before), steps[|steps| - 1].i);
    }
  }

  lemma StepsLeftBounds(s: State)
    ensures 0 <= StepsLeft(s) <= 4 * Open(s) + Pairs(Open(s))
  {
    var none, most, w := (c: Call) => 0, (c: Call) => 0 + 4 * Unfinished(c), WeightUnder(s.max);
    SumLinear(s.calls, none, Unfinished, 4, most);
    SumOfZeros(s.calls, none);
    SumMonotone(s.calls, none, w);
    SumMonotone(s.calls, w, most);
  }

  lemma StepsAreFew(start: seq<Step>, steps: seq<Step>)
    requires IsRun(IDLE, start)
    requires IsRun(After(IDLE, start), steps) && forall k :: 0 <= k < |steps| ==> steps[k].Go?
    ensures |steps| <= 4 * Open(After(IDLE, start)) + Pairs(Open(After(IDLE, start)))
  {
    RunInvariant(start);
    SchedulesAreFinite(After(IDLE, start), steps);
    StepsLeftBounds(After(IDLE, start));
    StepsLeftBounds(After(After(IDLE, start), steps));
  }

  lemma Closed(u: nat, n: nat)
    requires n <= 4 * u + Pairs(u)
    ensures n <= u * (u + 3)
  {
    PairsClosed(u);
  }

  /** u unfinished calls all return within u * (u + 3) steps, however they are scheduled. */
  lemma LockFree(start: seq<Step>, steps: seq<Step>, u: nat)
    requires IsRun(IDLE, start) && u == Open(After(IDLE, start))
    requires IsRun(After(IDLE, start), steps) && forall k :: 0 <= k < |steps| ==> steps[k].Go?
    ensures |steps| <= u * (u + 3)
  {
    StepsAreFew(start, steps);
    Closed(u, |steps|);
  }
}
