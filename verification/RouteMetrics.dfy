/**
 The code of the metrics registry: the ring in place on an array, the counters, the latency loop and the
 map of routes. Here each call runs alone; `AloneIsServed` and `LatencyAlone` show that what it does is
 what its atomic steps in `MetricsRun` and `LatencyMax` add up to.
 */
module RouteMetrics {
  import opened Ring
  import M = MetricsRun
  import L = LatencyMax

  datatype Latency = Latency(count: nat, sum: nat, max: nat)

  /** Durations of zero or less are not observed. */
  function Observe(l: Latency, d: int): Latency {
    if d <= 0 then l else Latency(l.count + 1, l.sum + d, if d > l.max then d else l.max)
  }

  /** Up to n steps of latency call i and of no other. */
  function LatencySteps(s: L.State, i: nat, n: nat): L.State
    decreases n
  {
    if n == 0 || !L.CanStep(s, L.Go(i)) then s else LatencySteps(L.Do(s, L.Go(i)), i, n - 1)
  }

  /** A latency call that nobody interrupts returns after four steps at most, having observed its duration. */
  lemma LatencyAlone(s: L.State, d: int)
    ensures var s', i := LatencySteps(L.Do(s, L.Begin(d)), |s.calls|, 4), |s.calls|;
      && |s'.calls| == |s.calls| + 1 && s'.calls[i].stage.Returned?
      && Latency(s'.count, s'.sum, s'.max) == Observe(Latency(s.count, s.sum, s.max), d)
  {
    var i, s0 := |s.calls|, L.Do(s, L.Begin(d));
    if d > 0 {
      var s1 := L.Do(s0, L.Go(i));
      var s2 := L.Do(s1, L.Go(i));
      var s3 := L.Do(s2, L.Go(i));
      assert LatencySteps(s2, i, 2) == LatencySteps(s3, i, 1);
      assert LatencySteps(s0, i, 4) == LatencySteps(s1, i, 3) == LatencySteps(s2, i, 2);
      assert s2.calls[i] == L.Call(d, L.Looping);
    }
  }

  function Shown(l: map<string, Latency>, route: string): map<string, Latency> {
    if route in l then l else l[route := Latency(0, 0, 0)]
  }

  /** A route's latency after one more duration; it starts with nothing. */
  lemma ObservedOnce(l: map<string, Latency>, route: string, d: int)
    ensures Shown(l, route)[route := Observe(Shown(l, route)[route], d)]
         == l[route := Observe(if route in l then l[route] else Latency(0, 0, 0), d)]
  {
    hide Observe;
  }

  // ----- one call alone

  function BumpAll(m: M.Metrics, bumps: seq<(M.Kind, int)>, n: nat): (m': M.Metrics)
    requires n <= |bumps|
    ensures m'.ring == m.ring && m'.route == m.route
  {
    if n == 0 then m else M.Bump(BumpAll(m, bumps, n - 1), bumps[n - 1])
  }

  /** All that one call does to its route's metrics. */
  function Apply(m: M.Metrics, t: M.Traffic, now: int): M.Metrics
    requires m.ring.Valid()
  {
    M.Record(BumpAll(m, M.Bumps(t), |M.Bumps(t)|), now, M.SampleOf(t))
  }

  lemma ApplyIs(m: M.Metrics, m': M.Metrics, t: M.Traffic, now: int)
    requires m.ring.Valid() && m'.route == m.route
    requires m'.counters == BumpAll(m, M.Bumps(t), |M.Bumps(t)|).counters
    requires m'.ring == if M.SampleOf(t).None? then m.ring else Ring.Record(m.ring, now, M.SampleOf(t).value)
    ensures m' == Apply(m, t, now)
  {
  }

  lemma BumpsAddUp(m: M.Metrics, t: M.Traffic)
    ensures BumpAll(m, M.Bumps(t), |M.Bumps(t)|).counters == match t
      case In(n) => m.counters.(bytesIn := m.counters.bytesIn + n)
      case Out(n) => m.counters.(bytesOut := m.counters.bytesOut + n)
      case Http => m.counters.(requests := m.counters.requests + 1)
      case OpenConn => m.counters.(requests := m.counters.requests + 1, activeConns := m.counters.activeConns + 1,
                                   totalConns := m.counters.totalConns + 1)
      case CloseConn => m.counters.(activeConns := m.counters.activeConns - 1)
  {
    if t.OpenConn? {
      assert BumpAll(m, M.Bumps(t), 1) == M.Bump(m, (M.ActiveConns, 1));
      assert BumpAll(m, M.Bumps(t), 2) == M.Bump(M.Bump(m, (M.ActiveConns, 1)), (M.TotalConns, 1));
    }
  }

  type Table = map<string, M.Metrics>

  ghost predicate RingsValid(v: Table) {
    forall r :: r in v ==> v[r].ring.Valid()
  }

  function Installed(v: Table, route: string, created: int): Table {
    if route in v then v else v[route := M.NewMetrics(route, created)]
  }

  /** The registry after one call, `created` and `now` being its clock readings. */
  function Served(v: Table, route: string, t: M.Traffic, created: int, now: int): Table
    requires RingsValid(v)
  {
    if M.Ignored(t) then v
    else var v' := Installed(v, route, created); v'[route := Apply(v'[route], t, now)]
  }

  lemma ServedIs(v: Table, v': Table, route: string, t: M.Traffic, created: int, now: int)
    requires RingsValid(v) && !M.Ignored(t) && RingsValid(Installed(v, route, created))
    requires v' == Installed(v, route, created)[route := Apply(Installed(v, route, created)[route], t, now)]
    ensures v' == Served(v, route, t, created, now)
  {
  }

  /** What one call leaves, in numbers: each counter of its route grows by the call's full amount, the ring gets one
      sample of the full amounts unless they are nothing, and the other routes stay as they are.  A byte count of
      zero or less leaves everything as it is. */
  lemma ServedAdds(v: Table, route: string, t: M.Traffic, created: int, now: int)
    requires RingsValid(v)
    ensures var v' := Served(v, route, t, created, now);
      var bytesIn, bytesOut, requests := M.AmountOf(t, M.BytesIn), M.AmountOf(t, M.BytesOut), M.AmountOf(t, M.Requests);
      && (forall q :: q != route ==> (q in v' <==> q in v) && (q in v ==> v'[q] == v[q]))
      && if (t.In? || t.Out?) && t.n <= 0 then v' == v
         else
           var before := if route in v then v[route] else M.Metrics(route, M.Counters(0, 0, 0, 0, 0), Reset(created));
           && route in v' && v'[route].route == before.route
           && (forall k :: M.Count(v'[route], k) == M.Count(before, k) + M.AmountOf(t, k))
           && v'[route].ring == if bytesIn + bytesOut + requests == 0 then before.ring
                                else Ring.Record(before.ring, now, Sample(bytesIn, bytesOut, requests))
  {
    hide Reset, Ring.Record;
    M.SampleIsAmount(t);
    if !M.Ignored(t) {
      BumpsAddUp(Installed(v, route, created)[route], t);
    }
  }

  ghost function ViewOf(s: M.State): Table
    requires M.RoutesInv(s)
  {
    map r | r in s.routes :: s.objs[s.routes[r]]
  }

  /** Up to n steps of writer i and of nobody else.  It reads the clock when it installs its route's metrics
      and when it records its sample. */
  ghost function StepsOf(s: M.State, i: nat, created: int, now: int, n: nat): (s': M.State)
    requires M.RoutesInv(s) && i < |s.writers|
    ensures M.RoutesInv(s')
    decreases n
  {
    if n == 0 || !M.CanWrite(s, s.writers[i]) then s
    else
      var at := if s.writers[i].stage.Missed? then created else now;
      M.RoutesAfterWrite(s, i, at);
      StepsOf(M.DoWrite(s, i, at), i, created, now, n - 1)
  }

  lemma {:induction false} HoldingRuns(s: M.State, i: nat, created: int, now: int, n: nat)
    requires M.RoutesInv(s) && i < |s.writers|
    requires var w := s.writers[i];
      && w.stage.Holding?
      && n > |M.Bumps(w.traffic)| - w.stage.made >= 0
      && w.stage.obj < |s.objs|
    ensures var w, o := s.writers[i], s.writers[i].stage.obj;
      var left := M.Bumps(w.traffic)[w.stage.made..];
      var s' := StepsOf(s, i, created, now, n);
      && s'.routes == s.routes
      && s'.objs == s.objs[o := M.Record(BumpAll(s.objs[o], left, |left|), now, M.SampleOf(w.traffic))]
    decreases n
  {
    var w, o := s.writers[i], s.writers[i].stage.obj;
    var left := M.Bumps(w.traffic)[w.stage.made..];
    assert M.WriterInv(s, w);
    M.RoutesAfterWrite(s, i, now);
    var s1 := M.DoWrite(s, i, now);
    if left == [] {
      assert StepsOf(s1, i, created, now, n - 1) == s1;
    } else {
      HoldingRuns(s1, i, created, now, n - 1);
      assert M.Bumps(w.traffic)[w.stage.made + 1..] == left[1..];
      BumpFirst(s.objs[o], left, |left|);
    }
  }

  lemma {:induction false} BumpFirst(m: M.Metrics, bumps: seq<(M.Kind, int)>, n: nat)
    requires 0 < n <= |bumps|
    ensures BumpAll(m, bumps, n) == BumpAll(M.Bump(m, bumps[0]), bumps[1..], n - 1)
    decreases n
  {
    if n > 1 {
      BumpFirst(m, bumps, n - 1);
    }
  }

  /** The steps of a call that nobody interrupts add up to `Served`. */
  lemma AloneIsServed(s: M.State, route: string, t: M.Traffic, created: int, now: int)
    requires M.RoutesInv(s)
    ensures M.RoutesInv(M.Do(s, M.BeginWrite(route, t)))
    ensures ViewOf(StepsOf(M.Do(s, M.BeginWrite(route, t)), |s.writers|, created, now, |M.Bumps(t)| + 3))
         == Served(ViewOf(s), route, t, created, now)
  {
    hide M.Do, Apply, StepsOf, Served, Installed, ViewOf, M.RoutesInv, M.Bumps, M.Ignored;
    Begins(s, route, t);
    var s1, i, n := M.Do(s, M.BeginWrite(route, t)), |s.writers|, |M.Bumps(t)|;
    if M.Ignored(t) {
      SkippedStays(s1, i, created, now, n + 3);
      NotServed(ViewOf(s), route, t, created, now);
    } else {
      var s2, n2 := LookupRuns(s1, i, created, now, n + 3);
      FoundRuns(s2, i, created, now, n2);
      InstalledIsValid(s2);
      assert RingsValid(ViewOf(s2)) && ViewOf(s2) == Installed(ViewOf(s), route, created);
      ServedIs(ViewOf(s), ViewOf(StepsOf(s1, i, created, now, n + 3)), route, t, created, now);
    }
  }

  lemma Begins(s: M.State, route: string, t: M.Traffic)
    requires M.RoutesInv(s)
    ensures M.RingsValid(s) && M.CanStep(s, M.BeginWrite(route, t))
    ensures var s1 := M.Do(s, M.BeginWrite(route, t));
      && M.RoutesInv(s1) && ViewOf(s1) == ViewOf(s) && RingsValid(ViewOf(s)) && |s1.writers| == |s.writers| + 1
      && s1.writers[|s.writers|] == M.Writer(route, t, if M.Ignored(t) then M.Skipped else M.Looking)
  {
    M.RoutesInvStep(s, M.BeginWrite(route, t));
  }

  lemma SkippedStays(s: M.State, i: nat, created: int, now: int, n: nat)
    requires M.RoutesInv(s) && i < |s.writers| && s.writers[i].stage.Skipped?
    ensures StepsOf(s, i, created, now, n) == s
  {
  }

  lemma NotServed(v: Table, route: string, t: M.Traffic, created: int, now: int)
    requires RingsValid(v) && M.Ignored(t)
    ensures Served(v, route, t, created, now) == v
  {
  }

  lemma InstalledIsValid(s: M.State)
    requires M.RoutesInv(s)
    ensures RingsValid(ViewOf(s))
  {
  }

  lemma FoundRuns(s: M.State, i: nat, created: int, now: int, n: nat)
    requires M.RoutesInv(s) && i < |s.writers|
    requires s.writers[i].route in s.routes && s.writers[i].stage == M.Holding(s.routes[s.writers[i].route], 0)
    requires n > |M.Bumps(s.writers[i].traffic)|
    ensures s.writers[i].route in ViewOf(s) && RingsValid(ViewOf(s))
    ensures var w := s.writers[i];
      ViewOf(StepsOf(s, i, created, now, n)) == ViewOf(s)[w.route := Apply(ViewOf(s)[w.route], w.traffic, now)]
  {
    var w := s.writers[i];
    assert M.Bumps(w.traffic)[0..] == M.Bumps(w.traffic);
    HoldingRuns(s, i, created, now, n);
  }

  /** The first lookup finds the route's metrics or misses; nothing else changes. */
  lemma Looks(s: M.State, i: nat, created: int, now: int, n: nat) returns (s': M.State)
    requires M.RoutesInv(s) && i < |s.writers| && s.writers[i].stage.Looking? && n > 0
    ensures M.RoutesInv(s') && ViewOf(s') == ViewOf(s) && s'.routes == s.routes && |s'.writers| == |s.writers|
    ensures var w := s.writers[i];
      s'.writers[i] == w.(stage := if w.route in s.routes then M.Holding(s.routes[w.route], 0) else M.Missed)
    ensures StepsOf(s, i, created, now, n) == StepsOf(s', i, created, now, n - 1)
  {
    M.RoutesAfterWrite(s, i, now);
    s' := M.DoWrite(s, i, now);
  }

  /** The second lookup installs the metrics that are still missing. */
  lemma Installs(s: M.State, i: nat, created: int, now: int, n: nat) returns (s': M.State)
    requires M.RoutesInv(s) && i < |s.writers| && s.writers[i].stage.Missed? && s.writers[i].route !in s.routes && n > 0
    ensures M.RoutesInv(s') && ViewOf(s') == Installed(ViewOf(s), s.writers[i].route, created)
    ensures |s'.writers| == |s.writers| && s.writers[i].route in s'.routes
    ensures s'.writers[i] == s.writers[i].(stage := M.Holding(s'.routes[s.writers[i].route], 0))
    ensures StepsOf(s, i, created, now, n) == StepsOf(s', i, created, now, n - 1)
  {
    M.RoutesAfterWrite(s, i, created);
    s' := M.DoWrite(s, i, created);
  }

  /** Once the lookups are over the writer holds the metrics of its route. */
  lemma LookupRuns(s: M.State, i: nat, created: int, now: int, n: nat) returns (s': M.State, n': nat)
    requires M.RoutesInv(s) && i < |s.writers| && s.writers[i].stage.Looking? && n >= 2
    ensures M.RoutesInv(s') && ViewOf(s') == Installed(ViewOf(s), s.writers[i].route, created) && n' + 2 >= n
    ensures i < |s'.writers| && s.writers[i].route in s'.routes
    ensures s'.writers[i] == s.writers[i].(stage := M.Holding(s'.routes[s.writers[i].route], 0))
    ensures StepsOf(s, i, created, now, n) == StepsOf(s', i, created, now, n')
  {
    n' := n - 1;
    s' := Looks(s, i, created, now, n);
    if s.writers[i].route !in s.routes {
      n' := n - 2;
      s' := Installs(s', i, created, now, n - 1);
    }
  }

  /** An HTTP request that nobody interrupts, its latency included. */
  lemma RequestAlone(s: M.State, latency: L.State, route: string, dur: int, created: int, now: int)
    requires M.RoutesInv(s)
    ensures M.RoutesInv(M.Do(s, M.BeginWrite(route, M.Http)))
    ensures ViewOf(StepsOf(M.Do(s, M.BeginWrite(route, M.Http)), |s.writers|, created, now, 4))
         == Served(ViewOf(s), route, M.Http, created, now)
    ensures var after := LatencySteps(L.Do(latency, L.Begin(dur)), |latency.calls|, 4);
      Latency(after.count, after.sum, after.max) == Observe(Latency(latency.count, latency.sum, latency.max), dur)
  {
    hide StepsOf, LatencySteps, Served, Observe;
    AloneIsServed(s, route, M.Http, created, now);
    LatencyAlone(latency, dur);
  }

  // ----- the code

  /** The value of a snapshot. */
  datatype RouteSnapshot = RouteSnapshot(route: string, counters: M.Counters, latency: Latency, samples: seq<Sample>)

  class Metrics {
    const route: string
    var requests: int
    var bytesIn: int
    var bytesOut: int
    var totalConns: int
    var activeConns: int
    var latencyCount: nat
    var latencySumNs: nat
    var latencyMaxNs: nat
    const samples: array<Sample>
    var head: nat
    var bucketStart: int

    ghost predicate Valid()
      reads this`head
    {
      samples.Length == BUCKETS && head < BUCKETS
    }

    ghost function RingView(): (r: RingState)
      requires Valid()
      reads this`head, this`bucketStart, samples
      ensures r.Valid()
    {
      RingState(samples[..], head, bucketStart)
    }

    ghost function View(): (m: M.Metrics)
      requires Valid()
      reads this, samples
      ensures m.ring.Valid()
    {
      M.Metrics(route, CountersView(), RingView())
    }

    ghost function LatencyView(): Latency
      reads this`latencyCount, this`latencySumNs, this`latencyMaxNs
    {
      Latency(latencyCount, latencySumNs, latencyMaxNs)
    }

    constructor (route: string, now: int)
      ensures Valid() && View() == M.NewMetrics(route, now) && LatencyView() == Latency(0, 0, 0)
      ensures this.route == route && fresh(samples)
    {
      this.route := route;
      requests, bytesIn, bytesOut, totalConns, activeConns := 0, 0, 0, 0, 0;
      latencyCount, latencySumNs, latencyMaxNs := 0, 0, 0;
      samples := new Sample[BUCKETS]((i: nat) => NOTHING);
      head, bucketStart := 0, now;
      new;
      assert samples[..] == EmptyBuckets();
    }

    method CompareAndSwapMax(expected: nat, value: nat) returns (swapped: bool)
      modifies this`latencyMaxNs
      ensures swapped == (old(latencyMaxNs) == expected)
      ensures latencyMaxNs == if swapped then value else old(latencyMaxNs)
    {
      swapped := latencyMaxNs == expected;
      if swapped {
        latencyMaxNs := value;
      }
    }

    method RecordLatency(d: int)
      modifies this`latencyCount, this`latencySumNs, this`latencyMaxNs
      ensures LatencyView() == Observe(old(LatencyView()), d)
    {
      if d <= 0 {
        return;
      }
      latencyCount := latencyCount + 1;
      latencySumNs := latencySumNs + d;
      var done := false;
      while !done
        invariant latencyCount == old(latencyCount) + 1 && latencySumNs == old(latencySumNs) + d
        invariant latencyMaxNs == if done && d > old(latencyMaxNs) then d else old(latencyMaxNs)
        decreases !done
      {
        var seen := latencyMaxNs;
        if d <= seen {
          done := true;
        } else {
          done := CompareAndSwapMax(seen, d);
        }
      }
    }

    method ClearBuckets()
      requires Valid()
      modifies samples
      ensures samples[..] == EmptyBuckets()
    {
      for i := 0 to BUCKETS
        invariant forall j :: 0 <= j < i ==> samples[j] == NOTHING
      {
        samples[i] := NOTHING;
      }
      assert samples[..] == EmptyBuckets();
    }

    method AdvanceHead(n: nat)
      requires Valid()
      modifies this`head, samples
      ensures Valid() && RingView() == AdvanceBy(old(RingView()), n)
    {
      var i := 0;
      while i < n
        invariant 0 <= i <= n && Valid() && RingView() == AdvanceBy(old(RingView()), i)
      {
        head := Wrap(head + 1);
        samples[head] := NOTHING;
        i := i + 1;
      }
    }

    /** Makes the bucket of `now` current. */
    method TurnTo(now: int)
      requires Valid()
      modifies this`head, this`bucketStart, samples
      ensures Valid() && RingView() == Turn(old(RingView()), now)
    {
      if bucketStart == ZERO_TIME {
        bucketStart := now;
      }
      var elapsed := now - bucketStart;
      var bucketsElapsed := Minutes(elapsed);
      if bucketsElapsed >= BUCKETS {
        ClearBuckets();
        head := 0;
        bucketStart := now;
        bucketsElapsed := 0;
      }
      if bucketsElapsed > 0 {
        AdvanceHead(bucketsElapsed);
        bucketStart := bucketStart + Duration(bucketsElapsed);
      }
    }

    method RecordSample(now: int, bytesIn: nat, bytesOut: nat, requests: nat)
      requires Valid()
      modifies this`head, this`bucketStart, samples
      ensures Valid() && RingView() == Ring.Record(old(RingView()), now, Sample(bytesIn, bytesOut, requests))
    {
      TurnTo(now);
      samples[head] := Sample(samples[head].bytesIn + bytesIn, samples[head].bytesOut + bytesOut,
                              samples[head].requests + requests);
    }

    ghost function CountersView(): M.Counters
      reads this`requests, this`bytesIn, this`bytesOut, this`activeConns, this`totalConns
    {
      M.Counters(requests, bytesIn, bytesOut, activeConns, totalConns)
    }

    /** The additions of one call. */
    method Add(t: M.Traffic)
      requires Valid()
      modifies this`requests, this`bytesIn, this`bytesOut, this`activeConns, this`totalConns
      ensures CountersView() == BumpAll(old(View()), M.Bumps(t), |M.Bumps(t)|).counters
    {
      BumpsAddUp(View(), t);
      match t
      case In(n) =>
        bytesIn := bytesIn + n;
      case Out(n) =>
        bytesOut := bytesOut + n;
      case Http =>
        requests := requests + 1;
      case OpenConn =>
        activeConns := activeConns + 1;
        totalConns := totalConns + 1;
        requests := requests + 1;
      case CloseConn =>
        activeConns := activeConns - 1;
    }

    /** The sample of one call. */
    method RecordTraffic(t: M.Traffic, now: int)
      requires Valid() && !M.Ignored(t)
      modifies this`head, this`bucketStart, samples
      ensures Valid()
      ensures RingView() == if M.SampleOf(t).None? then old(RingView())
                            else Ring.Record(old(RingView()), now, M.SampleOf(t).value)
    {
      match t
      case In(n) => RecordSample(now, n, 0, 0);
      case Out(n) => RecordSample(now, 0, n, 0);
      case Http => RecordSample(now, 0, 0, 1);
      case OpenConn => RecordSample(now, 0, 0, 1);
      case CloseConn =>
    }

    /** The additions and the sample of one call, and a request's latency in between. */
    method Count(t: M.Traffic, dur: int, now: int)
      requires Valid() && !M.Ignored(t)
      modifies this, samples
      ensures Valid() && View() == Apply(old(View()), t, now)
      ensures LatencyView() == if t.Http? then Observe(old(LatencyView()), dur) else old(LatencyView())
    {
      hide Apply, BumpAll, Observe, Ring.Record;
      Add(t);
      if t.Http? {
        RecordLatency(dur);
      }
      RecordTraffic(t, now);
      ApplyIs(old(View()), View(), t, now);
    }

    method CopyBuckets() returns (out: array<Sample>)
      requires Valid()
      ensures fresh(out) && out[..] == Ring.Snapshot(RingView())
    {
      out := new Sample[BUCKETS]((i: nat) => NOTHING);
      for i := 0 to BUCKETS
        invariant forall j :: 0 <= j < i ==> out[j] == Ring.Snapshot(RingView())[j]
      {
        var idx := Wrap(head + 1 + i);
        SnapshotAt(RingView(), i);
        out[i] := samples[idx];
      }
    }

    method Snapshot() returns (s: RouteSnapshot)
      requires Valid()
      ensures s == RouteSnapshot(route, View().counters, LatencyView(), Ring.Snapshot(RingView()))
    {
      var latency := Latency(latencyCount, latencySumNs, latencyMaxNs);
      var out := CopyBuckets();
      s := RouteSnapshot(route, M.Counters(requests, bytesIn, bytesOut, activeConns, totalConns), latency, out[..]);
    }
  }

  class Registry {
    var routes: map<string, Metrics>
    ghost var table: Table
    ghost var latencies: map<string, Latency>
    ghost var Repr: set<object>

    ghost predicate Valid()
      reads this, Repr
    {
      && this !in Repr
      && table.Keys == routes.Keys && latencies.Keys == routes.Keys
      && (forall r :: r in routes ==> Owned(r))
      && (forall r, q :: r in routes && q in routes && r != q ==> routes[r].samples != routes[q].samples)
    }

    /** The metrics of route r are as the table says. */
    ghost predicate Owned(r: string)
      requires r in routes
      reads this, Repr
    {
      var m := routes[r];
      && m in Repr && m.samples in Repr
      && m.Valid() && m.route == r
      && r in table && table[r] == m.View()
      && r in latencies && latencies[r] == m.LatencyView()
    }

    constructor ()
      ensures Valid() && table == map[] && latencies == map[] && fresh(Repr)
    {
      routes, table, latencies, Repr := map[], map[], map[], {};
    }

    /** The routes other than m's are as they were. */
    twostate lemma OthersKept(m: Metrics)
      requires old(Valid()) && routes == old(routes) && table == old(table) && latencies == old(latencies) && Repr == old(Repr)
      requires m.route in routes && routes[m.route] == m
      requires forall o: object :: o in Repr && o != m && o != m.samples ==> unchanged(o)
      ensures forall r :: r in routes && r != m.route ==> Owned(r)
    {
      forall r | r in routes && r != m.route
        ensures Owned(r)
      {
        assert old(Owned(r)) && old(Owned(m.route));
        assert unchanged(routes[r]) && unchanged(routes[r].samples);
      }
    }

    /** Nothing but the table has changed, and it says the same of r. */
    twostate lemma StillOwned(r: string)
      requires routes == old(routes) && Repr == old(Repr) && r in routes && old(Owned(r))
      requires r in table && old(r in table) && table[r] == old(table[r])
      requires r in latencies && old(r in latencies) && latencies[r] == old(latencies[r])
      requires unchanged(routes[r]) && unchanged(routes[r].samples)
      ensures Owned(r)
    {
    }

    lemma NowOwned(m: Metrics)
      requires m.route in routes && routes[m.route] == m && m in Repr && m.samples in Repr && m.Valid()
      requires m.route in table && table[m.route] == m.View()
      requires m.route in latencies && latencies[m.route] == m.LatencyView()
      ensures Owned(m.route)
    {
    }

    /** The table's entry for m brought up to date. */
    ghost method Refresh(m: Metrics)
      requires this !in Repr && table.Keys + {m.route} == routes.Keys && latencies.Keys + {m.route} == routes.Keys
      requires m.route in routes && routes[m.route] == m && m in Repr && m.samples in Repr && m.Valid()
      requires forall r :: r in routes && r != m.route ==> Owned(r)
      requires forall r, q :: r in routes && q in routes && r != q ==> routes[r].samples != routes[q].samples
      modifies this`table, this`latencies
      ensures Valid()
      ensures table == old(table)[m.route := m.View()] && latencies == old(latencies)[m.route := m.LatencyView()]
    {
      hide Owned, Metrics.View, Metrics.LatencyView;
      table := table[m.route := m.View()];
      latencies := latencies[m.route := m.LatencyView()];
      forall r | r in routes
        ensures Owned(r)
      {
        if r == m.route {
          NowOwned(m);
        } else {
          StillOwned(r);
        }
      }
    }

    method Install(m: Metrics)
      requires Valid() && m.Valid() && m.route !in routes && m !in Repr && m.samples !in Repr
      modifies this
      ensures Valid() && Repr == old(Repr) + {m, m.samples} && routes == old(routes)[m.route := m]
      ensures table == old(table)[m.route := m.View()] && latencies == old(latencies)[m.route := m.LatencyView()]
    {
      hide Metrics.View, Metrics.LatencyView;
      routes := routes[m.route := m];
      Repr := Repr + {m, m.samples};
      assert forall r :: r in routes && r != m.route ==> old(Owned(r));
      Refresh(m);
    }

    method Get(route: string, created: int) returns (m: Metrics)
      requires Valid()
      modifies this
      ensures Valid() && route in routes && routes[route] == m && fresh(Repr - old(Repr))
      ensures table == Installed(old(table), route, created)
      ensures latencies == Shown(old(latencies), route)
    {
      if route in routes {
        return routes[route];
      }
      m := new Metrics(route, created);
      Install(m);
    }

    /** One call's work on the metrics of its route. */
    method Charge(m: Metrics, t: M.Traffic, dur: int, now: int)
      requires Valid() && !M.Ignored(t) && m.route in routes && routes[m.route] == m
      modifies this`table, this`latencies, m, m.samples
      ensures Valid() && table == old(table)[m.route := Apply(old(table)[m.route], t, now)]
      ensures latencies == if t.Http? then old(latencies)[m.route := Observe(old(latencies)[m.route], dur)]
                           else old(latencies)
    {
      hide Apply, Observe;
      assert Owned(m.route);
      m.Count(t, dur, now);
      OthersKept(m);
      Refresh(m);
    }

    method RecordHTTPRequest(route: string, dur: int, created: int, now: int)
      requires Valid()
      modifies this, Repr
      ensures Valid() && fresh(Repr - old(Repr))
      ensures table == Served(old(table), route, M.Http, created, now)
      ensures latencies == old(latencies)[route := Observe(if route in old(latencies) then old(latencies)[route]
                                                           else Latency(0, 0, 0), dur)]
    {
      hide Observe, Served, Apply, Installed;
      ObservedOnce(latencies, route, dur);
      var m := Get(route, created);
      assert Owned(route);
      Charge(m, M.Http, dur, now);
      ServedIs(old(table), table, route, M.Http, created, now);
    }

    method RecordBytesIn(route: string, n: int, created: int, now: int)
      requires Valid()
      modifies this, Repr
      ensures Valid() && fresh(Repr - old(Repr))
      ensures table == Served(old(table), route, M.In(n), created, now)
      ensures latencies == if n <= 0 then old(latencies) else Shown(old(latencies), route)
    {
      if n <= 0 {
        return;
      }
      var m := Get(route, created);
      assert Owned(route);
      Charge(m, M.In(n), 0, now);
      ServedIs(old(table), table, route, M.In(n), created, now);
    }

    method RecordBytesOut(route: string, n: int, created: int, now: int)
      requires Valid()
      modifies this, Repr
      ensures Valid() && fresh(Repr - old(Repr))
      ensures table == Served(old(table), route, M.Out(n), created, now)
      ensures latencies == if n <= 0 then old(latencies) else Shown(old(latencies), route)
    {
      if n <= 0 {
        return;
      }
      var m := Get(route, created);
      assert Owned(route);
      Charge(m, M.Out(n), 0, now);
      ServedIs(old(table), table, route, M.Out(n), created, now);
    }

    method OpenConn(route: string, created: int, now: int)
      requires Valid()
      modifies this, Repr
      ensures Valid() && fresh(Repr - old(Repr))
      ensures table == Served(old(table), route, M.OpenConn, created, now)
      ensures latencies == Shown(old(latencies), route)
    {
      var m := Get(route, created);
      assert Owned(route);
      Charge(m, M.OpenConn, 0, now);
      ServedIs(old(table), table, route, M.OpenConn, created, now);
    }

    method CloseConn(route: string, created: int)
      requires Valid()
      modifies this, Repr
      ensures Valid() && fresh(Repr - old(Repr))
      ensures table == Served(old(table), route, M.CloseConn, created, created)
      ensures latencies == Shown(old(latencies), route)
    {
      var m := Get(route, created);
      assert Owned(route);
      Charge(m, M.CloseConn, 0, created);
      ServedIs(old(table), table, route, M.CloseConn, created, created);
    }
  }
}
