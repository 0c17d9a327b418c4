/**
 The metrics registry under any interleaving: `get` with its double check, writers that bump counters
 and then the ring, and readers that copy the ring and then load counters. Every critical section and
 every atomic operation is one step.
 */
module MetricsRun {
  import opened Bytes
  import opened Ring
  import opened Sums

  /** The atomic counters of a route, in the order in which a snapshot loads them. */
  datatype Kind = Requests | BytesIn | BytesOut | ActiveConns | TotalConns

  const LOAD_ORDER := [Requests, BytesIn, BytesOut, ActiveConns, TotalConns]

  /** What callers record: byte counts, a served request, a connection opened or closed. */
  datatype Traffic = In(n: int) | Out(n: int) | Http | OpenConn | CloseConn

  /** Byte counts of zero or less are not recorded. */
  predicate Ignored(t: Traffic) {
    (t.In? || t.Out?) && t.n <= 0
  }

  /** The atomic additions a caller makes, in order. */
  function Bumps(t: Traffic): seq<(Kind, int)> {
    match t
    case In(n) => [(BytesIn, n)]
    case Out(n) => [(BytesOut, n)]
    case Http => [(Requests, 1)]
    case OpenConn => [(ActiveConns, 1), (TotalConns, 1), (Requests, 1)]
    case CloseConn => [(ActiveConns, -1)]
  }

  /** The sample recorded after the additions, if any. */
  function SampleOf(t: Traffic): Option<Sample> {
    match t
    case In(n) => if n <= 0 then None else Some(Sample(n, 0, 0))
    case Out(n) => if n <= 0 then None else Some(Sample(0, n, 0))
    case Http => Some(Sample(0, 0, 1))
    case OpenConn => Some(Sample(0, 0, 1))
    case CloseConn => None
  }

  /** How far a writer has come: before the first lookup, after it failed, holding the route's metrics
      with some additions made, or returned. */
  datatype Stage = Looking | Missed | Holding(obj: nat, made: nat) | Returned(obj: nat) | Skipped

  datatype Writer = Writer(route: string, traffic: Traffic, stage: Stage) {
    predicate Has(o: nat) {
      (stage.Holding? || stage.Returned?) && stage.obj == o
    }
  }

  /** A snapshot of one route being taken: the ring's copy first, then the counters one by one. */
  datatype Reader = Reader(obj: nat, copied: Option<seq<Sample>>, loaded: seq<int>)

  datatype Counters = Counters(requests: int, bytesIn: int, bytesOut: int, activeConns: int, totalConns: int)

  datatype Metrics = Metrics(route: string, counters: Counters, ring: RingState)

  datatype State = State(routes: map<string, nat>, objs: seq<Metrics>, writers: seq<Writer>, readers: seq<Reader>)

  const NEW_REGISTRY := State(map[], [], [], [])

  datatype Step =
    | BeginWrite(route: string, traffic: Traffic)
    | Write(i: nat, now: int)
    | BeginRead(obj: nat)
    | Read(j: nat)

  predicate CanStep(s: State, e: Step) {
    match e
    case BeginWrite(_, _) => true
    case Write(i, _) => i < |s.writers| && CanWrite(s, s.writers[i])
    case BeginRead(o) => o < |s.objs|
    case Read(j) => j < |s.readers| && |s.readers[j].loaded| < |LOAD_ORDER| && s.readers[j].obj < |s.objs|
  }

  predicate CanWrite(s: State, w: Writer) {
    match w.stage
    case Looking => true
    case Missed => true
    case Holding(o, made) => o < |s.objs| && made <= |Bumps(w.traffic)|
    case Returned(_) => false
    case Skipped => false
  }

  function Count(m: Metrics, k: Kind): int {
    match k
    case Requests => m.counters.requests
    case BytesIn => m.counters.bytesIn
    case BytesOut => m.counters.bytesOut
    case ActiveConns => m.counters.activeConns
    case TotalConns => m.counters.totalConns
  }

  function NewMetrics(route: string, now: int): Metrics {
    Metrics(route, Counters(0, 0, 0, 0, 0), Reset(now))
  }

  function Bump(m: Metrics, b: (Kind, int)): Metrics {
    var c := m.counters;
    m.(counters := match b.0
      case Requests => c.(requests := c.requests + b.1)
      case BytesIn => c.(bytesIn := c.bytesIn + b.1)
      case BytesOut => c.(bytesOut := c.bytesOut + b.1)
      case ActiveConns => c.(activeConns := c.activeConns + b.1)
      case TotalConns => c.(totalConns := c.totalConns + b.1))
  }

  function Record(m: Metrics, now: int, sample: Option<Sample>): Metrics
    requires m.ring.Valid()
  {
    if sample.None? then m else m.(ring := Ring.Record(m.ring, now, sample.value))
  }

  ghost predicate RingsValid(s: State) {
    forall o :: 0 <= o < |s.objs| ==> s.objs[o].ring.Valid()
  }

  function Do(s: State, e: Step): State
    requires CanStep(s, e) && RingsValid(s)
  {
    match e
    case BeginWrite(route, t) =>
      s.(writers := s.writers + [Writer(route, t, if Ignored(t) then Skipped else Looking)])
    case Write(i, now) => DoWrite(s, i, now)
    case BeginRead(o) => s.(readers := s.readers + [Reader(o, None, [])])
    case Read(j) =>
      var r := s.readers[j];
      var r' := if r.copied.None? then r.(copied := Some(Snapshot(s.objs[r.obj].ring)))
                else r.(loaded := r.loaded + [Count(s.objs[r.obj], LOAD_ORDER[|r.loaded|])]);
      s.(readers := s.readers[j := r'])
  }

  function DoWrite(s: State, i: nat, now: int): State
    requires i < |s.writers| && CanWrite(s, s.writers[i]) && RingsValid(s)
  {
    var w := s.writers[i];
    match w.stage
    case Looking => MoveTo(s, i, if w.route in s.routes then Holding(s.routes[w.route], 0) else Missed)
    case Missed =>
      if w.route in s.routes then MoveTo(s, i, Holding(s.routes[w.route], 0))
      else MoveTo(s, i, Holding(|s.objs|, 0)).(routes := s.routes[w.route := |s.objs|],
                                               objs := s.objs + [NewMetrics(w.route, now)])
    case Holding(o, made) =>
      if made < |Bumps(w.traffic)| then
        MoveTo(s, i, Holding(o, made + 1)).(objs := s.objs[o := Bump(s.objs[o], Bumps(w.traffic)[made])])
      else
        MoveTo(s, i, Returned(o)).(objs := s.objs[o := Record(s.objs[o], now, SampleOf(w.traffic))])
  }

  function MoveTo(s: State, i: nat, stage: Stage): State
    requires i < |s.writers|
  {
    s.(writers := s.writers[i := s.writers[i].(stage := stage)])
  }

  // ----- one object per route

  /** Every route has one metrics object and every object its route, and writers hold the object of
      their own route. */
  ghost predicate RoutesInv(s: State) {
    && RingsValid(s)
    && (forall r :: r in s.routes ==> s.routes[r] < |s.objs| && s.objs[s.routes[r]].route == r)
    && (forall o :: 0 <= o < |s.objs| ==> s.objs[o].route in s.routes && s.routes[s.objs[o].route] == o)
    && (forall i :: 0 <= i < |s.writers| ==> WriterInv(s, s.writers[i]))
    && (forall j :: 0 <= j < |s.readers| ==> s.readers[j].obj < |s.objs|)
  }

  ghost predicate WriterInv(s: State, w: Writer) {
    && (Ignored(w.traffic) <==> w.stage.Skipped?)
    && (w.stage.Holding? || w.stage.Returned? ==> w.stage.obj < |s.objs| && s.objs[w.stage.obj].route == w.route)
    && (w.stage.Holding? ==> w.stage.made <= |Bumps(w.traffic)|)
  }

  /** Objects stay where they are and keep their routes. */
  lemma WriteKeepsObjects(s: State, i: nat, now: int, o: nat)
    requires RoutesInv(s) && i < |s.writers| && CanWrite(s, s.writers[i]) && o < |s.objs|
    ensures var s' := DoWrite(s, i, now); o < |s'.objs| && s'.objs[o].route == s.objs[o].route && s'.objs[o].ring.Valid()
  {
  }

  lemma WriteKeepsRoutes(s: State, i: nat, now: int, r: string)
    requires RoutesInv(s) && i < |s.writers| && CanWrite(s, s.writers[i]) && r in s.routes
    ensures r in DoWrite(s, i, now).routes && DoWrite(s, i, now).routes[r] == s.routes[r]
  {
  }

  lemma WriterMoves(s: State, i: nat, now: int)
    requires RoutesInv(s) && i < |s.writers| && CanWrite(s, s.writers[i])
    ensures WriterInv(DoWrite(s, i, now), DoWrite(s, i, now).writers[i])
  {
    assert WriterInv(s, s.writers[i]);
  }

  lemma RoutesAfterWrite(s: State, i: nat, now: int)
    requires RoutesInv(s) && i < |s.writers| && CanWrite(s, s.writers[i])
    ensures RoutesInv(DoWrite(s, i, now))
  {
    var s' := DoWrite(s, i, now);
    forall o | 0 <= o < |s'.objs|
      ensures s'.objs[o].ring.Valid() && s'.objs[o].route in s'.routes && s'.routes[s'.objs[o].route] == o
    {
      if o < |s.objs| {
        WriteKeepsObjects(s, i, now, o);
        WriteKeepsRoutes(s, i, now, s.objs[o].route);
      }
    }
    forall j | 0 <= j < |s'.writers|
      ensures WriterInv(s', s'.writers[j])
    {
      if j == i {
        WriterMoves(s, i, now);
      } else {
        WriterKept(s, i, now, s.writers[j]);
      }
    }
    forall r | r in s'.routes
      ensures s'.routes[r] < |s'.objs| && s'.objs[s'.routes[r]].route == r
    {
      if r in s.routes {
        WriteKeepsRoutes(s, i, now, r);
        WriteKeepsObjects(s, i, now, s.routes[r]);
      }
    }
  }

  lemma WriterKept(s: State, i: nat, now: int, w: Writer)
    requires RoutesInv(s) && i < |s.writers| && CanWrite(s, s.writers[i]) && WriterInv(s, w)
    ensures WriterInv(DoWrite(s, i, now), w)
  {
    if w.stage.Holding? || w.stage.Returned? {
      WriteKeepsObjects(s, i, now, w.stage.obj);
    }
  }

  lemma RoutesInvStep(s: State, e: Step)
    requires RoutesInv(s) && CanStep(s, e)
    ensures RoutesInv(Do(s, e))
  {
    if e.Write? {
      RoutesAfterWrite(s, e.i, e.now);
    } else {
      assert forall w :: WriterInv(s, w) ==> WriterInv(Do(s, e), w);
    }
  }

  // ----- counters

  /** What a writer has added to counter k so far. */
  function Made(t: Traffic, made: nat, k: Kind): int
    requires made <= |Bumps(t)|
  {
    if made == 0 then 0
    else Made(t, made - 1, k) + if Bumps(t)[made - 1].0 == k then Bumps(t)[made - 1].1 else 0
  }

  function Contribution(w: Writer, o: nat, k: Kind): int {
    if !w.Has(o) then 0
    else if w.stage.Returned? then Made(w.traffic, |Bumps(w.traffic)|, k)
    else if w.stage.made <= |Bumps(w.traffic)| then Made(w.traffic, w.stage.made, k)
    else 0
  }

  ghost function ContributionTo(o: nat, k: Kind): (f: Writer -> int)
    ensures forall w :: f(w) == Contribution(w, o, k)
  {
    (w: Writer) => Contribution(w, o, k)
  }

  /** Counter k of object o is the sum of what the writers have added to it. */
  ghost predicate CounterIs(s: State, o: nat, k: Kind)
    requires o < |s.objs|
  {
    Count(s.objs[o], k) == Sum(s.writers, ContributionTo(o, k))
  }

  ghost predicate CountersInv(s: State) {
    forall o, k :: 0 <= o < |s.objs| ==> CounterIs(s, o, k)
  }

  lemma CountersInvStep(s: State, e: Step)
    requires RoutesInv(s) && CountersInv(s) && CanStep(s, e)
    ensures CountersInv(Do(s, e))
  {
    var s' := Do(s, e);
    forall o: nat, k | 0 <= o < |s'.objs|
      ensures CounterIs(s', o, k)
    {
      assert o < |s.objs| ==> CounterIs(s, o, k);
      match e
      case BeginWrite(_, _) => SumAppend(s.writers, ContributionTo(o, k), s'.writers[|s.writers|]);
      case Write(i, now) => CounterAfterWrite(s, i, now, o, k);
      case BeginRead(_) =>
      case Read(_) =>
    }
  }

  /** A write adds to a counter what it adds to the writer's contribution. */
  lemma WriteAddsContribution(s: State, i: nat, now: int, o: nat, k: Kind)
    requires RoutesInv(s) && i < |s.writers| && CanWrite(s, s.writers[i]) && o < |s.objs|
    ensures var s' := DoWrite(s, i, now);
      o < |s'.objs| && Count(s'.objs[o], k) - Count(s.objs[o], k)
                       == Contribution(s'.writers[i], o, k) - Contribution(s.writers[i], o, k)
  {
    assert WriterInv(s, s.writers[i]);
  }

  lemma NobodyHoldsNewObject(s: State, k: Kind)
    requires RoutesInv(s)
    ensures Sum(s.writers, ContributionTo(|s.objs|, k)) == 0
  {
    forall j | 0 <= j < |s.writers|
      ensures ContributionTo(|s.objs|, k)(s.writers[j]) == 0
    {
      assert WriterInv(s, s.writers[j]);
    }
    SumOfZeros(s.writers, ContributionTo(|s.objs|, k));
  }

  lemma CounterAfterWrite(s: State, i: nat, now: int, o: nat, k: Kind)
    requires RoutesInv(s) && i < |s.writers| && CanWrite(s, s.writers[i])
    requires o < |s.objs| ==> CounterIs(s, o, k)
    requires o < |DoWrite(s, i, now).objs|
    ensures CounterIs(DoWrite(s, i, now), o, k)
  {
    var w' := DoWrite(s, i, now).writers[i];
    SumUpdate(s.writers, ContributionTo(o, k), i, w');
    assert DoWrite(s, i, now).writers == s.writers[i := w'];
    if o < |s.objs| {
      WriteAddsContribution(s, i, now, o, k);
    } else {
      NobodyHoldsNewObject(s, k);
      assert WriterInv(s, s.writers[i]);
    }
  }

  // ----- the ring stays below the counters

  /** The part of a sample counted by k. */
  function Part(x: Sample, k: Kind): int {
    match k
    case Requests => x.requests
    case BytesIn => x.bytesIn
    case BytesOut => x.bytesOut
    case ActiveConns => 0
    case TotalConns => 0
  }

  ghost function PartOf(k: Kind): (f: Sample -> int)
    ensures forall x :: f(x) == Part(x, k)
  {
    (x: Sample) => Part(x, k)
  }

  /** The total of the sixty buckets. */
  ghost function Total(samples: seq<Sample>, k: Kind): int {
    Sum(samples, PartOf(k))
  }

  lemma TotalOfEmpty(k: Kind)
    ensures Total(EmptyBuckets(), k) == 0
  {
    SumOfZeros(EmptyBuckets(), PartOf(k));
  }

  lemma TotalAtLeast0(samples: seq<Sample>, k: Kind)
    ensures Total(samples, k) >= 0
  {
    var none := (x: Sample) => 0;
    SumOfZeros(samples, none);
    SumMonotone(samples, none, PartOf(k));
  }

  lemma {:induction false} TotalAdvance(r: RingState, n: nat, k: Kind)
    requires r.Valid()
    ensures Total(AdvanceBy(r, n).samples, k) <= Total(r.samples, k)
  {
    if n > 0 {
      TotalAdvance(r, n - 1, k);
      var before := AdvanceBy(r, n - 1);
      SumUpdate(before.samples, PartOf(k), Wrap(before.head + 1), NOTHING);
    }
  }

  /** Recording a sample adds it once; buckets that fall out of the ring only lower the total. */
  lemma TotalRecord(r: RingState, now: int, x: Sample, k: Kind)
    requires r.Valid()
    ensures Total(Ring.Record(r, now, x).samples, k) <= Total(r.samples, k) + Part(x, k)
  {
    var t := Turn(r, now);
    var start := if r.bucketStart == ZERO_TIME then now else r.bucketStart;
    var n := Minutes(now - start);
    if n >= BUCKETS {
      TotalOfEmpty(k);
      TotalAtLeast0(r.samples, k);
    } else if n > 0 {
      TotalAdvance(r, n, k);
    }
    assert Total(t.samples, k) <= Total(r.samples, k);
    SumUpdate(t.samples, PartOf(k), t.head, Plus(t.samples[t.head], x));
  }

  lemma {:induction false} SumConcat(a: seq<Sample>, b: seq<Sample>, k: Kind)
    ensures Total(a + b, k) == Total(a, k) + Total(b, k)
    decreases |b|
  {
    if b == [] {
      assert a + b == a;
    } else {
      var b' := b[..|b| - 1];
      SumConcat(a, b', k);
      assert a + b == (a + b') + [b[|b| - 1]];
      SumAppend(a + b', PartOf(k), b[|b| - 1]);
    }
  }

  /** The snapshot's copy holds the ring's buckets, rotated. */
  lemma TotalOfSnapshot(r: RingState, k: Kind)
    requires r.Valid()
    ensures Total(Snapshot(r), k) == Total(r.samples, k)
  {
    SumConcat(r.samples[r.head + 1..], r.samples[..r.head + 1], k);
    SumConcat(r.samples[..r.head + 1], r.samples[r.head + 1..], k);
    assert r.samples == r.samples[..r.head + 1] + r.samples[r.head + 1..];
  }

  /** What a writer has added to the ring. */
  function Sampled(w: Writer, o: nat, k: Kind): int {
    if w.stage == Returned(o) && SampleOf(w.traffic).Some? then Part(SampleOf(w.traffic).value, k) else 0
  }

  ghost function SampledAt(o: nat, k: Kind): (f: Writer -> int)
    ensures forall w :: f(w) == Sampled(w, o, k)
  {
    (w: Writer) => Sampled(w, o, k)
  }

  ghost predicate RingBelow(s: State, o: nat, k: Kind)
    requires o < |s.objs|
  {
    Total(s.objs[o].ring.samples, k) <= Sum(s.writers, SampledAt(o, k))
  }

  ghost predicate RingsInv(s: State) {
    forall o, k :: 0 <= o < |s.objs| ==> RingBelow(s, o, k)
  }

  lemma RingsInvStep(s: State, e: Step)
    requires RoutesInv(s) && RingsInv(s) && CanStep(s, e)
    ensures RingsInv(Do(s, e))
  {
    var s' := Do(s, e);
    forall o: nat, k | 0 <= o < |s'.objs|
      ensures RingBelow(s', o, k)
    {
      assert o < |s.objs| ==> RingBelow(s, o, k);
      match e
      case BeginWrite(_, _) => SumAppend(s.writers, SampledAt(o, k), s'.writers[|s.writers|]);
      case Write(i, now) => RingAfterWrite(s, i, now, o, k);
      case BeginRead(_) =>
      case Read(_) =>
    }
  }

  lemma RingAfterWrite(s: State, i: nat, now: int, o: nat, k: Kind)
    requires RoutesInv(s) && i < |s.writers| && CanWrite(s, s.writers[i])
    requires o < |s.objs| ==> RingBelow(s, o, k)
    requires o < |DoWrite(s, i, now).objs|
    ensures RingBelow(DoWrite(s, i, now), o, k)
  {
    var s', w := DoWrite(s, i, now), s.writers[i];
    assert WriterInv(s, w);
    SumUpdate(s.writers, SampledAt(o, k), i, s'.writers[i]);
    assert s'.writers == s.writers[i := s'.writers[i]];
    if o == |s.objs| {
      forall j | 0 <= j < |s.writers|
        ensures SampledAt(o, k)(s.writers[j]) == 0
      {
        assert WriterInv(s, s.writers[j]);
      }
      SumOfZeros(s.writers, SampledAt(o, k));
      TotalOfEmpty(k);
    } else if w.Has(o) && SampleOf(w.traffic).Some? {
      TotalRecord(s.objs[o].ring, now, SampleOf(w.traffic).value, k);
    }
  }

  /** Writers bump the counter before the ring. */
  lemma RingBelowCounter(s: State, o: nat, k: Kind)
    requires RoutesInv(s) && CountersInv(s) && RingsInv(s) && o < |s.objs| && !k.ActiveConns?
    ensures Total(s.objs[o].ring.samples, k) <= Count(s.objs[o], k)
  {
    assert CounterIs(s, o, k) && RingBelow(s, o, k);
    forall i | 0 <= i < |s.writers|
      ensures SampledAt(o, k)(s.writers[i]) <= ContributionTo(o, k)(s.writers[i])
    {
      assert WriterInv(s, s.writers[i]);
      SampledAfterMade(s.writers[i], o, k);
    }
    SumMonotone(s.writers, SampledAt(o, k), ContributionTo(o, k));
  }

  lemma SampledAfterMade(w: Writer, o: nat, k: Kind)
    requires !k.ActiveConns? && (Ignored(w.traffic) ==> w.stage.Skipped?)
    ensures Sampled(w, o, k) <= Contribution(w, o, k)
  {
    MadeAll(w.traffic, k);
    if w.stage.Holding? && w.stage.made <= |Bumps(w.traffic)| {
      MadeAtLeast0(w.traffic, w.stage.made, k);
    }
  }

  lemma MadeAll(t: Traffic, k: Kind)
    ensures var n := |Bumps(t)|;
      && (t.In? ==> Made(t, n, k) == if k.BytesIn? then t.n else 0)
      && (t.Out? ==> Made(t, n, k) == if k.BytesOut? then t.n else 0)
      && (t.Http? ==> Made(t, n, k) == if k.Requests? then 1 else 0)
      && (t.OpenConn? ==> Made(t, n, k) == if k.BytesIn? || k.BytesOut? then 0 else 1)
      && (t.CloseConn? ==> Made(t, n, k) == if k.ActiveConns? then -1 else 0)
  {
    if t.OpenConn? {
      assert Made(t, 1, k) == if k.ActiveConns? then 1 else 0;
      assert Made(t, 2, k) == if k.ActiveConns? || k.TotalConns? then 1 else 0;
    }
  }

  lemma {:induction false} MadeAtLeast0(t: Traffic, made: nat, k: Kind)
    requires !k.ActiveConns? && !Ignored(t) && made <= |Bumps(t)|
    ensures Made(t, made, k) >= 0
    decreases made
  {
    if made > 0 {
      MadeAtLeast0(t, made - 1, k);
    }
  }

  // ----- snapshots

  /** The buckets copied are covered by the counters, loaded or still to be loaded. */
  ghost predicate ReaderInv(s: State, r: Reader)
    requires r.obj < |s.objs|
  {
    && |r.loaded| <= |LOAD_ORDER|
    && (r.copied.None? ==> r.loaded == [])
    && (r.copied.Some? ==> |r.copied.value| == BUCKETS && forall k: Kind :: !k.ActiveConns? ==> Covered(s, r, k))
  }

  ghost predicate Covered(s: State, r: Reader, k: Kind)
    requires r.obj < |s.objs| && r.copied.Some?
  {
    && Total(r.copied.value, k) <= Count(s.objs[r.obj], k)
    && (forall p :: 0 <= p < |r.loaded| && p < |LOAD_ORDER| && LOAD_ORDER[p] == k ==>
                      Total(r.copied.value, k) <= r.loaded[p])
  }

  ghost predicate ReadersInv(s: State)
    requires RoutesInv(s)
  {
    forall j :: 0 <= j < |s.readers| ==> ReaderInv(s, s.readers[j])
  }

  /** Counters other than the open connections never fall. */
  lemma CountersRise(s: State, e: Step, o: nat, k: Kind)
    requires RoutesInv(s) && CanStep(s, e) && o < |s.objs| && !k.ActiveConns?
    ensures o < |Do(s, e).objs| && Count(s.objs[o], k) <= Count(Do(s, e).objs[o], k)
  {
    if e.Write? {
      assert WriterInv(s, s.writers[e.i]);
    }
  }

  lemma ReadersInvStep(s: State, e: Step)
    requires RoutesInv(s) && CountersInv(s) && RingsInv(s) && ReadersInv(s) && CanStep(s, e)
    ensures RoutesInv(Do(s, e)) && ReadersInv(Do(s, e))
  {
    RoutesInvStep(s, e);
    var s' := Do(s, e);
    forall j | 0 <= j < |s'.readers|
      ensures ReaderInv(s', s'.readers[j])
    {
      if j < |s.readers| {
        ReaderKept(s, e, s.readers[j]);
        if e == Read(j) {
          ReaderAfterRead(s, j);
        }
      }
    }
  }

  lemma ReaderKept(s: State, e: Step, r: Reader)
    requires RoutesInv(s) && CanStep(s, e) && r.obj < |s.objs| && ReaderInv(s, r)
    ensures r.obj < |Do(s, e).objs| && ReaderInv(Do(s, e), r)
  {
    var s' := Do(s, e);
    CountersRise(s, e, r.obj, Requests);
    if r.copied.Some? {
      forall k: Kind | !k.ActiveConns?
        ensures Covered(s', r, k)
      {
        assert Covered(s, r, k);
        CountersRise(s, e, r.obj, k);
      }
    }
  }

  lemma ReaderAfterRead(s: State, j: nat)
    requires RoutesInv(s) && CountersInv(s) && RingsInv(s) && CanStep(s, Read(j)) && ReaderInv(s, s.readers[j])
    ensures ReaderInv(Do(s, Read(j)), Do(s, Read(j)).readers[j])
  {
    var s', r, r' := Do(s, Read(j)), s.readers[j], Do(s, Read(j)).readers[j];
    forall k: Kind | !k.ActiveConns?
      ensures Covered(s', r', k)
    {
      if r.copied.None? {
        TotalOfSnapshot(s.objs[r.obj].ring, k);
        RingBelowCounter(s, r.obj, k);
      } else {
        assert Covered(s, r, k);
      }
    }
  }

  // ----- runs

  ghost predicate Inv(s: State) {
    RoutesInv(s) && CountersInv(s) && RingsInv(s) && ReadersInv(s)
  }

  lemma InvStep(s: State, e: Step)
    requires Inv(s) && CanStep(s, e)
    ensures Inv(Do(s, e))
  {
    RoutesInvStep(s, e);
    CountersInvStep(s, e);
    RingsInvStep(s, e);
    ReadersInvStep(s, e);
  }

  /** The states of a run from the new registry, one more than its steps. */
  ghost predicate IsRun(states: seq<State>, steps: seq<Step>) {
    && |states| == |steps| + 1
    && states[0] == NEW_REGISTRY
    && (forall n :: 0 <= n < |steps| ==> Follows(states[n], steps[n], states[n + 1]))
  }

  ghost predicate Follows(s: State, e: Step, s': State) {
    RingsValid(s) && CanStep(s, e) && s' == Do(s, e)
  }

  lemma {:induction false} RunInvariant(states: seq<State>, steps: seq<Step>, n: nat)
    requires IsRun(states, steps) && n < |states|
    ensures Inv(states[n])
    decreases n
  {
    if n > 0 {
      RunInvariant(states, steps, n - 1);
      assert Follows(states[n - 1], steps[n - 1], states[n]);
      InvStep(states[n - 1], steps[n - 1]);
    }
  }

  /** The calls begun by the first n steps, in order. */
  function CallsBegun(steps: seq<Step>, n: nat): seq<(string, Traffic)>
    requires n <= |steps|
  {
    if n == 0 then []
    else CallsBegun(steps, n - 1) + if steps[n - 1].BeginWrite? then [(steps[n - 1].route, steps[n - 1].traffic)] else []
  }

  lemma StepKeepsCalls(s: State, e: Step)
    requires RingsValid(s) && CanStep(s, e)
    ensures var ws := Do(s, e).writers;
      && |ws| == |s.writers| + (if e.BeginWrite? then 1 else 0)
      && (forall i :: 0 <= i < |s.writers| ==> ws[i].route == s.writers[i].route && ws[i].traffic == s.writers[i].traffic)
      && (e.BeginWrite? ==> ws[|s.writers|].route == e.route && ws[|s.writers|].traffic == e.traffic)
  {
    hide Ring.Record, Reset, Snapshot;
  }

  /** The writers of a state are the calls begun by then, each with its route and its traffic. */
  lemma {:induction false} WritersAreCalls(states: seq<State>, steps: seq<Step>, n: nat)
    requires IsRun(states, steps) && n < |states|
    ensures var s, calls := states[n], CallsBegun(steps, n);
      && |s.writers| == |calls|
      && forall i :: 0 <= i < |calls| ==> calls[i] == (s.writers[i].route, s.writers[i].traffic)
    decreases n
  {
    hide Do, RingsValid;
    if n > 0 {
      WritersAreCalls(states, steps, n - 1);
      assert Follows(states[n - 1], steps[n - 1], states[n]);
      StepKeepsCalls(states[n - 1], steps[n - 1]);
    }
  }

  /** In every state of every run, the buckets of a finished snapshot add up to no more than the
      counters it returns. */
  lemma SnapshotConsistent(states: seq<State>, steps: seq<Step>, n: nat, j: nat)
    requires IsRun(states, steps) && n < |states| && j < |states[n].readers|
    requires |states[n].readers[j].loaded| == |LOAD_ORDER|
    ensures var r := states[n].readers[j];
      && r.copied.Some?
      && |r.copied.value| == BUCKETS
      && Total(r.copied.value, Requests) <= r.loaded[0]
      && Total(r.copied.value, BytesIn) <= r.loaded[1]
      && Total(r.copied.value, BytesOut) <= r.loaded[2]
  {
    RunInvariant(states, steps, n);
    var s, r := states[n], states[n].readers[j];
    assert ReaderInv(s, r);
    assert Covered(s, r, Requests) && Covered(s, r, BytesIn) && Covered(s, r, BytesOut);
    assert LOAD_ORDER[0] == Requests && LOAD_ORDER[1] == BytesIn && LOAD_ORDER[2] == BytesOut;
  }

  lemma StepKeepsRoute(s: State, e: Step, s': State, route: string)
    requires RoutesInv(s) && Follows(s, e, s') && route in s.routes
    ensures route in s'.routes && s'.routes[route] == s.routes[route]
  {
    if e.Write? {
      WriteKeepsRoutes(s, e.i, e.now, route);
    }
  }

  lemma NextKeepsRoute(states: seq<State>, steps: seq<Step>, n: nat, route: string)
    requires IsRun(states, steps) && n < |steps| && route in states[n].routes
    ensures route in states[n + 1].routes && states[n + 1].routes[route] == states[n].routes[route]
  {
    RunInvariant(states, steps, n);
    assert Follows(states[n], steps[n], states[n + 1]);
    StepKeepsRoute(states[n], steps[n], states[n + 1], route);
  }

  /** A route's object is installed once and never replaced. */
  lemma {:induction false} InstalledForGood(states: seq<State>, steps: seq<Step>, m: nat, n: nat, route: string)
    requires IsRun(states, steps) && m <= n < |states| && route in states[m].routes
    ensures route in states[n].routes && states[n].routes[route] == states[m].routes[route]
    decreases n
  {
    if m < n {
      InstalledForGood(states, steps, m, n - 1, route);
      NextKeepsRoute(states, steps, n - 1, route);
    }
  }

  /** What a writer of a route has added to counter k, whatever object it holds. */
  function MadeFor(w: Writer, route: string, k: Kind): int {
    if w.route == route && (w.stage.Holding? || w.stage.Returned?) then Contribution(w, w.stage.obj, k) else 0
  }

  ghost function MadeForRoute(route: string, k: Kind): (f: Writer -> int)
    ensures forall w :: f(w) == MadeFor(w, route, k)
  {
    (w: Writer) => MadeFor(w, route, k)
  }

  /** No count is lost: two callers that miss a route at once still share one object, and each counter
      of a route is the sum of all that its callers have added. */
  lemma NothingIsLost(states: seq<State>, steps: seq<Step>, n: nat, route: string, k: Kind)
    requires IsRun(states, steps) && n < |states| && route in states[n].routes
    ensures var s := states[n];
      && s.routes[route] < |s.objs|
      && Count(s.objs[s.routes[route]], k) == Sum(s.writers, MadeForRoute(route, k))
      && (forall i :: 0 <= i < |s.writers| && s.writers[i].route == route
                      && (s.writers[i].stage.Holding? || s.writers[i].stage.Returned?) ==>
                        s.writers[i].stage.obj == s.routes[route])
  {
    RunInvariant(states, steps, n);
    var s := states[n];
    var o := s.routes[route];
    assert CounterIs(s, o, k);
    forall i | 0 <= i < |s.writers|
      ensures ContributionTo(o, k)(s.writers[i]) == MadeForRoute(route, k)(s.writers[i])
      ensures s.writers[i].route == route && (s.writers[i].stage.Holding? || s.writers[i].stage.Returned?) ==>
                s.writers[i].stage.obj == o
    {
      assert WriterInv(s, s.writers[i]);
    }
    SumMonotone(s.writers, ContributionTo(o, k), MadeForRoute(route, k));
    SumMonotone(s.writers, MadeForRoute(route, k), ContributionTo(o, k));
  }

  /** The full amount a call adds to counter k of its route. */
  function AmountOf(t: Traffic, k: Kind): int {
    match k
    case Requests => if t.Http? || t.OpenConn? then 1 else 0
    case BytesIn => if t.In? && t.n > 0 then t.n else 0
    case BytesOut => if t.Out? && t.n > 0 then t.n else 0
    case ActiveConns => if t.OpenConn? then 1 else if t.CloseConn? then -1 else 0
    case TotalConns => if t.OpenConn? then 1 else 0
  }

  function Amount(w: Writer, route: string, k: Kind): int {
    if w.route == route then AmountOf(w.traffic, k) else 0
  }

  /** The sample of a call has its full amounts, and a call of no bytes and no request has none. */
  lemma SampleIsAmount(t: Traffic)
    ensures var bytesIn, bytesOut, requests := AmountOf(t, BytesIn), AmountOf(t, BytesOut), AmountOf(t, Requests);
      && bytesIn >= 0 && bytesOut >= 0 && requests >= 0
      && SampleOf(t) == if bytesIn + bytesOut + requests == 0 then None else Some(Sample(bytesIn, bytesOut, requests))
  {
  }

  ghost function AmountFor(route: string, k: Kind): (f: Writer -> int)
    ensures forall w :: f(w) == Amount(w, route, k)
  {
    (w: Writer) => Amount(w, route, k)
  }

  /** Once every call has returned, the counters are exact: bytes and requests in full, and open
      connections are opens less closes. */
  lemma QuietCountersExact(states: seq<State>, steps: seq<Step>, n: nat, route: string, k: Kind)
    requires IsRun(states, steps) && n < |states| && route in states[n].routes
    requires forall i :: 0 <= i < |states[n].writers| ==>
               states[n].writers[i].stage.Returned? || states[n].writers[i].stage.Skipped?
    ensures var s := states[n];
      s.routes[route] < |s.objs| && Count(s.objs[s.routes[route]], k) == Sum(s.writers, AmountFor(route, k))
  {
    NothingIsLost(states, steps, n, route, k);
    RunInvariant(states, steps, n);
    var s := states[n];
    forall i | 0 <= i < |s.writers|
      ensures MadeForRoute(route, k)(s.writers[i]) == AmountFor(route, k)(s.writers[i])
    {
      assert WriterInv(s, s.writers[i]);
      MadeAll(s.writers[i].traffic, k);
    }
    SumMonotone(s.writers, MadeForRoute(route, k), AmountFor(route, k));
    SumMonotone(s.writers, AmountFor(route, k), MadeForRoute(route, k));
  }
}
