/**
 The rings of the metrics registry over whole runs: under any interleaving each ring is the replay of
 the samples recorded into it, and so is the copy that a snapshot takes.
 */
module RingRuns {
  import opened Bytes
  import opened Ring
  import opened MetricsRun
  import opened Sums

  /** The sample that a step puts into the ring of object o: the last step of a call that holds it. */
  function Recorded(s: State, e: Step, o: nat): (r: seq<Event>)
    ensures |r| <= 1
  {
    if e.Write? && e.i < |s.writers| && s.writers[e.i].stage == Holding(o, |Bumps(s.writers[e.i].traffic)|)
       && SampleOf(s.writers[e.i].traffic).Some?
    then [Event(e.now, SampleOf(s.writers[e.i].traffic).value)]
    else []
  }

  /** The samples put into the ring of object o by the first n steps, in order. */
  function SamplesOf(states: seq<State>, steps: seq<Step>, n: nat, o: nat): seq<Event>
    requires n <= |steps| <= |states|
  {
    if n == 0 then [] else SamplesOf(states, steps, n - 1, o) + Recorded(states[n - 1], steps[n - 1], o)
  }

  /** The clock reading with which object o was made in the first n steps. */
  function CreatedAt(states: seq<State>, steps: seq<Step>, n: nat, o: nat): int
    requires n <= |steps| <= |states|
  {
    if n == 0 then 0
    else if o >= |states[n - 1].objs| && steps[n - 1].Write? then steps[n - 1].now
    else CreatedAt(states, steps, n - 1, o)
  }

  /** The ring with all the events recorded into it. */
  function Play(r: RingState, events: seq<Event>): (r': RingState)
    requires r.Valid()
    ensures r'.Valid()
  {
    RingAfter(r, events, |events|)
  }

  lemma {:induction false} PlayPrefix(r: RingState, a: seq<Event>, b: seq<Event>, i: nat)
    requires r.Valid() && i <= |a|
    ensures RingAfter(r, a + b, i) == RingAfter(r, a, i)
    decreases i
  {
    hide Ring.Record;
    if i > 0 {
      PlayPrefix(r, a, b, i - 1);
    }
  }

  lemma PlayOn(r: RingState, a: seq<Event>, b: seq<Event>)
    requires r.Valid() && |b| <= 1
    ensures Play(r, a + b) == Play(Play(r, a), b)
  {
    hide Ring.Record;
    if b == [] {
      assert a + b == a;
    } else {
      PlayPrefix(r, a, b, |a|);
      assert RingAfter(Play(r, a), b, 0) == Play(r, a);
    }
  }

  lemma PlayNothing(r: RingState)
    requires r.Valid()
    ensures Play(r, []) == r
  {
  }

  /** A step changes a ring by recording the sample it puts there, and by nothing else. */
  lemma RingStep(s: State, e: Step, o: nat)
    requires RoutesInv(s) && CanStep(s, e) && o < |s.objs|
    ensures o < |Do(s, e).objs| && Do(s, e).objs[o].ring == Play(s.objs[o].ring, Recorded(s, e, o))
  {
    hide Ring.Record;
    var r, b := s.objs[o].ring, Recorded(s, e, o);
    assert RingAfter(r, b, 0) == r;
  }

  lemma NewRing(s: State, e: Step, o: nat)
    requires RoutesInv(s) && CanStep(s, e) && |s.objs| <= o < |Do(s, e).objs|
    ensures e.Write? && Do(s, e).objs[o].ring == Reset(e.now)
  {
    hide Ring.Record, Reset;
  }

  lemma NothingRecordedYet(s: State, e: Step, o: nat)
    requires RoutesInv(s) && CanStep(s, e) && o >= |s.objs|
    ensures Recorded(s, e, o) == [] && |s.objs| <= |Do(s, e).objs|
  {
    hide Ring.Record, Reset;
    if e.Write? {
      assert WriterInv(s, s.writers[e.i]);
    }
  }

  lemma {:induction false} NoSamplesYet(states: seq<State>, steps: seq<Step>, n: nat, o: nat)
    requires IsRun(states, steps) && n < |states| && o >= |states[n].objs|
    ensures SamplesOf(states, steps, n, o) == []
    decreases n
  {
    if n > 0 {
      BeforeStep(states, steps, n - 1);
      assert o >= |states[n - 1].objs| by {
        if o < |states[n - 1].objs| {
          RingStep(states[n - 1], steps[n - 1], o);
        }
      }
      NothingRecordedYet(states[n - 1], steps[n - 1], o);
      NoSamplesYet(states, steps, n - 1, o);
    }
  }

  lemma BeforeStep(states: seq<State>, steps: seq<Step>, n: nat)
    requires IsRun(states, steps) && n < |steps|
    ensures RoutesInv(states[n]) && CanStep(states[n], steps[n]) && states[n + 1] == Do(states[n], steps[n])
  {
    RunInvariant(states, steps, n);
    assert Follows(states[n], steps[n], states[n + 1]);
  }

  /** In every run, whatever the interleaving, the ring of an object is the new ring of the moment it was made
      with the samples of its callers recorded one after the other. */
  lemma {:induction false} RingIsReplay(states: seq<State>, steps: seq<Step>, n: nat, o: nat)
    requires IsRun(states, steps) && n < |states| && o < |states[n].objs|
    ensures states[n].objs[o].ring == Play(Reset(CreatedAt(states, steps, n, o)), SamplesOf(states, steps, n, o))
    decreases n
  {
    hide Do, Reset, Recorded, RoutesInv, RingAfter;
    if n > 0 {
      BeforeStep(states, steps, n - 1);
      var s, e := states[n - 1], steps[n - 1];
      if o < |s.objs| {
        RingIsReplay(states, steps, n - 1, o);
        RingStep(s, e, o);
        PlayOn(Reset(CreatedAt(states, steps, n - 1, o)), SamplesOf(states, steps, n - 1, o), Recorded(s, e, o));
      } else {
        NewRing(s, e, o);
        PlayNothing(Reset(e.now));
        NothingRecordedYet(s, e, o);
        NoSamplesYet(states, steps, n - 1, o);
      }
    }
  }

  // ----- snapshots

  /** Step m is the one in which reader j copies its buckets, and what it copies. */
  ghost predicate Copies(states: seq<State>, steps: seq<Step>, m: nat, j: nat, copy: seq<Sample>) {
    && m < |steps| < |states| && steps[m] == Read(j) && j < |states[m].readers| && states[m].readers[j].copied.None?
    && states[m].readers[j].obj < |states[m].objs| && states[m].objs[states[m].readers[j].obj].ring.Valid()
    && copy == Snapshot(states[m].objs[states[m].readers[j].obj].ring)
  }

  /** A step other than its copying leaves what a reader holds. */
  lemma CopyKept(s: State, e: Step, j: nat)
    requires RoutesInv(s) && CanStep(s, e) && j < |Do(s, e).readers| && Do(s, e).readers[j].copied.Some?
    ensures j < |s.readers| && Do(s, e).readers[j].obj == s.readers[j].obj < |s.objs|
    ensures if s.readers[j].copied.Some? then Do(s, e).readers[j].copied == s.readers[j].copied
            else e == Read(j) && Do(s, e).readers[j].copied == Some(Snapshot(s.objs[s.readers[j].obj].ring))
  {
    hide Ring.Record, Reset, Snapshot;
  }

  lemma {:induction false} CopyOf(states: seq<State>, steps: seq<Step>, n: nat, j: nat) returns (m: nat)
    requires IsRun(states, steps) && n < |states| && j < |states[n].readers| && states[n].readers[j].copied.Some?
    ensures m < n && Copies(states, steps, m, j, states[n].readers[j].copied.value)
    ensures states[m].readers[j].obj == states[n].readers[j].obj
    decreases n
  {
    hide Do, Snapshot;
    BeforeStep(states, steps, n - 1);
    CopyKept(states[n - 1], steps[n - 1], j);
    if states[n - 1].readers[j].copied.Some? {
      m := CopyOf(states, steps, n - 1, j);
    } else {
      m := n - 1;
    }
  }

  /** Slot 59 - k of the buckets is the sum of the events credited to minute cur - k, and within an epoch of those
      that came while the latest minute on the clock was k before the latest minute now. */
  ghost predicate ShowsMinute(copy: seq<Sample>, created: int, events: seq<Event>, k: nat)
    requires |copy| == BUCKETS && k < BUCKETS
  {
    var n := |events|;
    && copy[BUCKETS - 1 - k]
       == Merged(EventsOf(NewLog(created), events, n, LogAfter(NewLog(created), events, n).cur - k))
    && (created > ZERO_TIME && OneEpoch(created, events) ==>
          copy[BUCKETS - 1 - k] == Merged(EventsIn(created, events, n, RunningMax(created, events, n) - k)))
  }

  lemma ReplayShowsMinute(created: int, events: seq<Event>, k: nat)
    requires k < BUCKETS
    ensures ShowsMinute(Snapshot(Play(Reset(created), events)), created, events, k)
  {
    hide Snapshot, Reset, LogAfter, EventsOf, EventsIn, RunningMax, EpochUntil, RingAfter;
    RingRefinesLog(created, events, |events|, k);
    if created > ZERO_TIME && OneEpoch(created, events) {
      SlotsFollowClock(created, events, |events|, k);
    }
  }

  /** The copy of a snapshot taken while callers record is the ring of one moment m of the run: every slot shows its
      minute of the samples recorded by then. */
  lemma ConcurrentSnapshot(states: seq<State>, steps: seq<Step>, n: nat, j: nat) returns (m: nat)
    requires IsRun(states, steps) && n < |states| && j < |states[n].readers| && states[n].readers[j].copied.Some?
    ensures m < n && Copies(states, steps, m, j, states[n].readers[j].copied.value)
    ensures var o := states[n].readers[j].obj; var copy := states[n].readers[j].copied.value;
      && |copy| == BUCKETS
      && forall k: nat :: k < BUCKETS ==>
           ShowsMinute(copy, CreatedAt(states, steps, m, o), SamplesOf(states, steps, m, o), k)
  {
    hide Snapshot, Reset, Play, ShowsMinute, CreatedAt, SamplesOf;
    m := CopyOf(states, steps, n, j);
    var o := states[n].readers[j].obj;
    RingIsReplay(states, steps, m, o);
    forall k: nat | k < BUCKETS
      ensures ShowsMinute(states[n].readers[j].copied.value, CreatedAt(states, steps, m, o), SamplesOf(states, steps, m, o), k)
    {
      ReplayShowsMinute(CreatedAt(states, steps, m, o), SamplesOf(states, steps, m, o), k);
    }
  }

  // ----- every sample once

  ghost function PartOfEvent(k: Kind): (f: Event -> int)
    ensures forall e :: f(e) == Part(e.ev, k)
  {
    (e: Event) => Part(e.ev, k)
  }

  lemma SumOfOne(e: Event, k: Kind)
    ensures Sum([e], PartOfEvent(k)) == Part(e.ev, k)
  {
    SumAppend([], PartOfEvent(k), e);
    assert [] + [e] == [e];
  }

  lemma SumOfNone(k: Kind)
    ensures Sum([], PartOfEvent(k)) == 0
  {
  }

  /** What a step records is what its caller's sample grows by. */
  lemma RecordedIsSampled(s: State, e: Step, o: nat, k: Kind)
    requires RoutesInv(s) && CanStep(s, e) && e.Write?
    ensures Sum(Recorded(s, e, o), PartOfEvent(k))
         == Sampled(Do(s, e).writers[e.i], o, k) - Sampled(s.writers[e.i], o, k)
  {
    hide Ring.Record, Reset, Sum, RoutesInv, Part, PartOfEvent;
    SumOfNone(k);
    if Recorded(s, e, o) != [] {
      SumOfOne(Recorded(s, e, o)[0], k);
    }
  }

  lemma SamplesStep(s: State, e: Step, o: nat, k: Kind)
    requires RoutesInv(s) && CanStep(s, e)
    ensures Sum(Do(s, e).writers, SampledAt(o, k)) == Sum(s.writers, SampledAt(o, k)) + Sum(Recorded(s, e, o), PartOfEvent(k))
  {
    hide Ring.Record, Reset, Recorded;
    match e
    case BeginWrite(_, _) =>
      SumAppend(s.writers, SampledAt(o, k), Do(s, e).writers[|s.writers|]);
      NoneRecorded(s, e, o, k);
    case Write(i, _) =>
      RecordedIsSampled(s, e, o, k);
      SumUpdate(s.writers, SampledAt(o, k), i, Do(s, e).writers[i]);
      assert Do(s, e).writers == s.writers[i := Do(s, e).writers[i]];
    case BeginRead(_) => NoneRecorded(s, e, o, k);
    case Read(_) => NoneRecorded(s, e, o, k);
  }

  lemma NoneRecorded(s: State, e: Step, o: nat, k: Kind)
    requires !e.Write?
    ensures Sum(Recorded(s, e, o), PartOfEvent(k)) == 0
  {
  }

  /** What a step records has the full amounts of its call. */
  lemma RecordedAmount(s: State, e: Step, o: nat, k: Kind)
    requires RoutesInv(s) && CanStep(s, e) && k in {Requests, BytesIn, BytesOut} && Recorded(s, e, o) != []
    ensures e.Write? && e.i < |s.writers| && Part(Recorded(s, e, o)[0].ev, k) == AmountOf(s.writers[e.i].traffic, k)
    ensures Recorded(s, e, o)[0].now == e.now
  {
    SampleIsAmount(s.writers[e.i].traffic);
  }

  /** The full amount of a call that has returned from object o, and nothing for the others. */
  function ReturnedAmount(w: Writer, o: nat, k: Kind): int {
    if w.stage == Returned(o) then AmountOf(w.traffic, k) else 0
  }

  ghost function ReturnedFrom(o: nat, k: Kind): (f: Writer -> int)
    ensures forall w :: f(w) == ReturnedAmount(w, o, k)
  {
    (w: Writer) => ReturnedAmount(w, o, k)
  }

  /** No sample is lost and none is recorded twice: what has gone into a ring, in bytes and in requests, is the
      full amount of every call that has returned from its object. */
  lemma SamplesAreReturned(states: seq<State>, steps: seq<Step>, n: nat, o: nat, k: Kind)
    requires IsRun(states, steps) && n < |states| && k in {Requests, BytesIn, BytesOut}
    ensures Sum(SamplesOf(states, steps, n, o), PartOfEvent(k)) == Sum(states[n].writers, ReturnedFrom(o, k))
  {
    SamplesAreSampled(states, steps, n, o, k);
    var ws := states[n].writers;
    forall i | 0 <= i < |ws|
      ensures SampledAt(o, k)(ws[i]) == ReturnedFrom(o, k)(ws[i])
    {
      SampleIsAmount(ws[i].traffic);
    }
    SumMonotone(ws, SampledAt(o, k), ReturnedFrom(o, k));
    SumMonotone(ws, ReturnedFrom(o, k), SampledAt(o, k));
  }

  lemma {:induction false} SamplesAreSampled(states: seq<State>, steps: seq<Step>, n: nat, o: nat, k: Kind)
    requires IsRun(states, steps) && n < |states|
    ensures Sum(SamplesOf(states, steps, n, o), PartOfEvent(k)) == Sum(states[n].writers, SampledAt(o, k))
    decreases n
  {
    hide Do, Recorded, RoutesInv, Follows;
    if n > 0 {
      BeforeStep(states, steps, n - 1);
      SamplesAreSampled(states, steps, n - 1, o, k);
      SamplesStep(states[n - 1], steps[n - 1], o, k);
      var r := Recorded(states[n - 1], steps[n - 1], o);
      if r == [] {
        assert SamplesOf(states, steps, n, o) == SamplesOf(states, steps, n - 1, o);
      } else {
        assert r == [] + [r[0]];
        SumAppend([], PartOfEvent(k), r[0]);
        SumAppend(SamplesOf(states, steps, n - 1, o), PartOfEvent(k), r[0]);
        assert r == [r[0]];
      }
    }
  }

  /** A slot holds the sums, field by field, of the samples merged into it. */
  lemma {:induction false} MergedIsSum(samples: seq<Sample>, k: Kind)
    requires k in {Requests, BytesIn, BytesOut}
    ensures Part(Merged(samples), k) == Sum(samples, PartOf(k))
    decreases |samples|
  {
    if samples != [] {
      MergedIsSum(samples[..|samples| - 1], k);
    }
  }

  // ----- the counters of a snapshot

  lemma LoadKept(s: State, e: Step, j: nat, p: nat)
    requires RoutesInv(s) && CanStep(s, e) && j < |Do(s, e).readers| && p < |Do(s, e).readers[j].loaded|
    ensures j < |s.readers| && Do(s, e).readers[j].obj == s.readers[j].obj < |s.objs| && p <= |s.readers[j].loaded|
    ensures if p < |s.readers[j].loaded| then Do(s, e).readers[j].loaded[p] == s.readers[j].loaded[p]
            else p < 5 && e == Read(j) && s.readers[j].copied.Some? &&
                 Do(s, e).readers[j].loaded[p]
                 == Count(s.objs[s.readers[j].obj], [Requests, BytesIn, BytesOut, ActiveConns, TotalConns][p])
  {
    hide Ring.Record, Reset, Snapshot;
  }

  /** Each counter of a snapshot is, exactly, the object's counter at some moment m of the run after the buckets
      were copied. */
  lemma {:induction false} CounterOfSnapshot(states: seq<State>, steps: seq<Step>, n: nat, j: nat, p: nat) returns (m: nat)
    requires IsRun(states, steps) && n < |states| && j < |states[n].readers| && p < |states[n].readers[j].loaded|
    ensures p < 5 && m < n && steps[m] == Read(j) && j < |states[m].readers| && states[m].readers[j].copied.Some?
    ensures states[n].readers[j].obj < |states[m].objs|
    ensures states[n].readers[j].loaded[p]
         == Count(states[m].objs[states[n].readers[j].obj], [Requests, BytesIn, BytesOut, ActiveConns, TotalConns][p])
    decreases n
  {
    hide Do, Count;
    BeforeStep(states, steps, n - 1);
    LoadKept(states[n - 1], steps[n - 1], j, p);
    if p < |states[n - 1].readers[j].loaded| {
      m := CounterOfSnapshot(states, steps, n - 1, j, p);
    } else {
      m := n - 1;
    }
  }
}
