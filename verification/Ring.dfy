/**
 The sixty one-minute buckets of a route's traffic, kept in a ring, and the event log they stand for.
 Times are nanoseconds; clock readings may go backwards.
 */
module Ring {
  import opened Bytes

  const BUCKETS: nat := 60

  /** The zero `time.Time`, January 1 of year 1, as nanoseconds from 1970. */
  const ZERO_TIME: int := -62_135_596_800 * 1_000_000_000

  datatype Sample = Sample(bytesIn: nat, bytesOut: nat, requests: nat)

  const NOTHING := Sample(0, 0, 0)

  function Plus(a: Sample, b: Sample): Sample {
    Sample(a.bytesIn + b.bytesIn, a.bytesOut + b.bytesOut, a.requests + b.requests)
  }

  function EmptyBuckets(): (s: seq<Sample>)
    ensures |s| == BUCKETS && forall i :: 0 <= i < BUCKETS ==> s[i] == NOTHING
  {
    seq(BUCKETS, (i: int) => NOTHING)
  }

  datatype RingState = RingState(samples: seq<Sample>, head: nat, bucketStart: int) {
    predicate Valid() {
      |samples| == BUCKETS && head < BUCKETS
    }
  }

  /** A duration in whole minutes: the division of durations truncates towards zero. */
  function Minutes(d: int): int {
    if d >= 0 then d / 60_000_000_000 else -((-d) / 60_000_000_000)
  }

  function Duration(minutes: int): int {
    minutes * 60_000_000_000
  }

  /** The bucket `i` places after the first. */
  function Wrap(i: nat): (w: nat)
    ensures w < BUCKETS
  {
    i % 60
  }

  /** One turn of the advance loop. */
  function Advance(r: RingState): (r': RingState)
    requires r.Valid()
    ensures r'.Valid()
  {
    var h := Wrap(r.head + 1);
    r.(head := h, samples := r.samples[h := NOTHING])
  }

  function AdvanceBy(r: RingState, n: nat): (r': RingState)
    requires r.Valid()
    ensures r'.Valid() && r'.bucketStart == r.bucketStart
  {
    if n == 0 then r else Advance(AdvanceBy(r, n - 1))
  }

  function AddAtHead(r: RingState, ev: Sample): (r': RingState)
    requires r.Valid()
    ensures r'.Valid()
  {
    r.(samples := r.samples[r.head := Plus(r.samples[r.head], ev)])
  }

  function Reset(now: int): (r: RingState)
    ensures r.Valid()
  {
    RingState(EmptyBuckets(), 0, now)
  }

  /** Makes the bucket of `now` current. */
  function Turn(r: RingState, now: int): (r': RingState)
    requires r.Valid()
    ensures r'.Valid()
  {
    var start := if r.bucketStart == ZERO_TIME then now else r.bucketStart;
    var n := Minutes(now - start);
    if n >= BUCKETS then Reset(now)
    else if n > 0 then AdvanceBy(r, n).(bucketStart := start + Duration(n))
    else r.(bucketStart := start)
  }

  /** recordSample with the clock reading `now`. */
  function Record(r: RingState, now: int, ev: Sample): (r': RingState)
    requires r.Valid()
    ensures r'.Valid()
  {
    AddAtHead(Turn(r, now), ev)
  }

  /** The buckets, the oldest first and the current one last. */
  function Snapshot(r: RingState): (s: seq<Sample>)
    requires r.Valid()
    ensures |s| == BUCKETS
  {
    r.samples[r.head + 1..] + r.samples[..r.head + 1]
  }

  /** Position i of the snapshot is bucket head + 1 + i, modulo 60. */
  lemma SnapshotAt(r: RingState, i: nat)
    requires r.Valid() && i < BUCKETS
    ensures Snapshot(r)[i] == r.samples[Wrap(r.head + 1 + i)]
  {
  }

  /** The snapshot's bucket for k minutes ago. */
  function Ago(r: RingState, k: nat): Sample
    requires r.Valid() && k < BUCKETS
  {
    Snapshot(r)[BUCKETS - 1 - k]
  }

  // ----- the event log

  /** The events credited to every minute that had any; `cur` is the current minute, begun at `base`. */
  datatype Log = Log(cur: int, base: int, events: map<int, seq<Sample>>)

  function Credited(l: Log, minute: int): seq<Sample> {
    if minute in l.events then l.events[minute] else []
  }

  function Credit(l: Log, ev: Sample): Log {
    l.(events := l.events[l.cur := Credited(l, l.cur) + [ev]])
  }

  function Merged(events: seq<Sample>): Sample {
    if events == [] then NOTHING else Plus(Merged(events[..|events| - 1]), events[|events| - 1])
  }

  lemma MergedAppend(events: seq<Sample>, ev: Sample)
    ensures Merged(events + [ev]) == Plus(Merged(events), ev)
  {
    assert (events + [ev])[..|events|] == events;
  }

  /** Makes the minute of `now` current, unless it is past. */
  function Tick(l: Log, now: int): Log {
    var start := if l.base == ZERO_TIME then now else l.base;
    var n := Minutes(now - start);
    if n >= BUCKETS then l.(cur := l.cur + n, base := now)
    else if n > 0 then l.(cur := l.cur + n, base := start + Duration(n))
    else l.(base := start)
  }

  function LogRecord(l: Log, now: int, ev: Sample): Log {
    Credit(Tick(l, now), ev)
  }

  /** The ring holds, for each of the last sixty minutes, the sum of the events credited to it. */
  ghost predicate Agrees(r: RingState, l: Log) {
    && r.Valid()
    && r.bucketStart == l.base
    && (forall m :: m in l.events ==> m <= l.cur)
    && (forall k :: 0 <= k < BUCKETS ==> Ago(r, k) == Merged(Credited(l, l.cur - k)))
  }

  lemma SnapshotAdvance(r: RingState)
    requires r.Valid()
    ensures Snapshot(Advance(r)) == Snapshot(r)[1..] + [NOTHING]
  {
    if r.head + 1 < BUCKETS {
      assert Wrap(r.head + 1) == r.head + 1;
    } else {
      assert Wrap(r.head + 1) == 0;
    }
  }

  lemma SnapshotAdd(r: RingState, ev: Sample)
    requires r.Valid()
    ensures Snapshot(AddAtHead(r, ev)) == Snapshot(r)[BUCKETS - 1 := Plus(Snapshot(r)[BUCKETS - 1], ev)]
  {
  }

  lemma {:induction false} AdvanceAgrees(r: RingState, l: Log, n: nat)
    requires Agrees(r, l)
    ensures Agrees(AdvanceBy(r, n), l.(cur := l.cur + n))
  {
    if n > 0 {
      AdvanceAgrees(r, l, n - 1);
      AdvanceOnceAgrees(AdvanceBy(r, n - 1), l.(cur := l.cur + n - 1));
    }
  }

  lemma AdvanceOnceAgrees(r: RingState, l: Log)
    requires Agrees(r, l)
    ensures Agrees(Advance(r), l.(cur := l.cur + 1))
  {
    SnapshotAdvance(r);
    var l' := l.(cur := l.cur + 1);
    forall k | 0 <= k < BUCKETS
      ensures Ago(Advance(r), k) == Merged(Credited(l', l'.cur - k))
    {
      if k > 0 {
        assert Ago(r, k - 1) == Merged(Credited(l, l.cur - (k - 1)));
      }
    }
  }

  /** The reset leaves the same sixty values as running the advance loop sixty times or more. */
  lemma {:induction false} ResetLikeAdvance(r: RingState, n: nat, now: int, ev: Sample)
    requires r.Valid() && n >= BUCKETS
    ensures Snapshot(AdvanceBy(r, n)) == Snapshot(Reset(now))
    ensures Snapshot(AddAtHead(AdvanceBy(r, n), ev)) == Snapshot(AddAtHead(Reset(now), ev))
  {
    AdvanceClears(r, n);
    forall i | 0 <= i < BUCKETS
      ensures Snapshot(AdvanceBy(r, n))[i] == Snapshot(Reset(now))[i]
    {
      assert Ago(AdvanceBy(r, n), BUCKETS - 1 - i) == NOTHING;
      SnapshotReset(now, i);
    }
    SnapshotAdd(AdvanceBy(r, n), ev);
    SnapshotAdd(Reset(now), ev);
  }

  lemma AgoAdvance(r: RingState, k: nat)
    requires r.Valid() && k < BUCKETS
    ensures Ago(Advance(r), k) == if k == 0 then NOTHING else Ago(r, k - 1)
  {
    SnapshotAdvance(r);
  }

  lemma {:induction false} AdvanceClears(r: RingState, n: nat)
    requires r.Valid()
    ensures forall k :: 0 <= k < BUCKETS && k < n ==> Ago(AdvanceBy(r, n), k) == NOTHING
  {
    hide Advance, Ago;
    if n > 0 {
      AdvanceClears(r, n - 1);
      forall k | 0 <= k < BUCKETS && k < n
        ensures Ago(AdvanceBy(r, n), k) == NOTHING
      {
        AgoAdvance(AdvanceBy(r, n - 1), k);
      }
    }
  }

  lemma AgoAdd(r: RingState, ev: Sample, k: nat)
    requires r.Valid() && k < BUCKETS
    ensures Ago(AddAtHead(r, ev), k) == if k == 0 then Plus(Ago(r, 0), ev) else Ago(r, k)
  {
    SnapshotAdd(r, ev);
  }

  lemma CreditAdds(l: Log, ev: Sample, minute: int)
    ensures Merged(Credited(Credit(l, ev), minute))
         == if minute == l.cur then Plus(Merged(Credited(l, minute)), ev) else Merged(Credited(l, minute))
  {
    MergedAppend(Credited(l, l.cur), ev);
  }

  lemma AddAgreesAt(r: RingState, l: Log, ev: Sample, k: nat)
    requires r.Valid() && k < BUCKETS
    requires Ago(r, k) == Merged(Credited(l, l.cur - k))
    ensures Ago(AddAtHead(r, ev), k) == Merged(Credited(Credit(l, ev), l.cur - k))
  {
    hide Ago, AddAtHead, Credit, Credited, Merged, Plus;
    AgoAdd(r, ev, k);
    CreditAdds(l, ev, l.cur - k);
  }

  lemma AddAgrees(r: RingState, l: Log, ev: Sample)
    requires Agrees(r, l)
    ensures Agrees(AddAtHead(r, ev), Credit(l, ev))
  {
    hide Ago, Merged, Plus, Credited;
    forall k | 0 <= k < BUCKETS
      ensures Ago(AddAtHead(r, ev), k) == Merged(Credited(Credit(l, ev), Credit(l, ev).cur - k))
    {
      AddAgreesAt(r, l, ev, k);
    }
  }

  lemma SnapshotReset(now: int, i: nat)
    requires i < BUCKETS
    ensures Snapshot(Reset(now))[i] == NOTHING
  {
  }

  lemma ResetAgrees(l: Log, n: nat, now: int)
    requires n >= BUCKETS && forall m :: m in l.events ==> m <= l.cur
    ensures Agrees(Reset(now), l.(cur := l.cur + n, base := now))
  {
    var l' := l.(cur := l.cur + n, base := now);
    forall k | 0 <= k < BUCKETS
      ensures Ago(Reset(now), k) == Merged(Credited(l', l'.cur - k))
    {
      SnapshotReset(now, BUCKETS - 1 - k);
    }
  }

  lemma RebaseAgrees(r: RingState, l: Log, start: int)
    requires Agrees(r, l)
    ensures Agrees(r.(bucketStart := start), l.(base := start))
  {
    var r1, l1 := r.(bucketStart := start), l.(base := start);
    assert Snapshot(r1) == Snapshot(r);
    forall k | 0 <= k < BUCKETS
      ensures Ago(r1, k) == Merged(Credited(l1, l.cur - k))
    {
      assert Ago(r, k) == Merged(Credited(l, l.cur - k));
    }
  }

  lemma TurnAgrees(r: RingState, l: Log, now: int)
    requires Agrees(r, l)
    ensures Agrees(Turn(r, now), Tick(l, now))
  {
    var start := if l.base == ZERO_TIME then now else l.base;
    var n := Minutes(now - start);
    if n >= BUCKETS {
      ResetAgrees(l, n, now);
    } else if n > 0 {
      AdvanceAgrees(r, l, n);
      RebaseAgrees(AdvanceBy(r, n), l.(cur := l.cur + n), start + Duration(n));
    } else {
      RebaseAgrees(r, l, start);
    }
  }

  /** One sample keeps ring and log in agreement, whatever the clock says. */
  lemma RecordAgrees(r: RingState, l: Log, now: int, ev: Sample)
    requires Agrees(r, l)
    ensures Agrees(Record(r, now, ev), LogRecord(l, now, ev))
  {
    TurnAgrees(r, l, now);
    AddAgrees(Turn(r, now), Tick(l, now), ev);
  }

  // ----- whole histories

  /** A sample and the clock reading it was recorded with. */
  datatype Event = Event(now: int, ev: Sample)

  /** The ring after the first i events. */
  function RingAfter(r: RingState, events: seq<Event>, i: nat): (r': RingState)
    requires r.Valid() && i <= |events|
    ensures r'.Valid()
  {
    if i == 0 then r else Record(RingAfter(r, events, i - 1), events[i - 1].now, events[i - 1].ev)
  }

  function LogAfter(l: Log, events: seq<Event>, i: nat): Log
    requires i <= |events|
  {
    if i == 0 then l else LogRecord(LogAfter(l, events, i - 1), events[i - 1].now, events[i - 1].ev)
  }

  /** Those of the first i events that are credited to a minute: an event counts for the minute that
      is current once it has been recorded. */
  function EventsOf(l: Log, events: seq<Event>, i: nat, minute: int): seq<Sample>
    requires i <= |events|
  {
    if i == 0 then []
    else EventsOf(l, events, i - 1, minute) + if LogAfter(l, events, i).cur == minute then [events[i - 1].ev] else []
  }

  lemma {:induction false} CreditedEvents(l: Log, events: seq<Event>, i: nat, minute: int)
    requires i <= |events|
    ensures Credited(LogAfter(l, events, i), minute) == Credited(l, minute) + EventsOf(l, events, i, minute)
    decreases i
  {
    hide LogRecord, Credited;
    if i > 0 {
      CreditedEvents(l, events, i - 1, minute);
      var e := events[i - 1];
      CreditCounts(LogAfter(l, events, i - 1), e.now, e.ev, minute);
      ConcatAssociates(Credited(l, minute), EventsOf(l, events, i - 1, minute),
                       if LogAfter(l, events, i).cur == minute then [e.ev] else []);
    }
  }

  lemma CreditCounts(l: Log, now: int, ev: Sample, minute: int)
    ensures Credited(LogRecord(l, now, ev), minute)
         == Credited(l, minute) + if LogRecord(l, now, ev).cur == minute then [ev] else []
  {
  }

  lemma {:induction false} RingFollowsLog(r: RingState, l: Log, events: seq<Event>, i: nat)
    requires Agrees(r, l) && i <= |events|
    ensures Agrees(RingAfter(r, events, i), LogAfter(l, events, i))
    decreases i
  {
    if i > 0 {
      RingFollowsLog(r, l, events, i - 1);
      RecordAgrees(RingAfter(r, events, i - 1), LogAfter(l, events, i - 1), events[i - 1].now, events[i - 1].ev);
    }
  }

  function NewLog(start: int): Log {
    Log(0, start, map[])
  }

  lemma NewRingAgrees(start: int)
    ensures Agrees(Reset(start), NewLog(start))
  {
    forall k | 0 <= k < BUCKETS
      ensures Ago(Reset(start), k) == NOTHING
    {
      SnapshotReset(start, BUCKETS - 1 - k);
    }
  }

  lemma SlotIsTotal(r: RingState, l: Log, k: nat)
    requires k < BUCKETS && Agrees(r, l)
    ensures Snapshot(r)[BUCKETS - 1 - k] == Merged(Credited(l, l.cur - k))
  {
    assert Ago(r, k) == Merged(Credited(l, l.cur - k));
  }

  /** After any sequence of samples, with clock readings in any order, the snapshot's slot 59 - k is
      the sum of the events credited to minute cur - k. */
  lemma RingRefinesLog(start: int, events: seq<Event>, i: nat, k: nat)
    requires i <= |events| && k < BUCKETS
    ensures Snapshot(RingAfter(Reset(start), events, i))[BUCKETS - 1 - k]
         == Merged(EventsOf(NewLog(start), events, i, LogAfter(NewLog(start), events, i).cur - k))
  {
    hide Record, LogRecord, Snapshot;
    var l := LogAfter(NewLog(start), events, i);
    NewRingAgrees(start);
    RingFollowsLog(Reset(start), NewLog(start), events, i);
    SlotIsTotal(RingAfter(Reset(start), events, i), l, k);
    CreditedEvents(NewLog(start), events, i, l.cur - k);
    assert [] + EventsOf(NewLog(start), events, i, l.cur - k) == EventsOf(NewLog(start), events, i, l.cur - k);
  }

  /** The whole minutes from `t0` to `now`, rounded down, unless `m` is later. */
  function Later(m: nat, t0: int, now: int): nat {
    var k := (now - t0) / 60_000_000_000;
    if k > m then k else m
  }

  /** The latest minute seen in the first i events, counting whole minutes from `t0`, rounded down. */
  function RunningMax(t0: int, events: seq<Event>, i: nat): nat
    requires i <= |events|
  {
    if i == 0 then 0 else Later(RunningMax(t0, events, i - 1), t0, events[i - 1].now)
  }

  /** `now` is less than sixty minutes past minute `m`. */
  predicate Soon(m: nat, t0: int, now: int) {
    (now - t0) / 60_000_000_000 < m + BUCKETS
  }

  /** None of the first n events comes sixty minutes or more after those before: the epoch that began at `t0`
      goes on. */
  ghost predicate EpochUntil(t0: int, events: seq<Event>, n: nat) {
    forall i :: 0 <= i < n && i < |events| ==> Soon(RunningMax(t0, events, i), t0, events[i].now)
  }

  ghost predicate OneEpoch(t0: int, events: seq<Event>) {
    EpochUntil(t0, events, |events|)
  }

  /** Minute `m`, counted from `t0`, is the current one. */
  predicate AtMinute(l: Log, t0: int, m: nat) {
    l.cur == m && l.base == t0 + Duration(m)
  }

  lemma MinutesPast(t0: int, m: nat, now: int)
    ensures var n, k := Minutes(now - (t0 + Duration(m))), (now - t0) / 60_000_000_000;
      (n > 0 <==> k > m) && (n > 0 ==> n == k - m)
  {
    assert now - t0 == 60_000_000_000 * ((now - t0) / 60_000_000_000) + (now - t0) % 60_000_000_000;
  }

  lemma RecordWithinEpoch(l: Log, t0: int, m: nat, now: int, ev: Sample)
    requires t0 > ZERO_TIME && AtMinute(l, t0, m) && Soon(m, t0, now)
    ensures AtMinute(LogRecord(l, now, ev), t0, Later(m, t0, now))
  {
    MinutesPast(t0, m, now);
  }

  /** Within an epoch the current minute is the running maximum of the minutes since its start. */
  lemma {:induction false} CurrentMinuteIsRunningMax(t0: int, events: seq<Event>, i: nat)
    requires t0 > ZERO_TIME && i <= |events| && EpochUntil(t0, events, i)
    ensures AtMinute(LogAfter(NewLog(t0), events, i), t0, RunningMax(t0, events, i))
    decreases i
  {
    hide LogRecord, Later, Soon, Tick;
    if i > 0 {
      CurrentMinuteIsRunningMax(t0, events, i - 1);
      assert Soon(RunningMax(t0, events, i - 1), t0, events[i - 1].now);
      RecordWithinEpoch(LogAfter(NewLog(t0), events, i - 1), t0, RunningMax(t0, events, i - 1),
                        events[i - 1].now, events[i - 1].ev);
    }
  }

  /** Those of the first i events that came while `minute` was the latest minute on the clock. */
  function EventsIn(t0: int, events: seq<Event>, i: nat, minute: int): seq<Sample>
    requires i <= |events|
  {
    if i == 0 then []
    else EventsIn(t0, events, i - 1, minute) + if RunningMax(t0, events, i) == minute then [events[i - 1].ev] else []
  }

  lemma {:induction false} CreditedByClock(t0: int, events: seq<Event>, i: nat, minute: int)
    requires t0 > ZERO_TIME && i <= |events| && EpochUntil(t0, events, i)
    ensures EventsOf(NewLog(t0), events, i, minute) == EventsIn(t0, events, i, minute)
    decreases i
  {
    hide LogRecord, Later, Soon, Tick;
    if i > 0 {
      CreditedByClock(t0, events, i - 1, minute);
      CurrentMinuteIsRunningMax(t0, events, i);
    }
  }

  /** The ring by the clock alone: within an epoch, whatever the order of the clock readings, the snapshot's
      slot 59 - k is the sum of the events that came while the latest minute was k minutes before the
      latest minute now. */
  lemma SlotsFollowClock(t0: int, events: seq<Event>, i: nat, k: nat)
    requires t0 > ZERO_TIME && i <= |events| && EpochUntil(t0, events, i) && k < BUCKETS
    ensures Snapshot(RingAfter(Reset(t0), events, i))[BUCKETS - 1 - k]
         == Merged(EventsIn(t0, events, i, RunningMax(t0, events, i) - k))
  {
    hide LogRecord, Later, RingAfter, Snapshot, Soon, Tick, Record;
    RingRefinesLog(t0, events, i, k);
    CurrentMinuteIsRunningMax(t0, events, i);
    CreditedByClock(t0, events, i, RunningMax(t0, events, i) - k);
  }

  // ----- gaps of an hour or more

  lemma TurnAfterGap(r: RingState, t0: int, m: nat, now: int)
    requires r.Valid() && r.bucketStart == t0 + Duration(m) && t0 > ZERO_TIME && !Soon(m, t0, now)
    ensures Turn(r, now) == Reset(now) == Turn(Reset(now), now)
  {
    MinutesPast(t0, m, now);
  }

  /** An event that comes sixty minutes or more after those before, the j-th, starts a new epoch: from then on
      the ring is the one made at that moment, with the events from this one on. */
  lemma {:induction false} EpochRestarts(t0: int, events: seq<Event>, j: nat, i: nat)
    requires t0 > ZERO_TIME && j < i <= |events| && EpochUntil(t0, events, j)
    requires !Soon(RunningMax(t0, events, j), t0, events[j].now)
    ensures RingAfter(Reset(t0), events, i) == RingAfter(Reset(events[j].now), events[j..], i - j)
    decreases i
  {
    hide Turn, Soon, Reset, AddAtHead, RunningMax, Duration;
    if i > j + 1 {
      EpochRestarts(t0, events, j, i - 1);
    } else {
      BucketStartAt(t0, events, j);
      TurnAfterGap(RingAfter(Reset(t0), events, j), t0, RunningMax(t0, events, j), events[j].now);
      assert RingAfter(Reset(events[j].now), events[j..], 0) == Reset(events[j].now);
    }
  }

  lemma BucketStartAt(t0: int, events: seq<Event>, j: nat)
    requires t0 > ZERO_TIME && j <= |events| && EpochUntil(t0, events, j)
    ensures RingAfter(Reset(t0), events, j).bucketStart == t0 + Duration(RunningMax(t0, events, j))
  {
    hide Record, LogRecord, RunningMax, Reset, Duration;
    CurrentMinuteIsRunningMax(t0, events, j);
    NewRingAgrees(t0);
    RingFollowsLog(Reset(t0), NewLog(t0), events, j);
  }

  /** So the slots after such a gap follow the clock from the event that ended it. */
  lemma SlotsAfterGap(t0: int, events: seq<Event>, j: nat, i: nat, k: nat)
    requires t0 > ZERO_TIME && j < i <= |events| && EpochUntil(t0, events, j)
    requires !Soon(RunningMax(t0, events, j), t0, events[j].now)
    requires events[j].now > ZERO_TIME && EpochUntil(events[j].now, events[j..], i - j) && k < BUCKETS
    ensures var t1, later := events[j].now, events[j..];
      Snapshot(RingAfter(Reset(t0), events, i))[BUCKETS - 1 - k]
      == Merged(EventsIn(t1, later, i - j, RunningMax(t1, later, i - j) - k))
  {
    hide Record, Snapshot, Reset, RunningMax, Soon, EpochUntil, EventsIn, RingAfter;
    EpochRestarts(t0, events, j, i);
    SlotsFollowClock(events[j].now, events[j..], i - j, k);
  }
}
