/**
 What closing a stream achieves in every reachable state, whoever else is at work on it: a blocked reader
 is always a few steps of its own end from being released, a CloseAll ends after a bounded number of steps,
 and a removal leaves a stream with its Done open exactly when its closer has not got to `close(Done)`.
 */
module Closing {
  import opened StreamChannel
  import opened ChannelInvariant
  import opened Multiplexer
  import opened Refinement
  import opened Connection

  /** End `x` takes the steps `acts` in order, from `s` to `s'`. */
  ghost predicate Takes(s: System, x: Side, acts: seq<Action>, s': System)
    decreases |acts|
  {
    if acts == [] then s' == s
    else StepEnabled(s, x, acts[0]) && Takes(StepTo(s, x, acts[0]), x, acts[1..], s')
  }

  lemma TakeFirst(s: System, x: Side, a: Action, rest: seq<Action>, s': System)
    requires StepEnabled(s, x, a) && Takes(StepTo(s, x, a), x, rest, s')
    ensures Takes(s, x, [a] + rest, s')
  {
    assert ([a] + rest)[1..] == rest;
  }

  /** A step of a CloseStream or a CloseAll towards the closing of Done. */
  predicate IsClosing(a: Action) {
    a.CloseLookup? || a.CallCas? || a.CallDone? || a.SweepVisit? || a.SweepDone? || a.SweepDelete?
  }

  /** At most `k` closing steps of end `x` let its reader go on. */
  ghost predicate ReleasedWithin(s: System, x: Side, k: nat) {
    exists acts, s' :: Takes(s, x, acts, s') && |acts| <= k && (forall a :: a in acts ==> IsClosing(a))
                       && StepEnabled(s', x, Action.Discard)
  }

  lemma ReleasedNow(s: System, x: Side)
    requires StepEnabled(s, x, Action.Discard)
    ensures ReleasedWithin(s, x, 0)
  {
    assert Takes(s, x, [], s);
  }

  lemma OneStepMore(s: System, x: Side, a: Action, k: nat)
    requires IsClosing(a) && StepEnabled(s, x, a) && ReleasedWithin(StepTo(s, x, a), x, k)
    ensures ReleasedWithin(s, x, k + 1)
  {
    var acts, s' :| Takes(StepTo(s, x, a), x, acts, s') && |acts| <= k && (forall b :: b in acts ==> IsClosing(b))
                    && StepEnabled(s', x, Action.Discard);
    TakeFirst(s, x, a, acts, s');
    assert forall b :: b in [a] + acts ==> b == a || b in acts;
  }

  /** The winner of the compare-and-swap closes Done. */
  lemma WinnerReleases(s: System, x: Side, n: nat)
    requires ReaderHolds(s.End(x), n) && n in s.End(x).objs && AboutToCloseDone(s.End(x), n)
    ensures ReleasedWithin(s, x, 1)
  {
    var e := s.End(x);
    var a := if e.lock == Visiting(n, SweepWon) then Action.SweepDone
             else (var t :| AtCall(e.Obj(n), t, Won); Action.CallDone(n, t));
    ReleasedNow(StepTo(s, x, a), x);
    OneStepMore(s, x, a, 0);
  }

  /** The table's lock is free: goroutine `t` calls CloseStream. */
  lemma CallReleases(s: System, x: Side, n: nat, t: nat)
    requires var e := s.End(x);
      ReaderHolds(e, n) && n in e.objs && Registered(e, n) && e.objs[n].phase == Handed && !e.objs[n].closed
      && e.lock == Free && t !in e.objs[n].calls
    ensures ReleasedWithin(s, x, 3)
  {
    var s1 := StepTo(s, x, Action.CloseLookup(n, t));
    var s2 := StepTo(s1, x, Action.CallCas(n, t));
    assert AtCall(s2.End(x).Obj(n), t, Won);
    WinnerReleases(s2, x, n);
    OneStepMore(s1, x, Action.CallCas(n, t), 1);
    OneStepMore(s, x, Action.CloseLookup(n, t), 2);
  }

  /** A CloseAll is between two streams: it may visit this one next. */
  lemma SweepReleases(s: System, x: Side, n: nat)
    requires var e := s.End(x);
      ReaderHolds(e, n) && n in e.objs && Registered(e, n) && !e.objs[n].closed && e.lock == Scanning
    ensures ReleasedWithin(s, x, 2)
  {
    var s1 := StepTo(s, x, Action.SweepVisit(IdOf(n)));
    WinnerReleases(s1, x, n);
    OneStepMore(s, x, Action.SweepVisit(IdOf(n)), 1);
  }

  /** A CloseAll is about to delete another stream's entry. */
  lemma DeletingReleasesNext(s: System, x: Side, n: nat)
    requires var e := s.End(x);
      ReaderHolds(e, n) && n in e.objs && Registered(e, n) && !e.objs[n].closed
      && LockAt(e, SweepDeleting) && IdOf(e.lock.n) != IdOf(n)
    ensures ReleasedWithin(s, x, 3)
  {
    SweepReleases(StepTo(s, x, Action.SweepDelete), x, n);
    OneStepMore(s, x, Action.SweepDelete, 2);
  }

  /** A CloseAll is busy with another stream: it finishes that one first. */
  lemma SweepReleasesNext(s: System, x: Side, n: nat)
    requires var e := s.End(x);
      ReaderHolds(e, n) && n in e.objs && Registered(e, n) && !e.objs[n].closed
      && (LockAt(e, SweepWon) || LockAt(e, SweepDeleting)) && IdOf(e.lock.n) != IdOf(n)
    ensures ReleasedWithin(s, x, 4)
  {
    if LockAt(s.End(x), SweepDeleting) {
      DeletingReleasesNext(s, x, n);
    } else {
      DeletingReleasesNext(StepTo(s, x, Action.SweepDone), x, n);
      OneStepMore(s, x, Action.SweepDone, 3);
    }
  }

  /** A reader that holds a payload is never stuck: in every reachable state, whatever CloseStream and
      CloseAll calls are in progress, at most four closing steps of its own end let it go on. None of them
      waits for the reader, and only a new CloseStream, by a goroutine `t` that is not yet closing the
      stream, is started. */
  lemma BlockedReaderAlwaysReleased(r: seq<System>, i: nat, x: Side, n: nat, t: nat)
    requires Reaches(r, i) && ReaderHolds(r[i].End(x), n) && t !in r[i].End(x).Obj(n).calls
    ensures ReleasedWithin(r[i], x, 4)
  {
    HeldStream(r, i, x, n);
    var e := r[i].End(x);
    if e.Obj(n).closes > 0 {
      ReleasedNow(r[i], x);
    } else if e.Obj(n).closed {
      DoneClosedOnce(r, i, x, n);
      WinnerReleases(r[i], x, n);
    } else if e.lock == Free {
      CallReleases(r[i], x, n, t);
    } else if e.lock == Scanning {
      SweepReleases(r[i], x, n);
    } else {
      VisitedIsOther(r, i, x, n);
      SweepReleasesNext(r[i], x, n);
    }
  }

  lemma {:induction false} UnusedNumber(used: set<nat>) returns (t: nat)
    ensures forall k :: k in used ==> k < t
    decreases |used|
  {
    if used == {} {
      t := 0;
    } else {
      var k :| k in used;
      t := UnusedNumber(used - {k});
      assert used == (used - {k}) + {k};
      t := if k < t then t else k + 1;
    }
  }

  /** There is always a goroutine that can make that call, so no reader is ever stuck. */
  lemma BlockedReaderNeverStuck(r: seq<System>, i: nat, x: Side, n: nat)
    requires Reaches(r, i) && ReaderHolds(r[i].End(x), n)
    ensures ReleasedWithin(r[i], x, 4)
  {
    var t := UnusedNumber(r[i].End(x).Obj(n).calls.Keys);
    BlockedReaderAlwaysReleased(r, i, x, n, t);
  }

  /** The stream of a held payload is one that this end has handed out. */
  lemma HeldStream(r: seq<System>, i: nat, x: Side, n: nat)
    requires Reaches(r, i) && ReaderHolds(r[i].End(x), n)
    ensures n in r[i].End(x).objs && r[i].End(x).objs[n].phase == Handed
    ensures !r[i].End(x).objs[n].closed ==> Registered(r[i].End(x), n)
  {
    RunInvariant(r, i);
    assert ChannelInv(View(r[i], n));
    assert TableInv(View(r[i], n).End(x));
  }

  /** The stream that a CloseAll is busy with is shut, so it is another than one that is not. */
  lemma VisitedIsOther(r: seq<System>, i: nat, x: Side, n: nat)
    requires Reaches(r, i) && r[i].End(x).lock.Visiting? && n in r[i].End(x).objs && !r[i].End(x).objs[n].closed
    ensures var e := r[i].End(x); e.lock.stage != SweepAway && e.lock.n in e.objs && IdOf(e.lock.n) != IdOf(n)
  {
    RunInvariant(r, i);
    var m := r[i].End(x).lock.n;
    assert ChannelInv(View(r[i], m));
    assert CloseInv(View(r[i], m).End(x));
    assert EndpointInv(r[i].End(x), r[i].opens, r[i].calm);
    if IdOf(m) == IdOf(n) {
      IdsDistinct(m, n);
    }
  }

  lemma StepsOnlyAdd(s: System, s': System)
    requires Step(s, s')
    ensures s.opens <= s'.opens
  {
  }

  lemma ReachesBefore(r: seq<System>, j: nat)
    requires Reaches(r, j + 1)
    ensures Reaches(r, j)
  {
    assert Step(r[j], r[j + 1]);
    StepsOnlyAdd(r[j], r[j + 1]);
  }

  // ----- when an open stream is lost

  /** A CloseStream called now, run up to and including its compare-and-swap, goes on to remove the stream
      while Done is open exactly if another closer is about to close Done; its removal then leaves the
      stream held, its Done open, and out of the table. */
  lemma CloseStreamOrphansInWindow(r: seq<System>, i: nat, x: Side, n: nat, t: nat)
    requires Reaches(r, i)
    requires var e := r[i].End(x);
      Registered(e, n) && e.Obj(n).phase == Handed && e.Obj(n).closes == 0 && e.lock == Free && t !in e.Obj(n).calls
    ensures StepEnabled(r[i], x, Action.CloseLookup(n, t))
    ensures var s1 := StepTo(r[i], x, Action.CloseLookup(n, t));
      StepEnabled(s1, x, Action.CallCas(n, t)) &&
      var s2 := StepTo(s1, x, Action.CallCas(n, t));
      && (StepEnabled(s2, x, Action.CallRemove(n, t)) <==> AboutToCloseDone(r[i].End(x), n))
      && (StepEnabled(s2, x, Action.CallRemove(n, t)) ==>
            var e3 := StepTo(s2, x, Action.CallRemove(n, t)).End(x);
            e3.Obj(n).phase == Handed && e3.Obj(n).closes == 0 && !Registered(e3, n))
  {
    RunInvariant(r, i);
    DoneClosedOnce(r, i, x, n);
    CallAfterSwap(r[i], x, n, t);
  }

  lemma CallAfterSwap(s: System, x: Side, n: nat, t: nat)
    requires var e := s.End(x);
      n in e.objs && Registered(e, n) && e.objs[n].phase == Handed && e.objs[n].closes == 0
      && e.lock == Free && t !in e.objs[n].calls
    ensures StepEnabled(s, x, Action.CloseLookup(n, t))
    ensures var s1 := StepTo(s, x, Action.CloseLookup(n, t));
      StepEnabled(s1, x, Action.CallCas(n, t)) &&
      var s2 := StepTo(s1, x, Action.CallCas(n, t));
      && (StepEnabled(s2, x, Action.CallRemove(n, t)) <==> s.End(x).objs[n].closed)
      && (StepEnabled(s2, x, Action.CallRemove(n, t)) ==>
            var e3 := StepTo(s2, x, Action.CallRemove(n, t)).End(x);
            e3.Obj(n).phase == Handed && e3.Obj(n).closes == 0 && !Registered(e3, n))
  {
  }

  /** Taking a stream out of the table does not touch its Done. */
  lemma RemovalKeepsFields(h: Half, a: Act)
    requires Enabled(h, a) && h.registered && !Do(h, a).registered
    ensures Do(h, a).obj.closed == h.obj.closed && Do(h, a).obj.closes == h.obj.closes
  {
  }

  lemma RemovalKeepsDone(v: Channel, v': Channel, x: Side)
    requires ChannelStep(v, v') && v.End(x).registered && !v'.End(x).registered
    ensures v'.End(x).obj.closed == v.End(x).obj.closed && v'.End(x).obj.closes == v.End(x).obj.closes
  {
    var y, a :| ChannelEnabled(v, y, a) && v' == ChannelDo(v, y, a);
    if y == x {
      RemovalKeepsFields(v.End(x), a);
    }
  }

  /** Whoever removes it: the step that takes a held stream out of the table leaves Done open exactly if
      before the step its closer was still about to close it. */
  lemma RemovalOrphansInWindow(r: seq<System>, i: nat, x: Side, n: nat)
    requires Reaches(r, i + 1)
    requires Registered(r[i].End(x), n) && !Registered(r[i + 1].End(x), n) && r[i + 1].End(x).Obj(n).phase == Handed
    ensures r[i + 1].End(x).Obj(n).closes == 0 <==> AboutToCloseDone(r[i].End(x), n)
  {
    if !r[i + 1].End(x).Obj(n).closed {
      NoOrphans(r, i + 1, x, n);
    }
    ReachesBefore(r, i);
    RunRefinesChannel(r, n, i + 1);
    RemovalKeepsDone(View(r[i], n), View(r[i + 1], n), x);
    DoneClosedOnce(r, i, x, n);
  }

  // ----- CloseAll ends

  /** The steps a CloseAll that holds the lock has left. */
  function SweepWork(e: Endpoint): int {
    match e.lock
    case Free => 0
    case Scanning => 3 * |e.table| + 1
    case Visiting(_, SweepWon) => 3 * |e.table|
    case Visiting(_, _) => 3 * |e.table| - 1
  }

  lemma RemoveOne(m: map<nat, nat>, k: nat)
    requires k in m
    ensures |m - {k}| == |m| - 1
  {
    assert m.Keys == (m - {k}).Keys + {k};
  }

  /** A CloseAll's own steps move the lock, and each leaves less to do. */
  lemma SweepStepWorks(e: Endpoint, opens: nat, inbox: seq<Frame>, a: Action)
    requires CanAct(e, opens, inbox, a) && e.lock != Free && IsSweepStep(a)
    requires e.lock.Visiting? ==> IdOf(e.lock.n) in e.table && e.lock.stage != SweepAway
    ensures var e' := Multiplexer.Act(e, opens, inbox, a);
      && e'.lock != e.lock && SweepWork(e') < SweepWork(e)
      && (a.SweepDelete? ==> |e'.table| == |e.table| - 1)
  {
    if a.SweepDelete? {
      RemoveOne(e.table, IdOf(e.lock.n));
    }
  }

  /** Nobody else moves the lock or touches the table meanwhile. */
  lemma LockKeepsTable(e: Endpoint, opens: nat, inbox: seq<Frame>, a: Action)
    requires CanAct(e, opens, inbox, a) && e.lock != Free && !IsSweepStep(a)
    ensures var e' := Multiplexer.Act(e, opens, inbox, a); e'.lock == e.lock && e'.table == e.table
  {
  }

  lemma SweepWorkStep(e: Endpoint, opens: nat, inbox: seq<Frame>, a: Action)
    requires CanAct(e, opens, inbox, a) && e.lock != Free
    requires e.lock.Visiting? ==> IdOf(e.lock.n) in e.table && e.lock.stage != SweepAway
    ensures var e' := Multiplexer.Act(e, opens, inbox, a);
      SweepWork(e') + (if e'.lock != e.lock then 1 else 0) <= SweepWork(e)
  {
    if IsSweepStep(a) {
      SweepStepWorks(e, opens, inbox, a);
    } else {
      LockKeepsTable(e, opens, inbox, a);
    }
  }

  /** How often the lock of end `x` has moved in r[i..j]. */
  function LockMoves(r: seq<System>, x: Side, i: nat, j: nat): nat
    requires i <= j < |r|
    decreases j
  {
    if i == j then 0
    else LockMoves(r, x, i, j - 1) + if r[j - 1].End(x).lock != r[j].End(x).lock then 1 else 0
  }

  lemma VisitedIsRegistered(r: seq<System>, i: nat, x: Side)
    requires Reaches(r, i) && r[i].End(x).lock.Visiting?
    ensures IdOf(r[i].End(x).lock.n) in r[i].End(x).table && r[i].End(x).lock.stage != SweepAway
  {
    RunInvariant(r, i);
    var m := r[i].End(x).lock.n;
    assert ChannelInv(View(r[i], m));
    assert TableInv(View(r[i], m).End(x));
    assert EndpointInv(r[i].End(x), r[i].opens, r[i].calm);
  }

  lemma LockMoveCosts(r: seq<System>, i: nat, x: Side)
    requires Reaches(r, i + 1) && r[i].End(x).lock != Free
    ensures SweepWork(r[i + 1].End(x)) + (if r[i].End(x).lock != r[i + 1].End(x).lock then 1 else 0)
         <= SweepWork(r[i].End(x))
  {
    ReachesBefore(r, i);
    assert Step(r[i], r[i + 1]);
    if r[i].End(x).lock.Visiting? {
      VisitedIsRegistered(r, i, x);
    }
    var y, a :| StepEnabled(r[i], y, a) && r[i + 1] == StepTo(r[i], y, a);
    if y == x {
      SweepWorkStep(r[i].End(x), r[i].opens, r[i].Inbox(x), a);
    }
  }

  lemma WorkLeft(r: seq<System>, i: nat, x: Side)
    requires Reaches(r, i)
    ensures 0 <= SweepWork(r[i].End(x)) <= 3 * |r[i].End(x).table| + 1
  {
    if r[i].End(x).lock.Visiting? {
      VisitedIsRegistered(r, i, x);
    }
  }

  lemma {:induction false} LockMovesCost(r: seq<System>, x: Side, i: nat, j: nat)
    requires i <= j && Reaches(r, j) && forall k :: i <= k < j ==> r[k].End(x).lock != Free
    ensures Reaches(r, i) && LockMoves(r, x, i, j) + SweepWork(r[j].End(x)) <= SweepWork(r[i].End(x))
    decreases j
  {
    if i < j {
      ReachesBefore(r, j - 1);
      LockMovesCost(r, x, i, j - 1);
      LockMoveCosts(r, j - 1, x);
    }
  }

  /** A CloseAll ends: as long as it holds the lock, it has taken no more steps than three for every stream
      in the table when we began to count, and one, whatever else goes on at either end. */
  lemma CloseAllEnds(r: seq<System>, x: Side, i: nat, j: nat)
    requires i <= j && Reaches(r, j) && forall k :: i <= k < j ==> r[k].End(x).lock != Free
    ensures LockMoves(r, x, i, j) <= 3 * |r[i].End(x).table| + 1
  {
    LockMovesCost(r, x, i, j);
    WorkLeft(r, i, x);
    WorkLeft(r, j, x);
  }
}
