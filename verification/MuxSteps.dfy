/**
 What each call of the mux amounts to when nothing interferes, and the proof that it is the
 sequence of atomic steps that `Multiplexer` interleaves.
 */
module MuxSteps {
  import opened Bytes
  import opened StreamChannel
  import opened Multiplexer
  import FrameCodec

  /** End `e` can perform the steps `acts` in order and becomes `e'`; `inbox` is what its reader has
      to handle, and only a first step can be a Receive. */
  ghost predicate Performs(e: Endpoint, opens: nat, inbox: seq<Frame>, acts: seq<Action>, e': Endpoint)
    decreases |acts|
  {
    if acts == [] then e' == e
    else
      && CanAct(e, opens, inbox, acts[0])
      && Performs(Multiplexer.Act(e, opens, inbox, acts[0]), opens + (if acts[0].Register? then 1 else 0), [], acts[1..], e')
  }

  lemma Perform1(e: Endpoint, opens: nat, inbox: seq<Frame>, a: Action, rest: seq<Action>, e': Endpoint)
    requires CanAct(e, opens, inbox, a)
    requires Performs(Multiplexer.Act(e, opens, inbox, a), opens + (if a.Register? then 1 else 0), [], rest, e')
    ensures Performs(e, opens, inbox, [a] + rest, e')
  {
    assert ([a] + rest)[1..] == rest;
  }

  /** The frames that the steps send and that the other end takes. */
  function FramesOf(acts: seq<Action>): seq<Frame>
    decreases |acts|
  {
    if acts == [] then [] else Sends(acts[0]) + FramesOf(acts[1..])
  }

  lemma FramesOf1(a: Action, rest: seq<Action>)
    ensures FramesOf([a] + rest) == Sends(a) + FramesOf(rest)
  {
    assert ([a] + rest)[1..] == rest;
  }

  // ----- OpenStream

  function Opened(e: Endpoint, n: nat, ok: bool, fits: bool): Endpoint {
    e.(table := if ok then e.table[IdOf(n) := n] else e.table - {IdOf(n)},
       objs := e.objs[n := NewStream(if ok then Handed else Abandoned).(refused := ok && !fits)])
  }

  /** A failed open differs from a successful one in the entry and the phase only. */
  lemma OpenedOrNot(e: Endpoint, n: nat, fits: bool)
    ensures Opened(e, n, false, fits).table == Opened(e, n, true, true).table - {IdOf(n)}
    ensures Opened(e, n, false, fits).objs == Opened(e, n, true, true).objs[n := NewStream(Abandoned)]
    ensures Opened(e, n, true, fits).table == Opened(e, n, true, true).table
    ensures Opened(e, n, true, fits).objs == Opened(e, n, true, true).objs[n := NewStream(Handed).(refused := !fits)]
  {
  }

  function OpenSteps(n: nat, ok: bool, fits: bool): seq<Action> {
    [Action.Register] + ([Action.SendOpen(n, ok, fits)] + (if ok then [] else [Action.RemoveFailed(n)] + []))
  }

  lemma OpenStreamSteps(e: Endpoint, n: nat, ok: bool, fits: bool)
    requires e.lock == Free
    ensures Performs(e, n, [], OpenSteps(n, ok, fits), Opened(e, n, ok, fits))
  {
    var e1 := Multiplexer.Act(e, n, [], Action.Register);
    var e2 := Multiplexer.Act(e1, n + 1, [], Action.SendOpen(n, ok, fits));
    if ok {
      assert e2 == Opened(e, n, ok, fits);
      Perform1(e1, n + 1, [], Action.SendOpen(n, ok, fits), [], e2);
    } else {
      var e3 := Multiplexer.Act(e2, n + 1, [], Action.RemoveFailed(n));
      assert e3.table == Opened(e, n, ok, fits).table && e3.objs == Opened(e, n, ok, fits).objs;
      Perform1(e2, n + 1, [], Action.RemoveFailed(n), [], e3);
      Perform1(e1, n + 1, [], Action.SendOpen(n, ok, fits), [Action.RemoveFailed(n)] + [], e3);
    }
    Perform1(e, n, [], Action.Register, [Action.SendOpen(n, ok, fits)] + (if ok then [] else [Action.RemoveFailed(n)] + []),
             Opened(e, n, ok, fits));
  }

  lemma DataFrames(n: nat, p: Payload, ok: bool)
    ensures Sends(Action.SendData(n, p, ok)) == if ok && FrameCodec.Fits(p) then [OnStream(n, Data(p))] else []
  {
  }

  lemma OpenFrames(n: nat, ok: bool, fits: bool)
    ensures FramesOf(OpenSteps(n, ok, fits)) == if ok && fits then [OnStream(n, Open)] else []
  {
    FramesOf1(Action.Register, [Action.SendOpen(n, ok, fits)] + (if ok then [] else [Action.RemoveFailed(n)] + []));
    FramesOf1(Action.SendOpen(n, ok, fits), if ok then [] else [Action.RemoveFailed(n)] + []);
    FramesOf1(Action.RemoveFailed(n), []);
  }

  // ----- CloseStream

  /** `Stream.Close` run to its end by `who`. */
  function Shut(o: Stream, who: Winner): Stream {
    if o.closed then o else CloseDone(CompareAndSwap(o, who))
  }

  /** CloseStream with this id, whoever the stream belongs to. */
  function ClosedStream(e: Endpoint, id: nat, t: nat): Endpoint {
    if id !in e.table then e
    else
      var m := e.table[id];
      e.(table := e.table - {id}).Set(m, Shut(e.Obj(m), ByCall(t)).(closeBegun := true))
  }

  /** `o'` is `o` after `Stream.Close`. */
  ghost predicate ShutFields(o: Stream, o': Stream) {
    o'.dataCh == o.dataCh && o'.closed && o'.closes == o.closes + if o.closed then 0 else 1
  }

  /** `e'` is `e` after the stream with this id was shut and its entry removed. */
  ghost predicate ShutIn(e: Endpoint, id: nat, e': Endpoint)
    requires id in e.table
  {
    var m := e.table[id];
    && m in e.objs && m in e'.objs && ShutFields(e.objs[m], e'.objs[m])
    && e'.table == e.table - {id} && e'.objs == e.objs[m := e'.objs[m]]
  }

  lemma ClosedStreamParts(e: Endpoint, id: nat, t: nat)
    ensures id !in e.table ==> ClosedStream(e, id, t) == e
    ensures id in e.table && e.table[id] in e.objs ==> ShutIn(e, id, ClosedStream(e, id, t))
  {
  }

  function CloseSteps(e: Endpoint, n: nat, t: nat, ok: bool): seq<Action> {
    if !e.Finds(n) then []
    else
      var m := e.table[IdOf(n)];
      [Action.CloseLookup(n, t)] + ([Action.CallCas(m, t)] + CloseStepsAfterSwap(e, m, t, ok))
  }

  function CloseStepsAfterSwap(e: Endpoint, m: nat, t: nat, ok: bool): seq<Action> {
    var tail := [Action.CallRemove(m, t)] + ([Action.CallSend(m, t, ok)] + []);
    if e.Obj(m).closed then tail else [Action.CallDone(m, t)] + tail
  }

  lemma CloseFrames(e: Endpoint, n: nat, t: nat, ok: bool)
    ensures FramesOf(CloseSteps(e, n, t, ok)) == if e.Finds(n) && ok then [OnStream(e.table[IdOf(n)], Close)] else []
  {
    if e.Finds(n) {
      var m := e.table[IdOf(n)];
      var tail := [Action.CallRemove(m, t)] + ([Action.CallSend(m, t, ok)] + []);
      FramesOf1(Action.CallSend(m, t, ok), []);
      FramesOf1(Action.CallRemove(m, t), [Action.CallSend(m, t, ok)] + []);
      FramesOf1(Action.CallDone(m, t), tail);
      FramesOf1(Action.CallCas(m, t), CloseStepsAfterSwap(e, m, t, ok));
      FramesOf1(Action.CloseLookup(n, t), [Action.CallCas(m, t)] + CloseStepsAfterSwap(e, m, t, ok));
    }
  }

  lemma CloseTailSteps(e: Endpoint, opens: nat, m: nat, t: nat, ok: bool)
    requires m in e.objs && AtCall(e.objs[m], t, Removing) && e.lock == Free
    ensures Performs(e, opens, [], [Action.CallRemove(m, t)] + ([Action.CallSend(m, t, ok)] + []),
                     e.(table := e.table - {IdOf(m)}).Set(m, EndCall(e.objs[m], t)))
  {
    var e1 := Multiplexer.Act(e, opens, [], Action.CallRemove(m, t));
    var e2 := Multiplexer.Act(e1, opens, [], Action.CallSend(m, t, ok));
    assert e1.objs[m].calls - {t} == e.objs[m].calls - {t};
    assert e2.objs == e.objs[m := EndCall(e.objs[m], t)];
    Perform1(e1, opens, [], Action.CallSend(m, t, ok), [], e2);
    Perform1(e, opens, [], Action.CallRemove(m, t), [Action.CallSend(m, t, ok)] + [], e2);
  }

  lemma CloseAfterSwapSteps(e: Endpoint, e2: Endpoint, opens: nat, m: nat, t: nat, ok: bool)
    requires m in e.objs && e2.lock == Free && e2 == e.Set(m, CallSwap(e.objs[m], t))
    ensures Performs(e2, opens, [], CloseStepsAfterSwap(e, m, t, ok),
                     e.(table := e.table - {IdOf(m)}).Set(m, EndCall(Shut(e.objs[m], ByCall(t)), t)))
  {
    var tail := [Action.CallRemove(m, t)] + ([Action.CallSend(m, t, ok)] + []);
    var last := e.(table := e.table - {IdOf(m)}).Set(m, EndCall(Shut(e.objs[m], ByCall(t)), t));
    if e.objs[m].closed {
      CloseTailSteps(e2, opens, m, t, ok);
      assert EndCall(e2.objs[m], t) == EndCall(e.objs[m], t);
      assert e2.(table := e2.table - {IdOf(m)}).Set(m, EndCall(e2.objs[m], t)) == last;
    } else {
      var e3 := Multiplexer.Act(e2, opens, [], Action.CallDone(m, t));
      CloseTailSteps(e3, opens, m, t, ok);
      assert EndCall(e3.objs[m], t) == EndCall(Shut(e.objs[m], ByCall(t)), t);
      assert e3.(table := e3.table - {IdOf(m)}).Set(m, EndCall(e3.objs[m], t)) == last;
      Perform1(e2, opens, [], Action.CallDone(m, t), tail, last);
    }
  }

  /** `CloseStream(IdOf(n))` called by goroutine `t`, which holds stream `n`. */
  lemma CloseStreamSteps(e: Endpoint, opens: nat, n: nat, t: nat, ok: bool)
    requires EntriesInv(e) && e.lock == Free && n in e.objs && e.objs[n].phase == Handed
    requires e.Finds(n) ==> t !in e.Obj(e.table[IdOf(n)]).calls
    ensures Performs(e, opens, [], CloseSteps(e, n, t, ok), ClosedStream(e, IdOf(n), t))
  {
    if e.Finds(n) {
      var m := e.table[IdOf(n)];
      var e1 := Multiplexer.Act(e, opens, [], Action.CloseLookup(n, t));
      var e2 := Multiplexer.Act(e1, opens, [], Action.CallCas(m, t));
      CloseAfterSwapSteps(e1, e2, opens, m, t, ok);
      assert CloseStepsAfterSwap(e1, m, t, ok) == CloseStepsAfterSwap(e, m, t, ok);
      assert EndCall(Shut(e1.objs[m], ByCall(t)), t) == Shut(e.objs[m], ByCall(t)).(closeBegun := true) by {
        assert e.objs[m].calls[t := Looked] - {t} == e.objs[m].calls;
      }
      assert e1.(table := e1.table - {IdOf(m)}).Set(m, EndCall(Shut(e1.objs[m], ByCall(t)), t)) == ClosedStream(e, IdOf(n), t);
      Perform1(e1, opens, [], Action.CallCas(m, t), CloseStepsAfterSwap(e, m, t, ok), ClosedStream(e, IdOf(n), t));
      Perform1(e, opens, [], Action.CloseLookup(n, t), [Action.CallCas(m, t)] + CloseStepsAfterSwap(e, m, t, ok),
               ClosedStream(e, IdOf(n), t));
    }
  }

  // ----- HandleFrame

  datatype Delivery = Ignored | Pushed | Discarded | Blocked

  /** How the handling of a Data frame with this id can come out at once; Blocked only if it must wait. */
  predicate CanDeliver(e: Endpoint, id: nat, d: Delivery) {
    if id !in e.table then d == Ignored
    else
      var o := e.Obj(e.table[id]);
      match d
      case Ignored => false
      case Pushed => |o.dataCh| < QUEUE_CAPACITY
      case Discarded => o.closes > 0
      case Blocked => |o.dataCh| >= QUEUE_CAPACITY && o.closes == 0
  }

  /** The reader has a payload for this id, meant for stream `meant` if the id is that of any. */
  function DataTaken(e: Endpoint, id: nat, meant: Option<nat>, p: Payload): Endpoint {
    var e' := if meant.Some? && meant.value in e.objs then e.Set(meant.value, LogTaken(e.objs[meant.value], p)) else e;
    if id in e.table then e'.(reader := Busy(e.table[id], Holding(p))) else e'
  }

  function DataHandled(e: Endpoint, id: nat, meant: Option<nat>, p: Payload, d: Delivery): Endpoint {
    var e1 := DataTaken(e, id, meant, p);
    match d
    case Ignored => e1
    case Blocked => e1
    case Discarded => e1.(reader := Idle)
    case Pushed =>
      if id in e.table then e1.(reader := Idle).Set(e.table[id], Enqueue(e1.Obj(e.table[id]), p)) else e1
  }

  function DataSteps(d: Delivery): seq<Action> {
    [Receive] + (match d
                 case Pushed => [Action.Push] + []
                 case Discarded => [Action.Discard] + []
                 case _ => [])
  }

  lemma DataFrameSteps(e: Endpoint, opens: nat, n: nat, p: Payload, d: Delivery)
    requires EntriesInv(e) && e.lock == Free && e.reader == Idle && CanDeliver(e, IdOf(n), d)
    ensures Performs(e, opens, [OnStream(n, Data(p))], DataSteps(d), DataHandled(e, IdOf(n), Some(n), p, d))
  {
    var inbox := [OnStream(n, Data(p))];
    var e1 := Handle(e, inbox[0]);
    var last := DataHandled(e, IdOf(n), Some(n), p, d);
    match d {
      case Pushed => Perform1(e1, opens, [], Action.Push, [], last);
      case Discarded => Perform1(e1, opens, [], Action.Discard, [], last);
      case _ =>
    }
    Perform1(e, opens, inbox, Receive, DataSteps(d)[1..], last);
    assert [Receive] + DataSteps(d)[1..] == DataSteps(d);
  }

  /** The fields of the stream objects that the code keeps. */
  ghost predicate SameFields(o: Stream, o': Stream) {
    o'.dataCh == o.dataCh && o'.closed == o.closed && o'.closes == o.closes
  }

  /** The stream objects after the select, but for the history. */
  function Delivered(e: Endpoint, id: nat, p: Payload, d: Delivery): map<nat, Stream>
    requires id in e.table
  {
    if d == Pushed then e.objs[e.table[id] := Enqueue(e.Obj(e.table[id]), p)] else e.objs
  }

  lemma DataHandledFields(e: Endpoint, id: nat, meant: Option<nat>, p: Payload, d: Delivery)
    requires CanDeliver(e, id, d) && (id in e.table ==> e.table[id] in e.objs)
    ensures var e' := DataHandled(e, id, meant, p, d); var objs := if id in e.table then Delivered(e, id, p, d) else e.objs;
      && e'.table == e.table && e'.objs.Keys == objs.Keys
      && forall k :: k in objs ==> SameFields(objs[k], e'.objs[k])
  {
  }

  /** A Close frame with this id has been handled. */
  function CloseHandled(e: Endpoint, id: nat): Endpoint {
    if id !in e.table then e
    else
      var m := e.table[id];
      e.(table := e.table - {id}).Set(m, Shut(e.Obj(m), ByReader))
  }

  lemma CloseHandledParts(e: Endpoint, id: nat)
    ensures id !in e.table ==> CloseHandled(e, id) == e
    ensures id in e.table && e.table[id] in e.objs ==> ShutIn(e, id, CloseHandled(e, id))
  {
  }

  function CloseFrameSteps(e: Endpoint, n: nat): seq<Action> {
    if !e.Finds(n) then [Receive] + []
    else
      [Receive] + ([Action.ReaderCas] +
       (if e.Obj(e.table[IdOf(n)]).closed then [Action.ReaderRemove] + []
        else [Action.ReaderDone] + ([Action.ReaderRemove] + [])))
  }

  /** The reader's steps on the stream it has found, once it has looked it up. */
  lemma ReaderShuts(e: Endpoint, opens: nat, m: nat)
    requires m in e.objs && e.lock == Free && e.reader == Busy(m, ReaderLooked)
    ensures Performs(e, opens, [], [Action.ReaderCas] +
              (if e.Obj(m).closed then [Action.ReaderRemove] + []
               else [Action.ReaderDone] + ([Action.ReaderRemove] + [])),
              e.(table := e.table - {IdOf(m)}, reader := Idle).Set(m, Shut(e.Obj(m), ByReader)))
  {
    var last := e.(table := e.table - {IdOf(m)}, reader := Idle).Set(m, Shut(e.Obj(m), ByReader));
    var e2 := Multiplexer.Act(e, opens, [], Action.ReaderCas);
    if e.Obj(m).closed {
      assert Multiplexer.Act(e2, opens, [], Action.ReaderRemove) == last;
      Perform1(e2, opens, [], Action.ReaderRemove, [], last);
      Perform1(e, opens, [], Action.ReaderCas, [Action.ReaderRemove] + [], last);
    } else {
      var e3 := Multiplexer.Act(e2, opens, [], Action.ReaderDone);
      assert Multiplexer.Act(e3, opens, [], Action.ReaderRemove) == last;
      Perform1(e3, opens, [], Action.ReaderRemove, [], last);
      Perform1(e2, opens, [], Action.ReaderDone, [Action.ReaderRemove] + [], last);
      Perform1(e, opens, [], Action.ReaderCas, [Action.ReaderDone] + ([Action.ReaderRemove] + []), last);
    }
  }

  lemma CloseFrameHandled(e: Endpoint, opens: nat, n: nat)
    requires EntriesInv(e) && e.lock == Free && e.reader == Idle
    ensures Performs(e, opens, [OnStream(n, Close)], CloseFrameSteps(e, n), CloseHandled(e, IdOf(n)))
  {
    var inbox := [OnStream(n, Close)];
    if !e.Finds(n) {
      Perform1(e, opens, inbox, Receive, [], CloseHandled(e, IdOf(n)));
    } else {
      var m := e.table[IdOf(n)];
      var e1 := e.(reader := Busy(m, ReaderLooked));
      ReaderShuts(e1, opens, m);
      assert e1.(table := e1.table - {IdOf(m)}, reader := Idle).Set(m, Shut(e1.Obj(m), ByReader)) == CloseHandled(e, IdOf(n));
      Perform1(e, opens, inbox, Receive,
               [Action.ReaderCas] +
               (if e.Obj(m).closed then [Action.ReaderRemove] + []
                else [Action.ReaderDone] + ([Action.ReaderRemove] + [])), CloseHandled(e, IdOf(n)));
    }
  }

  // ----- CloseAll

  /** The streams registered under ids other than `left`. */
  function RegisteredBut(e: Endpoint, left: set<nat>): set<nat> {
    set id | id in e.table && id !in left :: e.table[id]
  }

  /** The end when CloseAll has shut every registered stream but those with the ids `left`. */
  function Swept(e: Endpoint, left: set<nat>): Endpoint {
    e.(table := map id | id in e.table && id in left :: e.table[id],
       objs := map n | n in e.objs :: if n in RegisteredBut(e, left) then Shut(e.objs[n], ByCloseAll) else e.objs[n])
  }

  /** Every entry leads to a stream object of its own. */
  ghost predicate OneToOne(e: Endpoint) {
    && (forall id :: id in e.table ==> e.table[id] in e.objs)
    && (forall i, j :: i in e.table && j in e.table && e.table[i] == e.table[j] ==> i == j)
  }

  lemma SweptNone(e: Endpoint)
    ensures Swept(e, e.table.Keys) == e
  {
    assert Swept(e, e.table.Keys).table == e.table && Swept(e, e.table.Keys).objs == e.objs;
  }

  lemma SweptOneMore(e: Endpoint, left: set<nat>, id: nat)
    requires OneToOne(e) && id in e.table && id in left
    ensures id in Swept(e, left).table && ShutIn(Swept(e, left), id, Swept(e, left - {id}))
  {
    forall n
      ensures n in RegisteredBut(e, left - {id}) <==> n in RegisteredBut(e, left) || n == e.table[id]
    {
      if n in RegisteredBut(e, left) {
        var k :| k in e.table && k !in left && e.table[k] == n;
        assert k !in left - {id};
      }
      assert id !in left - {id};
    }
    assert Swept(e, left - {id}).table == Swept(e, left).table - {id};
    var m := e.table[id];
    assert Swept(e, left - {id}).objs == Swept(e, left).objs[m := Swept(e, left - {id}).objs[m]];
  }

  /** One round of the loop, for the stream with this id. */
  function Round(e: Endpoint, id: nat): Endpoint
    requires id in e.table
  {
    e.(table := e.table - {id}).Set(e.table[id], Shut(e.Obj(e.table[id]), ByCloseAll))
  }

  /** The steps of a round, then `rest`. */
  function RoundSteps(e: Endpoint, id: nat, rest: seq<Action>): seq<Action>
    requires id in e.table
  {
    [Action.SweepVisit(id)]
    + (if e.Obj(e.table[id]).closed then [Action.SweepDelete] + rest
       else [Action.SweepDone] + ([Action.SweepDelete] + rest))
  }

  lemma SweepRound(e: Endpoint, opens: nat, id: nat, rest: seq<Action>, e': Endpoint)
    requires EntriesInv(e) && e.lock == Scanning && id in e.table && Performs(Round(e, id), opens, [], rest, e')
    ensures Performs(e, opens, [], RoundSteps(e, id, rest), e')
  {
    var e1 := Multiplexer.Act(e, opens, [], Action.SweepVisit(id));
    if e.Obj(e.table[id]).closed {
      assert Multiplexer.Act(e1, opens, [], Action.SweepDelete) == Round(e, id);
      Perform1(e1, opens, [], Action.SweepDelete, rest, e');
      Perform1(e, opens, [], Action.SweepVisit(id), [Action.SweepDelete] + rest, e');
    } else {
      var e2 := Multiplexer.Act(e1, opens, [], Action.SweepDone);
      assert Multiplexer.Act(e2, opens, [], Action.SweepDelete) == Round(e, id);
      Perform1(e2, opens, [], Action.SweepDelete, rest, e');
      Perform1(e1, opens, [], Action.SweepDone, [Action.SweepDelete] + rest, e');
      Perform1(e, opens, [], Action.SweepVisit(id), [Action.SweepDone] + ([Action.SweepDelete] + rest), e');
    }
  }

  /** The ids of the table, each once, in one of the orders in which a range loop can visit them. */
  ghost predicate Visits(order: seq<nat>, table: map<nat, nat>) {
    && (forall id :: id in order <==> id in table)
    && (forall i, j :: 0 <= i < j < |order| ==> order[i] != order[j])
  }

  /** The steps of a CloseAll that visits the entries in this order, once it holds the lock. */
  function SweepSteps(e: Endpoint, order: seq<nat>): seq<Action>
    decreases |order|
  {
    if order == [] || order[0] !in e.table then [Action.SweepEnd] + []
    else RoundSteps(e, order[0], SweepSteps(Round(e, order[0]), order[1..]))
  }

  lemma VisitsRest(order: seq<nat>, table: map<nat, nat>)
    requires order != [] && Visits(order, table)
    ensures order[0] in table && Visits(order[1..], table - {order[0]})
  {
    assert order[0] in order;
    assert order == [order[0]] + order[1..];
  }

  lemma RoundKeepsEntries(e: Endpoint, id: nat)
    requires EntriesInv(e) && id in e.table
    ensures EntriesInv(Round(e, id))
  {
  }

  lemma SweptAfterRound(e: Endpoint, id: nat)
    requires EntriesInv(e) && id in e.table
    ensures Swept(Round(e, id), {}) == Swept(e, {})
  {
    assert Swept(Round(e, id), {}).table == Swept(e, {}).table;
    assert Swept(Round(e, id), {}).objs == Swept(e, {}).objs;
  }

  lemma {:induction false} SweepLoop(e: Endpoint, opens: nat, order: seq<nat>)
    requires EntriesInv(e) && e.lock == Scanning && Visits(order, e.table)
    ensures Performs(e, opens, [], SweepSteps(e, order), Swept(e, {}).(lock := Free))
    decreases |order|
  {
    var last := Swept(e, {}).(lock := Free);
    if order == [] {
      assert e.table == map[];
      SweptNone(e);
      assert Multiplexer.Act(e, opens, [], Action.SweepEnd) == last;
      Perform1(e, opens, [], Action.SweepEnd, [], last);
    } else {
      VisitsRest(order, e.table);
      RoundKeepsEntries(e, order[0]);
      SweptAfterRound(e, order[0]);
      SweepLoop(Round(e, order[0]), opens, order[1..]);
      SweepRound(e, opens, order[0], SweepSteps(Round(e, order[0]), order[1..]), last);
    }
  }

  /** In every order in which the loop can visit the entries, CloseAll shuts every registered stream and
      empties the table. */
  lemma CloseAllSteps(e: Endpoint, opens: nat, order: seq<nat>)
    requires EntriesInv(e) && e.lock == Free && Visits(order, e.table)
    ensures Performs(e, opens, [], [Action.SweepBegin] + SweepSteps(e.(lock := Scanning), order), Swept(e, {}))
  {
    var e1 := e.(lock := Scanning);
    SweepLoop(e1, opens, order);
    assert Swept(e1, {}).(lock := Free) == Swept(e, {});
    Perform1(e, opens, [], Action.SweepBegin, SweepSteps(e1, order), Swept(e, {}));
  }
}
