/**
 The code of `Stream` and `Mux`.  Each method is proved to have, on the ghost `model` of its end of
 the connection, the effect that `MuxSteps` shows to be a sequence of the atomic steps interleaved
 by `Multiplexer`.  A method here runs without interference; what interference can do is the
 business of `Connection`.
 */
module Mux {
  import opened Bytes
  import opened StreamChannel
  import opened MuxSteps
  import M = Multiplexer
  import F = FrameCodec

  class Stream {
    const id: F.uint32
    const route: string
    var dataCh: seq<Payload>
    var closed: bool
    var doneClosed: bool
    ghost const num: nat  // the open call this object belongs to

    constructor (id: F.uint32, route: string, ghost num: nat)
      ensures this.id == id && this.route == route && this.num == num && dataCh == [] && !closed && !doneClosed
    {
      this.id, this.route, this.num := id, route, num;
      dataCh, closed, doneClosed := [], false, false;
    }

    /** Closes Done exactly if it wins the compare-and-swap, so Done is never closed twice. */
    method Close()
      requires doneClosed ==> closed
      modifies this`closed, this`doneClosed
      ensures closed && doneClosed == (old(doneClosed) || !old(closed))
    {
      if !closed {
        closed := true;
        CloseDone();
      }
    }

    /** `close(Done)`, which panics on a closed channel. */
    method CloseDone()
      requires !doneClosed
      modifies this`doneClosed
      ensures doneClosed
    {
      doneClosed := true;
    }

    ghost predicate Matches(o: StreamChannel.Stream)
      reads this
    {
      dataCh == o.dataCh && closed == o.closed && doneClosed == (o.closes > 0) && (doneClosed ==> closed)
    }
  }

  /** What HandleFrame did: finished, wait on a full queue, reject an Open, call the sync handler, or fail to
      answer a ping. */
  datatype Outcome = Finished | Waiting | BadOpen | Synced(payload: Payload) | SendFailed

  /** What others can see of a call, in the order in which it happens: entries of the table coming and going,
      streams being shut, frames being sent. */
  datatype Effect = Entered(id: nat) | Shut(id: nat) | Removed(id: nat) | Sent(frame: F.Frame)

  /** `w` is `f` as it goes over the wire.  What an Open carries besides its id is up to `marshal`. */
  predicate Carries(w: F.Frame, f: M.Frame) {
    match f
    case OnStream(n, Open) => w.typ == F.STREAM_OPEN && w.streamID == M.IdOf(n)
    case OnStream(n, Data(p)) => w.typ == F.STREAM_DATA && w.streamID == M.IdOf(n) && w.payload == p
    case OnStream(n, Close) => w.typ == F.STREAM_CLOSE && w.streamID == M.IdOf(n) && w.payload == []
    case Control(RouteSync) => w.typ == F.ROUTE_SYNC
    case Control(Ping) => w.typ == F.PING
    case Control(Pong) => w.typ == F.PONG && w.payload == []
  }

  /** The frames that the other end's read loop gets from messages of one frame each. */
  function Arrivals(ws: seq<F.Frame>): seq<F.Frame>
    decreases |ws|
  {
    if ws == [] then [] else F.DecodeAll(F.Encode(ws[0])).0 + Arrivals(ws[1..])
  }

  /** What the connection has taken since it had taken `before` gets to the other end as these frames. */
  predicate Grew(before: seq<F.Frame>, after: seq<F.Frame>, frames: seq<M.Frame>) {
    && before <= after
    && var arrived := Arrivals(after[|before|..]);
       |arrived| == |frames| && forall i :: 0 <= i < |frames| ==> Carries(arrived[i], frames[i])
  }

  /** A frame that is sent arrives if it fits, and otherwise nothing does. */
  lemma GrowsBy(before: seq<F.Frame>, w: F.Frame, f: M.Frame, ok: bool)
    requires Carries(w, f) && |w.payload| < M.MESSAGE_LIMIT
    ensures if ok then Grew(before, before + [w], if F.Fits(w.payload) then [f] else []) else Grew(before, before, [])
  {
    hide F.Encode, F.DecodeAll;
    F.MessageOfOne(w);
    assert (before + [w])[|before|..] == [w];
    assert before[|before|..] == [];
    assert Arrivals([]) == [];
    assert Arrivals([w]) == F.DecodeAll(F.Encode(w)).0 + [];
  }

  /** What of CloseStream arrives at the other end is what its steps send. */
  lemma CloseWire(before: seq<F.Frame>, e: M.Endpoint, n: nat, t: nat, ok: bool)
    requires M.EntriesInv(e)
    ensures var frames := FramesOf(CloseSteps(e, n, t, ok));
      if e.Finds(n) && ok then Grew(before, before + [F.Frame(F.STREAM_CLOSE, M.IdOf(n), [])], frames)
      else Grew(before, before, frames)
  {
    hide Grew;
    CloseFrames(e, n, t, ok);
    var m := if e.Finds(n) then e.table[M.IdOf(n)] else n;
    GrowsBy(before, F.Frame(F.STREAM_CLOSE, M.IdOf(n), []), M.OnStream(m, Close), true);
    GrowsBy(before, F.Frame(F.STREAM_CLOSE, M.IdOf(n), []), M.OnStream(m, Close), false);
  }

  /** What has been sent arrives as the frames of CloseStream's steps, if every id in the table is an open's. */
  ghost predicate CloseArrives(before: seq<F.Frame>, after: seq<F.Frame>, e: M.Endpoint, id: nat, t: nat, ok: bool) {
    M.EntriesInv(e) ==> forall n :: id == M.IdOf(n) ==> Grew(before, after, FramesOf(CloseSteps(e, n, t, ok)))
  }

  lemma CloseSends(before: seq<F.Frame>, e: M.Endpoint, id: F.uint32, t: nat, ok: bool)
    ensures CloseArrives(before, if id in e.table && ok then before + [F.Frame(F.STREAM_CLOSE, id, [])] else before, e, id, t, ok)
  {
    hide Grew, FramesOf, CloseSteps;
    forall n | M.EntriesInv(e) && id == M.IdOf(n)
      ensures Grew(before, if id in e.table && ok then before + [F.Frame(F.STREAM_CLOSE, id, [])] else before,
                   FramesOf(CloseSteps(e, n, t, ok)))
    {
      CloseWire(before, e, n, t, ok);
    }
  }

  /** The entry and the object of a new stream; for the id of the other end's n-th open, what the reader makes
      of its Open. */
  function EnteredStream(e: M.Endpoint, id: nat, n: nat): (e': M.Endpoint)
    ensures id == M.IdOf(n) ==> e' == M.Handle(e, M.OnStream(n, Open))
  {
    e.(table := e.table[id := n]).Set(n, StreamChannel.NewStream(Handed))
  }

  lemma RemovedIsSmaller<K, V>(m: map<K, V>, k: K)
    requires k in m
    ensures |m - {k}| < |m| && (m - {k}).Keys == m.Keys - {k}
  {
    assert m.Keys == (m - {k}).Keys + {k};
  }

  class Mux {
    var streams: map<F.uint32, Stream>
    var nextID: F.uint32
    var sent: seq<F.Frame>  // the frames that sendFrame has put on the connection
    const marshal: string -> Payload
    const unmarshal: Payload -> Option<string>

    ghost var log: seq<Effect>
    ghost var model: M.Endpoint
    ghost var opens: nat
    ghost var objects: map<nat, Stream>

    /** The table and the stream objects are those of the model. */
    ghost predicate Coupled(table: map<nat, nat>, objs: map<nat, StreamChannel.Stream>)
      reads this`objects, this`streams, objects.Values
    {
      && objects.Keys == objs.Keys
      && (forall n :: n in objects ==> objects[n].num == n && objects[n].Matches(objs[n]))
      && streams.Keys == table.Keys
      && (forall id :: id in streams ==>
            table[id] in objects && streams[id] == objects[table[id]] && streams[id].id == id)
    }

    /** Coupling is a matter of the fields that the code keeps. */
    lemma CoupledSameFields(table: map<nat, nat>, objs: map<nat, StreamChannel.Stream>, objs': map<nat, StreamChannel.Stream>)
      requires Coupled(table, objs) && objs'.Keys == objs.Keys
      requires forall n :: n in objs ==> SameFields(objs[n], objs'[n])
      ensures Coupled(table, objs')
    {
    }

    ghost predicate Valid()
      reads this`nextID, this`opens, this`model, this`objects, this`streams, objects.Values
    {
      nextID == M.IdOf(opens) && Coupled(model.table, model.objs)
    }

    /** No two entries share a stream object. */
    lemma EntriesOneToOne()
      requires Valid()
      ensures OneToOne(model)
    {
      forall i, j | i in model.table && j in model.table && model.table[i] == model.table[j]
        ensures i == j
      {
        assert streams[i] == streams[j];
      }
    }

    /** This end opens the streams of the connection: all its streams are its own opens. */
    ghost predicate Opener()
      reads this`objects, this`opens
    {
      forall n :: n in objects ==> n < opens
    }

    constructor (marshal: string -> Payload, unmarshal: Payload -> Option<string>)
      ensures Valid() && Opener() && model == M.NEW_ENDPOINT && opens == 0 && sent == []
    {
      this.marshal, this.unmarshal := marshal, unmarshal;
      streams, nextID, sent := map[], 1, [];
      log, model, opens, objects := [], M.NEW_ENDPOINT, 0, map[];
    }

    method SendFrame(f: F.Frame, ok: bool)
      modifies this`sent, this`log
      ensures sent == if ok then old(sent) + [f] else old(sent)
      ensures log == if ok then old(log) + [Sent(f)] else old(log)
    {
      if ok {
        sent := sent + [f];
        log := log + [Sent(f)];
      }
    }

    /** Deletes the entry; the end is now `e`. */
    method RemoveStream(id: F.uint32, ghost e: M.Endpoint)
      requires nextID == M.IdOf(opens) && Coupled(model.table, e.objs) && e.table == model.table - {id}
      modifies this`streams, this`log, this`model
      ensures Valid() && model == e && streams == old(streams) - {id} && log == old(log) + [Removed(id)]
    {
      streams := streams - {id};
      model, log := e, log + [Removed(id)];
    }

    /** `s.Close()` and the removal of its entry, as CloseStream, CloseAll and the Close frame do it. */
    method ShutEntry(id: F.uint32, ghost e: M.Endpoint)
      requires Valid() && id in streams && ShutIn(model, id, e)
      modifies this`streams, this`log, this`model, objects.Values
      ensures Valid() && model == e && streams == old(streams) - {id}
      ensures log == old(log) + [Shut(id)] + [Removed(id)]
    {
      ShutStream(id, e);
      RemoveStream(id, e);
    }

    method ShutStream(id: F.uint32, ghost e: M.Endpoint)
      requires Valid() && id in streams && ShutIn(model, id, e)
      modifies this`log, objects.Values
      ensures Coupled(model.table, e.objs) && log == old(log) + [Shut(id)]
    {
      var s := streams[id];
      s.Close();
      log := log + [Shut(id)];
      forall k | k in objects
        ensures objects[k].num == k && objects[k].Matches(e.objs[k])
      {
        assert k != model.table[id] ==> objects[k] != s && e.objs[k] == model.objs[k];
      }
    }

    /** The locked part of OpenStream. */
    method RegisterStream(route: string) returns (s: Stream)
      requires Valid() && Opener()
      modifies this`streams, this`nextID, this`log, this`model, this`opens, this`objects
      ensures log == old(log) + [Entered(old(nextID))]
      ensures Valid() && Opener() && opens == old(opens) + 1 && fresh(s) && s.id == old(nextID) && s.route == route
      ensures streams == old(streams)[s.id := s] && old(opens) in objects && objects[old(opens)] == s
      ensures model == Opened(old(model), old(opens), true, true)
    {
      var id := nextID;
      M.IdsByTwo(opens);
      nextID := (nextID + 2) % 0x1_0000_0000;
      s := new Stream(id, route, opens);
      streams := streams[id := s];
      model, objects, opens := Opened(model, opens, true, true), objects[opens := s], opens + 1;
      log := log + [Entered(id)];
    }

    /** `ok` is whether the connection accepts the Open frame. */
    method OpenStream(route: string, ok: bool) returns (s: Stream?)
      requires Valid() && Opener()
      modifies this`streams, this`nextID, this`sent, this`log, this`model, this`opens, this`objects
      ensures Valid() && Opener() && opens == old(opens) + 1
      ensures model == Opened(old(model), old(opens), ok, F.Fits(marshal(route)))
      ensures sent == old(sent) + if ok then [F.Frame(F.STREAM_OPEN, old(nextID), marshal(route))] else []
      ensures |marshal(route)| < M.MESSAGE_LIMIT ==>
        Grew(old(sent), sent, FramesOf(OpenSteps(old(opens), ok, F.Fits(marshal(route)))))
      ensures log == old(log) + [Entered(old(nextID))]
                     + [if ok then Sent(F.Frame(F.STREAM_OPEN, old(nextID), marshal(route))) else Removed(old(nextID))]
      ensures ok ==> s != null && fresh(s) && s.id == old(nextID) && s.route == route
                     && old(nextID) in streams && streams[old(nextID)] == s
      ensures !ok ==> s == null && old(nextID) !in streams
    {
      ghost var e, n := model, opens;
      OpenFrames(n, ok, F.Fits(marshal(route)));
      s := RegisterStream(route);
      Announce(s.id, route, ok, e, n);
      if !ok {
        s := null;
      }
    }

    /** The part of OpenStream that needs no lock: the Open is sent, and the stream removed if that fails. */
    method Announce(id: F.uint32, route: string, ok: bool, ghost e: M.Endpoint, ghost n: nat)
      requires Valid() && model == Opened(e, n, true, true) && id == M.IdOf(n)
      modifies this`streams, this`sent, this`log, this`model
      ensures Valid() && model == Opened(e, n, ok, F.Fits(marshal(route)))
      ensures streams == if ok then old(streams) else old(streams) - {id}
      ensures sent == old(sent) + if ok then [F.Frame(F.STREAM_OPEN, id, marshal(route))] else []
      ensures |marshal(route)| < M.MESSAGE_LIMIT ==>
        Grew(old(sent), sent, if ok && F.Fits(marshal(route)) then [M.OnStream(n, Open)] else [])
      ensures log == old(log) + [if ok then Sent(F.Frame(F.STREAM_OPEN, id, marshal(route))) else Removed(id)]
    {
      hide Grew;
      if |marshal(route)| < M.MESSAGE_LIMIT {
        GrowsBy(sent, F.Frame(F.STREAM_OPEN, id, marshal(route)), M.OnStream(n, Open), ok);
      }
      SendFrame(F.Frame(F.STREAM_OPEN, id, marshal(route)), ok);
      if !ok {
        AbandonStream(id, e, n, F.Fits(marshal(route)));
      } else {
        NoteRefusal(e, n, F.Fits(marshal(route)));
      }
    }

    /** What OpenStream does when its send fails. */
    method AbandonStream(id: F.uint32, ghost e: M.Endpoint, ghost n: nat, ghost fits: bool)
      requires Valid() && model == Opened(e, n, true, true) && id == M.IdOf(n)
      modifies this`streams, this`log, this`model
      ensures Valid() && model == Opened(e, n, false, fits) && streams == old(streams) - {id} && log == old(log) + [Removed(id)]
    {
      OpenedOrNot(e, n, fits);
      CoupledSameFields(model.table, model.objs, Opened(e, n, false, fits).objs);
      RemoveStream(id, Opened(e, n, false, fits));
    }

    /** The Open has been sent; whether it fits shows only at the other end. */
    ghost method NoteRefusal(e: M.Endpoint, n: nat, fits: bool)
      requires Valid() && model == Opened(e, n, true, true)
      modifies this`model
      ensures Valid() && model == Opened(e, n, true, fits)
    {
      OpenedOrNot(e, n, fits);
      CoupledSameFields(model.table, model.objs, Opened(e, n, true, fits).objs);
      model := Opened(e, n, true, fits);
    }

    /** Any id will do; `n` is the stream with this id that the caller holds, if it holds one. */
    method SendData(id: F.uint32, data: Payload, ok: bool, ghost n: Option<nat>) returns (err: Outcome)
      requires Valid() && (n.Some? ==> n.value in objects && id == M.IdOf(n.value) && model.objs[n.value].phase == Handed)
      modifies this`sent, this`log, this`model
      ensures Valid() && err == if ok then Finished else SendFailed
      ensures model == if n.None? || |data| >= M.MESSAGE_LIMIT then old(model)
                       else M.Act(old(model), opens, [], M.SendData(n.value, data, ok))
      ensures sent == old(sent) + if ok then [F.Frame(F.STREAM_DATA, id, data)] else []
      ensures n.Some? && |data| < M.MESSAGE_LIMIT ==> Grew(old(sent), sent, M.Sends(M.SendData(n.value, data, ok)))
    {
      hide M.Act, M.Sends, Grew;
      DataFrames(if n.Some? then n.value else 0, data, ok);
      SendFrame(F.Frame(F.STREAM_DATA, id, data), ok);
      err := if ok then Finished else SendFailed;
      if n.Some? && |data| < M.MESSAGE_LIMIT {
        GrowsBy(old(sent), F.Frame(F.STREAM_DATA, id, data), M.OnStream(n.value, Data(data)), ok);
        LogData(data, ok, n.value);
      }
    }

    /** The history of stream `n` after a SendData. */
    ghost method LogData(data: Payload, ok: bool, n: nat)
      requires Valid() && n in objects && model.objs[n].phase == Handed && |data| < M.MESSAGE_LIMIT
      modifies this`model
      ensures Valid() && model == M.Act(old(model), opens, [], M.SendData(n, data, ok))
    {
      model := model.Set(n, LogSent(model.objs[n], data, ok));
    }

    /** Called by goroutine `t`, with any id. */
    method CloseStream(id: F.uint32, ok: bool, ghost t: nat)
      requires Valid()
      modifies this`streams, this`sent, this`log, this`model, objects.Values
      ensures Valid() && model == ClosedStream(old(model), id, t)
      ensures objects == old(objects) && opens == old(opens) && id !in streams
      ensures sent == if id in old(streams) && ok then old(sent) + [F.Frame(F.STREAM_CLOSE, id, [])] else old(sent)
      ensures CloseArrives(old(sent), sent, old(model), id, t, ok)
      ensures id in old(streams) ==>
        log == if ok then old(log) + [Shut(id)] + [Removed(id)] + [Sent(F.Frame(F.STREAM_CLOSE, id, []))]
               else old(log) + [Shut(id)] + [Removed(id)]
      ensures id !in old(streams) ==> log == old(log)
    {
      hide CloseArrives;
      ClosedStreamParts(model, id, t);
      CloseSends(sent, model, id, t, ok);
      if id in streams {
        CloseFound(id, t);
        SendFrame(F.Frame(F.STREAM_CLOSE, id, []), ok);
      }
    }

    method CloseFound(id: F.uint32, ghost t: nat)
      requires Valid() && id in streams
      modifies this`streams, this`log, this`model, objects.Values
      ensures Valid() && model == ClosedStream(old(model), id, t) && objects == old(objects) && id !in streams
      ensures log == old(log) + [Shut(id)] + [Removed(id)]
    {
      ghost var e := ClosedStream(model, id, t);
      ClosedStreamParts(model, id, t);
      ShutEntry(id, e);
    }

    /** An Open frame with any id, from which the new stream object `n` is made; `n` is the number of the other
        end's open if the id is the one of that open. */
    method HandleOpen(f: F.Frame, ghost n: nat) returns (err: Outcome)
      requires Valid() && n !in objects
      modifies this`streams, this`log, this`model, this`objects
      ensures Valid() && opens == old(opens)
      ensures log == old(log) + if err == Finished then [Entered(f.streamID)] else []
      ensures err == if unmarshal(f.payload).None? then BadOpen else Finished
      ensures err == BadOpen ==> model == old(model)
      ensures err == Finished ==>
        model == EnteredStream(old(model), f.streamID, n) && n in objects && fresh(objects[n])
        && f.streamID in streams && streams[f.streamID] == objects[n] && objects[n].route == unmarshal(f.payload).value
    {
      var route := unmarshal(f.payload);
      if route.None? {
        return BadOpen;
      }
      var s := new Stream(f.streamID, route.value, n);
      streams := streams[f.streamID := s];
      model, objects := EnteredStream(model, f.streamID, n), objects[n := s];
      log := log + [Entered(f.streamID)];
      err := Finished;
    }

    /** The select between sending on DataCh and receiving from Done; if both can go, either may. */
    method Deliver(id: F.uint32, p: Payload) returns (r: Outcome, ghost d: Delivery)
      requires Valid() && id in streams
      modifies objects.Values
      ensures var o := model.objs[model.table[id]];
        && Coupled(model.table, Delivered(model, id, p, d))
        && d != Ignored && (d == Pushed ==> |o.dataCh| < QUEUE_CAPACITY) && (d == Discarded ==> o.closes > 0)
        && r == (if d == Blocked then Waiting else Finished) && (d == Blocked ==> |o.dataCh| >= QUEUE_CAPACITY && o.closes == 0)
    {
      var s := streams[id];
      r := Finished;
      if
      case |s.dataCh| < QUEUE_CAPACITY =>
        s.dataCh := s.dataCh + [p];
        d := Pushed;
      case s.doneClosed =>
        d := Discarded;
      case |s.dataCh| >= QUEUE_CAPACITY && !s.doneClosed =>
        r, d := Waiting, Blocked;
    }

    /** A Data frame with any id, meant for stream `meant` if the id is that of any. */
    method HandleData(f: F.Frame, ghost meant: Option<nat>) returns (r: Outcome, ghost d: Delivery)
      requires Valid()
      modifies this`model, objects.Values
      ensures Valid() && objects == old(objects) && CanDeliver(old(model), f.streamID, d)
      ensures model == DataHandled(old(model), f.streamID, meant, f.payload, d)
      ensures r == if d == Blocked then Waiting else Finished
    {
      r, d := Finished, Ignored;
      ghost var objs := model.objs;
      if f.streamID in streams {
        r, d := Deliver(f.streamID, f.payload);
        objs := Delivered(model, f.streamID, f.payload, d);
      }
      DataHandledFields(model, f.streamID, meant, f.payload, d);
      NoteFields(objs, DataHandled(model, f.streamID, meant, f.payload, d));
    }

    /** The end is now `e`, which has the fields of `objs`. */
    ghost method NoteFields(objs: map<nat, StreamChannel.Stream>, e: M.Endpoint)
      requires nextID == M.IdOf(opens) && Coupled(model.table, objs) && e.table == model.table && e.objs.Keys == objs.Keys
      requires forall k :: k in objs ==> SameFields(objs[k], e.objs[k])
      modifies this`model
      ensures Valid() && model == e
    {
      CoupledSameFields(model.table, objs, e.objs);
      model := e;
    }

    method HandleClose(f: F.Frame)
      requires Valid()
      modifies this`streams, this`log, this`model, objects.Values
      ensures log == if f.streamID in old(streams) then old(log) + [Shut(f.streamID)] + [Removed(f.streamID)] else old(log)
      ensures Valid() && objects == old(objects) && model == CloseHandled(old(model), f.streamID) && f.streamID !in streams
    {
      ghost var e := CloseHandled(model, f.streamID);
      CloseHandledParts(model, f.streamID);
      if f.streamID in streams {
        ShutEntry(f.streamID, e);
      }
    }

    /** One frame of any type, with any id.  A new stream is made object `n`, and a payload is meant for stream
        `meant`; `ok` is whether the connection accepts the answer to a ping. */
    method HandleFrame(f: F.Frame, ok: bool, ghost n: nat, ghost meant: Option<nat>) returns (r: Outcome, ghost d: Delivery)
      requires Valid() && n !in objects
      modifies this`streams, this`sent, this`log, this`model, this`objects, objects.Values
      ensures Valid()
      ensures f.typ == F.STREAM_OPEN ==>
        if unmarshal(f.payload).None? then r == BadOpen && model == old(model)
        else r == Finished && model == EnteredStream(old(model), f.streamID, n)
      ensures f.typ == F.STREAM_DATA ==>
        CanDeliver(old(model), f.streamID, d) && model == DataHandled(old(model), f.streamID, meant, f.payload, d)
        && r == (if d == Blocked then Waiting else Finished)
      ensures f.typ == F.STREAM_CLOSE ==> r == Finished && model == CloseHandled(old(model), f.streamID)
      ensures f.typ == F.ROUTE_SYNC ==> r == Synced(f.payload)
      ensures f.typ == F.PING ==> r == (if ok then Finished else SendFailed) && Grew(old(sent), sent, M.Sends(M.SendPong(ok)))
      ensures f.typ !in {F.STREAM_OPEN, F.STREAM_DATA, F.STREAM_CLOSE, F.ROUTE_SYNC, F.PING} ==> r == Finished
      ensures f.typ !in {F.STREAM_OPEN, F.STREAM_DATA, F.STREAM_CLOSE} ==> model == old(model)
      ensures sent == old(sent) + if f.typ == F.PING && ok then [F.Frame(F.PONG, f.streamID, [])] else []
    {
      r, d := Finished, Ignored;
      if f.typ == F.STREAM_OPEN {
        r := HandleOpen(f, n);
      } else if f.typ == F.STREAM_DATA {
        r, d := HandleData(f, meant);
      } else if f.typ == F.STREAM_CLOSE {
        HandleClose(f);
      } else if f.typ == F.ROUTE_SYNC {
        r := Synced(f.payload);
      } else if f.typ == F.PING {
        GrowsBy(sent, F.Frame(F.PONG, f.streamID, []), M.Control(M.Pong), ok);
        SendFrame(F.Frame(F.PONG, f.streamID, []), ok);
        r := if ok then Finished else SendFailed;
      }
    }

    method CloseAll()
      requires Valid()
      modifies this`streams, this`log, this`model, objects.Values
      ensures Valid() && objects == old(objects) && streams == map[] && model == Swept(old(model), {})
    {
      ghost var e := model;
      EntriesOneToOne();
      SweptNone(e);
      while streams != map[]
        invariant Valid() && objects == old(objects)
        invariant streams.Keys <= e.table.Keys && model == Swept(e, streams.Keys)
        decreases |streams|
      {
        var id :| id in streams;
        SweepStream(id, e);
      }
    }

    /** One round of CloseAll's loop. */
    method SweepStream(id: F.uint32, ghost e: M.Endpoint)
      requires Valid() && OneToOne(e) && id in streams && streams.Keys <= e.table.Keys && model == Swept(e, streams.Keys)
      modifies this`streams, this`log, this`model, objects.Values
      ensures Valid() && objects == old(objects) && |streams| < |old(streams)| && model == Swept(e, streams.Keys)
    {
      SweptOneMore(e, streams.Keys, id);
      RemovedIsSmaller(streams, id);
      ShutEntry(id, Swept(e, streams.Keys - {id}));
    }
  }
}
