/**
 The tunnel connection: two muxes joined by two FIFO frame queues.  Each end has one stream table,
 one reader and one lock; any number of goroutines run OpenStream, SendData, CloseStream and
 CloseAll on it.  Streams are told apart on the wire only by their 32-bit ids.

 A stream object is named by the number of the open call that caused it, so that the model can say
 which stream an id was *meant* for; the steps themselves look streams up by id, as the code does.
 */
module Multiplexer {
  import opened Bytes
  import opened StreamChannel
  import FrameCodec

  const MAX_OPENS: nat := 0x8000_0000

  /** The length field of a frame can tell payloads below this size apart. */
  const MESSAGE_LIMIT: nat := 0x1_0000_0000

  /** The id that the n-th OpenStream takes from `nextID`, which starts at 1, steps by 2 and wraps. */
  function IdOf(n: nat): nat {
    (1 + 2 * n) % 0x1_0000_0000
  }

  /** The first id is 1, each next one is two more, as 32 bits, and all are odd. */
  lemma IdsByTwo(n: nat)
    ensures IdOf(0) == 1 && IdOf(n + 1) == (IdOf(n) + 2) % 0x1_0000_0000 && IdOf(n) % 2 == 1
  {
    IdByRemainder(n);
  }

  /** Two opens get the same id exactly when they are a multiple of 2^31 opens apart. */
  lemma IdsCollide(m: nat, n: nat)
    ensures IdOf(m) == IdOf(n) <==> m % 0x8000_0000 == n % 0x8000_0000
  {
    IdByRemainder(m);
    IdByRemainder(n);
  }

  lemma IdByRemainder(n: nat)
    ensures IdOf(n) == 1 + 2 * (n % 0x8000_0000)
  {
    assert 1 + 2 * n == 0x1_0000_0000 * (n / 0x8000_0000) + (1 + 2 * (n % 0x8000_0000));
  }

  lemma IdsDistinct(m: nat, n: nat)
    requires m < MAX_OPENS && n < MAX_OPENS && IdOf(m) == IdOf(n)
    ensures m == n
  {
    IdsCollide(m, n);
  }

  datatype ControlKind = RouteSync | Ping | Pong

  /** A frame with the id `IdOf(n)`, or one that concerns no stream. */
  datatype Frame = OnStream(n: nat, sig: Signal) | Control(kind: ControlKind)

  /** The reader goroutine: between frames, in the middle of handling one for stream object `n`,
      about to answer a ping, or gone after a read error. */
  datatype Reader = Idle | Busy(n: nat, stage: ReaderStage) | Ponging | Stopped

  /** The table's lock: free, or held by a CloseAll that is between two streams or busy with one. */
  datatype Lock = Free | Scanning | Visiting(n: nat, stage: SweepStage)

  datatype Endpoint = Endpoint(table: map<nat, nat>, objs: map<nat, Stream>, reader: Reader, lock: Lock) {
    function Obj(n: nat): Stream {
      if n in objs then objs[n] else NewStream(Absent)
    }

    function Set(n: nat, o: Stream): Endpoint {
      this.(objs := objs[n := o])
    }

    predicate Finds(n: nat) {
      IdOf(n) in table
    }
  }

  const NEW_ENDPOINT := Endpoint(map[], map[], Idle, Free)

  datatype Action =
    | Register | SendOpen(n: nat, ok: bool, fits: bool) | RemoveFailed(n: nat)
    | SendData(n: nat, p: Payload, ok: bool) | Consume(n: nat)
    | CloseLookup(n: nat, t: nat) | CallCas(n: nat, t: nat) | CallDone(n: nat, t: nat)
    | CallRemove(n: nat, t: nat) | CallSend(n: nat, t: nat, ok: bool)
    | Receive | Push | Discard | ReaderCas | ReaderDone | ReaderRemove
    | SendPong(ok: bool) | SendControl(kind: ControlKind, ok: bool) | ReadError
    | SweepBegin | SweepVisit(id: nat) | SweepDone | SweepDelete | SweepEnd

  predicate ReaderAt(e: Endpoint, st: ReaderStage) {
    e.reader.Busy? && e.reader.stage == st
  }

  predicate LockAt(e: Endpoint, st: SweepStage) {
    e.lock.Visiting? && e.lock.stage == st
  }

  /** `opens` opens have been made so far; `inbox` holds the frames on their way to this end. */
  predicate CanAct(e: Endpoint, opens: nat, inbox: seq<Frame>, a: Action) {
    match a
    case Register => e.lock == Free
    case SendOpen(n, _, _) => n in e.objs && e.objs[n].phase == Opening
    case RemoveFailed(n) => n in e.objs && e.objs[n].phase == Failed && e.lock == Free
    case SendData(n, p, _) => n in e.objs && e.objs[n].phase == Handed && |p| < MESSAGE_LIMIT
    case Consume(n) => n in e.objs && e.objs[n].phase == Handed && e.objs[n].dataCh != []
    case CloseLookup(n, t) =>
      n in e.objs && e.objs[n].phase == Handed && e.lock == Free && e.Finds(n) && t !in e.Obj(e.table[IdOf(n)]).calls
    case CallCas(n, t) => n in e.objs && AtCall(e.objs[n], t, Looked)
    case CallDone(n, t) => n in e.objs && AtCall(e.objs[n], t, Won)
    case CallRemove(n, t) => n in e.objs && AtCall(e.objs[n], t, Removing) && e.lock == Free
    case CallSend(n, t, _) => n in e.objs && AtCall(e.objs[n], t, Sending)
    case Receive => e.reader == Idle && inbox != [] && (inbox[0].OnStream? ==> e.lock == Free)
    case Push => e.reader.Busy? && e.reader.stage.Holding? && |e.Obj(e.reader.n).dataCh| < QUEUE_CAPACITY
    case Discard => e.reader.Busy? && e.reader.stage.Holding? && e.Obj(e.reader.n).closes > 0
    case ReaderCas => ReaderAt(e, ReaderLooked)
    case ReaderDone => ReaderAt(e, ReaderWon)
    case ReaderRemove => ReaderAt(e, ReaderRemoving) && e.lock == Free
    case SendPong(_) => e.reader == Ponging
    case SendControl(_, _) => true
    case ReadError => e.reader == Idle
    case SweepBegin => e.lock == Free
    case SweepVisit(id) => e.lock == Scanning && id in e.table
    case SweepDone => LockAt(e, SweepWon)
    case SweepDelete => LockAt(e, SweepDeleting)
    case SweepEnd => e.lock == Scanning && e.table == map[]
  }

  function Handle(e: Endpoint, f: Frame): Endpoint {
    match f
    case OnStream(n, Open) => e.(table := e.table[IdOf(n) := n]).Set(n, NewStream(Handed))
    case OnStream(n, Data(p)) =>
      var e' := if n in e.objs then e.Set(n, LogTaken(e.objs[n], p)) else e;
      if e.Finds(n) then e'.(reader := Busy(e.table[IdOf(n)], Holding(p))) else e'
    case OnStream(n, Close) =>
      if e.Finds(n) then e.(reader := Busy(e.table[IdOf(n)], ReaderLooked)) else e
    case Control(Ping) => e.(reader := Ponging)
    case Control(_) => e
  }

  function Act(e: Endpoint, opens: nat, inbox: seq<Frame>, a: Action): Endpoint
    requires CanAct(e, opens, inbox, a)
  {
    match a
    case Register => e.(table := e.table[IdOf(opens) := opens]).Set(opens, NewStream(Opening))
    case SendOpen(n, ok, fits) => e.Set(n, OpenSent(e.objs[n], ok, fits))
    case RemoveFailed(n) => e.(table := e.table - {IdOf(n)}).Set(n, e.objs[n].(phase := Abandoned))
    case SendData(n, p, ok) => e.Set(n, LogSent(e.objs[n], p, ok))
    case Consume(n) => e.Set(n, Dequeue(e.objs[n]))
    case CloseLookup(n, t) => e.Set(e.table[IdOf(n)], BeginClose(e.Obj(e.table[IdOf(n)]), t))
    case CallCas(n, t) => e.Set(n, CallSwap(e.objs[n], t))
    case CallDone(n, t) => e.Set(n, SetCall(CloseDone(e.objs[n]), t, Removing))
    case CallRemove(n, t) => e.(table := e.table - {IdOf(n)}).Set(n, SetCall(e.objs[n], t, Sending))
    case CallSend(n, t, _) => e.Set(n, EndCall(e.objs[n], t))
    case Receive => Handle(e, inbox[0])
    case Push => e.(reader := Idle).Set(e.reader.n, Enqueue(e.Obj(e.reader.n), e.reader.stage.p))
    case Discard => e.(reader := Idle)
    case ReaderCas =>
      e.(reader := Busy(e.reader.n, if e.Obj(e.reader.n).closed then ReaderRemoving else ReaderWon))
      .Set(e.reader.n, CompareAndSwap(e.Obj(e.reader.n), ByReader))
    case ReaderDone => e.(reader := Busy(e.reader.n, ReaderRemoving)).Set(e.reader.n, CloseDone(e.Obj(e.reader.n)))
    case ReaderRemove => e.(reader := Idle, table := e.table - {IdOf(e.reader.n)})
    case SendPong(_) => e.(reader := Idle)
    case SendControl(_, _) => e
    case ReadError => e.(reader := Stopped)
    case SweepBegin => e.(lock := Scanning)
    case SweepVisit(id) =>
      var n := e.table[id];
      e.(lock := Visiting(n, if e.Obj(n).closed then SweepDeleting else SweepWon))
      .Set(n, CompareAndSwap(e.Obj(n), ByCloseAll))
    case SweepDone => e.(lock := Visiting(e.lock.n, SweepDeleting)).Set(e.lock.n, CloseDone(e.Obj(e.lock.n)))
    case SweepDelete => e.(lock := Scanning, table := e.table - {IdOf(e.lock.n)})
    case SweepEnd => e.(lock := Free)
  }

  /** The frames that a step sends and that the other end's decoder takes. */
  function Sends(a: Action): seq<Frame> {
    match a
    case SendOpen(n, true, true) => [OnStream(n, Open)]
    case SendData(n, p, true) => if FrameCodec.Fits(p) then [OnStream(n, Data(p))] else []
    case CallSend(n, _, true) => [OnStream(n, Close)]
    case SendPong(true) => [Control(Pong)]
    case SendControl(k, true) => [Control(k)]
    case _ => []
  }

  /** The step's send failed, its Open will be refused, or it starts to close the connection. */
  predicate Disturbs(a: Action) {
    match a
    case SendOpen(_, ok, fits) => !ok || !fits
    case SendData(_, _, ok) => !ok
    case CallSend(_, _, ok) => !ok
    case SendPong(ok) => !ok
    case SendControl(_, ok) => !ok
    case SweepBegin => true
    case _ => false
  }

  /** `calm` holds until a send fails, an Open is refused or a CloseAll starts. */
  datatype System = System(srv: Endpoint, cli: Endpoint, toCli: seq<Frame>, toSrv: seq<Frame>, opens: nat, calm: bool) {
    function End(x: Side): Endpoint {
      if x == Server then srv else cli
    }

    function Inbox(x: Side): seq<Frame> {
      if x == Server then toSrv else toCli
    }

    function With(x: Side, e: Endpoint, inbox: seq<Frame>, outbox: seq<Frame>): System {
      if x == Server then this.(srv := e, toSrv := inbox, toCli := outbox)
      else this.(cli := e, toCli := inbox, toSrv := outbox)
    }
  }

  const NEW_SYSTEM := System(NEW_ENDPOINT, NEW_ENDPOINT, [], [], 0, true)

  /** Only the server opens streams on a connection. */
  predicate StepEnabled(s: System, x: Side, a: Action) {
    && CanAct(s.End(x), s.opens, s.Inbox(x), a)
    && ((a.Register? || a.SendOpen? || a.RemoveFailed?) ==> x == Server)
  }

  function StepTo(s: System, x: Side, a: Action): System
    requires StepEnabled(s, x, a)
  {
    s.With(x, Act(s.End(x), s.opens, s.Inbox(x), a),
           if a.Receive? then s.Inbox(x)[1..] else s.Inbox(x),
           s.Inbox(Peer(x)) + Sends(a))
    .(opens := if a.Register? then s.opens + 1 else s.opens, calm := s.calm && !Disturbs(a))
  }

  ghost predicate Step(s: System, s': System) {
    exists x, a :: StepEnabled(s, x, a) && s' == StepTo(s, x, a)
  }

  // ----- bookkeeping facts that hold whatever the ids

  ghost predicate WireInv(wire: seq<Frame>, opens: nat) {
    forall i :: 0 <= i < |wire| && wire[i].OnStream? ==> wire[i].n < opens
  }

  ghost predicate ObjectsInv(e: Endpoint, opens: nat) {
    forall n :: n in e.objs ==> n < opens && e.objs[n].phase != Absent
  }

  ghost predicate EntriesInv(e: Endpoint) {
    forall id :: id in e.table ==> e.table[id] in e.objs && IdOf(e.table[id]) == id
  }

  /** The reader and a CloseAll are busy with streams that exist; a CloseAll has ended the calm. */
  ghost predicate BusyInv(e: Endpoint, calm: bool) {
    && (e.reader.Busy? ==> e.reader.n in e.objs && e.reader.stage != ReaderAway)
    && (e.lock.Visiting? ==> e.lock.n in e.objs && e.lock.stage != SweepAway)
    && (e.lock != Free ==> !calm)
  }

  ghost predicate EndpointInv(e: Endpoint, opens: nat, calm: bool) {
    ObjectsInv(e, opens) && EntriesInv(e) && BusyInv(e, calm)
  }

  ghost predicate SystemInv(s: System) {
    && EndpointInv(s.srv, s.opens, s.calm) && EndpointInv(s.cli, s.opens, s.calm)
    && WireInv(s.toCli, s.opens) && WireInv(s.toSrv, s.opens)
  }

  lemma EndpointInvMonotone(e: Endpoint, opens: nat, calm: bool, opens': nat, calm': bool)
    requires EndpointInv(e, opens, calm) && opens <= opens' && (calm' ==> calm)
    ensures EndpointInv(e, opens', calm')
  {
  }

  predicate IsCallStep(a: Action) {
    a.CloseLookup? || a.CallCas? || a.CallDone? || a.CallRemove? || a.CallSend?
  }

  predicate IsReaderStep(a: Action) {
    a.Push? || a.Discard? || a.ReaderCas? || a.ReaderDone? || a.ReaderRemove? || a.SendPong? || a.ReadError?
  }

  predicate IsSweepStep(a: Action) {
    a.SweepBegin? || a.SweepVisit? || a.SweepDone? || a.SweepDelete? || a.SweepEnd?
  }

  predicate IsOpenerStep(a: Action) {
    !IsCallStep(a) && !IsReaderStep(a) && !IsSweepStep(a) && !a.Receive?
  }

  lemma HandleKeepsReferences(e: Endpoint, opens: nat, f: Frame)
    requires ObjectsInv(e, opens) && EntriesInv(e) && (f.OnStream? ==> f.n < opens)
    ensures ObjectsInv(Handle(e, f), opens) && EntriesInv(Handle(e, f))
  {
  }

  lemma HandleKeepsBusy(e: Endpoint, f: Frame, calm: bool)
    requires EntriesInv(e) && BusyInv(e, calm) && e.reader == Idle
    ensures BusyInv(Handle(e, f), calm)
  {
  }

  lemma CallStepKeepsReferences(e: Endpoint, opens: nat, inbox: seq<Frame>, calm: bool, a: Action)
    requires EndpointInv(e, opens, calm) && CanAct(e, opens, inbox, a) && IsCallStep(a)
    ensures ObjectsInv(Act(e, opens, inbox, a), opens) && EntriesInv(Act(e, opens, inbox, a))
  {
  }

  lemma ReaderStepKeepsReferences(e: Endpoint, opens: nat, inbox: seq<Frame>, calm: bool, a: Action)
    requires EndpointInv(e, opens, calm) && CanAct(e, opens, inbox, a) && IsReaderStep(a)
    ensures ObjectsInv(Act(e, opens, inbox, a), opens) && EntriesInv(Act(e, opens, inbox, a))
  {
  }

  lemma SweepStepKeepsReferences(e: Endpoint, opens: nat, inbox: seq<Frame>, calm: bool, a: Action)
    requires EndpointInv(e, opens, calm) && CanAct(e, opens, inbox, a) && IsSweepStep(a)
    ensures ObjectsInv(Act(e, opens, inbox, a), opens) && EntriesInv(Act(e, opens, inbox, a))
  {
  }

  lemma OpenerStepKeepsReferences(e: Endpoint, opens: nat, inbox: seq<Frame>, calm: bool, a: Action)
    requires EndpointInv(e, opens, calm) && CanAct(e, opens, inbox, a) && IsOpenerStep(a)
    ensures ObjectsInv(Act(e, opens, inbox, a), if a.Register? then opens + 1 else opens) && EntriesInv(Act(e, opens, inbox, a))
  {
  }

  /** Calls and openers leave the reader and CloseAll to what they are doing. */
  lemma CallerKeepsBusy(e: Endpoint, opens: nat, inbox: seq<Frame>, calm: bool, a: Action)
    requires BusyInv(e, calm) && CanAct(e, opens, inbox, a) && (IsCallStep(a) || IsOpenerStep(a))
    ensures BusyInv(Act(e, opens, inbox, a), calm)
  {
  }

  lemma ReaderStepKeepsBusy(e: Endpoint, opens: nat, inbox: seq<Frame>, calm: bool, a: Action)
    requires BusyInv(e, calm) && CanAct(e, opens, inbox, a) && IsReaderStep(a)
    ensures BusyInv(Act(e, opens, inbox, a), calm)
  {
  }

  lemma SweepStepKeepsBusy(e: Endpoint, opens: nat, inbox: seq<Frame>, calm: bool, a: Action)
    requires BusyInv(e, calm) && EntriesInv(e) && CanAct(e, opens, inbox, a) && IsSweepStep(a)
    ensures BusyInv(Act(e, opens, inbox, a), calm && !Disturbs(a))
  {
  }

  lemma SendsKnownStreams(e: Endpoint, opens: nat, inbox: seq<Frame>, a: Action)
    requires ObjectsInv(e, opens) && CanAct(e, opens, inbox, a)
    ensures WireInv(Sends(a), opens)
  {
  }

  lemma ReferencesStep(e: Endpoint, opens: nat, inbox: seq<Frame>, calm: bool, a: Action)
    requires EndpointInv(e, opens, calm) && WireInv(inbox, opens) && CanAct(e, opens, inbox, a)
    ensures ObjectsInv(Act(e, opens, inbox, a), if a.Register? then opens + 1 else opens)
    ensures EntriesInv(Act(e, opens, inbox, a))
  {
    if a.Receive? {
      HandleKeepsReferences(e, opens, inbox[0]);
    } else if IsCallStep(a) {
      CallStepKeepsReferences(e, opens, inbox, calm, a);
    } else if IsReaderStep(a) {
      ReaderStepKeepsReferences(e, opens, inbox, calm, a);
    } else if IsSweepStep(a) {
      SweepStepKeepsReferences(e, opens, inbox, calm, a);
    } else {
      OpenerStepKeepsReferences(e, opens, inbox, calm, a);
    }
  }

  lemma BusyStep(e: Endpoint, opens: nat, inbox: seq<Frame>, calm: bool, a: Action)
    requires EndpointInv(e, opens, calm) && CanAct(e, opens, inbox, a)
    ensures BusyInv(Act(e, opens, inbox, a), calm && !Disturbs(a))
  {
    if a.Receive? {
      HandleKeepsBusy(e, inbox[0], calm);
    } else if IsReaderStep(a) {
      ReaderStepKeepsBusy(e, opens, inbox, calm, a);
    } else if IsSweepStep(a) {
      SweepStepKeepsBusy(e, opens, inbox, calm, a);
    } else {
      CallerKeepsBusy(e, opens, inbox, calm, a);
    }
  }

  lemma EndpointInvStep(e: Endpoint, opens: nat, inbox: seq<Frame>, calm: bool, a: Action)
    requires EndpointInv(e, opens, calm) && WireInv(inbox, opens) && CanAct(e, opens, inbox, a)
    ensures EndpointInv(Act(e, opens, inbox, a), if a.Register? then opens + 1 else opens, calm && !Disturbs(a))
    ensures WireInv(Sends(a), opens)
  {
    ReferencesStep(e, opens, inbox, calm, a);
    BusyStep(e, opens, inbox, calm, a);
    SendsKnownStreams(e, opens, inbox, a);
  }

  lemma SystemInvWith(s: System, x: Side, e: Endpoint, inbox: seq<Frame>, sent: seq<Frame>, opens: nat, calm: bool)
    requires SystemInv(s) && s.opens <= opens && (calm ==> s.calm)
    requires EndpointInv(e, opens, calm) && WireInv(inbox, opens) && WireInv(sent, opens)
    ensures SystemInv(s.With(x, e, inbox, s.Inbox(Peer(x)) + sent).(opens := opens, calm := calm))
  {
    EndpointInvMonotone(s.End(Peer(x)), s.opens, s.calm, opens, calm);
  }

  lemma SystemInvStep(s: System, x: Side, a: Action)
    requires SystemInv(s) && StepEnabled(s, x, a)
    ensures SystemInv(StepTo(s, x, a))
  {
    EndpointInvStep(s.End(x), s.opens, s.Inbox(x), s.calm, a);
    SystemInvWith(s, x, Act(s.End(x), s.opens, s.Inbox(x), a),
                  if a.Receive? then s.Inbox(x)[1..] else s.Inbox(x), Sends(a),
                  if a.Register? then s.opens + 1 else s.opens, s.calm && !Disturbs(a));
  }
}
