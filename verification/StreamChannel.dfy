/**
 One tunnel stream seen on its own: the stream object at each end, the goroutines that are in
 the middle of a call on it, and the signals travelling between the two ends.

 Every step below is one atomic action of the tunnel code: a critical section under `mu`, a
 compare-and-swap, a `close(Done)`, a send or receive on `DataCh`, or one `sendFrame`.
 `Multiplexer` shows that the real connection, which shares one frame queue and one reader among
 all streams, behaves for each stream exactly like such a private channel.
 */
module StreamChannel {
  import opened Bytes
  import FrameCodec

  const QUEUE_CAPACITY := 64

  /** What OpenStream (or the handling of an Open frame) has done with the stream so far.
      Opening: registered, Open not sent.  Failed: sending Open failed, still to be removed.
      Abandoned: removed, the caller got an error.  Handed: the caller or handler holds it. */
  datatype Phase = Absent | Opening | Failed | Abandoned | Handed

  /** Who won the compare-and-swap on `closed`. */
  datatype Winner = Nobody | ByCall(t: nat) | ByReader | ByCloseAll

  /** Where a CloseStream call stands: about to compare-and-swap, about to close Done,
      about to remove the table entry, about to send Close. */
  datatype CallStage = Looked | Won | Removing | Sending

  /** A stream object.  `calls` are the CloseStream calls in progress on it, by goroutine.
      `winner`, `closeBegun`, `sent`, `taken` and `consumed` are history: the payloads whose
      SendData succeeded, the ones taken off the wire for this stream, and the ones its consumer
      received from DataCh.  `closes` counts executions of `close(Done)`.  `refused` tells, at the end
      that opened the stream, that its Open was sent but too long for the other end's decoder. */
  datatype Stream = Stream(
    phase: Phase,
    dataCh: seq<Payload>,
    closed: bool,
    closes: nat,
    calls: map<nat, CallStage>,
    winner: Winner,
    closeBegun: bool,
    refused: bool,
    sent: seq<Payload>,
    taken: seq<Payload>,
    consumed: seq<Payload>)

  function NewStream(phase: Phase): Stream {
    Stream(phase, [], false, 0, map[], Nobody, false, false, [], [], [])
  }

  /** What the connection's reader is doing for this stream. */
  datatype ReaderStage = ReaderAway | Holding(p: Payload) | ReaderLooked | ReaderWon | ReaderRemoving

  /** What a running CloseAll is doing with this stream. */
  datatype SweepStage = SweepAway | SweepWon | SweepDeleting

  /** One end of a stream: its object, whether the end's table maps the stream's id to it, and
      what the reader and CloseAll are doing with it. */
  datatype Half = Half(obj: Stream, registered: bool, reader: ReaderStage, sweep: SweepStage)

  const EMPTY_HALF := Half(NewStream(Absent), false, ReaderAway, SweepAway)

  datatype Signal = Open | Data(p: Payload) | Close

  // ----- steps on a stream object, shared with the multiplexed model

  /** `closed.CompareAndSwap(false, true)`. */
  function CompareAndSwap(o: Stream, who: Winner): Stream {
    if o.closed then o else o.(closed := true, winner := who)
  }

  /** `close(Done)`. */
  function CloseDone(o: Stream): Stream {
    o.(closes := o.closes + 1)
  }

  function SetCall(o: Stream, t: nat, st: CallStage): Stream {
    o.(calls := o.calls[t := st])
  }

  predicate AtCall(o: Stream, t: nat, st: CallStage) {
    t in o.calls && o.calls[t] == st
  }

  function BeginClose(o: Stream, t: nat): Stream {
    SetCall(o, t, Looked).(closeBegun := true)
  }

  function CallSwap(o: Stream, t: nat): Stream {
    SetCall(CompareAndSwap(o, ByCall(t)), t, if o.closed then Removing else Won)
  }

  function EndCall(o: Stream, t: nat): Stream {
    o.(calls := o.calls - {t})
  }

  /** The Open was sent, or sending it failed. */
  function OpenSent(o: Stream, ok: bool, fits: bool): Stream {
    o.(phase := if ok then Handed else Failed, refused := ok && !fits)
  }

  function LogSent(o: Stream, p: Payload, ok: bool): Stream {
    if ok then o.(sent := o.sent + [p]) else o
  }

  function LogTaken(o: Stream, p: Payload): Stream {
    if o.phase == Absent then o else o.(taken := o.taken + [p])
  }

  function Enqueue(o: Stream, p: Payload): Stream {
    o.(dataCh := o.dataCh + [p])
  }

  function Dequeue(o: Stream): Stream
    requires o.dataCh != []
  {
    o.(dataCh := o.dataCh[1..], consumed := o.consumed + [o.dataCh[0]])
  }

  // ----- steps of one end

  datatype Act =
    | Register | SendOpen(ok: bool, fits: bool) | RemoveFailed
    | SendData(p: Payload, ok: bool) | Consume
    | CloseLookup(t: nat) | CallCas(t: nat) | CallDone(t: nat) | CallRemove(t: nat) | CallSend(t: nat, ok: bool)
    | Take(sig: Signal) | Push | Discard | ReaderCas | ReaderDone | ReaderRemove
    | SweepVisit | SweepDone | SweepDelete

  predicate Enabled(h: Half, a: Act) {
    match a
    case Register => h == EMPTY_HALF
    case SendOpen(_, _) => h.obj.phase == Opening
    case RemoveFailed => h.obj.phase == Failed && h.sweep == SweepAway
    case SendData(_, _) => h.obj.phase == Handed
    case Consume => h.obj.phase == Handed && h.obj.dataCh != []
    case CloseLookup(t) => h.obj.phase == Handed && h.registered && h.sweep == SweepAway && t !in h.obj.calls
    case CallCas(t) => AtCall(h.obj, t, Looked)
    case CallDone(t) => AtCall(h.obj, t, Won)
    case CallRemove(t) => AtCall(h.obj, t, Removing) && h.sweep == SweepAway
    case CallSend(t, _) => AtCall(h.obj, t, Sending)
    case Take(_) => h.reader == ReaderAway && h.sweep == SweepAway
    case Push => h.reader.Holding? && |h.obj.dataCh| < QUEUE_CAPACITY
    case Discard => h.reader.Holding? && h.obj.closes > 0
    case ReaderCas => h.reader == ReaderLooked
    case ReaderDone => h.reader == ReaderWon
    case ReaderRemove => h.reader == ReaderRemoving && h.sweep == SweepAway
    case SweepVisit => h.registered && h.sweep == SweepAway
    case SweepDone => h.sweep == SweepWon
    case SweepDelete => h.sweep == SweepDeleting
  }

  function Do(h: Half, a: Act): Half
    requires Enabled(h, a)
  {
    match a
    case Register => h.(obj := NewStream(Opening), registered := true)
    case SendOpen(ok, fits) => h.(obj := OpenSent(h.obj, ok, fits))
    case RemoveFailed => h.(obj := h.obj.(phase := Abandoned), registered := false)
    case SendData(p, ok) => h.(obj := LogSent(h.obj, p, ok))
    case Consume => h.(obj := Dequeue(h.obj))
    case CloseLookup(t) => h.(obj := BeginClose(h.obj, t))
    case CallCas(t) => h.(obj := CallSwap(h.obj, t))
    case CallDone(t) => h.(obj := SetCall(CloseDone(h.obj), t, Removing))
    case CallRemove(t) => h.(obj := SetCall(h.obj, t, Sending), registered := false)
    case CallSend(t, _) => h.(obj := EndCall(h.obj, t))
    case Take(Open) => h.(obj := NewStream(Handed), registered := true)
    case Take(Data(p)) =>
      h.(obj := LogTaken(h.obj, p), reader := if h.registered then Holding(p) else ReaderAway)
    case Take(Close) => h.(reader := if h.registered then ReaderLooked else ReaderAway)
    case Push => h.(obj := Enqueue(h.obj, h.reader.p), reader := ReaderAway)
    case Discard => h.(reader := ReaderAway)
    case ReaderCas =>
      h.(obj := CompareAndSwap(h.obj, ByReader), reader := if h.obj.closed then ReaderRemoving else ReaderWon)
    case ReaderDone => h.(obj := CloseDone(h.obj), reader := ReaderRemoving)
    case ReaderRemove => h.(registered := false, reader := ReaderAway)
    case SweepVisit =>
      h.(obj := CompareAndSwap(h.obj, ByCloseAll), sweep := if h.obj.closed then SweepDeleting else SweepWon)
    case SweepDone => h.(obj := CloseDone(h.obj), sweep := SweepDeleting)
    case SweepDelete => h.(registered := false, sweep := SweepAway)
  }

  /** The signal of a step that the other end will see: a frame that does not fit is sent, but refused by the
      decoder there, which takes no notice of it. */
  function Emits(a: Act): seq<Signal> {
    match a
    case SendOpen(true, true) => [Open]
    case SendData(p, true) => if FrameCodec.Fits(p) then [Data(p)] else []
    case CallSend(_, true) => [Close]
    case _ => []
  }

  /** The step's `sendFrame` returned an error, or it sent an Open that will be refused. */
  predicate Fails(a: Act) {
    ((a.SendOpen? || a.SendData? || a.CallSend?) && !a.ok) || (a.SendOpen? && !a.fits)
  }

  // ----- the two-ended channel

  datatype Side = Server | Client

  function Peer(x: Side): Side {
    if x == Server then Client else Server
  }

  /** `calm` holds until some send fails, an Open is refused or a CloseAll starts at either end. */
  datatype Channel = Channel(srv: Half, cli: Half, toCli: seq<Signal>, toSrv: seq<Signal>, calm: bool) {
    function End(x: Side): Half {
      if x == Server then srv else cli
    }

    function Inbox(x: Side): seq<Signal> {
      if x == Server then toSrv else toCli
    }

    function With(x: Side, h: Half, inbox: seq<Signal>, outbox: seq<Signal>): Channel {
      if x == Server then this.(srv := h, toSrv := inbox, toCli := outbox)
      else this.(cli := h, toCli := inbox, toSrv := outbox)
    }
  }

  const EMPTY_CHANNEL := Channel(EMPTY_HALF, EMPTY_HALF, [], [], true)

  /** What the other end and the wires demand of a step. */
  predicate WireReady(v: Channel, x: Side, a: Act) {
    && (a.Take? ==> v.Inbox(x) != [] && v.Inbox(x)[0] == a.sig)
    && ((a.Register? || a.SendOpen? || a.RemoveFailed?) ==> x == Server)
    && (a.SweepVisit? ==> !v.calm)
  }

  predicate ChannelEnabled(v: Channel, x: Side, a: Act) {
    Enabled(v.End(x), a) && WireReady(v, x, a)
  }

  /** The channel after step `a` has made end `x` into `h`. */
  function After(v: Channel, x: Side, a: Act, h: Half): Channel
    requires WireReady(v, x, a)
  {
    v.With(x, h,
           if a.Take? then v.Inbox(x)[1..] else v.Inbox(x),
           v.Inbox(Peer(x)) + Emits(a)).(calm := v.calm && !Fails(a))
  }

  function ChannelDo(v: Channel, x: Side, a: Act): Channel
    requires ChannelEnabled(v, x, a)
  {
    After(v, x, a, Do(v.End(x), a))
  }

  /** A step of the channel: an action at one end, or trouble elsewhere on the connection. */
  ghost predicate ChannelStep(v: Channel, v': Channel) {
    || v' == v
    || v' == v.(calm := false)
    || exists x, a :: ChannelEnabled(v, x, a) && v' == ChannelDo(v, x, a)
  }

  // ----- the invariant of one end

  function Held(r: ReaderStage): seq<Payload> {
    if r.Holding? then [r.p] else []
  }

  /** What has reached this end's side of the stream: consumed, queued, or held by the reader. */
  function Accepted(h: Half): seq<Payload> {
    h.obj.consumed + h.obj.dataCh + Held(h.reader)
  }

  ghost predicate TableInv(h: Half) {
    && (h.obj.phase == Absent ==> h == EMPTY_HALF)
    && (h.obj.phase == Abandoned ==> !h.registered)
    && (h.obj.phase in {Opening, Failed, Handed} && !h.obj.closed ==> h.registered)
    && (h.sweep != SweepAway ==> h.registered)
    && |h.obj.dataCh| <= QUEUE_CAPACITY
    && (h.obj.refused ==> h.obj.phase == Handed)
    && (h.obj.phase in {Opening, Failed, Abandoned} ==> h.obj.calls == map[] && h.reader == ReaderAway)
  }

  /** The winner of the compare-and-swap still has to execute `close(Done)`. */
  ghost predicate CloserPending(h: Half) {
    match h.obj.winner
    case Nobody => false
    case ByCall(t) => AtCall(h.obj, t, Won)
    case ByReader => h.reader == ReaderWon
    case ByCloseAll => h.sweep == SweepWon
  }

  ghost predicate CallInv(h: Half, t: nat)
    requires t in h.obj.calls
  {
    && h.obj.closeBegun
    && (h.obj.calls[t] == Won ==> h.obj.winner == ByCall(t) && h.obj.closes == 0)
    && (h.obj.calls[t] in {Removing, Sending} ==> h.obj.closed)
    && (h.obj.calls[t] == Sending ==> !h.registered)
  }

  ghost predicate CloseInv(h: Half) {
    && h.obj.closes <= 1
    && (h.obj.closes == 1 ==> h.obj.closed)
    && (h.obj.closed <==> h.obj.winner != Nobody)
    && (h.obj.winner.ByCall? ==> h.obj.closeBegun)
    && (forall t :: t in h.obj.calls ==> CallInv(h, t))
    && (h.reader == ReaderWon ==> h.obj.winner == ByReader && h.obj.closes == 0)
    && (h.reader == ReaderRemoving ==> h.obj.closed)
    && (h.sweep == SweepWon ==> h.obj.winner == ByCloseAll && h.obj.closes == 0)
    && (h.sweep == SweepDeleting ==> h.obj.closed)
    && (h.obj.closed && h.obj.closes == 0 ==> CloserPending(h))
    && (h.obj.closes == 1 && h.registered && !h.obj.closeBegun ==>
          h.reader == ReaderRemoving || h.sweep == SweepDeleting)
  }

  ghost predicate DeliveryInv(h: Half) {
    && (h.registered && h.obj.closes == 0 ==> Accepted(h) == h.obj.taken)
    && (h.registered && !h.obj.closeBegun && h.sweep != SweepDeleting ==> Accepted(h) == h.obj.taken)
    && (!h.obj.closeBegun ==> Accepted(h) <= h.obj.taken)
    && Subsequence(Accepted(h), h.obj.taken)
  }

  ghost predicate HalfInv(h: Half) {
    TableInv(h) && CloseInv(h) && DeliveryInv(h)
  }

  /** An Open frame is only handled by an end that has no stream of that id. */
  ghost predicate Sensible(h: Half, a: Act) {
    && (a == Take(Open) ==> h.obj.phase == Absent)
    && (a.Take? && a != Take(Open) ==> h.obj.phase in {Absent, Handed})
  }

  lemma TableInvStep(h: Half, a: Act)
    requires HalfInv(h) && Enabled(h, a) && Sensible(h, a)
    ensures TableInv(Do(h, a))
  {
  }

  predicate IsCall(a: Act) {
    a.CloseLookup? || a.CallCas? || a.CallDone? || a.CallRemove? || a.CallSend?
  }

  predicate IsShutting(a: Act) {
    a.ReaderCas? || a.ReaderDone? || a.ReaderRemove? || a.SweepVisit? || a.SweepDone? || a.SweepDelete?
  }

  /** The calls in progress after a step of one of them. */
  lemma CallInvAfterCall(h: Half, a: Act, t: nat)
    requires HalfInv(h) && Enabled(h, a) && IsCall(a) && t in Do(h, a).obj.calls
    ensures CallInv(Do(h, a), t)
  {
    if t in h.obj.calls {
      assert CallInv(h, t);
    }
  }

  lemma CallInvAfterOther(h: Half, a: Act, t: nat)
    requires HalfInv(h) && Enabled(h, a) && Sensible(h, a) && !IsCall(a) && t in Do(h, a).obj.calls
    ensures CallInv(Do(h, a), t)
  {
    if t in h.obj.calls {
      assert CallInv(h, t);
    }
  }

  lemma CallsKeepCloseInv(h: Half, a: Act)
    requires HalfInv(h) && Enabled(h, a) && IsCall(a)
    requires forall t :: t in Do(h, a).obj.calls ==> CallInv(Do(h, a), t)
    ensures CloseInv(Do(h, a))
  {
    if a.t in h.obj.calls {
      assert CallInv(h, a.t);
    }
  }

  lemma ShuttingKeepsCloseInv(h: Half, a: Act)
    requires HalfInv(h) && Enabled(h, a) && IsShutting(a)
    requires forall t :: t in Do(h, a).obj.calls ==> CallInv(Do(h, a), t)
    ensures CloseInv(Do(h, a))
  {
  }

  lemma OthersKeepCloseInv(h: Half, a: Act)
    requires HalfInv(h) && Enabled(h, a) && Sensible(h, a) && !IsCall(a) && !IsShutting(a)
    requires forall t :: t in Do(h, a).obj.calls ==> CallInv(Do(h, a), t)
    ensures CloseInv(Do(h, a))
  {
  }

  lemma CloseInvStep(h: Half, a: Act)
    requires HalfInv(h) && Enabled(h, a) && Sensible(h, a)
    ensures CloseInv(Do(h, a))
  {
    forall t | t in Do(h, a).obj.calls
      ensures CallInv(Do(h, a), t)
    {
      if IsCall(a) {
        CallInvAfterCall(h, a, t);
      } else {
        CallInvAfterOther(h, a, t);
      }
    }
    if IsCall(a) {
      CallsKeepCloseInv(h, a);
    } else if IsShutting(a) {
      ShuttingKeepsCloseInv(h, a);
    } else {
      OthersKeepCloseInv(h, a);
    }
  }

  /** A payload is taken for a registered stream: the reader holds it. */
  lemma TakeHeld(h: Half, p: Payload)
    requires Enabled(h, Take(Data(p))) && h.registered
    ensures Accepted(Do(h, Take(Data(p)))) == Accepted(h) + [p]
    ensures Do(h, Take(Data(p))).obj.taken == h.obj.taken + [p] || h.obj.phase == Absent
  {
  }

  lemma DeliveryTake(h: Half, p: Payload)
    requires HalfInv(h) && Enabled(h, Take(Data(p))) && h.obj.phase in {Absent, Handed}
    ensures DeliveryInv(Do(h, Take(Data(p))))
  {
    if h.obj.phase == Absent {
    } else if h.registered {
      TakeHeld(h, p);
      SubsequencePush(Accepted(h), h.obj.taken, p);
    } else {
      SubsequenceSkip(Accepted(h), h.obj.taken, p);
    }
  }

  lemma DeliveryDiscard(h: Half)
    requires HalfInv(h) && Enabled(h, Discard)
    ensures DeliveryInv(Do(h, Discard))
  {
    var h' := Do(h, Discard);
    assert Accepted(h) == Accepted(h') + [h.reader.p];
    SubsequenceDropLast(Accepted(h'), h.reader.p, h.obj.taken);
  }

  lemma AcceptedKeptByQueue(h: Half, a: Act)
    requires Enabled(h, a) && (a.Push? || a.Consume?)
    ensures Accepted(Do(h, a)) == Accepted(h) && Do(h, a).obj.taken == h.obj.taken
  {
    if a.Consume? {
      assert h.obj.dataCh == [h.obj.dataCh[0]] + h.obj.dataCh[1..];
    }
  }

  /** Most steps neither lose nor take a payload. */
  lemma AcceptedUnchanged(h: Half, a: Act)
    requires TableInv(h) && Enabled(h, a) && Sensible(h, a)
    requires !a.Discard? && !(a.Take? && a.sig.Data?)
    ensures Accepted(Do(h, a)) == Accepted(h) && Do(h, a).obj.taken == h.obj.taken
  {
    if a.Push? || a.Consume? {
      AcceptedKeptByQueue(h, a);
    }
  }

  lemma DeliveryOther(h: Half, a: Act)
    requires HalfInv(h) && Enabled(h, a) && Sensible(h, a)
    requires !a.Discard? && !(a.Take? && a.sig.Data?)
    ensures DeliveryInv(Do(h, a))
  {
    AcceptedUnchanged(h, a);
  }

  /** No step of either kind of goroutine breaks the invariant of an end. */
  lemma HalfInvStep(h: Half, a: Act)
    requires HalfInv(h) && Enabled(h, a) && Sensible(h, a)
    ensures HalfInv(Do(h, a))
  {
    TableInvStep(h, a);
    CloseInvStep(h, a);
    match a
    case Take(Data(p)) => DeliveryTake(h, p);
    case Discard => DeliveryDiscard(h);
    case _ => DeliveryOther(h, a);
  }
}
