/**
 What one tunnel connection guarantees over every run: every interleaving of the two readers and
 of any number of goroutines calling OpenStream, SendData, CloseStream, CloseAll and reading DataCh.
 The bound `opens <= MAX_OPENS` is where 32-bit ids start to repeat; `OpenKeepsEntry` shows what
 the next open does.
 */
module Connection {
  import opened Bytes
  import opened StreamChannel
  import opened ChannelInvariant
  import opened Multiplexer
  import opened Refinement
  import FrameCodec

  ghost predicate Run(r: seq<System>) {
    && r != [] && r[0] == NEW_SYSTEM
    && forall i :: 0 <= i < |r| - 1 ==> Step(r[i], r[i + 1])
  }

  /** The run has reached its state `i` without an id being used twice. */
  ghost predicate Reaches(r: seq<System>, i: nat) {
    Run(r) && i < |r| && r[i].opens <= MAX_OPENS
  }

  ghost predicate AllChannelsInv(s: System) {
    forall n: nat :: ChannelInv(View(s, n))
  }

  lemma {:induction false} RunInvariant(r: seq<System>, i: nat)
    requires Reaches(r, i)
    ensures SystemInv(r[i]) && AllChannelsInv(r[i])
  {
    if i == 0 {
      InitialChannelInv();
      forall n: nat
        ensures ChannelInv(View(r[0], n))
      {
        assert View(NEW_SYSTEM, n) == EMPTY_CHANNEL;
      }
    } else {
      assert Step(r[i - 1], r[i - 1 + 1]);
      RunInvariant(r, i - 1);
      StepInvariant(r[i - 1], r[i]);
    }
  }

  lemma StepInvariant(s: System, s': System)
    requires SystemInv(s) && AllChannelsInv(s) && Step(s, s') && s'.opens <= MAX_OPENS
    ensures SystemInv(s') && AllChannelsInv(s')
  {
    var x, a :| StepEnabled(s, x, a) && s' == StepTo(s, x, a);
    SystemInvStep(s, x, a);
    forall n: nat
      ensures ChannelInv(View(s', n))
    {
      StepRefinesChannels(s, s', n);
      ChannelInvStep(View(s, n), View(s', n));
    }
  }

  /** Isolation: seen from one stream, a whole run of the connection is a run of a private channel. */
  lemma RunRefinesChannel(r: seq<System>, n: nat, i: nat)
    requires Reaches(r, i)
    ensures View(r[0], n) == EMPTY_CHANNEL
    ensures i > 0 ==> ChannelStep(View(r[i - 1], n), View(r[i], n))
  {
    if i > 0 {
      assert Step(r[i - 1], r[i - 1 + 1]);
      RunInvariant(r, i - 1);
      StepRefinesChannels(r[i - 1], r[i], n);
    }
  }

  // ----- delivery

  /** The payloads of the Data frames with this id on a wire, whichever stream they were meant for. */
  function InFlight(wire: seq<Frame>, id: nat): seq<Payload> {
    if wire == [] then []
    else
      (if wire[0].OnStream? && wire[0].sig.Data? && IdOf(wire[0].n) == id then [wire[0].sig.p] else [])
      + InFlight(wire[1..], id)
  }

  lemma {:induction false} InFlightIsFiltered(wire: seq<Frame>, n: nat, opens: nat)
    requires WireInv(wire, opens) && n < opens <= MAX_OPENS
    ensures InFlight(wire, IdOf(n)) == Payloads(Filter(wire, n))
  {
    if wire != [] {
      InFlightIsFiltered(wire[1..], n, opens);
      var f := wire[0];
      if f.OnStream? && f.n == n {
        assert Filter(wire, n) == [f.sig] + Filter(wire[1..], n);
        PayloadsAppend([f.sig], Filter(wire[1..], n));
        PayloadsSingle(f.sig);
      } else {
        assert Filter(wire, n) == Filter(wire[1..], n);
        if f.OnStream? && IdOf(f.n) == IdOf(n) {
          IdsDistinct(f.n, n);
        }
      }
    }
  }

  /** What one step of an end does to the history and the queue of its stream `n`. */
  ghost predicate HistoryFollows(e: Endpoint, a: Action, o: Stream, o': Stream, n: nat) {
    && o'.sent == (if a.SendData? && a.n == n && a.ok then o.sent + [a.p] else o.sent)
    && (if a == Action.Consume(n) then o.dataCh != [] && o'.consumed == o.consumed + [o.dataCh[0]] && o'.dataCh == o.dataCh[1..]
        else o'.consumed == o.consumed
             && o'.dataCh == if a.Push? && ReaderHolds(e, n) then o.dataCh + [e.reader.stage.p] else o.dataCh)
    && (o'.closeBegun <==> o.closeBegun || (a.CloseLookup? && IdOf(a.n) in e.table && e.table[IdOf(a.n)] == n))
  }

  ghost predicate ReaderHolds(e: Endpoint, n: nat) {
    e.reader.Busy? && e.reader.n == n && e.reader.stage.Holding?
  }

  lemma CallFollows(e: Endpoint, opens: nat, inbox: seq<Frame>, a: Action, n: nat)
    requires CanAct(e, opens, inbox, a) && ObjectsInv(e, opens) && EntriesInv(e) && IsCallStep(a)
    ensures HistoryFollows(e, a, e.Obj(n), Multiplexer.Act(e, opens, inbox, a).Obj(n), n)
  {
    hide IdOf, FrameCodec.Fits;
  }

  lemma ReaderFollows(e: Endpoint, opens: nat, inbox: seq<Frame>, a: Action, n: nat)
    requires CanAct(e, opens, inbox, a) && ObjectsInv(e, opens) && EntriesInv(e) && IsReaderStep(a)
    ensures HistoryFollows(e, a, e.Obj(n), Multiplexer.Act(e, opens, inbox, a).Obj(n), n)
  {
    hide IdOf, FrameCodec.Fits;
  }

  lemma SweepFollows(e: Endpoint, opens: nat, inbox: seq<Frame>, a: Action, n: nat)
    requires CanAct(e, opens, inbox, a) && ObjectsInv(e, opens) && EntriesInv(e) && IsSweepStep(a)
    ensures HistoryFollows(e, a, e.Obj(n), Multiplexer.Act(e, opens, inbox, a).Obj(n), n)
  {
    hide IdOf, FrameCodec.Fits;
  }

  lemma OpenerFollows(e: Endpoint, opens: nat, inbox: seq<Frame>, a: Action, n: nat)
    requires CanAct(e, opens, inbox, a) && ObjectsInv(e, opens) && EntriesInv(e) && IsOpenerStep(a)
    ensures HistoryFollows(e, a, e.Obj(n), Multiplexer.Act(e, opens, inbox, a).Obj(n), n)
  {
    hide IdOf, FrameCodec.Fits;
  }

  lemma HandleFollows(e: Endpoint, f: Frame, n: nat)
    requires f == OnStream(n, Open) ==> n !in e.objs
    ensures HistoryFollows(e, Receive, e.Obj(n), Handle(e, f).Obj(n), n)
  {
    hide IdOf;
  }

  lemma ActFollows(e: Endpoint, opens: nat, inbox: seq<Frame>, a: Action, n: nat)
    requires CanAct(e, opens, inbox, a) && ObjectsInv(e, opens) && EntriesInv(e)
    requires a.Receive? && inbox[0] == OnStream(n, Open) ==> n !in e.objs
    ensures HistoryFollows(e, a, e.Obj(n), Multiplexer.Act(e, opens, inbox, a).Obj(n), n)
  {
    hide HistoryFollows, IdOf, Handle;
    if a.Receive? {
      HandleFollows(e, inbox[0], n);
    } else if IsCallStep(a) {
      CallFollows(e, opens, inbox, a, n);
    } else if IsReaderStep(a) {
      ReaderFollows(e, opens, inbox, a, n);
    } else if IsSweepStep(a) {
      SweepFollows(e, opens, inbox, a, n);
    } else {
      OpenerFollows(e, opens, inbox, a, n);
    }
  }

  lemma NoSecondOpen(v: Channel, x: Side)
    requires ChannelInv(v) && v.Inbox(x) != [] && v.Inbox(x)[0] == Open
    ensures v.End(x).obj.phase == Absent
  {
    assert OrderInv(v);
  }

  /** The histories are what their names say: in every reachable state, whatever step an end takes next, `sent`
      grows by its successful SendData on the stream only, `consumed` by the payload that its consumer takes off the
      front of DataCh only, DataCh otherwise by what its reader holds only, and `closeBegun` is set by the lookup of
      a CloseStream that finds the stream only. */
  lemma HistoryIsReal(r: seq<System>, i: nat, x: Side, a: Action, n: nat)
    requires Reaches(r, i) && StepEnabled(r[i], x, a)
    ensures HistoryFollows(r[i].End(x), a, r[i].End(x).Obj(n), StepTo(r[i], x, a).End(x).Obj(n), n)
    ensures StepTo(r[i], x, a).End(Peer(x)) == r[i].End(Peer(x))
  {
    hide Multiplexer.Act, HistoryFollows, ChannelInv;
    RunInvariant(r, i);
    var s := r[i];
    if a.Receive? && s.Inbox(x)[0] == OnStream(n, Open) {
      assert ChannelInv(View(s, n));
      assert View(s, n).Inbox(x) == Filter(s.Inbox(x), n);
      NoSecondOpen(View(s, n), x);
      assert View(s, n).End(x).obj == s.End(x).Obj(n);
    }
    ActFollows(s.End(x), s.opens, s.Inbox(x), a, n);
  }

  /** The payload a reader blocked on stream `n` is holding. */
  function HeldFor(e: Endpoint, n: nat): seq<Payload> {
    if e.reader.Busy? && e.reader.n == n && e.reader.stage.Holding? then [e.reader.stage.p] else []
  }

  predicate Registered(e: Endpoint, n: nat) {
    IdOf(n) in e.table && e.table[IdOf(n)] == n
  }

  lemma EndFacts(v: Channel, x: Side)
    requires ChannelInv(v)
    ensures DeliveryInv(v.End(x))
    ensures v.End(x) != EMPTY_HALF ==> Legal(v.End(Peer(x)).obj.sent) == v.End(x).obj.taken + Payloads(v.Inbox(x))
  {
    hide Legal, Payloads, Subsequence;
    assert HalfInv(v.End(x));
    assert v.srv.obj.refused && x == Client ==> v.End(x) == EMPTY_HALF;
  }

  lemma NothingDelivered(legal: seq<Payload>)
    ensures EMPTY_HALF.obj.consumed + EMPTY_HALF.obj.dataCh <= legal
    ensures Subsequence(EMPTY_HALF.obj.consumed, legal)
    ensures Subsequence(EMPTY_HALF.obj.consumed + EMPTY_HALF.obj.dataCh, legal)
  {
    assert EMPTY_HALF.obj.consumed + EMPTY_HALF.obj.dataCh == [];
  }

  /** What a channel's invariant says of delivery at one end. */
  lemma DeliveredLegally(v: Channel, x: Side)
    requires ChannelInv(v)
    ensures var o, legal := v.End(x).obj, Legal(v.End(Peer(x)).obj.sent);
      && (!o.closeBegun ==> o.consumed + o.dataCh <= legal)
      && Subsequence(o.consumed, legal)
      && Subsequence(o.consumed + o.dataCh, legal)
  {
    hide ChannelInv, Subsequence, Legal, Payloads;
    var h, wire := v.End(x), Payloads(v.Inbox(x));
    EndFacts(v, x);
    if h == EMPTY_HALF {
      NothingDelivered(Legal(v.End(Peer(x)).obj.sent));
    } else {
      SubsequencePrefix(h.obj.consumed + h.obj.dataCh, Held(h.reader), h.obj.taken);
      SubsequenceExtend(h.obj.consumed + h.obj.dataCh, h.obj.taken, wire);
      SubsequencePrefix(h.obj.consumed, h.obj.dataCh, h.obj.taken + wire);
    }
  }

  lemma LegallyConserved(v: Channel, x: Side)
    requires ChannelInv(v) && v.End(x).registered && v.End(x).obj.closes == 0
    ensures Legal(v.End(Peer(x)).obj.sent) == Accepted(v.End(x)) + Payloads(v.Inbox(x))
  {
    hide Legal, Payloads;
    assert DeliveryInv(v.End(x));
  }

  /** Byte conservation: for a registered stream whose Done is open, the payloads of up to 1 MiB that the
      other end sent are what was consumed, then what is queued, then what the reader holds, then what is in
      flight; and these are all that was sent exactly if no longer payload was sent. */
  lemma ByteConservation(r: seq<System>, i: nat, x: Side, n: nat)
    requires Reaches(r, i)
    requires var e := r[i].End(x); Registered(e, n) && e.Obj(n).closes == 0
    ensures var e, sent := r[i].End(x), r[i].End(Peer(x)).Obj(n).sent;
      var all := e.Obj(n).consumed + e.Obj(n).dataCh + HeldFor(e, n) + InFlight(r[i].Inbox(x), IdOf(n));
      && Legal(sent) == all
      && (sent == all <==> forall p :: p in sent ==> FrameCodec.Fits(p))
  {
    RunInvariant(r, i);
    assert ChannelInv(View(r[i], n));
    InFlightIsFiltered(r[i].Inbox(x), n, r[i].opens);
    LegallyConserved(View(r[i], n), x);
    LegalIsAll(r[i].End(Peer(x)).Obj(n).sent);
  }

  /** Until its own end begins a CloseStream the consumer sees the payloads of up to 1 MiB in order, without a
      gap, and for ever an in-order selection of them.  It sees a prefix of everything sent exactly if none of
      the payloads it should have seen was longer. */
  lemma Delivery(r: seq<System>, i: nat, x: Side, n: nat)
    requires Reaches(r, i)
    ensures var o, sent := r[i].End(x).Obj(n), r[i].End(Peer(x)).Obj(n).sent;
      var got := o.consumed + o.dataCh;
      && (!o.closeBegun ==> got <= Legal(sent))
      && (!o.closeBegun ==> (got <= sent <==> forall j :: 0 <= j < |got| && j < |sent| ==> FrameCodec.Fits(sent[j])))
      && Subsequence(o.consumed, sent)
      && Subsequence(got, Legal(sent)) && Subsequence(got, sent)
  {
    RunInvariant(r, i);
    var v := View(r[i], n);
    assert ChannelInv(v);
    DeliveredLegally(v, x);
    var o, sent := r[i].End(x).Obj(n), r[i].End(Peer(x)).Obj(n).sent;
    hide ChannelInv, Legal;
    LegalIsSelection(sent);
    SubsequenceTransitive(o.consumed, Legal(sent), sent);
    SubsequenceTransitive(o.consumed + o.dataCh, Legal(sent), sent);
    if !o.closeBegun {
      LegalPrefix(o.consumed + o.dataCh, sent);
    }
  }

  /** A payload on a stream was sent by SendData for that same open, even if after CloseStream. */
  lemma Isolation(r: seq<System>, i: nat, x: Side, n: nat, p: Payload)
    requires Reaches(r, i)
    requires p in r[i].End(x).Obj(n).consumed || p in r[i].End(x).Obj(n).dataCh
    ensures p in r[i].End(Peer(x)).Obj(n).sent && FrameCodec.Fits(p)
  {
    Delivery(r, i, x, n);
    var o, sent := r[i].End(x).Obj(n), r[i].End(Peer(x)).Obj(n).sent;
    SubsequenceMember(o.consumed + o.dataCh, Legal(sent), p);
    LegalIsSelection(sent);
  }

  lemma QueueBound(r: seq<System>, i: nat, x: Side, n: nat)
    requires Reaches(r, i)
    ensures |r[i].End(x).Obj(n).dataCh| <= 64
  {
    RunInvariant(r, i);
    assert ChannelInv(View(r[i], n));
    assert HalfInv(View(r[i], n).End(x));
  }

  // ----- lifecycle

  /** No orphans: a stream that a caller or handler holds and nobody has begun to shut is in the table. */
  lemma NoOrphans(r: seq<System>, i: nat, x: Side, n: nat)
    requires Reaches(r, i)
    requires var o := r[i].End(x).Obj(n); o.phase == Handed && !o.closed
    ensures Registered(r[i].End(x), n)
  {
    RunInvariant(r, i);
    assert ChannelInv(View(r[i], n));
    assert TableInv(View(r[i], n).End(x));
  }

  /** The goroutine that won the compare-and-swap on stream `n` is about to execute `close(Done)`. */
  ghost predicate AboutToCloseDone(e: Endpoint, n: nat) {
    || (exists t :: AtCall(e.Obj(n), t, Won))
    || e.reader == Busy(n, ReaderWon)
    || e.lock == Visiting(n, SweepWon)
  }

  lemma HalfInvariant(r: seq<System>, i: nat, x: Side, n: nat)
    requires Reaches(r, i)
    ensures HalfInv(HalfOf(r[i].End(x), n))
  {
    RunInvariant(r, i);
    assert ChannelInv(View(r[i], n));
  }

  lemma ClosedOnceAt(e: Endpoint, n: nat)
    requires CloseInv(HalfOf(e, n))
    ensures var o := e.Obj(n);
      && o.closes <= 1
      && (o.closed <==> o.closes == 1 || AboutToCloseDone(e, n))
      && !(o.closes == 1 && AboutToCloseDone(e, n))
  {
    var h := HalfOf(e, n);
    if exists t :: AtCall(h.obj, t, Won) {
      var t :| AtCall(h.obj, t, Won);
      assert CallInv(h, t);
    }
  }

  /** Done is closed at most once, and once `closed` is set it is closed or about to be. */
  lemma DoneClosedOnce(r: seq<System>, i: nat, x: Side, n: nat)
    requires Reaches(r, i)
    ensures var o := r[i].End(x).Obj(n);
      && o.closes <= 1
      && (o.closed <==> o.closes == 1 || AboutToCloseDone(r[i].End(x), n))
      && !(o.closes == 1 && AboutToCloseDone(r[i].End(x), n))
  {
    HalfInvariant(r, i, x, n);
    ClosedOnceAt(r[i].End(x), n);
  }

  /** When a CloseAll ends, every stream handed out so far is shut. */
  lemma CloseAllShutsEverything(r: seq<System>, i: nat, x: Side, n: nat)
    requires Reaches(r, i) && StepEnabled(r[i], x, SweepEnd)
    requires r[i].End(x).Obj(n).phase == Handed
    ensures r[i].End(x).Obj(n).closed
    ensures r[i].End(x).Obj(n).closes == 1 || AboutToCloseDone(r[i].End(x), n)
  {
    if !r[i].End(x).Obj(n).closed {
      NoOrphans(r, i, x, n);
    }
    DoneClosedOnce(r, i, x, n);
  }

  /** A removed stream never comes back, for the rest of the run. */
  lemma {:induction false} RemovedForGood(r: seq<System>, i: nat, j: nat, x: Side, n: nat)
    requires i <= j && Reaches(r, j)
    requires n in r[i].End(x).objs && !Registered(r[i].End(x), n)
    ensures n in r[j].End(x).objs && !Registered(r[j].End(x), n)
    decreases j - i
  {
    if i < j {
      assert Step(r[j - 1], r[j - 1 + 1]);
      RunInvariant(r, j - 1);
      RemovedForGood(r, i, j - 1, x, n);
      StepRefinesChannels(r[j - 1], r[j], n);
      assert ChannelInv(View(r[j - 1], n));
      RemovedStaysRemoved(View(r[j - 1], n), View(r[j], n), x);
    }
  }

  /** A reader blocked on a full queue waits for no lock: a local CloseStream by any goroutine `t`
      can run to the closing of Done, after which the reader can go on. */
  lemma BlockedReaderReleased(r: seq<System>, i: nat, x: Side, n: nat, p: Payload, t: nat)
    requires Reaches(r, i)
    requires var e := r[i].End(x);
      e.reader == Busy(n, Holding(p)) && |e.Obj(n).dataCh| == QUEUE_CAPACITY
      && e.Obj(n).phase == Handed && !e.Obj(n).closed && e.lock == Free && t !in e.Obj(n).calls
    ensures StepEnabled(r[i], x, Action.CloseLookup(n, t))
    ensures var s1 := StepTo(r[i], x, Action.CloseLookup(n, t));
      StepEnabled(s1, x, Action.CallCas(n, t)) &&
      (var s2 := StepTo(s1, x, Action.CallCas(n, t));
       StepEnabled(s2, x, Action.CallDone(n, t)) &&
       StepEnabled(StepTo(s2, x, Action.CallDone(n, t)), x, Action.Discard))
  {
    NoOrphans(r, i, x, n);
    RunInvariant(r, i);
    var s1 := StepTo(r[i], x, Action.CloseLookup(n, t));
    assert AtCall(s1.End(x).Obj(n), t, Looked) && !s1.End(x).Obj(n).closed;
    CallReleasesReader(s1, x, n, p, t);
  }

  lemma CallReleasesReader(s: System, x: Side, n: nat, p: Payload, t: nat)
    requires var e := s.End(x);
      e.reader == Busy(n, Holding(p)) && n in e.objs && !e.objs[n].closed && AtCall(e.objs[n], t, Looked)
    ensures StepEnabled(s, x, Action.CallCas(n, t))
    ensures var s2 := StepTo(s, x, Action.CallCas(n, t));
      StepEnabled(s2, x, Action.CallDone(n, t)) && StepEnabled(StepTo(s2, x, Action.CallDone(n, t)), x, Action.Discard)
  {
  }

  /** A CloseAll never waits either: while it holds the lock it has a next step of its own. */
  lemma CloseAllNeverWaits(r: seq<System>, i: nat, x: Side)
    requires Reaches(r, i) && r[i].End(x).lock != Free
    ensures exists a :: StepEnabled(r[i], x, a) && (a.SweepVisit? || a.SweepDone? || a.SweepDelete? || a.SweepEnd?)
  {
    RunInvariant(r, i);
    var e := r[i].End(x);
    var a :=
      if e.lock == Scanning then
        if e.table == map[] then Action.SweepEnd else (var id :| id in e.table; Action.SweepVisit(id))
      else if e.lock.stage == SweepWon then Action.SweepDone
      else Action.SweepDelete;
    assert StepEnabled(r[i], x, a);
  }

  // ----- agreement of the two tables

  /** A Close for stream `n`, removed at end `x`, is about to be sent, in flight, or being handled. */
  ghost predicate ClosingAt(s: System, x: Side, n: nat) {
    || (exists t :: AtCall(s.End(x).Obj(n), t, Sending))
    || OnStream(n, Close) in s.Inbox(Peer(x))
    || (var rd := s.End(Peer(x)).reader; rd.Busy? && rd.n == n && !rd.stage.Holding?)
  }

  lemma ClosingSeenInView(s: System, x: Side, n: nat)
    requires SystemInv(s) && CloseUnderWay(View(s, n), x)
    ensures ClosingAt(s, x, n)
  {
    FilterPosition(s.Inbox(Peer(x)), n, Close);
    if ClosePending(View(s, n).End(x).obj) {
      var t :| AtCall(s.End(x).Obj(n), t, Sending);
    }
  }

  /** While nothing has failed, a stream in only one table is explained by an Open or a Close. */
  lemma TableAgreement(r: seq<System>, i: nat, n: nat)
    requires Reaches(r, i) && r[i].calm
    requires Registered(r[i].srv, n) != Registered(r[i].cli, n)
    ensures Registered(r[i].srv, n) ==>
      r[i].srv.Obj(n).phase == Opening || OnStream(n, Open) in r[i].toCli || ClosingAt(r[i], Client, n)
    ensures Registered(r[i].cli, n) ==> ClosingAt(r[i], Server, n)
  {
    RunInvariant(r, i);
    var v := View(r[i], n);
    assert ChannelInv(v);
    FilterPosition(r[i].toCli, n, Open);
    assert AgreementInv(v);
    if Registered(r[i].cli, n) {
      ClosingSeenInView(r[i], Server, n);
    } else if CloseUnderWay(v, Client) {
      ClosingSeenInView(r[i], Client, n);
    }
  }

  /** No frame in flight and no call half done at either end. */
  ghost predicate Quiet(s: System) {
    && s.calm && s.toCli == [] && s.toSrv == []
    && !s.srv.reader.Busy? && !s.cli.reader.Busy?
    && forall n :: s.srv.Obj(n).phase != Opening && s.srv.Obj(n).calls == map[] && s.cli.Obj(n).calls == map[]
  }

  lemma QuietTablesAgree(r: seq<System>, i: nat)
    requires Reaches(r, i) && Quiet(r[i])
    ensures r[i].srv.table == r[i].cli.table
  {
    RunInvariant(r, i);
    var s := r[i];
    forall id
      ensures id in s.srv.table <==> id in s.cli.table
      ensures id in s.srv.table ==> s.srv.table[id] == s.cli.table[id]
    {
      if id in s.srv.table && !Registered(s.cli, s.srv.table[id]) {
        TableAgreement(r, i, s.srv.table[id]);
      }
      if id in s.cli.table && !Registered(s.srv, s.cli.table[id]) {
        TableAgreement(r, i, s.cli.table[id]);
      }
    }
  }

  // ----- where the guarantees stop

  lemma StepBookkeeping(s: System, s': System)
    requires SystemInv(s) && Step(s, s')
    ensures SystemInv(s')
  {
    var x, a :| StepEnabled(s, x, a) && s' == StepTo(s, x, a);
    SystemInvStep(s, x, a);
  }

  lemma NewSystemInv()
    ensures SystemInv(NEW_SYSTEM)
  {
  }

  lemma {:induction false} RunBookkeeping(r: seq<System>, i: nat)
    requires Run(r) && i < |r|
    ensures SystemInv(r[i])
  {
    hide SystemInv, Step;
    if i == 0 {
      NewSystemInv();
    } else {
      assert Step(r[i - 1], r[i - 1 + 1]);
      RunBookkeeping(r, i - 1);
      StepBookkeeping(r[i - 1], r[i]);
    }
  }

  /** In any run, however long: opening one more stream leaves an open stream `m` in the table
      exactly when `m` is not a multiple of 2^31 opens old.  Otherwise `m` stays open, held by its
      goroutines, where no frame, CloseStream or CloseAll can find it. */
  lemma OpenKeepsEntry(r: seq<System>, i: nat, m: nat)
    requires Run(r) && i < |r| && StepEnabled(r[i], Server, Action.Register) && Registered(r[i].srv, m)
    ensures var s' := StepTo(r[i], Server, Action.Register);
      && s'.srv.Obj(m) == r[i].srv.Obj(m)
      && (Registered(s'.srv, m) <==> m % 0x8000_0000 != r[i].opens % 0x8000_0000)
  {
    RunBookkeeping(r, i);
    IdsCollide(m, r[i].opens);
  }

  /** Extends a run by one step. */
  lemma Extend(r: seq<System>, x: Side, a: Action) returns (r': seq<System>)
    requires Run(r) && StepEnabled(r[|r| - 1], x, a)
    ensures Run(r') && |r'| == |r| + 1 && r'[|r|] == StepTo(r[|r| - 1], x, a)
  {
    r' := r + [StepTo(r[|r| - 1], x, a)];
    forall i | 0 <= i < |r'| - 1
      ensures Step(r'[i], r'[i + 1])
    {
      if i < |r| - 1 {
        assert Step(r[i], r[i + 1]);
      }
    }
  }

  /** `NoOrphans` speaks of the flag, not of Done: between winning the compare-and-swap and closing
      Done, a second CloseStream can already have removed the stream from the table. */
  lemma OpenDoneMayBeOrphaned() returns (r: seq<System>)
    ensures r != [] && Reaches(r, |r| - 1)
    ensures var e := r[|r| - 1].srv; e.Obj(0).phase == Handed && e.Obj(0).closes == 0 && !Registered(e, 0)
  {
    r := TwoClosersAtWork();
    r := Extend(r, Server, Action.CallCas(0, 1));
    r := Extend(r, Server, Action.CallCas(0, 2));
    assert r[|r| - 1].srv.objs[0].calls == map[1 := Won, 2 := Removing];
    r := Extend(r, Server, Action.CallRemove(0, 2));
  }

  lemma TwoClosersAtWork() returns (r: seq<System>)
    ensures Run(r) && r[|r| - 1].opens == 1
    ensures r[|r| - 1].srv ==
      Endpoint(map[1 := 0],
               map[0 := NewStream(Handed).(calls := map[1 := Looked, 2 := Looked], closeBegun := true)], Idle, Free)
  {
    r := OneStreamOpen();
    r := Extend(r, Server, Action.CloseLookup(0, 1));
    r := Extend(r, Server, Action.CloseLookup(0, 2));
  }

  lemma OneStreamOpen() returns (r: seq<System>)
    ensures Run(r) && r[|r| - 1].opens == 1
    ensures r[|r| - 1].srv == Endpoint(map[1 := 0], map[0 := NewStream(Handed)], Idle, Free)
  {
    r := [NEW_SYSTEM];
    r := Extend(r, Server, Action.Register);
    r := Extend(r, Server, Action.SendOpen(0, true, true));
  }

  /** ... and that window is the only way: an open stream is missing from the table only while the
      goroutine that shut it is about to close Done. */
  lemma OpenDoneOrphanedOnlyInWindow(r: seq<System>, i: nat, x: Side, n: nat)
    requires Reaches(r, i)
    requires var o := r[i].End(x).Obj(n); o.phase == Handed && o.closes == 0
    ensures Registered(r[i].End(x), n) || AboutToCloseDone(r[i].End(x), n)
  {
    if !r[i].End(x).Obj(n).closed {
      NoOrphans(r, i, x, n);
    }
    DoneClosedOnce(r, i, x, n);
  }

  // ----- payloads and opens that do not fit a frame

  function Wired(table: map<nat, nat>, o: Stream, reader: Reader): Endpoint {
    Endpoint(table, map[0 := o], reader, Free)
  }

  lemma WiredSet(table: map<nat, nat>, o: Stream, o': Stream, reader: Reader)
    ensures Wired(table, o, reader).Set(0, o') == Wired(table, o', reader)
  {
    assert map[0 := o][0 := o'] == map[0 := o'];
  }

  /** One stream, open at both ends, with nothing sent. */
  lemma OneStreamAtBothEnds() returns (r: seq<System>)
    ensures Run(r)
    ensures r[|r| - 1] == System(Wired(map[1 := 0], NewStream(Handed), Idle), Wired(map[1 := 0], NewStream(Handed), Idle),
                                 [], [], 1, true)
  {
    r := [NEW_SYSTEM];
    r := Extend(r, Server, Action.Register);
    r := Extend(r, Server, Action.SendOpen(0, true, true));
    assert r[|r| - 1].toCli == [OnStream(0, Open)];
    r := Extend(r, Client, Action.Receive);
    assert r[|r| - 1].srv == Wired(map[1 := 0], NewStream(Handed), Idle);
    assert r[|r| - 1].cli == Wired(map[1 := 0], NewStream(Handed), Idle);
  }

  /** The server sends a payload that does not fit, and then one that does. */
  lemma TwoPayloadsSent(big: Payload, p: Payload) returns (r: seq<System>)
    requires !FrameCodec.Fits(big) && |big| < MESSAGE_LIMIT && FrameCodec.Fits(p)
    ensures Run(r)
    ensures r[|r| - 1] == System(Wired(map[1 := 0], NewStream(Handed).(sent := [big, p]), Idle),
                                 Wired(map[1 := 0], NewStream(Handed), Idle), [OnStream(0, Data(p))], [], 1, true)
  {
    r := OneStreamAtBothEnds();
    var o := NewStream(Handed);
    assert o.sent + [big] == [big] && [big] + [p] == [big, p];
    WiredSet(map[1 := 0], o, LogSent(o, big, true), Idle);
    WiredSet(map[1 := 0], LogSent(o, big, true), LogSent(LogSent(o, big, true), p, true), Idle);
    r := Extend(r, Server, Action.SendData(0, big, true));
    assert r[|r| - 1].srv == Wired(map[1 := 0], NewStream(Handed).(sent := [big]), Idle);
    r := Extend(r, Server, Action.SendData(0, p, true));
    assert r[|r| - 1].srv == Wired(map[1 := 0], NewStream(Handed).(sent := [big, p]), Idle);
  }

  /** A payload above 1 MiB is lost without a trace: its send succeeds, the stream stays open in both tables,
      nothing fails, and the consumer goes on with the next payload. */
  lemma LongPayloadIsLost(big: Payload, p: Payload) returns (r: seq<System>)
    requires !FrameCodec.Fits(big) && |big| < MESSAGE_LIMIT && FrameCodec.Fits(p)
    ensures r != [] && Reaches(r, |r| - 1)
    ensures var s := r[|r| - 1];
      && s.srv.Obj(0).sent == [big, p] && s.cli.Obj(0).consumed == [p] && s.toCli == []
      && Registered(s.srv, 0) && Registered(s.cli, 0) && s.cli.Obj(0).closes == 0 && s.calm
  {
    r := TwoPayloadsSent(big, p);
    var o := NewStream(Handed);
    assert o.taken + [p] == [p] && o.dataCh + [p] == [p];
    WiredSet(map[1 := 0], o, LogTaken(o, p), Idle);
    WiredSet(map[1 := 0], LogTaken(o, p), Enqueue(LogTaken(o, p), p), Idle);
    r := Extend(r, Client, Action.Receive);
    assert r[|r| - 1].cli == Wired(map[1 := 0], NewStream(Handed).(taken := [p]), Busy(0, Holding(p)));
    r := Extend(r, Client, Action.Push);
    assert r[|r| - 1].cli == Wired(map[1 := 0], NewStream(Handed).(taken := [p], dataCh := [p]), Idle);
    r := Extend(r, Client, Action.Consume(0));
  }

  /** A stream whose Open does not fit a frame never exists at the other end. */
  lemma RefusedOpenNeverArrives(r: seq<System>, i: nat, n: nat)
    requires Reaches(r, i) && r[i].srv.Obj(n).refused
    ensures !Registered(r[i].cli, n) && r[i].cli.Obj(n).phase == Absent
  {
    RunInvariant(r, i);
    assert ChannelInv(View(r[i], n));
    assert OrderInv(View(r[i], n));
  }
}
