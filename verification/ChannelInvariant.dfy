/**
 The invariant of a whole channel: no payload that fits a frame is lost or reordered between the two ends,
 and the two tables disagree about the stream only while an Open or a Close is on its way.
 */
module ChannelInvariant {
  import opened Bytes
  import opened StreamChannel
  import opened FrameCodec

  /** The payloads that the other end's decoder takes. */
  function Legal(ps: seq<Payload>): seq<Payload>
    decreases |ps|
  {
    if ps == [] then [] else Legal(ps[..|ps| - 1]) + if Fits(ps[|ps| - 1]) then [ps[|ps| - 1]] else []
  }

  lemma LegalAppend(ps: seq<Payload>, p: Payload)
    ensures Legal(ps + [p]) == Legal(ps) + if Fits(p) then [p] else []
  {
    assert (ps + [p])[..|ps|] == ps;
  }

  lemma {:induction false} LegalIsSelection(ps: seq<Payload>)
    ensures Subsequence(Legal(ps), ps) && |Legal(ps)| <= |ps|
    ensures forall p :: p in Legal(ps) ==> p in ps && Fits(p)
    decreases |ps|
  {
    if ps != [] {
      var before, p := ps[..|ps| - 1], ps[|ps| - 1];
      assert ps == before + [p];
      LegalIsSelection(before);
      if Fits(p) {
        SubsequencePush(Legal(before), before, p);
      } else {
        SubsequenceSkip(Legal(before), before, p);
        assert Legal(before) + [] == Legal(before);
      }
    }
  }

  /** Nothing is left out exactly if everything fits. */
  lemma {:induction false} LegalIsAll(ps: seq<Payload>)
    ensures Legal(ps) == ps <==> forall p :: p in ps ==> Fits(p)
    decreases |ps|
  {
    if ps != [] {
      var before, p := ps[..|ps| - 1], ps[|ps| - 1];
      assert ps == before + [p];
      LegalIsAll(before);
      LegalIsSelection(before);
      if !Fits(p) {
        assert |Legal(ps)| < |ps|;
      }
    }
  }

  lemma {:induction false} LegalGrows(ps: seq<Payload>, n: nat)
    requires n <= |ps|
    ensures Legal(ps[..n]) <= Legal(ps)
    decreases |ps|
  {
    if n == |ps| {
      assert ps[..n] == ps;
    } else {
      LegalGrows(ps[..|ps| - 1], n);
      assert ps[..|ps| - 1][..n] == ps[..n];
    }
  }

  lemma FirstFit(ps: seq<Payload>, n: nat)
    requires n <= |ps| && forall j :: 0 <= j < n ==> Fits(ps[j])
    ensures n <= |Legal(ps)| && Legal(ps)[..n] == ps[..n]
  {
    LegalIsAll(ps[..n]);
    LegalGrows(ps, n);
  }

  /** A prefix of the legal payloads is a prefix of all exactly if that many of them fit from the start. */
  lemma LegalPrefix(a: seq<Payload>, ps: seq<Payload>)
    requires a <= Legal(ps)
    ensures a <= ps <==> forall j :: 0 <= j < |a| && j < |ps| ==> Fits(ps[j])
  {
    LegalIsSelection(ps);
    if forall j :: 0 <= j < |a| && j < |ps| ==> Fits(ps[j]) {
      FirstFit(ps, |a|);
      assert a == Legal(ps)[..|a|];
    }
    if a <= ps {
      forall j | 0 <= j < |a|
        ensures Fits(ps[j])
      {
        assert Legal(ps)[j] in Legal(ps) && Legal(ps)[j] == ps[j];
      }
    }
  }

  function Payloads(wire: seq<Signal>): seq<Payload> {
    if wire == [] then []
    else (if wire[0].Data? then [wire[0].p] else []) + Payloads(wire[1..])
  }

  lemma {:induction false} PayloadsAppend(wire: seq<Signal>, w: seq<Signal>)
    ensures Payloads(wire + w) == Payloads(wire) + Payloads(w)
  {
    if wire == [] {
      assert wire + w == w;
    } else {
      assert (wire + w)[1..] == wire[1..] + w;
      PayloadsAppend(wire[1..], w);
    }
  }

  lemma PayloadsSingle(s: Signal)
    ensures Payloads([s]) == if s.Data? then [s.p] else []
  {
    assert Payloads([]) == [];
  }

  // ----- order and conservation on the wires

  ghost predicate OrderInv(v: Channel) {
    && Open !in v.toSrv
    && (v.srv.obj.phase != Handed ==> v.toCli == [] && v.toSrv == [] && v.cli == EMPTY_HALF)
    && (v.cli.obj.phase in {Absent, Handed})
    && (v.srv.obj.phase == Handed && v.cli.obj.phase == Absent ==>
          if v.srv.obj.refused then Open !in v.toCli && v.toSrv == []
          else v.toCli != [] && v.toCli[0] == Open && Open !in v.toCli[1..] && v.toSrv == [])
    && (v.srv.obj.refused ==> v.cli == EMPTY_HALF)
    && (v.cli.obj.phase == Handed ==> Open !in v.toCli)
  }

  /** Every legal payload sent has been taken off the wire or is still on it, in order. */
  ghost predicate Conserved(sent: seq<Payload>, taken: seq<Payload>, wire: seq<Signal>) {
    Legal(sent) == taken + Payloads(wire)
  }

  ghost predicate ConservationInv(v: Channel) {
    && (!v.srv.obj.refused ==> Conserved(v.srv.obj.sent, v.cli.obj.taken, v.toCli))
    && Conserved(v.cli.obj.sent, v.srv.obj.taken, v.toSrv)
  }

  // ----- agreement of the two tables

  ghost predicate ClosePending(o: Stream) {
    exists t :: AtCall(o, t, Sending)
  }

  predicate ReaderClosing(h: Half) {
    h.reader in {ReaderLooked, ReaderWon, ReaderRemoving}
  }

  /** End `x` has removed the stream and the other end has yet to act on it. */
  ghost predicate CloseUnderWay(v: Channel, x: Side) {
    || ClosePending(v.End(x).obj)
    || Close in v.Inbox(Peer(x))
    || ReaderClosing(v.End(Peer(x)))
  }

  predicate Gone(h: Half) {
    h.obj.phase == Handed && !h.registered
  }

  ghost predicate OpenUnderWay(v: Channel) {
    v.srv.obj.phase == Opening || Open in v.toCli
  }

  ghost predicate AgreementInv(v: Channel) {
    && (CloseUnderWay(v, Server) ==> Gone(v.srv))
    && (CloseUnderWay(v, Client) ==> Gone(v.cli))
    && (v.calm ==>
          && v.srv.sweep == SweepAway && v.cli.sweep == SweepAway && !v.srv.obj.refused
          && v.srv.obj.phase in {Absent, Opening, Handed}
          && (v.srv.obj.phase == Opening ==> v.srv.registered)
          && (v.srv.registered && !v.cli.registered ==> OpenUnderWay(v) || CloseUnderWay(v, Client))
          && (!v.srv.registered && (v.cli.registered || Open in v.toCli) ==> CloseUnderWay(v, Server)))
  }

  ghost predicate ChannelInv(v: Channel) {
    HalfInv(v.srv) && HalfInv(v.cli) && OrderInv(v) && ConservationInv(v) && AgreementInv(v)
  }

  lemma InitialChannelInv()
    ensures ChannelInv(EMPTY_CHANNEL)
  {
  }

  lemma DisturbedChannelInv(v: Channel)
    requires ChannelInv(v)
    ensures ChannelInv(v.(calm := false))
  {
    var v' := v.(calm := false);
    assert CloseUnderWay(v', Server) == CloseUnderWay(v, Server);
    assert CloseUnderWay(v', Client) == CloseUnderWay(v, Client);
  }

  lemma StepIsSensible(v: Channel, x: Side, a: Act)
    requires ChannelInv(v) && ChannelEnabled(v, x, a)
    ensures Sensible(v.End(x), a)
  {
  }

  /** What a step does to the histories of its own end ... */
  ghost predicate LogFacts(h: Half, a: Act, h': Half) {
    && Legal(h'.obj.sent) == Legal(h.obj.sent) + Payloads(Emits(a))
    && (!a.Take? ==> h'.obj.taken == h.obj.taken)
    && (a.Take? && (h.obj.phase != Absent || a == Take(Open)) ==> h'.obj.taken == h.obj.taken + Payloads([a.sig]))
  }

  /** ... and to its phase. */
  ghost predicate PhaseFacts(h: Half, a: Act, h': Half) {
    && (h.obj.phase == Absent ==> a.Register? || a.Take?)
    && (h.obj.phase == Absent && a.Take? && a != Take(Open) ==> h' == h)
    && (a.Take? && a != Take(Open) ==> h.obj.phase in {Absent, Handed})
    && h'.obj.refused == (h.obj.refused || (a.SendOpen? && a.ok && !a.fits))
    && (a.Register? ==> h.obj.phase == Absent && h'.obj.phase == Opening && Emits(a) == [])
    && (a.SendOpen? ==> h.obj.phase == Opening)
    && (a.SendOpen? && a.ok ==> h'.obj.phase == Handed && Emits(a) == if a.fits then [Open] else [])
    && (a.SendOpen? && !a.ok ==> h'.obj.phase == Failed && Emits(a) == [])
    && (a.RemoveFailed? ==> h.obj.phase == Failed && h'.obj.phase == Abandoned && Emits(a) == [])
    && (a == Take(Open) ==> h.obj.phase == Absent && h'.obj.phase == Handed)
    && (a.Take? ==> Emits(a) == [])
    && (!(a.Register? || a.SendOpen? || a.RemoveFailed? || a == Take(Open)) ==> h'.obj.phase == h.obj.phase)
    && (!a.SendOpen? ==> Open !in Emits(a))
    && (Emits(a) != [] && !a.SendOpen? ==> h.obj.phase == Handed)
  }

  ghost predicate HistoryFacts(h: Half, a: Act, h': Half) {
    LogFacts(h, a, h') && PhaseFacts(h, a, h')
  }

  lemma PayloadsEmitted(a: Act)
    ensures Payloads(Emits(a)) == if a.SendData? && a.ok && Fits(a.p) then [a.p] else []
  {
    if Emits(a) != [] {
      PayloadsSingle(Emits(a)[0]);
    }
  }

  lemma SentEffects(h: Half, a: Act)
    requires TableInv(h) && Enabled(h, a) && Sensible(h, a)
    ensures Do(h, a).obj.sent == if a.SendData? && a.ok then h.obj.sent + [a.p] else h.obj.sent
    ensures !a.Take? ==> Do(h, a).obj.taken == h.obj.taken
  {
  }

  lemma TakenEffects(h: Half, a: Act)
    requires TableInv(h) && Enabled(h, a) && Sensible(h, a) && a.Take? && (h.obj.phase != Absent || a == Take(Open))
    ensures Do(h, a).obj.taken == h.obj.taken + Payloads([a.sig])
  {
    PayloadsSingle(a.sig);
  }

  lemma PhaseEffects(h: Half, a: Act)
    requires TableInv(h) && Enabled(h, a) && Sensible(h, a)
    ensures PhaseFacts(h, a, Do(h, a))
  {
  }

  lemma Effects(h: Half, a: Act)
    requires TableInv(h) && Enabled(h, a) && Sensible(h, a)
    ensures HistoryFacts(h, a, Do(h, a))
  {
    hide Legal, Payloads, Emits;
    SentEffects(h, a);
    PayloadsEmitted(a);
    if a.SendData? {
      LegalAppend(h.obj.sent, a.p);
    }
    if a.Take? && (h.obj.phase != Absent || a == Take(Open)) {
      TakenEffects(h, a);
    }
    PhaseEffects(h, a);
  }

  lemma OrderAfterServer(v: Channel, a: Act, h: Half)
    requires OrderInv(v) && TableInv(v.srv) && WireReady(v, Server, a) && HistoryFacts(v.srv, a, h)
    ensures OrderInv(After(v, Server, a, h))
  {
    if a.Take? {
      assert v.toSrv == [a.sig] + v.toSrv[1..];
    }
  }

  lemma OrderAfterClient(v: Channel, a: Act, h: Half)
    requires OrderInv(v) && TableInv(v.cli) && WireReady(v, Client, a) && HistoryFacts(v.cli, a, h)
    ensures OrderInv(After(v, Client, a, h))
  {
    if a.Take? {
      assert v.toCli == [a.sig] + v.toCli[1..];
    }
  }

  lemma SendConserves(sent: seq<Payload>, sent': seq<Payload>, taken: seq<Payload>, wire: seq<Signal>, w: seq<Signal>)
    requires Legal(sent) == taken + Payloads(wire) && Legal(sent') == Legal(sent) + Payloads(w)
    ensures Conserved(sent', taken, wire + w)
  {
    PayloadsAppend(wire, w);
    ConcatAssociates(taken, Payloads(wire), Payloads(w));
  }

  lemma TakeConserves(sent: seq<Payload>, taken: seq<Payload>, wire: seq<Signal>)
    requires Conserved(sent, taken, wire) && wire != []
    ensures Conserved(sent, taken + Payloads([wire[0]]), wire[1..])
  {
    PayloadsAppend([wire[0]], wire[1..]);
    assert wire == [wire[0]] + wire[1..];
    ConcatAssociates(taken, Payloads([wire[0]]), Payloads(wire[1..]));
  }

  /** Conservation in the direction in which end `x` sends ... */
  lemma SentAfter(v: Channel, x: Side, a: Act, h: Half)
    requires Conserved(v.End(x).obj.sent, v.End(Peer(x)).obj.taken, v.Inbox(Peer(x)))
    requires Legal(h.obj.sent) == Legal(v.End(x).obj.sent) + Payloads(Emits(a))
    ensures Conserved(h.obj.sent, v.End(Peer(x)).obj.taken, v.Inbox(Peer(x)) + Emits(a))
  {
    SendConserves(v.End(x).obj.sent, h.obj.sent, v.End(Peer(x)).obj.taken, v.Inbox(Peer(x)), Emits(a));
  }

  /** ... and in the one in which it takes. */
  lemma TakenAfter(v: Channel, x: Side, a: Act, h: Half)
    requires Conserved(v.End(Peer(x)).obj.sent, v.End(x).obj.taken, v.Inbox(x)) && WireReady(v, x, a)
    requires h.obj.taken == v.End(x).obj.taken + (if a.Take? then Payloads([a.sig]) else [])
    ensures Conserved(v.End(Peer(x)).obj.sent, h.obj.taken, if a.Take? then v.Inbox(x)[1..] else v.Inbox(x))
  {
    if a.Take? {
      TakeConserves(v.End(Peer(x)).obj.sent, v.End(x).obj.taken, v.Inbox(x));
    } else {
      assert h.obj.taken == v.End(x).obj.taken;
    }
  }

  lemma ConservationAfter(v: Channel, x: Side, a: Act, h: Half)
    requires ConservationInv(v) && OrderInv(v) && WireReady(v, x, a) && HistoryFacts(v.End(x), a, h)
    ensures ConservationInv(After(v, x, a, h))
  {
    hide Legal, Payloads;
    if x == Client || !h.obj.refused {
      SentAfter(v, x, a, h);
    }
    if x == Server || !v.srv.obj.refused {
      TakenAfter(v, x, a, h);
    }
  }

  lemma EntryEffects(h: Half, a: Act)
    requires TableInv(h) && CloseInv(h) && Enabled(h, a) && Sensible(h, a)
    ensures Do(h, a).registered && !h.registered ==> a.Register? || a == Take(Open)
    ensures h.registered && !Do(h, a).registered ==> a.RemoveFailed? || a.CallRemove? || a.ReaderRemove? || a.SweepDelete?
    ensures ReaderClosing(Do(h, a)) && !ReaderClosing(h) ==> a == Take(Close) && h.registered
    ensures ReaderClosing(h) && !ReaderClosing(Do(h, a)) ==> a.ReaderRemove?
    ensures a.Register? || a == Take(Open) ==> Do(h, a).registered
    ensures a.ReaderRemove? ==> ReaderClosing(h) && !Do(h, a).registered
    ensures a == Take(Close) && h.registered ==> ReaderClosing(Do(h, a))
    ensures h.obj.phase == Handed ==> Do(h, a).obj.phase == Handed
  {
  }

  lemma PendingKept(h: Half, a: Act)
    requires TableInv(h) && CloseInv(h) && Enabled(h, a) && Sensible(h, a)
    ensures ClosePending(h.obj) && !ClosePending(Do(h, a).obj) ==> a.CallSend?
  {
    if ClosePending(h.obj) && !a.CallSend? {
      var t :| AtCall(h.obj, t, Sending);
      if a != Take(Open) {
        assert AtCall(Do(h, a).obj, t, Sending);
      }
    }
  }

  lemma PendingEffects(h: Half, a: Act)
    requires TableInv(h) && CloseInv(h) && Enabled(h, a) && Sensible(h, a)
    ensures ClosePending(Do(h, a).obj) && !ClosePending(h.obj) ==> a.CallRemove?
    ensures a.CallSend? ==> ClosePending(h.obj)
    ensures a.CallRemove? ==> h.obj.phase == Handed && !Do(h, a).registered && ClosePending(Do(h, a).obj)
  {
    if ClosePending(Do(h, a).obj) && !a.CallRemove? {
      var t :| AtCall(Do(h, a).obj, t, Sending);
      assert AtCall(h.obj, t, Sending);
    }
    match a
    case CallRemove(t) => assert AtCall(Do(h, a).obj, t, Sending);
    case CallSend(t, _) => assert AtCall(h.obj, t, Sending);
    case _ =>
  }

  /** What a step does to the table entry and to the closing activities of its own end. */
  ghost predicate ClosingFacts(h: Half, a: Act, h': Half) {
    && (h'.registered && !h.registered ==> a.Register? || a == Take(Open))
    && (h.registered && !h'.registered ==> a.RemoveFailed? || a.CallRemove? || a.ReaderRemove? || a.SweepDelete?)
    && (ClosePending(h'.obj) && !ClosePending(h.obj) ==> a.CallRemove?)
    && (ClosePending(h.obj) && !ClosePending(h'.obj) ==> a.CallSend?)
    && (ReaderClosing(h') && !ReaderClosing(h) ==> a == Take(Close) && h.registered)
    && (ReaderClosing(h) && !ReaderClosing(h') ==> a.ReaderRemove?)
    && (Close in Emits(a) ==> a.CallSend? && a.ok)
    && (a.CallSend? ==> ClosePending(h.obj) && (a.ok ==> Emits(a) == [Close]))
    && (a.CallRemove? ==> h.obj.phase == Handed && !h'.registered && ClosePending(h'.obj))
    && (a.Register? || a == Take(Open) ==> h'.registered)
    && (a.ReaderRemove? ==> ReaderClosing(h) && !h'.registered)
    && (a == Take(Close) && h.registered ==> ReaderClosing(h'))
    && (h.obj.phase == Handed ==> h'.obj.phase == Handed)
    && (a.SweepDelete? ==> h.sweep != SweepAway)
    && (h'.sweep != SweepAway ==> a.SweepVisit? || h.sweep != SweepAway)
  }

  lemma ClosingEffects(h: Half, a: Act)
    requires TableInv(h) && CloseInv(h) && Enabled(h, a) && Sensible(h, a)
    ensures ClosingFacts(h, a, Do(h, a))
  {
    EntryEffects(h, a);
    PendingKept(h, a);
    PendingEffects(h, a);
  }

  /** All that a step does to its own end, as far as the two ends together are concerned. */
  ghost predicate StepFacts(v: Channel, x: Side, a: Act, h: Half) {
    && WireReady(v, x, a)
    && TableInv(v.End(x)) && TableInv(h)
    && HistoryFacts(v.End(x), a, h) && ClosingFacts(v.End(x), a, h)
  }

  lemma StepHasFacts(v: Channel, x: Side, a: Act)
    requires ChannelInv(v) && ChannelEnabled(v, x, a)
    ensures StepFacts(v, x, a, Do(v.End(x), a))
  {
    StepIsSensible(v, x, a);
    TableInvStep(v.End(x), a);
    Effects(v.End(x), a);
    ClosingEffects(v.End(x), a);
  }

  lemma OwnCloseUnderWay(v: Channel, x: Side, a: Act, h: Half)
    requires AgreementInv(v) && OrderInv(v) && StepFacts(v, x, a, h)
    ensures CloseUnderWay(After(v, x, a, h), x) ==> Gone(h)
  {
    hide Legal, Payloads;
  }

  lemma PeerCloseUnderWay(v: Channel, x: Side, a: Act, h: Half)
    requires AgreementInv(v) && OrderInv(v) && StepFacts(v, x, a, h)
    ensures CloseUnderWay(After(v, x, a, h), Peer(x)) ==> Gone(v.End(Peer(x)))
  {
    hide Legal, Payloads;
  }

  lemma CalmAfter(v: Channel, x: Side, a: Act, h: Half)
    requires AgreementInv(v) && OrderInv(v) && StepFacts(v, x, a, h) && After(v, x, a, h).calm
    ensures var v' := After(v, x, a, h);
      && v'.srv.sweep == SweepAway && v'.cli.sweep == SweepAway
      && v'.srv.obj.phase in {Absent, Opening, Handed}
      && (v'.srv.obj.phase == Opening ==> v'.srv.registered)
  {
    hide Legal, Payloads;
  }

  lemma ServerEntryAfterServer(v: Channel, a: Act, h: Half)
    requires OrderInv(v) && AgreementInv(v) && StepFacts(v, Server, a, h) && After(v, Server, a, h).calm
    requires h.registered && !v.cli.registered
    ensures var v' := After(v, Server, a, h); OpenUnderWay(v') || CloseUnderWay(v', Client)
  {
    hide Legal, Payloads;
    if a.Take? {
      assert v.toSrv == [a.sig] + v.toSrv[1..];
    }
  }

  lemma ServerEntryAfterClient(v: Channel, a: Act, h: Half)
    requires OrderInv(v) && AgreementInv(v) && StepFacts(v, Client, a, h) && After(v, Client, a, h).calm
    requires v.srv.registered && !h.registered
    ensures var v' := After(v, Client, a, h); OpenUnderWay(v') || CloseUnderWay(v', Client)
  {
    hide Legal, Payloads;
    if a.Take? {
      assert v.toCli == [a.sig] + v.toCli[1..];
    }
  }

  lemma ClientEntryAfterServer(v: Channel, a: Act, h: Half)
    requires OrderInv(v) && AgreementInv(v) && StepFacts(v, Server, a, h) && After(v, Server, a, h).calm
    requires !h.registered && (v.cli.registered || Open in After(v, Server, a, h).toCli)
    ensures CloseUnderWay(After(v, Server, a, h), Server)
  {
    hide Legal, Payloads;
    if a.Take? {
      assert v.toSrv == [a.sig] + v.toSrv[1..];
    }
  }

  lemma ClientEntryAfterClient(v: Channel, a: Act, h: Half)
    requires OrderInv(v) && AgreementInv(v) && StepFacts(v, Client, a, h) && After(v, Client, a, h).calm
    requires !v.srv.registered && (h.registered || Open in After(v, Client, a, h).toCli)
    ensures CloseUnderWay(After(v, Client, a, h), Server)
  {
    hide Legal, Payloads;
    if a.Take? {
      assert v.toCli == [a.sig] + v.toCli[1..];
    }
  }

  lemma EntriesAfter(v: Channel, x: Side, a: Act, h: Half)
    requires OrderInv(v) && AgreementInv(v) && StepFacts(v, x, a, h) && After(v, x, a, h).calm
    ensures var v' := After(v, x, a, h);
      && (v'.srv.registered && !v'.cli.registered ==> OpenUnderWay(v') || CloseUnderWay(v', Client))
      && (!v'.srv.registered && (v'.cli.registered || Open in v'.toCli) ==> CloseUnderWay(v', Server))
  {
    var v' := After(v, x, a, h);
    if v'.srv.registered && !v'.cli.registered {
      if x == Server {
        ServerEntryAfterServer(v, a, h);
      } else {
        ServerEntryAfterClient(v, a, h);
      }
    }
    if !v'.srv.registered && (v'.cli.registered || Open in v'.toCli) {
      if x == Server {
        ClientEntryAfterServer(v, a, h);
      } else {
        ClientEntryAfterClient(v, a, h);
      }
    }
  }

  lemma AgreementAfter(v: Channel, x: Side, a: Act, h: Half)
    requires OrderInv(v) && AgreementInv(v) && StepFacts(v, x, a, h)
    ensures AgreementInv(After(v, x, a, h))
  {
    OwnCloseUnderWay(v, x, a, h);
    PeerCloseUnderWay(v, x, a, h);
    if After(v, x, a, h).calm {
      CalmAfter(v, x, a, h);
      EntriesAfter(v, x, a, h);
    }
  }

  lemma ChannelInvAfter(v: Channel, x: Side, a: Act, h: Half)
    requires ChannelInv(v) && StepFacts(v, x, a, h) && HalfInv(h)
    ensures ChannelInv(After(v, x, a, h))
  {
    if x == Server {
      OrderAfterServer(v, a, h);
    } else {
      OrderAfterClient(v, a, h);
    }
    ConservationAfter(v, x, a, h);
    AgreementAfter(v, x, a, h);
  }

  /** Every step of a channel keeps the invariant. */
  lemma ChannelInvStep(v: Channel, v': Channel)
    requires ChannelInv(v) && ChannelStep(v, v')
    ensures ChannelInv(v')
  {
    if v' == v {
    } else if v' == v.(calm := false) {
      DisturbedChannelInv(v);
    } else {
      var x, a :| ChannelEnabled(v, x, a) && v' == ChannelDo(v, x, a);
      StepIsSensible(v, x, a);
      HalfInvStep(v.End(x), a);
      StepHasFacts(v, x, a);
      ChannelInvAfter(v, x, a, Do(v.End(x), a));
    }
  }

  /** A stream that an end once had and has removed never comes back into its table. */
  lemma RemovedStaysRemoved(v: Channel, v': Channel, x: Side)
    requires ChannelInv(v) && ChannelStep(v, v')
    requires v.End(x).obj.phase != Absent && !v.End(x).registered
    ensures v'.End(x).obj.phase != Absent && !v'.End(x).registered
  {
    if v' != v && v' != v.(calm := false) {
      var y, a :| ChannelEnabled(v, y, a) && v' == ChannelDo(v, y, a);
      StepHasFacts(v, y, a);
      RemovedAfter(v, y, a, Do(v.End(y), a), x);
    }
  }

  lemma RemovedAfter(v: Channel, y: Side, a: Act, h: Half, x: Side)
    requires StepFacts(v, y, a, h) && v.End(x).obj.phase != Absent && !v.End(x).registered
    ensures After(v, y, a, h).End(x).obj.phase != Absent && !After(v, y, a, h).End(x).registered
  {
    hide Legal, Payloads;
  }
}
