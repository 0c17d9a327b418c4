/**
 The multiplexed connection refines one private channel per stream.  `View(s, n)` is what stream
 `n` can see of the connection; every step of the connection is, seen from each stream, either a
 step of that stream's own channel or no step at all, as long as no id has been used twice.
 */
module Refinement {
  import opened Bytes
  import opened StreamChannel
  import opened ChannelInvariant
  import opened Multiplexer

  function HalfOf(e: Endpoint, n: nat): Half {
    Half(e.Obj(n),
         IdOf(n) in e.table && e.table[IdOf(n)] == n,
         if e.reader.Busy? && e.reader.n == n then e.reader.stage else ReaderAway,
         if e.lock.Visiting? && e.lock.n == n then e.lock.stage else SweepAway)
  }

  function Filter(wire: seq<Frame>, n: nat): seq<Signal> {
    if wire == [] then []
    else (if wire[0].OnStream? && wire[0].n == n then [wire[0].sig] else []) + Filter(wire[1..], n)
  }

  function View(s: System, n: nat): Channel {
    Channel(HalfOf(s.srv, n), HalfOf(s.cli, n), Filter(s.toCli, n), Filter(s.toSrv, n), s.calm)
  }

  lemma {:induction false} FilterAppend(wire: seq<Frame>, w: seq<Frame>, n: nat)
    ensures Filter(wire + w, n) == Filter(wire, n) + Filter(w, n)
  {
    if wire == [] {
      assert wire + w == w;
    } else {
      assert (wire + w)[1..] == wire[1..] + w;
      FilterAppend(wire[1..], w, n);
    }
  }

  lemma {:induction false} FilterPosition(wire: seq<Frame>, n: nat, sig: Signal)
    ensures sig in Filter(wire, n) <==> OnStream(n, sig) in wire
  {
    if wire != [] {
      FilterPosition(wire[1..], n, sig);
      assert wire == [wire[0]] + wire[1..];
    }
  }

  /** The stream a step is about, and what it does to that stream's channel. */
  function Target(e: Endpoint, opens: nat, inbox: seq<Frame>, a: Action): Option<(nat, Act)>
    requires CanAct(e, opens, inbox, a)
  {
    match a
    case Register => Some((opens, Act.Register))
    case SendOpen(n, ok, fits) => Some((n, Act.SendOpen(ok, fits)))
    case RemoveFailed(n) => Some((n, Act.RemoveFailed))
    case SendData(n, p, ok) => Some((n, Act.SendData(p, ok)))
    case Consume(n) => Some((n, Act.Consume))
    case CloseLookup(n, t) => Some((e.table[IdOf(n)], Act.CloseLookup(t)))
    case CallCas(n, t) => Some((n, Act.CallCas(t)))
    case CallDone(n, t) => Some((n, Act.CallDone(t)))
    case CallRemove(n, t) => Some((n, Act.CallRemove(t)))
    case CallSend(n, t, ok) => Some((n, Act.CallSend(t, ok)))
    case Receive => if inbox[0].OnStream? then Some((inbox[0].n, Take(inbox[0].sig))) else None
    case Push => Some((e.reader.n, Act.Push))
    case Discard => Some((e.reader.n, Act.Discard))
    case ReaderCas => Some((e.reader.n, Act.ReaderCas))
    case ReaderDone => Some((e.reader.n, Act.ReaderDone))
    case ReaderRemove => Some((e.reader.n, Act.ReaderRemove))
    case SweepVisit(id) => Some((e.table[id], Act.SweepVisit))
    case SweepDone => Some((e.lock.n, Act.SweepDone))
    case SweepDelete => Some((e.lock.n, Act.SweepDelete))
    case SendPong(_) => None
    case SendControl(_, _) => None
    case ReadError => None
    case SweepBegin => None
    case SweepEnd => None
  }

  /** Every id in use belongs to one open. */
  ghost predicate FewOpens(opens: nat, a: Action) {
    opens + (if a.Register? then 1 else 0) <= MAX_OPENS
  }

  lemma FoundStream(e: Endpoint, opens: nat, calm: bool, n: nat)
    requires EndpointInv(e, opens, calm) && opens <= MAX_OPENS && n < opens && e.Finds(n)
    ensures e.table[IdOf(n)] == n
  {
    IdsDistinct(n, e.table[IdOf(n)]);
  }

  lemma TargetEnabled(e: Endpoint, opens: nat, inbox: seq<Frame>, calm: bool, a: Action, n: nat, b: Act)
    requires EndpointInv(e, opens, calm) && WireInv(inbox, opens) && CanAct(e, opens, inbox, a) && FewOpens(opens, a)
    requires Target(e, opens, inbox, a) == Some((n, b))
    ensures Enabled(HalfOf(e, n), b)
  {
    if a.CloseLookup? {
      FoundStream(e, opens, calm, a.n);
    }
  }

  lemma ReceiveSteps(e: Endpoint, opens: nat, inbox: seq<Frame>, calm: bool, n: nat, sig: Signal)
    requires EndpointInv(e, opens, calm) && WireInv(inbox, opens) && CanAct(e, opens, inbox, Receive)
    requires opens <= MAX_OPENS && inbox[0] == OnStream(n, sig) && Enabled(HalfOf(e, n), Take(sig))
    ensures HalfOf(Handle(e, inbox[0]), n) == Do(HalfOf(e, n), Take(sig))
  {
    if e.Finds(n) {
      FoundStream(e, opens, calm, n);
    }
  }

  lemma CallSteps(e: Endpoint, opens: nat, inbox: seq<Frame>, calm: bool, a: Action, n: nat, b: Act)
    requires EndpointInv(e, opens, calm) && WireInv(inbox, opens) && CanAct(e, opens, inbox, a) && FewOpens(opens, a)
    requires Target(e, opens, inbox, a) == Some((n, b)) && Enabled(HalfOf(e, n), b)
    requires IsCallStep(a)
    ensures HalfOf(Multiplexer.Act(e, opens, inbox, a), n) == Do(HalfOf(e, n), b)
  {
  }

  lemma ReaderShutSteps(e: Endpoint, opens: nat, inbox: seq<Frame>, calm: bool, a: Action, n: nat, b: Act)
    requires EndpointInv(e, opens, calm) && WireInv(inbox, opens) && CanAct(e, opens, inbox, a) && FewOpens(opens, a)
    requires Target(e, opens, inbox, a) == Some((n, b)) && Enabled(HalfOf(e, n), b)
    requires a.ReaderCas? || a.ReaderDone?
    ensures HalfOf(Multiplexer.Act(e, opens, inbox, a), n) == Do(HalfOf(e, n), b)
  {
  }

  lemma ReaderEndSteps(e: Endpoint, opens: nat, inbox: seq<Frame>, calm: bool, a: Action, n: nat, b: Act)
    requires EndpointInv(e, opens, calm) && WireInv(inbox, opens) && CanAct(e, opens, inbox, a) && FewOpens(opens, a)
    requires Target(e, opens, inbox, a) == Some((n, b)) && Enabled(HalfOf(e, n), b)
    requires IsReaderStep(a) && !a.ReaderCas? && !a.ReaderDone? && !a.Push? && !a.Discard?
    ensures HalfOf(Multiplexer.Act(e, opens, inbox, a), n) == Do(HalfOf(e, n), b)
  {
  }

  lemma PayloadSteps(e: Endpoint, opens: nat, inbox: seq<Frame>, calm: bool, a: Action, n: nat, b: Act)
    requires EndpointInv(e, opens, calm) && WireInv(inbox, opens) && CanAct(e, opens, inbox, a) && FewOpens(opens, a)
    requires Target(e, opens, inbox, a) == Some((n, b)) && Enabled(HalfOf(e, n), b)
    requires a.Push? || a.Discard?
    ensures HalfOf(Multiplexer.Act(e, opens, inbox, a), n) == Do(HalfOf(e, n), b)
  {
  }

  lemma SweepVisitSteps(e: Endpoint, opens: nat, inbox: seq<Frame>, calm: bool, a: Action, n: nat, b: Act)
    requires EndpointInv(e, opens, calm) && WireInv(inbox, opens) && CanAct(e, opens, inbox, a) && FewOpens(opens, a)
    requires Target(e, opens, inbox, a) == Some((n, b)) && Enabled(HalfOf(e, n), b)
    requires a.SweepVisit?
    ensures HalfOf(Multiplexer.Act(e, opens, inbox, a), n) == Do(HalfOf(e, n), b)
  {
  }

  lemma SweepEndSteps(e: Endpoint, opens: nat, inbox: seq<Frame>, calm: bool, a: Action, n: nat, b: Act)
    requires EndpointInv(e, opens, calm) && WireInv(inbox, opens) && CanAct(e, opens, inbox, a) && FewOpens(opens, a)
    requires Target(e, opens, inbox, a) == Some((n, b)) && Enabled(HalfOf(e, n), b)
    requires a.SweepDone? || a.SweepDelete?
    ensures HalfOf(Multiplexer.Act(e, opens, inbox, a), n) == Do(HalfOf(e, n), b)
  {
  }

  lemma OpenerSteps(e: Endpoint, opens: nat, inbox: seq<Frame>, calm: bool, a: Action, n: nat, b: Act)
    requires EndpointInv(e, opens, calm) && WireInv(inbox, opens) && CanAct(e, opens, inbox, a) && FewOpens(opens, a)
    requires Target(e, opens, inbox, a) == Some((n, b)) && Enabled(HalfOf(e, n), b)
    requires IsOpenerStep(a)
    ensures HalfOf(Multiplexer.Act(e, opens, inbox, a), n) == Do(HalfOf(e, n), b)
  {
  }

  lemma TargetSteps(e: Endpoint, opens: nat, inbox: seq<Frame>, calm: bool, a: Action, n: nat, b: Act)
    requires EndpointInv(e, opens, calm) && WireInv(inbox, opens) && CanAct(e, opens, inbox, a) && FewOpens(opens, a)
    requires Target(e, opens, inbox, a) == Some((n, b)) && Enabled(HalfOf(e, n), b)
    ensures HalfOf(Multiplexer.Act(e, opens, inbox, a), n) == Do(HalfOf(e, n), b)
  {
    if a.Receive? {
      ReceiveSteps(e, opens, inbox, calm, n, b.sig);
    } else if IsCallStep(a) {
      CallSteps(e, opens, inbox, calm, a, n, b);
    } else if a.Push? || a.Discard? {
      PayloadSteps(e, opens, inbox, calm, a, n, b);
    } else if a.ReaderCas? || a.ReaderDone? {
      ReaderShutSteps(e, opens, inbox, calm, a, n, b);
    } else if IsReaderStep(a) {
      ReaderEndSteps(e, opens, inbox, calm, a, n, b);
    } else if a.SweepVisit? {
      SweepVisitSteps(e, opens, inbox, calm, a, n, b);
    } else if IsSweepStep(a) {
      SweepEndSteps(e, opens, inbox, calm, a, n, b);
    } else {
      OpenerSteps(e, opens, inbox, calm, a, n, b);
    }
  }

  lemma CallLeavesOthers(e: Endpoint, opens: nat, inbox: seq<Frame>, calm: bool, a: Action, m: nat)
    requires EndpointInv(e, opens, calm) && CanAct(e, opens, inbox, a) && opens <= MAX_OPENS && IsCallStep(a)
    requires Target(e, opens, inbox, a).value.0 != m
    ensures HalfOf(Multiplexer.Act(e, opens, inbox, a), m) == HalfOf(e, m)
  {
    OthersKeepIds(e, opens, calm, Target(e, opens, inbox, a).value.0, m);
  }

  lemma ReaderLeavesOthers(e: Endpoint, opens: nat, inbox: seq<Frame>, calm: bool, a: Action, m: nat)
    requires EndpointInv(e, opens, calm) && CanAct(e, opens, inbox, a) && opens <= MAX_OPENS && IsReaderStep(a)
    requires var t := Target(e, opens, inbox, a); t.Some? ==> t.value.0 != m
    ensures HalfOf(Multiplexer.Act(e, opens, inbox, a), m) == HalfOf(e, m)
  {
    if a.ReaderRemove? {
      OthersKeepIds(e, opens, calm, e.reader.n, m);
    }
  }

  lemma SweepLeavesOthers(e: Endpoint, opens: nat, inbox: seq<Frame>, calm: bool, a: Action, m: nat)
    requires EndpointInv(e, opens, calm) && CanAct(e, opens, inbox, a) && opens <= MAX_OPENS && IsSweepStep(a)
    requires var t := Target(e, opens, inbox, a); t.Some? ==> t.value.0 != m
    ensures HalfOf(Multiplexer.Act(e, opens, inbox, a), m) == HalfOf(e, m)
  {
    if a.SweepDelete? {
      OthersKeepIds(e, opens, calm, e.lock.n, m);
    }
  }

  lemma FrameLeavesOthers(e: Endpoint, opens: nat, f: Frame, calm: bool, m: nat)
    requires EndpointInv(e, opens, calm) && opens <= MAX_OPENS && e.reader == Idle
    requires f.OnStream? ==> f.n < opens && f.n != m
    ensures HalfOf(Handle(e, f), m) == HalfOf(e, m)
  {
    if f.OnStream? {
      if e.Finds(f.n) {
        FoundStream(e, opens, calm, f.n);
      }
      OthersKeepIds(e, opens, calm, f.n, m);
    }
  }

  lemma OpenerLeavesOthers(e: Endpoint, opens: nat, inbox: seq<Frame>, calm: bool, a: Action, m: nat)
    requires EndpointInv(e, opens, calm) && CanAct(e, opens, inbox, a) && FewOpens(opens, a) && IsOpenerStep(a)
    requires var t := Target(e, opens, inbox, a); t.Some? ==> t.value.0 != m
    ensures HalfOf(Multiplexer.Act(e, opens, inbox, a), m) == HalfOf(e, m)
  {
    if a.Register? {
      if IdOf(opens) in e.table && e.table[IdOf(opens)] == m {
        IdsDistinct(opens, m);
      }
    } else if a.RemoveFailed? {
      OthersKeepIds(e, opens, calm, a.n, m);
    }
  }

  /** Another stream's id is not that of a stream in the table. */
  lemma OthersKeepIds(e: Endpoint, opens: nat, calm: bool, n: nat, m: nat)
    requires EndpointInv(e, opens, calm) && opens <= MAX_OPENS && n < opens && n != m
    ensures IdOf(m) in e.table && e.table[IdOf(m)] == m ==> IdOf(n) != IdOf(m)
  {
    if m < opens && IdOf(n) == IdOf(m) {
      IdsDistinct(n, m);
    }
  }

  lemma OthersStay(e: Endpoint, opens: nat, inbox: seq<Frame>, calm: bool, a: Action, m: nat)
    requires EndpointInv(e, opens, calm) && WireInv(inbox, opens) && CanAct(e, opens, inbox, a) && FewOpens(opens, a)
    requires var t := Target(e, opens, inbox, a); t.Some? ==> t.value.0 != m
    ensures HalfOf(Multiplexer.Act(e, opens, inbox, a), m) == HalfOf(e, m)
  {
    if a.Receive? {
      FrameLeavesOthers(e, opens, inbox[0], calm, m);
    } else if IsCallStep(a) {
      CallLeavesOthers(e, opens, inbox, calm, a, m);
    } else if IsOpenerStep(a) {
      OpenerLeavesOthers(e, opens, inbox, calm, a, m);
    } else if IsReaderStep(a) {
      ReaderLeavesOthers(e, opens, inbox, calm, a, m);
    } else {
      SweepLeavesOthers(e, opens, inbox, calm, a, m);
    }
  }

  lemma FilterSingle(f: Frame, n: nat)
    ensures Filter([f], n) == if f.OnStream? && f.n == n then [f.sig] else []
  {
    assert Filter([], n) == [];
  }

  lemma SendsOnlyTarget(e: Endpoint, opens: nat, inbox: seq<Frame>, a: Action, n: nat)
    requires CanAct(e, opens, inbox, a)
    ensures var t := Target(e, opens, inbox, a);
      Filter(Sends(a), n) == if t.Some? && t.value.0 == n then Emits(t.value.1) else []
  {
    if Sends(a) != [] {
      FilterSingle(Sends(a)[0], n);
    }
  }

  lemma ViewOfUpdate(s: System, x: Side, e: Endpoint, inbox: seq<Frame>, sent: seq<Frame>, opens: nat, calm: bool, n: nat)
    ensures View(s.With(x, e, inbox, s.Inbox(Peer(x)) + sent).(opens := opens, calm := calm), n)
         == View(s, n).With(x, HalfOf(e, n), Filter(inbox, n), View(s, n).Inbox(Peer(x)) + Filter(sent, n)).(calm := calm)
  {
    FilterAppend(s.Inbox(Peer(x)), sent, n);
  }

  lemma TargetCondition(s: System, x: Side, a: Action, n: nat, b: Act)
    requires SystemInv(s) && StepEnabled(s, x, a) && FewOpens(s.opens, a)
    requires Target(s.End(x), s.opens, s.Inbox(x), a) == Some((n, b))
    ensures ChannelEnabled(View(s, n), x, b)
    ensures b.Take? <==> a.Receive?
    ensures b.Take? ==> Filter(s.Inbox(x), n)[1..] == Filter(s.Inbox(x)[1..], n)
    ensures Fails(b) <==> Disturbs(a)
  {
    TargetEnabled(s.End(x), s.opens, s.Inbox(x), s.calm, a, n, b);
  }

  lemma StepOfView(s: System, x: Side, e: Endpoint, inbox: seq<Frame>, sent: seq<Frame>, opens: nat, calm: bool, n: nat, b: Act)
    requires ChannelEnabled(View(s, n), x, b) && HalfOf(e, n) == Do(HalfOf(s.End(x), n), b)
    requires Filter(inbox, n) == if b.Take? then View(s, n).Inbox(x)[1..] else View(s, n).Inbox(x)
    requires Filter(sent, n) == Emits(b) && calm == (s.calm && !Fails(b))
    ensures View(s.With(x, e, inbox, s.Inbox(Peer(x)) + sent).(opens := opens, calm := calm), n) == ChannelDo(View(s, n), x, b)
  {
    ViewOfUpdate(s, x, e, inbox, sent, opens, calm, n);
  }

  lemma TargetStepOfView(s: System, x: Side, a: Action, n: nat, b: Act)
    requires StepEnabled(s, x, a) && ChannelEnabled(View(s, n), x, b)
    requires HalfOf(Multiplexer.Act(s.End(x), s.opens, s.Inbox(x), a), n) == Do(HalfOf(s.End(x), n), b)
    requires b.Take? <==> a.Receive?
    requires b.Take? ==> Filter(s.Inbox(x), n)[1..] == Filter(s.Inbox(x)[1..], n)
    requires Filter(Sends(a), n) == Emits(b) && (Fails(b) <==> Disturbs(a))
    ensures View(StepTo(s, x, a), n) == ChannelDo(View(s, n), x, b)
  {
    StepOfView(s, x, Multiplexer.Act(s.End(x), s.opens, s.Inbox(x), a),
               if a.Receive? then s.Inbox(x)[1..] else s.Inbox(x), Sends(a),
               if a.Register? then s.opens + 1 else s.opens, s.calm && !Disturbs(a), n, b);
  }

  /** A step of the connection is a step of the channel of the stream it is about. */
  lemma TargetChannelSteps(s: System, x: Side, a: Action, n: nat, b: Act)
    requires SystemInv(s) && StepEnabled(s, x, a) && FewOpens(s.opens, a)
    requires Target(s.End(x), s.opens, s.Inbox(x), a) == Some((n, b))
    ensures ChannelEnabled(View(s, n), x, b) && View(StepTo(s, x, a), n) == ChannelDo(View(s, n), x, b)
  {
    TargetCondition(s, x, a, n, b);
    TargetSteps(s.End(x), s.opens, s.Inbox(x), s.calm, a, n, b);
    SendsOnlyTarget(s.End(x), s.opens, s.Inbox(x), a, n);
    TargetStepOfView(s, x, a, n, b);
  }

  lemma OtherInbox(s: System, x: Side, a: Action, m: nat)
    requires StepEnabled(s, x, a)
    requires var t := Target(s.End(x), s.opens, s.Inbox(x), a); t.Some? ==> t.value.0 != m
    ensures a.Receive? ==> Filter(s.Inbox(x)[1..], m) == Filter(s.Inbox(x), m)
  {
  }

  lemma ViewKept(s: System, x: Side, e: Endpoint, inbox: seq<Frame>, sent: seq<Frame>, opens: nat, calm: bool, m: nat)
    requires HalfOf(e, m) == HalfOf(s.End(x), m) && Filter(inbox, m) == Filter(s.Inbox(x), m) && Filter(sent, m) == []
    ensures View(s.With(x, e, inbox, s.Inbox(Peer(x)) + sent).(opens := opens, calm := calm), m) == View(s, m).(calm := calm)
  {
    ViewOfUpdate(s, x, e, inbox, sent, opens, calm, m);
  }

  /** ... and is invisible to every other stream, but for the loss of calm. */
  lemma OtherChannelsStay(s: System, x: Side, a: Action, m: nat)
    requires SystemInv(s) && StepEnabled(s, x, a) && FewOpens(s.opens, a)
    requires var t := Target(s.End(x), s.opens, s.Inbox(x), a); t.Some? ==> t.value.0 != m
    ensures View(StepTo(s, x, a), m) == View(s, m).(calm := StepTo(s, x, a).calm)
  {
    OthersStay(s.End(x), s.opens, s.Inbox(x), s.calm, a, m);
    SendsOnlyTarget(s.End(x), s.opens, s.Inbox(x), a, m);
    OtherInbox(s, x, a, m);
    ViewKept(s, x, Multiplexer.Act(s.End(x), s.opens, s.Inbox(x), a),
             if a.Receive? then s.Inbox(x)[1..] else s.Inbox(x), Sends(a),
             if a.Register? then s.opens + 1 else s.opens, s.calm && !Disturbs(a), m);
  }

  /** Refinement: one step of the shared connection is at most one step of each private channel. */
  lemma StepRefinesChannels(s: System, s': System, n: nat)
    requires SystemInv(s) && Step(s, s') && s'.opens <= MAX_OPENS
    ensures ChannelStep(View(s, n), View(s', n))
  {
    var x, a :| StepEnabled(s, x, a) && s' == StepTo(s, x, a);
    var t := Target(s.End(x), s.opens, s.Inbox(x), a);
    if t.Some? && t.value.0 == n {
      TargetChannelSteps(s, x, a, n, t.value.1);
    } else {
      OtherChannelsStay(s, x, a, n);
    }
  }
}
