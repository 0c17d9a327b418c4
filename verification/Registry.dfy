/**
 The server's route registry under any interleaving of its connection handlers.  A handler's
 critical sections (connect or replace, route sync, disconnect) are single steps, and the listener
 sync that must follow them is a separate, later step.
 */
module Registry {
  import opened Bytes
  import opened Ports

  datatype RouteInfo = RouteInfo(name: string, typ: string, localPort: int)

  /** Between frames; about to call syncTCPListeners after a route sync, or for the last time after
      the read loop ended; returned. */
  datatype Phase = Serving | OwesSync | OwesLastSync | Finished

  /** One named tunnel connection: its handler, and the entry it registered. */
  datatype Conn = Conn(machine: string, routes: seq<RouteInfo>, phase: Phase)

  /** `clients` maps a machine name to its current connection; connections are numbered as they come.
      `clean` tells whether every bind of the latest sync succeeded. */
  datatype State = State(clients: map<string, nat>, conns: seq<Conn>, listeners: Listeners, clean: bool) {
    predicate Has(m: string) {
      m in clients && clients[m] < |conns|
    }

    function RoutesOf(m: string): seq<RouteInfo> {
      if Has(m) then conns[clients[m]].routes else []
    }
  }

  const NEW_STATE := State(map[], [], map[], true)

  predicate Lists(routes: seq<RouteInfo>, name: string) {
    exists i :: 0 <= i < |routes| && routes[i].name == name
  }

  predicate Owns(s: State, m: string, name: string) {
    m in s.clients && Lists(s.RoutesOf(m), name)
  }

  /** What findOwnerLocked may answer, for some iteration order. */
  ghost predicate OwnerAnswer(s: State, name: string, answer: string) {
    Owns(s, answer, name) || (answer == "" && forall m :: !Owns(s, m, name))
  }

  /** The routes kept when `answers` are the owners found for the routes, one after the other. */
  function Accept(routes: seq<RouteInfo>, answers: seq<string>, machine: string): seq<RouteInfo>
    requires |routes| == |answers|
  {
    if routes == [] then []
    else
      (if answers[0] != "" && answers[0] != machine then [] else [routes[0]])
      + Accept(routes[1..], answers[1..], machine)
  }

  predicate IsTCP(r: RouteInfo) {
    r.typ == "tcp"
  }

  function TCPNames(routes: seq<RouteInfo>): set<string> {
    set i | 0 <= i < |routes| && IsTCP(routes[i]) :: routes[i].name
  }

  /** The names of the TCP routes of the registered clients. */
  function Wanted(s: State): set<string> {
    set m, name | m in s.clients && name in TCPNames(s.RoutesOf(m)) :: name
  }

  datatype Step =
    | Connect(machine: string)
    | RouteSync(c: nat, routes: seq<RouteInfo>, answers: seq<string>)
    | Disconnect(c: nat)
    | Sync(c: nat, order: seq<string>, bind: (string, int) -> bool)

  ghost predicate Enabled(s: State, st: Step) {
    match st
    case Connect(m) => m != ""
    case RouteSync(c, routes, answers) =>
      && c < |s.conns| && s.conns[c].phase == Serving && |routes| == |answers|
      && forall i :: 0 <= i < |routes| ==> OwnerAnswer(s, routes[i].name, answers[i])
    case Disconnect(c) => c < |s.conns| && s.conns[c].phase == Serving
    case Sync(c, order, _) =>
      c < |s.conns| && s.conns[c].phase in {OwesSync, OwesLastSync} && Visits(order, Wanted(s))
  }

  ghost function Do(s: State, st: Step, cfg: Config): State
    requires Enabled(s, st) && cfg.Valid()
  {
    match st
    case Connect(m) => s.(clients := s.clients[m := |s.conns|], conns := s.conns + [Conn(m, [], Serving)])
    case RouteSync(c, routes, answers) =>
      s.(conns := s.conns[c := s.conns[c].(routes := Accept(routes, answers, s.conns[c].machine), phase := OwesSync)])
    case Disconnect(c) =>
      var m := s.conns[c].machine;
      s.(clients := if m in s.clients && s.clients[m] == c then s.clients - {m} else s.clients,
         conns := s.conns[c := s.conns[c].(phase := OwesLastSync)])
    case Sync(c, order, bind) =>
      s.(listeners := Reconcile(s.listeners, Wanted(s), order, cfg, bind), clean := AllBind(bind),
         conns := s.conns[c := s.conns[c].(phase := if s.conns[c].phase == OwesSync then Serving else Finished)])
  }

  ghost predicate Next(s: State, s': State, cfg: Config)
    requires cfg.Valid()
  {
    exists st :: Enabled(s, st) && s' == Do(s, st, cfg)
  }

  // ----- the invariant

  predicate Current(s: State, c: nat)
    requires c < |s.conns|
  {
    s.conns[c].machine in s.clients && s.clients[s.conns[c].machine] == c
  }

  /** The handler still has a listener sync ahead of it: it is about to run one, or its connection
      was replaced and it has not finished. */
  predicate Owes(s: State, c: nat)
    requires c < |s.conns|
  {
    s.conns[c].phase in {OwesSync, OwesLastSync} || (s.conns[c].phase == Serving && !Current(s, c))
  }

  ghost predicate SomeoneOwes(s: State) {
    exists c :: 0 <= c < |s.conns| && Owes(s, c)
  }

  ghost predicate Exclusive(s: State) {
    forall name, a, b :: Owns(s, a, name) && Owns(s, b, name) ==> a == b
  }

  ghost predicate ClientsInv(s: State) {
    forall m :: m in s.clients ==>
      m != "" && s.clients[m] < |s.conns|
      && s.conns[s.clients[m]].machine == m && s.conns[s.clients[m]].phase in {Serving, OwesSync}
  }

  ghost predicate Reconciled(s: State, cfg: Config) {
    && s.listeners.Keys <= Wanted(s)
    && (s.clean ==> |s.listeners| == Min(|Wanted(s)|, cfg.Size()))
  }

  ghost predicate Inv(s: State, cfg: Config) {
    && ClientsInv(s)
    && Exclusive(s)
    && WellAllocated(s.listeners, cfg)
    && (SomeoneOwes(s) || Reconciled(s, cfg))
  }

  // ----- ownership

  lemma {:induction false} AcceptedFrom(routes: seq<RouteInfo>, answers: seq<string>, machine: string, name: string)
    returns (j: nat)
    requires |routes| == |answers| && Lists(Accept(routes, answers, machine), name)
    ensures j < |routes| && routes[j].name == name && answers[j] in {"", machine}
  {
    var rest := Accept(routes[1..], answers[1..], machine);
    var acc := Accept(routes, answers, machine);
    var k :| 0 <= k < |acc| && acc[k].name == name;
    if answers[0] in {"", machine} && k == 0 {
      j := 0;
    } else {
      assert rest[if answers[0] in {"", machine} then k - 1 else k].name == name;
      j := AcceptedFrom(routes[1..], answers[1..], machine, name);
      j := j + 1;
    }
  }

  lemma AcceptedAreFree(s: State, routes: seq<RouteInfo>, answers: seq<string>, machine: string, name: string)
    requires |routes| == |answers|
    requires forall i :: 0 <= i < |routes| ==> OwnerAnswer(s, routes[i].name, answers[i])
    requires Exclusive(s) && ClientsInv(s) && Lists(Accept(routes, answers, machine), name)
    ensures forall m :: Owns(s, m, name) ==> m == machine
  {
    var j := AcceptedFrom(routes, answers, machine, name);
    assert OwnerAnswer(s, routes[j].name, answers[j]);
  }

  /** Ownership after a step: unchanged, given up, or taken by the syncing machine from nobody. */
  lemma OwnersAfter(s: State, st: Step, cfg: Config, m: string, name: string)
    requires cfg.Valid() && Inv(s, cfg) && Enabled(s, st) && Owns(Do(s, st, cfg), m, name)
    ensures Owns(s, m, name) || (forall a :: Owns(s, a, name) ==> a == m)
    ensures !Owns(s, m, name) ==> st.RouteSync? && m == s.conns[st.c].machine
  {
    var s' := Do(s, st, cfg);
    match st {
      case Connect(n) =>
        assert s'.RoutesOf(m) == if m == n then [] else s.RoutesOf(m);
      case RouteSync(c, routes, answers) =>
        if s'.RoutesOf(m) != s.RoutesOf(m) {
          AcceptedAreFree(s, routes, answers, m, name);
        }
      case Disconnect(c) =>
        assert s'.RoutesOf(m) == s.RoutesOf(m);
      case Sync(c, _, _) =>
        assert s'.RoutesOf(m) == s.RoutesOf(m);
    }
  }

  lemma ExclusiveAfter(s: State, st: Step, cfg: Config)
    requires cfg.Valid() && Inv(s, cfg) && Enabled(s, st)
    ensures Exclusive(Do(s, st, cfg))
  {
    var s' := Do(s, st, cfg);
    forall name, a, b | Owns(s', a, name) && Owns(s', b, name)
      ensures a == b
    {
      OwnersAfter(s, st, cfg, a, name);
      OwnersAfter(s, st, cfg, b, name);
    }
  }

  /** First owner wins: a route never passes from one machine to another in one step. */
  lemma OwnershipNeverStolen(s: State, s': State, cfg: Config, a: string, b: string, name: string)
    requires cfg.Valid() && Inv(s, cfg) && Next(s, s', cfg) && Owns(s, a, name) && Owns(s', b, name)
    ensures a == b
  {
    var st :| Enabled(s, st) && s' == Do(s, st, cfg);
    OwnersAfter(s, st, cfg, b, name);
  }

  // ----- listeners

  lemma ClientsInvAfter(s: State, st: Step, cfg: Config)
    requires cfg.Valid() && Inv(s, cfg) && Enabled(s, st)
    ensures ClientsInv(Do(s, st, cfg))
  {
  }

  /** A step that changes the wanted routes leaves its own or the replaced handler owing a sync. */
  lemma ChangeIsOwed(s: State, st: Step, cfg: Config)
    requires cfg.Valid() && Inv(s, cfg) && Enabled(s, st) && !st.Sync?
    ensures SomeoneOwes(Do(s, st, cfg)) || Wanted(Do(s, st, cfg)) == Wanted(s)
  {
    var s' := Do(s, st, cfg);
    match st {
      case Connect(m) =>
        if m in s.clients {
          assert Owes(s', s.clients[m]);
        } else {
          assert s'.RoutesOf(m) == [];
          assert forall n :: n in s.clients ==> s'.RoutesOf(n) == s.RoutesOf(n);
        }
      case RouteSync(c, _, _) => assert Owes(s', c);
      case Disconnect(c) => assert Owes(s', c);
    }
  }

  lemma OthersStillOwe(s: State, st: Step, cfg: Config)
    requires cfg.Valid() && Inv(s, cfg) && Enabled(s, st) && !st.Sync? && SomeoneOwes(s)
    ensures SomeoneOwes(Do(s, st, cfg))
  {
    var s' := Do(s, st, cfg);
    var c :| 0 <= c < |s.conns| && Owes(s, c);
    assert Owes(s', if st.RouteSync? || st.Disconnect? then st.c else c);
  }

  /** Client m lists a TCP route of that name. */
  ghost predicate ListsTCP(s: State, m: string, name: string) {
    m in s.clients && exists i :: 0 <= i < |s.RoutesOf(m)| && s.RoutesOf(m)[i].name == name && s.RoutesOf(m)[i].typ == "tcp"
  }

  /** The wanted names are those of the TCP routes that registered clients list. */
  lemma WantedAreListed(s: State, name: string)
    ensures name in Wanted(s) <==> exists m :: ListsTCP(s, m, name)
  {
    if name in Wanted(s) {
      var m :| m in s.clients && name in TCPNames(s.RoutesOf(m));
      assert ListsTCP(s, m, name);
    }
    if m :| ListsTCP(s, m, name) {
      assert name in TCPNames(s.RoutesOf(m));
    }
  }

  /** A listener sync leaves the register as it is and brings the listeners in line with it, as far as the binds
      succeed: a new listener has a port that could be bound, and a listed TCP route is without a listener only
      if all ports are held or one could not be bound for it. */
  lemma SyncReconciles(s: State, st: Step, cfg: Config)
    requires cfg.Valid() && Inv(s, cfg) && Enabled(s, st) && st.Sync?
    ensures WellAllocated(Do(s, st, cfg).listeners, cfg) && Reconciled(Do(s, st, cfg), cfg)
    ensures var s', ls := Do(s, st, cfg), Do(s, st, cfg).listeners;
      && s'.clients == s.clients && (forall m :: s'.RoutesOf(m) == s.RoutesOf(m))
      && (forall n :: n in ls ==> if n in s.listeners then ls[n] == s.listeners[n] else st.bind(n, ls[n]))
      && (forall m, n :: ListsTCP(s, m, n) && n !in ls ==> |ls| == cfg.Size() || BindFails(n, cfg, st.bind))
  {
    forall m, n | ListsTCP(s, m, n)
      ensures n in Wanted(s)
    {
      WantedAreListed(s, n);
    }
    var s' := Do(s, st, cfg);
    assert forall m :: s'.RoutesOf(m) == s.RoutesOf(m);
    assert Wanted(s') == Wanted(s);
    ReconcileCorrect(s.listeners, Wanted(s), st.order, cfg, st.bind);
  }

  lemma InvStep(s: State, s': State, cfg: Config)
    requires cfg.Valid() && Inv(s, cfg) && Next(s, s', cfg)
    ensures Inv(s', cfg)
  {
    var st :| Enabled(s, st) && s' == Do(s, st, cfg);
    ClientsInvAfter(s, st, cfg);
    ExclusiveAfter(s, st, cfg);
    if st.Sync? {
      SyncReconciles(s, st, cfg);
    } else if SomeoneOwes(s) {
      OthersStillOwe(s, st, cfg);
    } else {
      ChangeIsOwed(s, st, cfg);
    }
  }

  // ----- what each critical section leaves

  lemma {:induction false} AcceptOneMore(routes: seq<RouteInfo>, answers: seq<string>,
                                         r: RouteInfo, answer: string, machine: string)
    requires |routes| == |answers|
    ensures Accept(routes + [r], answers + [answer], machine)
         == Accept(routes, answers, machine) + if answer != "" && answer != machine then [] else [r]
  {
    if routes == [] {
      assert routes + [r] == [r] && answers + [answer] == [answer];
      assert Accept([], [], machine) == [];
    } else {
      assert (routes + [r])[1..] == routes[1..] + [r] && (answers + [answer])[1..] == answers[1..] + [answer];
      AcceptOneMore(routes[1..], answers[1..], r, answer, machine);
      var head := if answers[0] != "" && answers[0] != machine then [] else [routes[0]];
      var last := if answer != "" && answer != machine then [] else [r];
      ConcatAssociates(head, Accept(routes[1..], answers[1..], machine), last);
    }
  }

  /** `some` is what stands at the places `kept` of `routes`, in this order. */
  ghost predicate Selects(kept: seq<nat>, routes: seq<RouteInfo>, some: seq<RouteInfo>) {
    && |some| == |kept|
    && (forall i :: 0 <= i < |kept| ==> kept[i] < |routes| && some[i] == routes[kept[i]])
    && (forall i, j :: 0 <= i < j < |kept| ==> kept[i] < kept[j])
  }

  lemma SelectsOneMore(kept: seq<nat>, routes: seq<RouteInfo>, some: seq<RouteInfo>, r: RouteInfo)
    requires Selects(kept, routes, some)
    ensures Selects(kept, routes + [r], some) && Selects(kept + [|routes|], routes + [r], some + [r])
    ensures |routes| !in kept
  {
  }

  lemma {:induction false} AcceptSelects(routes: seq<RouteInfo>, answers: seq<string>, machine: string) returns (kept: seq<nat>)
    requires |routes| == |answers|
    ensures Selects(kept, routes, Accept(routes, answers, machine))
    ensures forall k :: 0 <= k < |routes| ==> (k in kept <==> answers[k] in {"", machine})
    decreases |routes|
  {
    if routes == [] {
      kept := [];
    } else {
      hide Accept, Selects;
      var n := |routes| - 1;
      kept := AcceptSelects(routes[..n], answers[..n], machine);
      assert routes == routes[..n] + [routes[n]] && answers == answers[..n] + [answers[n]];
      AcceptOneMore(routes[..n], answers[..n], routes[n], answers[n], machine);
      var some := Accept(routes[..n], answers[..n], machine);
      SelectsOneMore(kept, routes[..n], some, routes[n]);
      assert some + [] == some;
      if answers[n] in {"", machine} {
        kept := kept + [n];
      }
    }
  }

  /** A machine other than m owns the route. */
  ghost predicate OwnedByOther(s: State, m: string, name: string) {
    exists a :: a != m && Owns(s, a, name)
  }

  lemma AnswerIsOwnOrNone(s: State, name: string, answer: string, m: string)
    requires Exclusive(s) && ClientsInv(s) && OwnerAnswer(s, name, answer)
    ensures answer in {"", m} <==> !OwnedByOther(s, m, name)
  {
    if OwnedByOther(s, m, name) {
      var a :| a != m && Owns(s, a, name);
      assert answer == a;
    }
  }

  /** A route sync leaves the connection with exactly the routes sent that no other machine owned, in the
      order sent and with their repetitions, and changes nothing else but that it owes a listener sync. */
  lemma RouteSyncRegisters(s: State, cfg: Config, c: nat, routes: seq<RouteInfo>, answers: seq<string>)
    returns (kept: seq<nat>)
    requires cfg.Valid() && Inv(s, cfg) && Enabled(s, RouteSync(c, routes, answers))
    ensures var s' := Do(s, RouteSync(c, routes, answers), cfg);
      && |s'.conns| == |s.conns| && s'.conns[c].machine == s.conns[c].machine && s'.conns[c].phase == OwesSync
      && Selects(kept, routes, s'.conns[c].routes)
      && (forall k :: 0 <= k < |routes| ==> (k in kept <==> !OwnedByOther(s, s.conns[c].machine, routes[k].name)))
      && (forall d :: 0 <= d < |s.conns| && d != c ==> s'.conns[d] == s.conns[d])
      && s'.clients == s.clients && s'.listeners == s.listeners
  {
    kept := AcceptSelects(routes, answers, s.conns[c].machine);
    forall k | 0 <= k < |routes|
      ensures k in kept <==> !OwnedByOther(s, s.conns[c].machine, routes[k].name)
    {
      AnswerIsOwnOrNone(s, routes[k].name, answers[k], s.conns[c].machine);
    }
  }

  /** If the connection is its machine's current one, the machine owns those routes from then on, and no
      other routes. */
  lemma SyncedRoutesAreOwned(s: State, cfg: Config, c: nat, routes: seq<RouteInfo>, answers: seq<string>, name: string)
    requires cfg.Valid() && Inv(s, cfg) && Enabled(s, RouteSync(c, routes, answers)) && Current(s, c)
    ensures Owns(Do(s, RouteSync(c, routes, answers), cfg), s.conns[c].machine, name) <==>
            !OwnedByOther(s, s.conns[c].machine, name) && exists k :: 0 <= k < |routes| && routes[k].name == name
  {
    var m, s' := s.conns[c].machine, Do(s, RouteSync(c, routes, answers), cfg);
    var kept := RouteSyncRegisters(s, cfg, c, routes, answers);
    var now := s'.conns[c].routes;
    assert s'.RoutesOf(m) == now;
    if Owns(s', m, name) {
      var i :| 0 <= i < |now| && now[i].name == name;
      assert kept[i] in kept && routes[kept[i]].name == name;
    }
    if k :| 0 <= k < |routes| && routes[k].name == name && !OwnedByOther(s, m, name) {
      assert k in kept;
      var i :| 0 <= i < |kept| && kept[i] == k;
      assert now[i].name == name;
    }
  }

  /** A new connection is its machine's current one and lists no route, whatever the replaced one listed; the
      other machines' routes and the listeners stay. */
  lemma ConnectStartsEmpty(s: State, cfg: Config, m: string)
    requires cfg.Valid() && Inv(s, cfg) && m != ""
    ensures var s' := Do(s, Connect(m), cfg);
      && |s'.conns| == |s.conns| + 1 && s'.conns[|s.conns|].machine == m && Current(s', |s.conns|)
      && (forall name :: !Owns(s', m, name))
      && (forall a :: a != m ==> (a in s'.clients <==> a in s.clients) && s'.RoutesOf(a) == s.RoutesOf(a))
      && s'.listeners == s.listeners
  {
    assert Do(s, Connect(m), cfg).RoutesOf(m) == [];
  }

  /** A disconnect of the current connection takes its machine off the register; that of a replaced one leaves
      the register as it is. */
  lemma DisconnectUnregisters(s: State, cfg: Config, c: nat)
    requires cfg.Valid() && Inv(s, cfg) && Enabled(s, Disconnect(c))
    ensures var s', m := Do(s, Disconnect(c), cfg), s.conns[c].machine;
      && (m in s'.clients <==> m in s.clients && !Current(s, c))
      && (forall a :: a != m || !Current(s, c) ==>
            (a in s'.clients <==> a in s.clients) && s'.RoutesOf(a) == s.RoutesOf(a))
      && (forall name :: Current(s, c) ==> !Owns(s', m, name))
      && s'.listeners == s.listeners
  {
  }

  /** The routes of a connection change by its own route syncs only. */
  lemma RoutesChangeBySync(s: State, st: Step, cfg: Config, c: nat)
    requires cfg.Valid() && Enabled(s, st) && c < |s.conns|
    ensures c < |Do(s, st, cfg).conns| && Do(s, st, cfg).conns[c].machine == s.conns[c].machine
    ensures Do(s, st, cfg).conns[c].routes != s.conns[c].routes ==> st.RouteSync? && st.c == c
  {
  }

  // ----- runs

  ghost predicate Run(r: seq<State>, cfg: Config)
    requires cfg.Valid()
  {
    r != [] && r[0] == NEW_STATE && forall i :: 0 <= i < |r| - 1 ==> Next(r[i], r[i + 1], cfg)
  }

  lemma {:induction false} RunInvariant(r: seq<State>, cfg: Config, i: nat)
    requires cfg.Valid() && Run(r, cfg) && i < |r|
    ensures Inv(r[i], cfg)
  {
    if i == 0 {
      assert Wanted(NEW_STATE) == {};
    } else {
      assert Next(r[i - 1], r[i - 1 + 1], cfg);
      RunInvariant(r, cfg, i - 1);
      InvStep(r[i - 1], r[i], cfg);
    }
  }

  /** In every reachable state where no handler owes a sync, each listener serves a TCP route of a
      registered client, on a usable port of its own; and if the latest sync could bind all its
      ports there are as many listeners as routes and ports allow. */
  lemma ListenersReconciled(r: seq<State>, cfg: Config, i: nat)
    requires cfg.Valid() && Run(r, cfg) && i < |r| && !SomeoneOwes(r[i])
    ensures forall name :: name in r[i].listeners ==> exists m :: ListsTCP(r[i], m, name)
    ensures WellAllocated(r[i].listeners, cfg)
    ensures r[i].clean ==>
      forall m, name :: ListsTCP(r[i], m, name) ==> name in r[i].listeners || |r[i].listeners| == cfg.Size()
    ensures r[i].clean ==> |r[i].listeners| == Min(|Wanted(r[i])|, cfg.Size())
  {
    RunInvariant(r, cfg, i);
    forall name | name in r[i].listeners
      ensures exists m :: ListsTCP(r[i], m, name)
    {
      WantedAreListed(r[i], name);
    }
    forall m, name | r[i].clean && ListsTCP(r[i], m, name) && name !in r[i].listeners
      ensures |r[i].listeners| == cfg.Size()
    {
      WantedAreListed(r[i], name);
      SubsetSize(r[i].listeners.Keys, Wanted(r[i]) - {name});
    }
  }

  /** In every reachable state a route name has at most one owner, whatever findOwnerLocked's order. */
  lemma ExclusiveOwnership(r: seq<State>, cfg: Config, i: nat, name: string, x: string, y: string)
    requires cfg.Valid() && Run(r, cfg) && i < |r|
    requires OwnerAnswer(r[i], name, x) && OwnerAnswer(r[i], name, y)
    ensures x == y
    ensures Owns(r[i], x, name) ==> x != ""
  {
    RunInvariant(r, cfg, i);
  }

  /** In every reachable state no two registered clients list the same route name. */
  lemma NoSharedRoute(r: seq<State>, cfg: Config, i: nat, a: string, j: nat, b: string, k: nat)
    requires cfg.Valid() && Run(r, cfg) && i < |r| && a in r[i].clients && b in r[i].clients
    requires j < |r[i].RoutesOf(a)| && k < |r[i].RoutesOf(b)| && r[i].RoutesOf(a)[j].name == r[i].RoutesOf(b)[k].name
    ensures a == b
  {
    RunInvariant(r, cfg, i);
    assert Owns(r[i], a, r[i].RoutesOf(a)[j].name) && Owns(r[i], b, r[i].RoutesOf(a)[j].name);
  }

  ghost predicate Unowned(s: State, name: string) {
    forall m :: !Owns(s, m, name)
  }

  ghost predicate OwnedOnlyBy(s: State, b: string, name: string) {
    Owns(s, b, name) && forall m :: Owns(s, m, name) ==> m == b
  }

  lemma OwnerBefore(s: State, s': State, cfg: Config, b: string, name: string)
    requires cfg.Valid() && Inv(s, cfg) && Next(s, s', cfg) && Owns(s', b, name)
    ensures Unowned(s, name) || OwnedOnlyBy(s, b, name)
  {
    forall m | Owns(s, m, name)
      ensures m == b
    {
      OwnershipNeverStolen(s, s', cfg, m, b, name);
    }
  }

  lemma OwnerBeforeInRun(r: seq<State>, cfg: Config, j: nat, b: string, name: string)
    requires cfg.Valid() && Run(r, cfg) && j + 1 < |r| && Owns(r[j + 1], b, name)
    ensures Unowned(r[j], name) || OwnedOnlyBy(r[j], b, name)
  {
    RunInvariant(r, cfg, j);
    assert Next(r[j], r[j + 1], cfg);
    OwnerBefore(r[j], r[j + 1], cfg, b, name);
  }

  /** First owner wins over whole runs: between two states in which a route has different owners there is
      one in which it has none. */
  lemma {:induction false} FreeBetweenOwners(r: seq<State>, cfg: Config, i: nat, j: nat,
                                             a: string, b: string, name: string)
    requires cfg.Valid() && Run(r, cfg) && i < j < |r|
    requires Owns(r[i], a, name) && Owns(r[j], b, name) && a != b
    ensures exists k :: i < k < j && Unowned(r[k], name)
    decreases j
  {
    hide Inv, Next, Owns;
    OwnerBeforeInRun(r, cfg, j - 1, b, name);
    if !Unowned(r[j - 1], name) {
      FreeBetweenOwners(r, cfg, i, j - 1, a, b, name);
    }
  }

  /** A late route sync or disconnect of a replaced connection changes no live entry and no route. */
  lemma StaleHandlerIsHarmless(s: State, st: Step, cfg: Config, m: string)
    requires cfg.Valid() && Inv(s, cfg) && Enabled(s, st) && (st.RouteSync? || st.Disconnect?) && !Current(s, st.c)
    ensures Do(s, st, cfg).clients == s.clients && Do(s, st, cfg).RoutesOf(m) == s.RoutesOf(m)
    ensures Do(s, st, cfg).listeners == s.listeners
  {
  }

  /** What a sync accepts does not depend on the order in which owners are searched. */
  lemma {:induction false} AcceptIsDetermined(s: State, s': State, routes: seq<RouteInfo>,
                                              a: seq<string>, b: seq<string>, machine: string)
    requires |routes| == |a| == |b| && Exclusive(s) && Exclusive(s') && ClientsInv(s) && ClientsInv(s')
    requires forall i :: 0 <= i < |routes| ==> OwnerAnswer(s, routes[i].name, a[i]) && OwnerAnswer(s', routes[i].name, b[i])
    requires forall m, name :: m != machine ==> (Owns(s, m, name) <==> Owns(s', m, name))
    ensures Accept(routes, a, machine) == Accept(routes, b, machine)
  {
    if routes != [] {
      AcceptIsDetermined(s, s', routes[1..], a[1..], b[1..], machine);
      assert OwnerAnswer(s, routes[0].name, a[0]) && OwnerAnswer(s', routes[0].name, b[0]);
    }
  }

  /** Resending a route sync, with only this handler's own listener sync in between, changes nothing. */
  lemma ResendIsIdempotent(s: State, cfg: Config, c: nat, routes: seq<RouteInfo>, a: seq<string>, b: seq<string>,
                           order: seq<string>, bind: (string, int) -> bool)
    requires cfg.Valid() && Inv(s, cfg) && Enabled(s, RouteSync(c, routes, a))
    requires Enabled(Do(s, RouteSync(c, routes, a), cfg), Sync(c, order, bind))
    requires Enabled(Do(Do(s, RouteSync(c, routes, a), cfg), Sync(c, order, bind), cfg), RouteSync(c, routes, b))
    ensures var s1 := Do(s, RouteSync(c, routes, a), cfg); var s2 := Do(s1, Sync(c, order, bind), cfg);
      var s3 := Do(s2, RouteSync(c, routes, b), cfg);
      s3.clients == s1.clients && s3.conns == s1.conns
  {
    var s1 := Do(s, RouteSync(c, routes, a), cfg);
    var s2 := Do(s1, Sync(c, order, bind), cfg);
    assert Next(s, s1, cfg) && Next(s1, s2, cfg);
    InvStep(s, s1, cfg);
    InvStep(s1, s2, cfg);
    forall m, name | m != s.conns[c].machine
      ensures Owns(s, m, name) <==> Owns(s2, m, name)
    {
      assert s2.RoutesOf(m) == s.RoutesOf(m);
    }
    AcceptIsDetermined(s, s2, routes, a, b, s.conns[c].machine);
  }

  /** A listener that survives a step keeps its port. */
  lemma SurvivorKeepsPort(s: State, s': State, cfg: Config, name: string)
    requires cfg.Valid() && Inv(s, cfg) && Next(s, s', cfg) && name in s.listeners && name in s'.listeners
    ensures s'.listeners[name] == s.listeners[name]
  {
    var st :| Enabled(s, st) && s' == Do(s, st, cfg);
    if st.Sync? {
      ReconcileCorrect(s.listeners, Wanted(s), st.order, cfg, st.bind);
    }
  }

  // ----- owed syncs can be paid

  /** A handler that owes a sync takes its next step: its listener sync, or the disconnect of its replaced
      connection. `bind` says which binds succeed. */
  ghost predicate OwnStep(s: State, s': State, cfg: Config, bind: (string, int) -> bool)
    requires cfg.Valid()
  {
    exists st :: Enabled(s, st) && s' == Do(s, st, cfg)
                 && (st.Disconnect? || (st.Sync? && st.bind == bind)) && st.c < |s.conns| && Owes(s, st.c)
  }

  /** k such steps lead from s to s'. */
  ghost predicate Leads(s: State, k: nat, s': State, cfg: Config, bind: (string, int) -> bool)
    requires cfg.Valid()
    decreases k
  {
    if k == 0 then s' == s else exists t :: OwnStep(s, t, cfg, bind) && Leads(t, k - 1, s', cfg, bind)
  }

  lemma {:induction false} LeadsOn(s: State, k: nat, t: State, m: nat, u: State, cfg: Config, bind: (string, int) -> bool)
    requires cfg.Valid() && Leads(s, k, t, cfg, bind) && Leads(t, m, u, cfg, bind)
    ensures Leads(s, k + m, u, cfg, bind)
    decreases k
  {
    hide OwnStep;
    if k > 0 {
      var s1 :| OwnStep(s, s1, cfg, bind) && Leads(s1, k - 1, t, cfg, bind);
      LeadsOn(s1, k - 1, t, m, u, cfg, bind);
    }
  }

  lemma LeadsOnce(s: State, s': State, cfg: Config, bind: (string, int) -> bool)
    requires cfg.Valid() && OwnStep(s, s', cfg, bind)
    ensures Leads(s, 1, s', cfg, bind)
  {
    hide OwnStep;
    assert Leads(s', 0, s', cfg, bind);
  }

  lemma {:induction false} OrderOf(names: set<string>) returns (order: seq<string>)
    ensures Visits(order, names)
    decreases |names|
  {
    if names == {} {
      order := [];
    } else {
      var name :| name in names;
      var rest := OrderOf(names - {name});
      order := [name] + rest;
      assert names == (names - {name}) + {name};
    }
  }

  /** The other handlers are where they were, and the same clients are registered. */
  ghost predicate OnlyOf(s: State, c: nat, s': State) {
    && s'.clients == s.clients && |s'.conns| == |s.conns|
    && forall d :: 0 <= d < |s.conns| && d != c ==> s'.conns[d] == s.conns[d]
  }

  lemma PaySync(s: State, c: nat, cfg: Config, bind: (string, int) -> bool) returns (s': State)
    requires cfg.Valid() && Inv(s, cfg) && c < |s.conns| && s.conns[c].phase in {OwesSync, OwesLastSync}
    ensures Inv(s', cfg) && OwnStep(s, s', cfg, bind) && OnlyOf(s, c, s') && s'.clean == AllBind(bind)
    ensures s'.conns[c].phase == if s.conns[c].phase == OwesSync then Serving else Finished
    ensures s'.conns[c].machine == s.conns[c].machine
  {
    var order := OrderOf(Wanted(s));
    var st := Sync(c, order, bind);
    s' := Do(s, st, cfg);
    assert Next(s, s', cfg);
    InvStep(s, s', cfg);
  }

  lemma PayDisconnect(s: State, c: nat, cfg: Config, bind: (string, int) -> bool) returns (s': State)
    requires cfg.Valid() && Inv(s, cfg) && c < |s.conns| && s.conns[c].phase == Serving && !Current(s, c)
    ensures Inv(s', cfg) && OwnStep(s, s', cfg, bind) && OnlyOf(s, c, s') && s'.conns[c].phase == OwesLastSync
  {
    var st := Disconnect(c);
    s' := Do(s, st, cfg);
    assert Next(s, s', cfg);
    InvStep(s, s', cfg);
  }

  /** A handler whose connection is served by nobody else's entry any more ends. */
  lemma PayLast(s: State, c: nat, cfg: Config, bind: (string, int) -> bool) returns (s': State, k: nat)
    requires cfg.Valid() && Inv(s, cfg) && c < |s.conns| && s.conns[c].phase != OwesSync && Owes(s, c)
    ensures Inv(s', cfg) && Leads(s, k, s', cfg, bind) && k <= 2 && OnlyOf(s, c, s') && !Owes(s', c)
    ensures s'.clean == AllBind(bind)
  {
    hide Inv, OwnStep, Leads, AllBind;
    s', k := s, 0;
    if s.conns[c].phase == Serving {
      s' := PayDisconnect(s, c, cfg, bind);
      LeadsOnce(s, s', cfg, bind);
      k := 1;
    }
    var t := PaySync(s', c, cfg, bind);
    LeadsOnce(s', t, cfg, bind);
    if k == 1 {
      LeadsOn(s, 1, s', 1, t, cfg, bind);
    }
    s', k := t, k + 1;
  }

  /** One handler pays what it owes: at most a sync, the disconnect of a replaced connection and the last sync. */
  lemma PayAll(s: State, c: nat, cfg: Config, bind: (string, int) -> bool) returns (s': State, k: nat)
    requires cfg.Valid() && Inv(s, cfg) && c < |s.conns| && Owes(s, c)
    ensures Inv(s', cfg) && Leads(s, k, s', cfg, bind) && k <= 3 && OnlyOf(s, c, s') && !Owes(s', c)
    ensures s'.clean == AllBind(bind)
  {
    hide Inv, OwnStep, Leads, AllBind;
    if s.conns[c].phase != OwesSync {
      s', k := PayLast(s, c, cfg, bind);
    } else {
      var t := PaySync(s, c, cfg, bind);
      LeadsOnce(s, t, cfg, bind);
      s', k := t, 1;
      if Owes(t, c) {
        var m;
        s', m := PayLast(t, c, cfg, bind);
        LeadsOn(s, 1, t, m, s', cfg, bind);
        k := 1 + m;
      }
    }
  }

  /** The handlers from n on, and what they owe, are as before. */
  ghost predicate SameFrom(s: State, n: nat, s': State) {
    && s'.clients == s.clients && |s'.conns| == |s.conns|
    && forall d :: n <= d < |s.conns| ==> s'.conns[d] == s.conns[d]
  }

  ghost predicate OneOwesBelow(s: State, n: nat)
    requires n <= |s.conns|
  {
    exists c :: 0 <= c < n && Owes(s, c)
  }

  lemma OnlyOfKeeps(s: State, n: nat, c: nat, t: State, s': State)
    requires c < n <= |s.conns| == |t.conns| && SameFrom(s, c, t) && OnlyOf(t, c, s')
    ensures SameFrom(s, c + 1, s') && (c + 1 <= n ==> Owes(t, c) == Owes(s, c))
    ensures !OneOwesBelow(t, c) && !Owes(s', c) ==> !OneOwesBelow(s', c + 1)
  {
    if OneOwesBelow(s', c + 1) {
      var d :| 0 <= d < c + 1 && Owes(s', d);
      if d != c {
        assert Owes(t, d);
      }
    }
  }

  /** The first n handlers pay. */
  lemma {:induction false} PayFirst(s: State, n: nat, cfg: Config, bind: (string, int) -> bool) returns (s': State, k: nat)
    requires cfg.Valid() && Inv(s, cfg) && n <= |s.conns|
    ensures Inv(s', cfg) && Leads(s, k, s', cfg, bind) && k <= 3 * n
    ensures SameFrom(s, n, s') && !OneOwesBelow(s', n)
    ensures if OneOwesBelow(s, n) then s'.clean == AllBind(bind) else s' == s
    decreases n
  {
    hide Inv, OwnStep, AllBind, Owes;
    if n == 0 {
      s', k := s, 0;
    } else {
      var t, m := PayFirst(s, n - 1, cfg, bind);
      s', k := t, m;
      if Owes(t, n - 1) {
        var j;
        s', j := PayAll(t, n - 1, cfg, bind);
        LeadsOn(s, m, t, j, s', cfg, bind);
        k := m + j;
      }
      OnlyOfKeeps(s, n, n - 1, t, s');
    }
  }

  /** From every reachable state the handlers that owe a sync can pay, by at most three steps of their own each,
      whatever binds fail; then every listener serves a registered route, and if there was a sync to pay and
      every bind succeeded there are as many listeners as routes and ports allow. */
  lemma OwedSyncsCanBePaid(r: seq<State>, cfg: Config, i: nat, bind: (string, int) -> bool)
    requires cfg.Valid() && Run(r, cfg) && i < |r|
    ensures exists k: nat, s' :: k <= 3 * |r[i].conns| && Leads(r[i], k, s', cfg, bind)
              && !SomeoneOwes(s') && s'.clients == r[i].clients && s'.listeners.Keys <= Wanted(s')
              && (SomeoneOwes(r[i]) && AllBind(bind) ==> |s'.listeners| == Min(|Wanted(s')|, cfg.Size()))
  {
    RunInvariant(r, cfg, i);
    var s', k := PayFirst(r[i], |r[i].conns|, cfg, bind);
    assert Reconciled(s', cfg) by {
      assert !SomeoneOwes(s');
    }
    assert SomeoneOwes(r[i]) ==> OneOwesBelow(r[i], |r[i].conns|);
  }
}
