/**
 The code of the server's registry: each method is one of the critical sections of `handleTunnel`
 or `syncTCPListeners`, proved to take the `Registry` state through the step of that name.  Range
 loops over maps take the keys in any order.
 */
module Server {
  import opened Bytes
  import opened Ports
  import opened Registry

  /** `rt` is the first of the routes that has this name. */
  ghost predicate ListsFirst(routes: seq<RouteInfo>, name: string, rt: RouteInfo) {
    exists i :: 0 <= i < |routes| && routes[i] == rt && rt.name == name && forall j :: 0 <= j < i ==> routes[j].name != name
  }

  /** What findRoute may answer: the first entry of that name at an owner, with its connection. */
  ghost predicate RouteAnswer(s: State, name: string, answer: Option<(RouteInfo, string, nat)>) {
    match answer
    case None => forall m, i :: m in s.clients && 0 <= i < |s.RoutesOf(m)| ==> s.RoutesOf(m)[i].name != name
    case Some((rt, m, conn)) => m in s.clients && s.clients[m] == conn && ListsFirst(s.RoutesOf(m), name, rt)
  }

  /** findRoute's answer does not depend on the iteration order, in any state with exclusive owners. */
  lemma RouteAnswerUnique(s: State, name: string, x: Option<(RouteInfo, string, nat)>, y: Option<(RouteInfo, string, nat)>)
    requires Exclusive(s) && RouteAnswer(s, name, x) && RouteAnswer(s, name, y)
    ensures x == y
  {
    if x.Some? && y.Some? {
      assert Owns(s, x.value.1, name) && Owns(s, y.value.1, name);
    }
  }

  /** After a route sync of a machine's current connection every route it sent that no other machine owned is
      found, there and nowhere else: the answer is the first that it sent of that name. */
  lemma FoundAfterSync(s: State, cfg: Config, c: nat, routes: seq<RouteInfo>, answers: seq<string>, k: nat,
                       answer: Option<(RouteInfo, string, nat)>)
    requires cfg.Valid() && Inv(s, cfg) && Enabled(s, RouteSync(c, routes, answers)) && Current(s, c)
    requires k < |routes| && !OwnedByOther(s, s.conns[c].machine, routes[k].name)
    requires RouteAnswer(Do(s, RouteSync(c, routes, answers), cfg), routes[k].name, answer)
    ensures answer.Some? && answer.value.1 == s.conns[c].machine && answer.value.2 == c
    ensures ListsFirst(routes, routes[k].name, answer.value.0)
  {
    var s', m, name := Do(s, RouteSync(c, routes, answers), cfg), s.conns[c].machine, routes[k].name;
    hide Do, Enabled, Inv;
    SyncedRoutesAreOwned(s, cfg, c, routes, answers, name);
    assert Owns(s', m, name);
    AnsweredByOwner(s', cfg, m, name, answer) by {
      assert Next(s, s', cfg);
      InvStep(s, s', cfg);
    }
    var kept := RouteSyncRegisters(s, cfg, c, routes, answers);
    FirstKept(kept, routes, s'.conns[c].routes, name, answer.value.0) by {
      assert forall j :: 0 <= j < |routes| && routes[j].name == name ==> j in kept;
    }
  }

  lemma AnsweredByOwner(s: State, cfg: Config, m: string, name: string, answer: Option<(RouteInfo, string, nat)>)
    requires cfg.Valid() && Inv(s, cfg) && Owns(s, m, name) && RouteAnswer(s, name, answer)
    ensures answer.Some? && answer.value.1 == m && answer.value.2 == s.clients[m]
    ensures ListsFirst(s.RoutesOf(m), name, answer.value.0)
  {
    if answer.Some? {
      assert Owns(s, answer.value.1, name);
    }
  }

  /** If all routes of that name are kept, the first of them is the first of all. */
  lemma FirstKept(kept: seq<nat>, routes: seq<RouteInfo>, some: seq<RouteInfo>, name: string, rt: RouteInfo)
    requires Selects(kept, routes, some) && ListsFirst(some, name, rt)
    requires forall j :: 0 <= j < |routes| && routes[j].name == name ==> j in kept
    ensures ListsFirst(routes, name, rt)
  {
    var i :| 0 <= i < |some| && some[i] == rt && rt.name == name && forall j :: 0 <= j < i ==> some[j].name != name;
    forall j | 0 <= j < kept[i]
      ensures routes[j].name != name
    {
      assert j in kept ==> exists h :: 0 <= h < i && kept[h] == j && some[h] == routes[j];
    }
    assert routes[kept[i]] == rt;
  }

  /** The same about the function that the code computes. */
  lemma KeptBySync(s: State, cfg: Config, c: nat, routes: seq<RouteInfo>, answers: seq<string>) returns (kept: seq<nat>)
    requires cfg.Valid() && Enabled(s, RouteSync(c, routes, answers))
    ensures Inv(s, cfg) ==> Selects(kept, routes, Accept(routes, answers, s.conns[c].machine))
    ensures Inv(s, cfg) ==> forall k :: 0 <= k < |routes| ==>
              (k in kept <==> !OwnedByOther(s, s.conns[c].machine, routes[k].name))
  {
    kept := [];
    if Inv(s, cfg) {
      kept := RouteSyncRegisters(s, cfg, c, routes, answers);
    }
  }

  lemma WantedByClient(s: State, m: string)
    requires m in s.clients
    ensures TCPNames(s.RoutesOf(m)) <= Wanted(s)
  {
    forall name | name in TCPNames(s.RoutesOf(m))
      ensures name in Wanted(s)
    {
    }
  }

  class ClientEntry {
    const machineName: string
    const conn: nat
    var routes: seq<RouteInfo>
    var connClosed: bool

    constructor (machineName: string, conn: nat)
      ensures this.machineName == machineName && this.conn == conn && routes == [] && !connClosed
    {
      this.machineName, this.conn := machineName, conn;
      routes, connClosed := [], false;
    }
  }

  class Server {
    const cfg: Config
    var clients: map<string, ClientEntry>
    var tcpListeners: Listeners

    ghost var state: State
    ghost var entries: seq<ClientEntry>

    ghost predicate EntriesMatch()
      reads this`state, this`entries, entries
    {
      && |entries| == |state.conns|
      && forall c :: 0 <= c < |entries| ==>
           && entries[c].conn == c && entries[c].machineName == state.conns[c].machine
           && entries[c].routes == state.conns[c].routes
    }

    ghost predicate ClientsMatch()
      reads this`state, this`entries, this`clients
    {
      && |entries| == |state.conns|
      && clients.Keys == state.clients.Keys
      && forall m :: m in clients ==> state.clients[m] < |entries| && clients[m] == entries[state.clients[m]]
    }

    ghost predicate Valid()
      reads this, entries
    {
      cfg.Valid() && EntriesMatch() && ClientsMatch() && tcpListeners == state.listeners
    }

    constructor (start: int, end: int, hash: string -> nat)
      ensures Valid() && state == NEW_STATE && cfg == ConfigFor(start, end, hash)
    {
      cfg := ConfigFor(start, end, hash);
      clients, tcpListeners := map[], map[];
      state, entries := NEW_STATE, [];
    }

    // ----- port allocation

    method Taken(p: int) returns (taken: bool)
      ensures taken == Held(tcpListeners, p)
    {
      var todo := tcpListeners.Keys;
      taken := false;
      while todo != {}
        invariant todo <= tcpListeners.Keys
        invariant forall name :: name in tcpListeners && name !in todo ==> tcpListeners[name] != p
        decreases todo
      {
        var name :| name in todo;
        if tcpListeners[name] == p {
          return true;
        }
        todo := todo - {name};
      }
    }

    method ScanForFree() returns (port: Option<int>)
      ensures port == LowestFree(tcpListeners, cfg.start, cfg.end)
    {
      var p := cfg.start;
      while p < cfg.end
        invariant LowestFree(tcpListeners, cfg.start, cfg.end) == LowestFree(tcpListeners, p, cfg.end)
      {
        var taken := Taken(p);
        if !taken {
          return Some(p);
        }
        p := p + 1;
      }
      port := None;
    }

    method AllocatePort(routeName: string) returns (port: Option<int>)
      requires cfg.Valid()
      ensures port == Allocate(tcpListeners, routeName, cfg)
    {
      if cfg.start == 0 && cfg.end == 0 {
        return None;
      }
      var slot := cfg.start + cfg.hash(routeName) % (cfg.end - cfg.start);
      var todo := tcpListeners.Keys;
      while todo != {}
        invariant todo <= tcpListeners.Keys
        invariant forall name :: name in tcpListeners && name !in todo && tcpListeners[name] == slot ==> name == routeName
        decreases todo
      {
        var name :| name in todo;
        if tcpListeners[name] == slot && name != routeName {
          port := ScanForFree();
          return;
        }
        todo := todo - {name};
      }
      port := Some(slot);
    }

    // ----- owners and routes

    method FindOwnerLocked(routeName: string) returns (owner: string)
      requires Valid()
      ensures OwnerAnswer(state, routeName, owner)
    {
      var todo := clients.Keys;
      while todo != {}
        invariant todo <= clients.Keys
        invariant forall m :: m in clients && m !in todo ==> !Owns(state, m, routeName)
        decreases todo
      {
        var name :| name in todo;
        var routes := clients[name].routes;
        for i := 0 to |routes|
          invariant forall j :: 0 <= j < i ==> routes[j].name != routeName
        {
          if routes[i].name == routeName {
            return name;
          }
        }
        todo := todo - {name};
      }
      owner := "";
    }

    method FindRoute(name: string) returns (answer: Option<(RouteInfo, string, nat)>)
      requires Valid() && ClientsInv(state)
      ensures RouteAnswer(state, name, answer)
    {
      var todo := clients.Keys;
      while todo != {}
        invariant todo <= clients.Keys
        invariant forall m, i :: m in clients && m !in todo && 0 <= i < |clients[m].routes| ==> clients[m].routes[i].name != name
        decreases todo
      {
        var m :| m in todo;
        var entry := clients[m];
        for i := 0 to |entry.routes|
          invariant forall j :: 0 <= j < i ==> entry.routes[j].name != name
        {
          if entry.routes[i].name == name {
            return Some((entry.routes[i], entry.machineName, entry.conn));
          }
        }
        todo := todo - {m};
      }
      answer := None;
    }

    // ----- the handler's critical sections

    /** Closes the machine's connection, if it has one. */
    method CloseReplaced(machineName: string)
      requires Valid()
      modifies entries
      ensures Valid() && (machineName in clients ==> clients[machineName].connClosed)
      ensures forall e :: e in entries && !(machineName in clients && clients[machineName] == e) ==>
                e.connClosed == old(e.connClosed)
    {
      if machineName in clients {
        clients[machineName].connClosed := true;
      }
    }

    /** Registers the new connection, the `conn`-th of this server, closing the one it replaces. */
    method Connect(machineName: string, conn: nat) returns (entry: ClientEntry)
      requires Valid() && machineName != "" && conn == |entries|
      modifies this, entries
      ensures Valid() && state == Do(old(state), Registry.Connect(machineName), cfg)
      ensures fresh(entry) && entries == old(entries) + [entry]
      ensures machineName in old(clients) ==> old(clients)[machineName].connClosed
      ensures forall e :: e in old(entries) && !(machineName in old(clients) && old(clients)[machineName] == e) ==>
                e.connClosed == old(e.connClosed)
      ensures !entry.connClosed
    {
      CloseReplaced(machineName);
      entry := new ClientEntry(machineName, conn);
      clients := clients[machineName := entry];
      state, entries := Do(state, Registry.Connect(machineName), cfg), entries + [entry];
    }

    /** The loop that keeps the routes nobody else owns. */
    method AcceptRoutes(machineName: string, routes: seq<RouteInfo>)
      returns (accepted: seq<RouteInfo>, ghost answers: seq<string>)
      requires Valid()
      ensures |answers| == |routes| && accepted == Accept(routes, answers, machineName)
      ensures forall i :: 0 <= i < |routes| ==> OwnerAnswer(state, routes[i].name, answers[i])
    {
      hide OwnerAnswer;
      accepted, answers := [], [];
      for i := 0 to |routes|
        invariant |answers| == i
        invariant forall j :: 0 <= j < i ==> OwnerAnswer(state, routes[j].name, answers[j])
        invariant accepted == Accept(routes[..i], answers, machineName)
      {
        var owner := FindOwnerLocked(routes[i].name);
        AcceptOneMore(routes[..i], answers, routes[i], owner, machineName);
        assert routes[..i + 1] == routes[..i] + [routes[i]];
        answers := answers + [owner];
        if owner != "" && owner != machineName {
          continue;
        }
        accepted := accepted + [routes[i]];
      }
      assert routes[..|routes|] == routes;
    }

    /** In a reachable state the entry keeps exactly the routes sent that no other machine owns, in order. */
    method RouteSync(entry: ClientEntry, routes: seq<RouteInfo>) returns (ghost answers: seq<string>, ghost kept: seq<nat>)
      requires Valid() && entry in entries && state.conns[entry.conn].phase == Serving
      modifies this`state, entry`routes
      ensures Valid() && Enabled(old(state), Registry.RouteSync(entry.conn, routes, answers))
      ensures state == Do(old(state), Registry.RouteSync(entry.conn, routes, answers), cfg)
      ensures Inv(old(state), cfg) ==> Selects(kept, routes, entry.routes) && forall k :: 0 <= k < |routes| ==>
                (k in kept <==> !OwnedByOther(old(state), entry.machineName, routes[k].name))
    {
      hide Inv, Selects, OwnedByOther, OwnerAnswer;
      var accepted;
      accepted, answers := AcceptRoutes(entry.machineName, routes);
      kept := KeptBySync(state, cfg, entry.conn, routes, answers);
      entry.routes := accepted;
      state := Do(state, Registry.RouteSync(entry.conn, routes, answers), cfg);
    }

    /** Removes the entry unless the connection was replaced. */
    method Disconnect(entry: ClientEntry)
      requires Valid() && entry in entries && state.conns[entry.conn].phase == Serving
      modifies this`clients, this`state
      ensures Valid() && state == Do(old(state), Registry.Disconnect(entry.conn), cfg)
    {
      if entry.machineName in clients && clients[entry.machineName] == entry {
        clients := clients - {entry.machineName};
      }
      state := Do(state, Registry.Disconnect(entry.conn), cfg);
    }

    // ----- syncTCPListeners

    method WantedRoutes() returns (tcpRoutes: set<string>)
      requires Valid()
      ensures tcpRoutes == Wanted(state)
    {
      tcpRoutes := {};
      var todo := clients.Keys;
      while todo != {}
        invariant todo <= clients.Keys
        invariant tcpRoutes <= Wanted(state)
        invariant forall m :: m in clients && m !in todo ==> TCPNames(state.RoutesOf(m)) <= tcpRoutes
        decreases todo
      {
        var m :| m in todo;
        var names := TCPRoutes(clients[m].routes);
        assert clients[m].routes == state.RoutesOf(m);
        WantedByClient(state, m);
        tcpRoutes := tcpRoutes + names;
        todo := todo - {m};
      }
    }

    method TCPRoutes(routes: seq<RouteInfo>) returns (names: set<string>)
      ensures names == TCPNames(routes)
    {
      names := {};
      for i := 0 to |routes|
        invariant names == set j | 0 <= j < i && IsTCP(routes[j]) :: routes[j].name
      {
        if routes[i].typ == "tcp" {
          names := names + {routes[i].name};
        }
      }
    }

    method StopListeners(tcpRoutes: set<string>)
      modifies this`tcpListeners
      ensures tcpListeners == StopUnwanted(old(tcpListeners), tcpRoutes)
    {
      var todo := tcpListeners.Keys;
      while todo != {}
        invariant todo <= tcpListeners.Keys <= old(tcpListeners).Keys
        invariant forall n :: n in tcpListeners ==> tcpListeners[n] == old(tcpListeners)[n] && (n in todo || n in tcpRoutes)
        invariant forall n :: n in old(tcpListeners) && n in tcpRoutes ==> n in tcpListeners
        decreases todo
      {
        var name :| name in todo;
        if name !in tcpRoutes {
          tcpListeners := tcpListeners - {name};
        }
        todo := todo - {name};
      }
    }

    /** A new listener is entered only if listening on its port succeeded, and a route is left without one only
        if it met no free port or listening failed for it. */
    method StartListeners(tcpRoutes: set<string>, bind: (string, int) -> bool) returns (ghost order: seq<string>)
      requires cfg.Valid()
      modifies this`tcpListeners
      ensures Visits(order, tcpRoutes) && tcpListeners == StartAll(old(tcpListeners), order, cfg, bind)
      ensures forall n :: n in tcpListeners ==>
                if n in old(tcpListeners) then tcpListeners[n] == old(tcpListeners)[n] else bind(n, tcpListeners[n])
      ensures forall n :: n in tcpRoutes && n !in tcpListeners ==> NoPortFree(tcpListeners, cfg) || BindFails(n, cfg, bind)
    {
      hide NoPortFree, BindFails;
      order := [];
      var todo := tcpRoutes;
      while todo != {}
        invariant todo <= tcpRoutes && Visits(order, tcpRoutes - todo)
        invariant tcpListeners == StartAll(old(tcpListeners), order, cfg, bind)
        decreases todo
      {
        var name :| name in todo;
        todo := todo - {name};
        StartOneMore(old(tcpListeners), order, name, cfg, bind);
        order := order + [name];
        if name in tcpListeners {
          continue;
        }
        var port := AllocatePort(name);
        if port.None? {
          continue;
        }
        if bind(name, port.value) {
          tcpListeners := tcpListeners[name := port.value];
        }
      }
      StartAllBinds(old(tcpListeners), order, cfg, bind);
    }

    /** The handler of connection `c` brings the listeners in line with the registered routes. */
    method SyncTCPListeners(bind: (string, int) -> bool, ghost c: nat) returns (ghost order: seq<string>)
      requires Valid() && c < |entries| && state.conns[c].phase in {OwesSync, OwesLastSync}
      modifies this`tcpListeners, this`state
      ensures Valid() && Enabled(old(state), Sync(c, order, bind)) && state == Do(old(state), Sync(c, order, bind), cfg)
    {
      var tcpRoutes := WantedRoutes();
      StopListeners(tcpRoutes);
      order := StartListeners(tcpRoutes, bind);
      state := Do(state, Sync(c, order, bind), cfg);
    }
  }

  lemma {:induction false} StartOneMore(ls: Listeners, order: seq<string>, name: string, c: Config, bind: (string, int) -> bool)
    requires c.Valid()
    ensures StartAll(ls, order + [name], c, bind) == StartOne(StartAll(ls, order, c, bind), name, c, bind)
    decreases |order|
  {
    if order != [] {
      assert (order + [name])[1..] == order[1..] + [name];
      StartOneMore(StartOne(ls, order[0], c, bind), order[1..], name, c, bind);
    }
  }
}
