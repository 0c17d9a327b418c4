/** Port allocation and listener reconciliation, as functions on the map from route to port. */
module Ports {
  import opened Bytes

  type Listeners = map<string, int>

  /** The usable ports are start, ..., end - 1; (0, 0) means TCP tunnelling is disabled. */
  datatype Config = Config(start: int, end: int, hash: string -> nat) {
    predicate Disabled() {
      start == 0 && end == 0
    }

    predicate Valid() {
      Disabled() || 1 <= start < end <= 65535
    }

    function Size(): int {
      end - start
    }

    /** The route's slot.  The hash is unsigned, so the remainder is not negative. */
    function Slot(name: string): int
      requires start < end
    {
      start + hash(name) % (end - start)
    }
  }

  /** The checks of the port range parser on the two numbers, and the fallback when they fail. */
  function ConfigFor(start: int, end: int, hash: string -> nat): (c: Config)
    ensures c.Valid()
    ensures !c.Disabled() <==> 1 <= start < end <= 65535
    ensures !c.Disabled() ==> c.start == start && c.end == end
    ensures c.hash == hash
  {
    if start >= end || start < 1 || end > 65535 then Config(0, 0, hash) else Config(start, end, hash)
  }

  predicate Held(ls: Listeners, p: int) {
    exists name :: name in ls && ls[name] == p
  }

  predicate HeldByOther(ls: Listeners, route: string, p: int) {
    exists name :: name in ls && ls[name] == p && name != route
  }

  function LowestFree(ls: Listeners, p: int, end: int): Option<int>
    decreases end - p
  {
    if p >= end then None
    else if Held(ls, p) then LowestFree(ls, p + 1, end)
    else Some(p)
  }

  lemma {:induction false} LowestFreeIsLowest(ls: Listeners, p: int, end: int)
    ensures match LowestFree(ls, p, end)
            case None => forall q :: p <= q < end ==> Held(ls, q)
            case Some(f) => p <= f < end && !Held(ls, f) && forall q :: p <= q < f ==> Held(ls, q)
    decreases end - p
  {
    if p < end && Held(ls, p) {
      LowestFreeIsLowest(ls, p + 1, end);
    }
  }

  /** The port for a route, or None for an error. */
  function Allocate(ls: Listeners, route: string, c: Config): Option<int>
    requires c.Valid()
  {
    if c.Disabled() then None
    else if HeldByOther(ls, route, c.Slot(route)) then LowestFree(ls, c.start, c.end)
    else Some(c.Slot(route))
  }

  /** Every listener has a usable port of its own. */
  ghost predicate WellAllocated(ls: Listeners, c: Config) {
    && (forall name :: name in ls ==> c.start <= ls[name] < c.end)
    && Injective(ls)
  }

  ghost predicate Injective(ls: Listeners) {
    forall name, other :: name in ls && other in ls && ls[name] == ls[other] ==> name == other
  }

  // ----- pigeonhole

  function Interval(lo: int, hi: int): (ports: set<int>)
    requires lo <= hi
    ensures forall p :: p in ports <==> lo <= p < hi
    ensures |ports| == hi - lo
    decreases hi - lo
  {
    if lo == hi then {} else Interval(lo, hi - 1) + {hi - 1}
  }

  lemma {:induction false} SubsetSize<T>(a: set<T>, b: set<T>)
    requires a <= b
    ensures |a| <= |b|
    decreases |a|
  {
    if a != {} {
      var x :| x in a;
      SubsetSize(a - {x}, b - {x});
    }
  }

  function PortsOf(ls: Listeners): set<int> {
    set name | name in ls :: ls[name]
  }

  lemma {:induction false} PortsCount(ls: Listeners)
    requires Injective(ls)
    ensures |PortsOf(ls)| == |ls|
    decreases |ls|
  {
    if ls == map[] {
      assert PortsOf(ls) == {};
    } else {
      var name :| name in ls;
      var rest := ls - {name};
      assert ls.Keys == rest.Keys + {name};
      PortsCount(rest);
      OnePortMore(ls, name);
    }
  }

  lemma OnePortMore(ls: Listeners, name: string)
    requires Injective(ls) && name in ls
    ensures PortsOf(ls) == PortsOf(ls - {name}) + {ls[name]} && ls[name] !in PortsOf(ls - {name})
  {
    var rest := ls - {name};
    forall p | p in PortsOf(ls)
      ensures p in PortsOf(rest) + {ls[name]}
    {
      var n :| n in ls && ls[n] == p;
      if n != name {
        assert n in rest && rest[n] == p;
      }
    }
  }

  /** There are never more listeners than ports, and as many only when every port is held. */
  lemma Pigeonhole(ls: Listeners, c: Config)
    requires WellAllocated(ls, c) && c.Valid()
    ensures |ls| <= c.Size()
    ensures |ls| == c.Size() <==> forall p :: c.start <= p < c.end ==> Held(ls, p)
  {
    PortsCount(ls);
    var all := Interval(c.start, c.end);
    assert PortsOf(ls) <= all;
    SubsetSize(PortsOf(ls), all);
    if forall p :: c.start <= p < c.end ==> Held(ls, p) {
      forall p | p in all
        ensures p in PortsOf(ls)
      {
        assert Held(ls, p);
      }
      SubsetSize(all, PortsOf(ls));
    } else {
      var p :| c.start <= p < c.end && !Held(ls, p);
      SubsetSize(PortsOf(ls), all - {p});
    }
  }

  /** Every usable port has a listener. */
  ghost predicate NoPortFree(ls: Listeners, c: Config) {
    forall p :: c.start <= p < c.end ==> Held(ls, p)
  }

  /** For any listeners and any route: the port is the hash slot unless another route holds that; then it is
      the lowest port that nobody holds, and there is none exactly if every port is held. */
  lemma AllocateCorrect(ls: Listeners, route: string, c: Config)
    requires c.Valid()
    ensures c.Disabled() ==> Allocate(ls, route, c) == None
    ensures !c.Disabled() ==>
      var slot := c.start + c.hash(route) % (c.end - c.start);
      && c.start <= slot < c.end
      && if exists name :: name in ls && ls[name] == slot && name != route then
           match Allocate(ls, route, c)
           case Some(p) => c.start <= p < c.end && !Held(ls, p) && forall q :: c.start <= q < p ==> Held(ls, q)
           case None => NoPortFree(ls, c)
         else Allocate(ls, route, c) == Some(slot)
  {
    LowestFreeIsLowest(ls, c.start, c.end);
    if !c.Disabled() {
      SlotInRange(c, route);
    }
  }

  lemma SlotInRange(c: Config, route: string)
    requires c.start < c.end
    ensures c.start <= c.start + c.hash(route) % (c.end - c.start) < c.end
  {
  }

  /** For a route with no listener, when each listener has a port of its own: the port is usable and free, and
      there is one exactly if there are fewer listeners than ports. */
  lemma AllocateFree(ls: Listeners, route: string, c: Config)
    requires c.Valid() && WellAllocated(ls, c) && route !in ls
    ensures Allocate(ls, route, c).Some? ==>
      c.start <= Allocate(ls, route, c).value < c.end && !Held(ls, Allocate(ls, route, c).value)
    ensures Allocate(ls, route, c).Some? <==> |ls| < c.Size()
    ensures |ls| <= c.Size()
  {
    Pigeonhole(ls, c);
    AllocateCorrect(ls, route, c);
  }

  // ----- reconciliation

  function StopUnwanted(ls: Listeners, wanted: set<string>): Listeners {
    map name | name in ls && name in wanted :: ls[name]
  }

  /** `bind(name, p)` is whether listening on `p` succeeds for this route in this sync. */
  function StartOne(ls: Listeners, name: string, c: Config, bind: (string, int) -> bool): Listeners
    requires c.Valid()
  {
    if name in ls then ls
    else
      match Allocate(ls, name, c)
      case None => ls
      case Some(p) => if bind(name, p) then ls[name := p] else ls
  }

  /** Starts listeners for the names in this order. */
  function StartAll(ls: Listeners, order: seq<string>, c: Config, bind: (string, int) -> bool): Listeners
    requires c.Valid()
    decreases |order|
  {
    if order == [] then ls else StartAll(StartOne(ls, order[0], c, bind), order[1..], c, bind)
  }

  /** A whole sync that visits the wanted names in this order. */
  function Reconcile(ls: Listeners, wanted: set<string>, order: seq<string>, c: Config, bind: (string, int) -> bool): Listeners
    requires c.Valid()
  {
    StartAll(StopUnwanted(ls, wanted), order, c, bind)
  }

  /** `order` is one of the orders in which a range loop can visit the set. */
  ghost predicate Visits(order: seq<string>, names: set<string>) {
    && (forall name :: name in order <==> name in names)
    && (forall i, j :: 0 <= i < j < |order| ==> order[i] != order[j])
  }

  ghost predicate AllBind(bind: (string, int) -> bool) {
    forall name, p :: bind(name, p)
  }

  lemma StartOneKeeps(ls: Listeners, name: string, c: Config, bind: (string, int) -> bool)
    requires c.Valid() && WellAllocated(ls, c)
    ensures var ls' := StartOne(ls, name, c, bind);
      && WellAllocated(ls', c)
      && ls.Keys <= ls'.Keys <= ls.Keys + {name}
      && (forall n :: n in ls ==> ls'[n] == ls[n])
      && (AllBind(bind) ==> name in ls' || |ls'| == c.Size())
  {
    hide Allocate;
    if name !in ls {
      AllocateFree(ls, name, c);
    }
  }

  /** Listening for the route fails on one of the usable ports. */
  ghost predicate BindFails(name: string, c: Config, bind: (string, int) -> bool) {
    exists p :: c.start <= p < c.end && !bind(name, p)
  }

  lemma StartOneBinds(ls: Listeners, name: string, c: Config, bind: (string, int) -> bool)
    requires c.Valid()
    ensures var ls' := StartOne(ls, name, c, bind);
      && (forall n :: n in ls ==> n in ls' && ls'[n] == ls[n])
      && (forall n :: n in ls' && n !in ls ==> bind(n, ls'[n]))
      && (name in ls' || NoPortFree(ls', c) || BindFails(name, c, bind))
  {
    if name !in ls {
      AllocateCorrect(ls, name, c);
    }
  }

  lemma MorePortsHeld(ls: Listeners, ls': Listeners, c: Config)
    requires NoPortFree(ls, c) && forall n :: n in ls ==> n in ls' && ls'[n] == ls[n]
    ensures NoPortFree(ls', c)
  {
    forall p | c.start <= p < c.end
      ensures Held(ls', p)
    {
      assert Held(ls, p);
    }
  }

  /** A listener is entered only on a port on which listening has succeeded, and a route is left without one
      only if it met no free port or listening failed for it. */
  lemma {:induction false} StartAllBinds(ls: Listeners, order: seq<string>, c: Config, bind: (string, int) -> bool)
    requires c.Valid()
    ensures var ls' := StartAll(ls, order, c, bind);
      && (forall n :: n in ls ==> n in ls' && ls'[n] == ls[n])
      && (forall n :: n in ls' && n !in ls ==> bind(n, ls'[n]))
      && (forall n :: n in order && n !in ls' ==> NoPortFree(ls', c) || BindFails(n, c, bind))
    decreases |order|
  {
    hide StartOne, NoPortFree, BindFails;
    if order != [] {
      var ls1, ls' := StartOne(ls, order[0], c, bind), StartAll(ls, order, c, bind);
      StartOneBinds(ls, order[0], c, bind);
      StartAllBinds(ls1, order[1..], c, bind);
      forall n | n in order && n !in ls'
        ensures NoPortFree(ls', c) || BindFails(n, c, bind)
      {
        if n !in order[1..] && NoPortFree(ls1, c) {
          MorePortsHeld(ls1, ls', c);
        }
      }
    }
  }

  lemma {:induction false} StartAllKeeps(ls: Listeners, order: seq<string>, c: Config, bind: (string, int) -> bool)
    requires c.Valid() && WellAllocated(ls, c)
    ensures var ls' := StartAll(ls, order, c, bind);
      && WellAllocated(ls', c)
      && (forall n :: n in ls ==> n in ls' && ls'[n] == ls[n])
      && (forall n :: n in ls' ==> n in ls || n in order)
      && (AllBind(bind) ==> (forall n :: n in order ==> n in ls') || |ls'| == c.Size())
    decreases |order|
  {
    if order != [] {
      var ls1 := StartOne(ls, order[0], c, bind);
      StartOneKeeps(ls, order[0], c, bind);
      StartAllKeeps(ls1, order[1..], c, bind);
      var ls' := StartAll(ls, order, c, bind);
      if |ls1| == c.Size() {
        SubsetSize(ls1.Keys, ls'.Keys);
        Pigeonhole(ls', c);
      }
    }
  }

  function Min(a: int, b: int): int {
    if a < b then a else b
  }

  lemma FullHouse(ls: Listeners, c: Config)
    requires WellAllocated(ls, c) && c.Valid()
    ensures NoPortFree(ls, c) <==> |ls| == c.Size()
  {
    Pigeonhole(ls, c);
  }

  /** Whatever the iteration order and whichever binds fail: only wanted routes keep or get a
      listener, a surviving listener keeps its port, and all ports are usable and distinct.  A new listener
      has a port that could be bound, and a wanted route is without one only if all ports are held or one
      could not be bound for it.  If every bind succeeds there are exactly min(wanted routes, ports). */
  lemma ReconcileCorrect(ls: Listeners, wanted: set<string>, order: seq<string>, c: Config, bind: (string, int) -> bool)
    requires c.Valid() && WellAllocated(ls, c) && Visits(order, wanted)
    ensures var ls' := Reconcile(ls, wanted, order, c, bind);
      && ls'.Keys <= wanted
      && (forall n :: n in ls && n in wanted ==> n in ls' && ls'[n] == ls[n])
      && WellAllocated(ls', c)
      && (AllBind(bind) ==> |ls'| == Min(|wanted|, c.Size()))
      && (forall n :: n in ls' && n !in ls ==> bind(n, ls'[n]))
      && (forall n :: n in wanted && n !in ls' ==> |ls'| == c.Size() || BindFails(n, c, bind))
  {
    hide NoPortFree, BindFails;
    var ls' := Reconcile(ls, wanted, order, c, bind);
    StartAllBinds(StopUnwanted(ls, wanted), order, c, bind);
    StartAllKeeps(StopUnwanted(ls, wanted), order, c, bind);
    FullHouse(ls', c);
    Pigeonhole(ls', c);
    SubsetSize(ls'.Keys, wanted);
    if AllBind(bind) && |ls'| != c.Size() {
      assert ls'.Keys == wanted;
    }
  }
}
