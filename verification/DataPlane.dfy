/**
  The data plane as the orchestrator sees it: keyed objects, the static routes installed in
  the FIB, and what a single provider call does to them when it succeeds, is deferred or fails.
  Provider calls are values (`Action`), so that an operation and its undo can be compared.
 */
module DataPlane {
  import opened Common

  datatype Kind =
    | VnicPort | Acl | Bond | BridgeDomain | Vrf | Nat | Span | Qos | Lldp | Interface | Machine | Container

  /** Nat and Lldp are singletons, with the empty name. */
  datatype Key = Key(kind: Kind, name: string)

  datatype Route = Route(prefix: string, nextHop: string, distance: int)

  /** The identity of a route in the FIB: the distance is not part of it. */
  datatype RouteKey = RouteKey(prefix: string, nextHop: string)

  function RouteKeyOf(r: Route): RouteKey {
    RouteKey(r.prefix, r.nextHop)
  }

  /** The declared content of an object. `tag` is the switch type and empty elsewhere. */
  datatype Body = Body(tag: string, attrs: string, refs: set<Key>, routes: seq<Route>)

  const EMPTY_BODY := Body("", "", {}, [])

  datatype FibEntry = FibEntry(table: string, dst: RouteKey)

  /**
    `lingering`: tables whose deletion was put off until the data plane restarts.
    `pending`: interfaces whose settings were put off for the same reason.
   */
  datatype Plane = Plane(objs: map<Key, Body>, fib: set<FibEntry>, lingering: set<string>, pending: set<string>)

  function Lookup(p: Plane, k: Key): Option<Body> {
    if k in p.objs then Some(p.objs[k]) else None
  }

  function RoutesOf(table: string, routes: seq<Route>): set<FibEntry> {
    set r | r in routes :: FibEntry(table, RouteKeyOf(r))
  }

  function TableOf(fib: set<FibEntry>, table: string): set<FibEntry> {
    set e | e in fib && e.table == table
  }

  /** One provider call. Refuse stands for a declaration that cannot be placed at all. */
  datatype Action =
    | Put(key: Key, body: Body, deferrable: bool)
    | Del(key: Key, tolerant: bool)
    | AddRoute(table: string, route: Route)
    | DelRoute(table: string, route: Route)
    | Skip
    | Refuse

  /**
    What the provider answers. A failing VRF call leaves its own object in the state `left`,
    with the routes `landed` already added (Put) or already lost (Del).
   */
  datatype Outcome = Done | NotReady | TableStays | Failed(left: Option<Body>, landed: set<RouteKey>)

  type Oracle = nat -> Outcome

  predicate Succeeds(a: Action, o: Outcome) {
    match a
    case Put(_, _, deferrable) => o.Done? || (o.NotReady? && deferrable)
    case Del(k, tolerant) => o.Done? || (o.TableStays? && tolerant && k.kind.Vrf?)
    case AddRoute(_, _) => o.Done?
    case DelRoute(_, _) => o.Done?
    case Skip => true
    case Refuse => false
  }

  function SetTo(objs: map<Key, Body>, k: Key, b: Option<Body>): map<Key, Body> {
    if b.Some? then objs[k := b.value] else objs - {k}
  }

  /** ApplyX. ApplyVRF adds the declared routes and withdraws none. */
  function AfterPut(p: Plane, k: Key, b: Body, deferrable: bool, o: Outcome): Plane {
    match o
    case Done =>
      Plane(p.objs[k := b],
            if k.kind.Vrf? then p.fib + RoutesOf(k.name, b.routes) else p.fib,
            if k.kind.Vrf? then p.lingering - {k.name} else p.lingering,
            if k.kind.Interface? then p.pending - {k.name} else p.pending)
    case NotReady => if deferrable then p.(pending := p.pending + {k.name}) else p
    case TableStays => p
    case Failed(left, landed) =>
      if k.kind.Vrf? then
        p.(objs := SetTo(p.objs, k, left),
           fib := p.fib + (set e | e in RoutesOf(k.name, b.routes) && e.dst in landed))
      else p
  }

  /** DeleteX. Removing a table removes its routes; a table that stays keeps them. */
  function AfterDel(p: Plane, k: Key, o: Outcome): Plane {
    match o
    case Done =>
      Plane(p.objs - {k},
            if k.kind.Vrf? then p.fib - TableOf(p.fib, k.name) else p.fib,
            if k.kind.Vrf? then p.lingering - {k.name} else p.lingering,
            p.pending)
    case NotReady => p
    case TableStays =>
      if k.kind.Vrf? then p.(objs := p.objs - {k}, lingering := p.lingering + {k.name}) else p
    case Failed(left, lost) =>
      if k.kind.Vrf? then
        p.(objs := SetTo(p.objs, k, left),
           fib := p.fib - (set e | e in TableOf(p.fib, k.name) && e.dst in lost))
      else p
  }

  function After(p: Plane, a: Action, o: Outcome): Plane {
    match a
    case Put(k, b, deferrable) => AfterPut(p, k, b, deferrable, o)
    case Del(k, _) => AfterDel(p, k, o)
    case AddRoute(t, r) => if o.Done? then p.(fib := p.fib + {FibEntry(t, RouteKeyOf(r))}) else p
    case DelRoute(t, r) => if o.Done? then p.(fib := p.fib - {FibEntry(t, RouteKeyOf(r))}) else p
    case Skip => p
    case Refuse => p
  }

  predicate Names(a: Action, k: Key) {
    (a.Put? || a.Del?) && a.key == k
  }
}
