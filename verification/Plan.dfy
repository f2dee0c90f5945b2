/**
  How a configuration diff becomes an ordered list of operations with undos
  (internal/orchestrator/apply.go, `plan` and its helpers).
 */
module Plan {
  import opened Common
  import opened DataPlane

  datatype Decl = Decl(name: string, body: Body)

  /**
    `switches` is the list after vNIC declarations were merged into it, `ports` the derived list
    of vNIC attachments, `refErrors` whether some vNIC names an undeclared switch, and `perDev`
    the interfaces with a DPDK per-device entry.
   */
  datatype Config = Config(
    refErrors: bool, ports: seq<Decl>, acls: seq<Decl>, bonds: seq<Decl>, switches: seq<Decl>,
    vrfs: seq<Decl>, natConfig: Option<Body>, spans: seq<Decl>, qos: seq<Decl>, protocols: Option<Option<Body>>,
    perDev: set<string>, interfaces: seq<Decl>, machines: seq<Decl>, containers: seq<Decl>)

  datatype Op = Op(run: Action, undo: Action, compensateOnFail: bool)

  /** The order in which the Go maps of old objects happen to be iterated. */
  datatype Orders = Orders(containers: seq<Decl>, machines: seq<Decl>, switches: seq<Decl>, vrfs: seq<Decl>, bonds: seq<Decl>)

  // ---------- indexes ----------

  /** nameMap: a later declaration of the same name wins. */
  function ByName(ds: seq<Decl>): map<string, Body> {
    if ds == [] then map[] else ByName(ds[..|ds| - 1])[ds[|ds| - 1].name := ds[|ds| - 1].body]
  }

  function NamesOf(ds: seq<Decl>): set<string> {
    set d | d in ds :: d.name
  }

  predicate IsL2(d: Decl) {
    d.body.tag == "l2"
  }

  function L2Only(ds: seq<Decl>): seq<Decl> {
    if ds == [] then []
    else L2Only(ds[..|ds| - 1]) + if IsL2(ds[|ds| - 1]) then [ds[|ds| - 1]] else []
  }

  function BodyOr(b: Option<Body>): Body {
    if b.Some? then b.value else EMPTY_BODY
  }

  function LldpBody(c: Config): Body {
    if c.protocols.Some? then BodyOr(c.protocols.value) else EMPTY_BODY
  }

  predicate UniqueNames(ds: seq<Decl>) {
    forall i, j :: 0 <= i < j < |ds| ==> ds[i].name != ds[j].name
  }

  ghost predicate IsIterationOf(order: seq<Decl>, m: map<string, Body>) {
    && UniqueNames(order)
    && (forall d :: d in order ==> d.name in m && m[d.name] == d.body)
    && (forall n :: n in m ==> Decl(n, m[n]) in order)
  }

  ghost predicate ValidOrders(was: Config, o: Orders) {
    && IsIterationOf(o.containers, ByName(was.containers))
    && IsIterationOf(o.machines, ByName(was.machines))
    && IsIterationOf(o.switches, ByName(was.switches))
    && IsIterationOf(o.vrfs, ByName(was.vrfs))
    && IsIterationOf(o.bonds, ByName(was.bonds))
  }

  // ---------- what a configuration wants on the data plane ----------

  function Listed(c: Config, kind: Kind): seq<Decl> {
    match kind
    case VnicPort => c.ports
    case Acl => c.acls
    case Bond => c.bonds
    case BridgeDomain => L2Only(c.switches)
    case Vrf => c.vrfs
    case Nat => [Decl("", BodyOr(c.natConfig))]
    case Span => c.spans
    case Qos => c.qos
    case Lldp => [Decl("", LldpBody(c))]
    case Interface => c.interfaces
    case Machine => c.machines
    case Container => c.containers
  }

  function Wanted(c: Config, k: Key): Option<Body> {
    var m := ByName(Listed(c, k.kind));
    if k.name in m then Some(m[k.name]) else None
  }

  function WantedRoutes(c: Config): set<FibEntry> {
    set i, j | 0 <= i < |c.vrfs| && 0 <= j < |c.vrfs[i].body.routes| ::
      FibEntry(c.vrfs[i].name, RouteKeyOf(c.vrfs[i].body.routes[j]))
  }

  ghost predicate WellNamed(c: Config) {
    && UniqueNames(c.switches)
    && forall kind: Kind :: UniqueNames(Listed(c, kind))
  }

  // ---------- operations ----------

  /** applyOp / op2: undo restores the old version if there was one and deletes otherwise. */
  function UpsertOp(kind: Kind, d: Decl, olds: map<string, Body>, deferrable: bool): Op {
    var k := Key(kind, d.name);
    Op(Put(k, d.body, deferrable),
       if d.name in olds then Put(k, olds[d.name], false)
       else if kind.Interface? then Skip else Del(k, false),
       kind.Vrf?)
  }

  predicate Changed(d: Decl, olds: map<string, Body>) {
    d.name !in olds || olds[d.name] != d.body
  }

  function Upserts(kind: Kind, ds: seq<Decl>, olds: map<string, Body>, perDev: set<string>): seq<Op> {
    if ds == [] then []
    else
      var d := ds[|ds| - 1];
      Upserts(kind, ds[..|ds| - 1], olds, perDev) +
      if Changed(d, olds) then [UpsertOp(kind, d, olds, d.name in perDev)] else []
  }

  function DeleteOp(kind: Kind, d: Decl): Op {
    Op(Del(Key(kind, d.name), kind.Vrf?), Put(Key(kind, d.name), d.body, false), kind.Vrf?)
  }

  function Deletes(kind: Kind, ds: seq<Decl>, keep: set<string>): seq<Op> {
    if ds == [] then []
    else
      var d := ds[|ds| - 1];
      Deletes(kind, ds[..|ds| - 1], keep) + if d.name !in keep then [DeleteOp(kind, d)] else []
  }

  function SingletonOp(kind: Kind, was: Body, now: Body): Op {
    Op(Put(Key(kind, ""), now, false), Put(Key(kind, ""), was, false), false)
  }

  function RouteOp(table: string, r: Route): Op {
    Op(DelRoute(table, r), AddRoute(table, r), false)
  }

  function RouteOps(table: string, gone: seq<Route>): seq<Op> {
    seq(|gone|, i requires 0 <= i < |gone| => RouteOp(table, gone[i]))
  }

  function RouteKeys(rs: seq<Route>): set<RouteKey> {
    set r | r in rs :: RouteKeyOf(r)
  }

  /** removedRoutes: declared before, not declared now; each identity once, in declaration order. */
  function RemovedRoutes(olds: seq<Route>, news: seq<Route>): seq<Route> {
    if olds == [] then []
    else
      var r := olds[|olds| - 1];
      RemovedRoutes(olds[..|olds| - 1], news) +
      if RouteKeyOf(r) in RouteKeys(news) || RouteKeyOf(r) in RouteKeys(olds[..|olds| - 1]) then [] else [r]
  }

  function GoneRoutes(v: Decl, news: map<string, Body>): seq<Route> {
    if v.name in news then RemovedRoutes(v.body.routes, news[v.name].routes) else v.body.routes
  }

  function Withdrawals(vrfs: seq<Decl>, news: map<string, Body>): seq<Op> {
    if vrfs == [] then []
    else
      var v := vrfs[|vrfs| - 1];
      Withdrawals(vrfs[..|vrfs| - 1], news) + RouteOps(v.name, GoneRoutes(v, news))
  }

  // ---------- the plan ----------

  function NatOps(was: Config, next: Config): seq<Op> {
    if was.natConfig != next.natConfig then [SingletonOp(Nat, BodyOr(was.natConfig), BodyOr(next.natConfig))] else []
  }

  function LldpOps(was: Config, next: Config): seq<Op> {
    if was.protocols != next.protocols then [SingletonOp(Lldp, LldpBody(was), LldpBody(next))] else []
  }

  /** The map of old objects an addition of this kind is compared with. */
  function OldIndex(was: Config, kind: Kind): map<string, Body> {
    if kind.BridgeDomain? then ByName(was.switches) else ByName(Listed(was, kind))
  }

  function AdditionsOf(kind: Kind, was: Config, next: Config): seq<Op> {
    Upserts(kind, Listed(next, kind), OldIndex(was, kind), if kind.Interface? then next.perDev else {})
  }

  /** Additions and changes: what is referenced comes before what refers to it. */
  function Additions(was: Config, next: Config): seq<Op> {
    AdditionsOf(VnicPort, was, next) +
    AdditionsOf(Acl, was, next) +
    AdditionsOf(Bond, was, next) +
    AdditionsOf(BridgeDomain, was, next) +
    AdditionsOf(Vrf, was, next) +
    NatOps(was, next) +
    AdditionsOf(Span, was, next) +
    AdditionsOf(Qos, was, next) +
    LldpOps(was, next) +
    AdditionsOf(Interface, was, next) +
    AdditionsOf(Machine, was, next) +
    AdditionsOf(Container, was, next)
  }

  /** The old objects of a kind, in the order the deletion loop meets them. */
  function RemovalOrder(kind: Kind, was: Config, o: Orders): seq<Decl> {
    match kind
    case Container => o.containers
    case Machine => o.machines
    case BridgeDomain => L2Only(o.switches)
    case Vrf => o.vrfs
    case Bond => o.bonds
    case VnicPort => was.ports
    case Span => was.spans
    case Qos => was.qos
    case Acl => was.acls
    case _ => []
  }

  /** The names that keep an old object alive: for bridge domains, those of switches of any type. */
  function Kept(kind: Kind, next: Config): set<string> {
    NamesOf(if kind.BridgeDomain? then next.switches else Listed(next, kind))
  }

  function RemovalsOf(kind: Kind, was: Config, next: Config, o: Orders): seq<Op> {
    Deletes(kind, RemovalOrder(kind, was, o), Kept(kind, next))
  }

  function WithdrawalOps(was: Config, next: Config): seq<Op> {
    Withdrawals(was.vrfs, ByName(next.vrfs))
  }

  /** Deletions, in the opposite order. */
  function Removals(was: Config, next: Config, o: Orders): seq<Op> {
    RemovalsOf(Container, was, next, o) +
    RemovalsOf(Machine, was, next, o) +
    RemovalsOf(BridgeDomain, was, next, o) +
    WithdrawalOps(was, next) +
    RemovalsOf(Vrf, was, next, o) +
    RemovalsOf(Bond, was, next, o) +
    RemovalsOf(VnicPort, was, next, o) +
    RemovalsOf(Span, was, next, o) +
    RemovalsOf(Qos, was, next, o) +
    RemovalsOf(Acl, was, next, o)
  }

  function PlanOf(was: Config, next: Config, o: Orders): seq<Op> {
    if next.refErrors then [Op(Refuse, Skip, false)] else Additions(was, next) + Removals(was, next, o)
  }

  // ---------- the loops of `plan` ----------

  /** Go's randomised map iteration: any order, each entry once. */
  method Iterate(m: map<string, Body>) returns (order: seq<Decl>)
    ensures IsIterationOf(order, m)
  {
    order := [];
    var rest := m.Keys;
    while rest != {}
      invariant rest <= m.Keys
      invariant UniqueNames(order)
      invariant forall d :: d in order ==> d.name in m && d.name !in rest && m[d.name] == d.body
      invariant forall n :: n in m && n !in rest ==> Decl(n, m[n]) in order
      decreases rest
    {
      var n :| n in rest;
      rest := rest - {n};
      order := order + [Decl(n, m[n])];
    }
  }

  method PlanUpserts(kind: Kind, ds: seq<Decl>, olds: map<string, Body>, perDev: set<string>)
    returns (r: seq<Op>)
    ensures r == Upserts(kind, ds, olds, perDev)
  {
    r := [];
    for i := 0 to |ds|
      invariant r == Upserts(kind, ds[..i], olds, perDev)
    {
      assert ds[..i + 1][..i] == ds[..i];
      if Changed(ds[i], olds) {
        r := r + [UpsertOp(kind, ds[i], olds, ds[i].name in perDev)];
      }
    }
    assert ds[..|ds|] == ds;
  }

  method PlanDeletes(kind: Kind, ds: seq<Decl>, keep: set<string>) returns (r: seq<Op>)
    ensures r == Deletes(kind, ds, keep)
  {
    r := [];
    for i := 0 to |ds|
      invariant r == Deletes(kind, ds[..i], keep)
    {
      assert ds[..i + 1][..i] == ds[..i];
      if ds[i].name !in keep {
        r := r + [DeleteOp(kind, ds[i])];
      }
    }
    assert ds[..|ds|] == ds;
  }

  method ComputeRemovedRoutes(olds: seq<Route>, news: seq<Route>) returns (out: seq<Route>)
    ensures out == RemovedRoutes(olds, news)
  {
    var keep := RouteKeys(news);
    var seen: set<RouteKey> := {};
    out := [];
    for i := 0 to |olds|
      invariant seen + keep == RouteKeys(olds[..i]) + keep
      invariant out == RemovedRoutes(olds[..i], news)
    {
      assert olds[..i + 1][..i] == olds[..i];
      assert RouteKeys(olds[..i + 1]) == RouteKeys(olds[..i]) + {RouteKeyOf(olds[i])} by {
        assert olds[..i + 1] == olds[..i] + [olds[i]];
      }
      var k := RouteKeyOf(olds[i]);
      assert k in seen + keep <==> k in RouteKeys(olds[..i]) || k in keep;
      if k !in keep && k !in seen {
        seen := seen + {k};
        out := out + [olds[i]];
      }
    }
    assert olds[..|olds|] == olds;
  }

  method PlanWithdrawals(vrfs: seq<Decl>, news: map<string, Body>) returns (r: seq<Op>)
    ensures r == Withdrawals(vrfs, news)
  {
    r := [];
    for i := 0 to |vrfs|
      invariant r == Withdrawals(vrfs[..i], news)
    {
      assert vrfs[..i + 1][..i] == vrfs[..i];
      var v := vrfs[i];
      var gone := v.body.routes;
      if v.name in news {
        gone := ComputeRemovedRoutes(v.body.routes, news[v.name].routes);
      }
      ghost var before := r;
      for j := 0 to |gone|
        invariant r == before + RouteOps(v.name, gone)[..j]
      {
        r := r + [RouteOp(v.name, gone[j])];
      }
    }
    assert vrfs[..|vrfs|] == vrfs;
  }

  method KeepL2(ds: seq<Decl>) returns (r: seq<Decl>)
    ensures r == L2Only(ds)
  {
    r := [];
    for i := 0 to |ds|
      invariant r == L2Only(ds[..i])
    {
      assert ds[..i + 1][..i] == ds[..i];
      if IsL2(ds[i]) {
        r := r + [ds[i]];
      }
    }
    assert ds[..|ds|] == ds;
  }

  /** `plan`: whatever the map iteration order, the operation list is the one of PlanOf. */
  method MakePlan(was: Config, next: Config) returns (ops: seq<Op>, o: Orders)
    ensures ValidOrders(was, o)
    ensures ops == PlanOf(was, next, o)
  {
    var cts := Iterate(ByName(was.containers));
    var vms := Iterate(ByName(was.machines));
    var sws := Iterate(ByName(was.switches));
    var vrfs := Iterate(ByName(was.vrfs));
    var bonds := Iterate(ByName(was.bonds));
    o := Orders(cts, vms, sws, vrfs, bonds);
    if next.refErrors {
      return [Op(Refuse, Skip, false)], o;
    }
    var additions := PlanAdditions(was, next);
    var removals := PlanRemovals(was, next, o);
    ops := additions + removals;
  }

  /** One of the `for _, x := range new.Xs` loops. */
  method PlanAdditionsOf(kind: Kind, was: Config, next: Config) returns (ops: seq<Op>)
    ensures ops == AdditionsOf(kind, was, next)
  {
    var ds := Listed(next, kind);
    if kind.BridgeDomain? {
      ds := KeepL2(next.switches);
    }
    ops := PlanUpserts(kind, ds, OldIndex(was, kind), if kind.Interface? then next.perDev else {});
  }

  method PlanAdditions(was: Config, next: Config) returns (ops: seq<Op>)
    ensures ops == Additions(was, next)
  {
    hide AdditionsOf, NatOps, LldpOps;
    var ports := PlanAdditionsOf(VnicPort, was, next);
    var acls := PlanAdditionsOf(Acl, was, next);
    var bonds := PlanAdditionsOf(Bond, was, next);
    var domains := PlanAdditionsOf(BridgeDomain, was, next);
    var vrfs := PlanAdditionsOf(Vrf, was, next);
    var nats := NatOps(was, next);
    var spans := PlanAdditionsOf(Span, was, next);
    var qos := PlanAdditionsOf(Qos, was, next);
    var lldps := LldpOps(was, next);
    var ifaces := PlanAdditionsOf(Interface, was, next);
    var vms := PlanAdditionsOf(Machine, was, next);
    var cts := PlanAdditionsOf(Container, was, next);
    ops := ports + acls + bonds + domains + vrfs + nats + spans + qos + lldps + ifaces + vms + cts;
  }

  /** One of the deletion loops. */
  method PlanRemovalsOf(kind: Kind, was: Config, next: Config, o: Orders) returns (ops: seq<Op>)
    ensures ops == RemovalsOf(kind, was, next, o)
  {
    var ds := RemovalOrder(kind, was, o);
    if kind.BridgeDomain? {
      ds := KeepL2(o.switches);
    }
    ops := PlanDeletes(kind, ds, Kept(kind, next));
  }

  method PlanRemovals(was: Config, next: Config, o: Orders) returns (ops: seq<Op>)
    ensures ops == Removals(was, next, o)
  {
    hide RemovalsOf;
    var cts := PlanRemovalsOf(Container, was, next, o);
    var vms := PlanRemovalsOf(Machine, was, next, o);
    var domains := PlanRemovalsOf(BridgeDomain, was, next, o);
    var routes := PlanWithdrawals(was.vrfs, ByName(next.vrfs));
    var vrfs := PlanRemovalsOf(Vrf, was, next, o);
    var bonds := PlanRemovalsOf(Bond, was, next, o);
    var ports := PlanRemovalsOf(VnicPort, was, next, o);
    var spans := PlanRemovalsOf(Span, was, next, o);
    var qos := PlanRemovalsOf(Qos, was, next, o);
    var acls := PlanRemovalsOf(Acl, was, next, o);
    ops := cts + vms + domains + routes + vrfs + bonds + ports + spans + qos + acls;
  }
}
