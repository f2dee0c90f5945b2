/**
  Commits for which the conditions of the main results on the orchestrator are met.
 */
module Witnesses {
  import opened Common
  import opened DataPlane
  import opened Plan
  import opened PlanFacts
  import opened Apply
  import opened Convergence
  import opened Atomicity
  import opened References

  function Healthy(): Oracle {
    (n: nat) => Done
  }

  /** If every provider call succeeds, every plan is applied. */
  lemma HealthyProvidersApply(was: Config, next: Config, o: Orders, s: State)
    requires WellNamed(was) && WellNamed(next) && ValidOrders(was, o) && !next.refErrors
    ensures RunPlan(PlanOf(was, next, o), s, Healthy()).1.Applied?
  {
    hide PlanOf, WellNamed, ValidOrders;
    PlanSound(was, next, o);
    NoFailure(PlanOf(was, next, o), 0, was, next);
  }

  lemma {:induction false} NoFailure(ops: seq<Op>, i: nat, was: Config, next: Config)
    requires AllSound(ops, was, next) && i <= |ops|
    ensures FirstFailure(ops, i, Healthy()) == |ops|
    decreases |ops| - i
  {
    if i < |ops| {
      assert SoundOp(ops[i], was, next);
      NoFailure(ops, i + 1, was, next);
    }
  }

  // ---------- a switch changes its type ----------

  const L3 := Body("l3", "", {}, [])
  const L2 := Body("l2", "", {}, [])
  const SMALL := Body("", "1", {}, [])
  const LARGE := Body("", "2", {}, [])

  /** One switch and one machine. */
  function Site(switch: Body, machine: Body): Config {
    Config(false, [], [], [], [Decl("s", switch)], [], None, [], [], None, {}, [], [Decl("m", machine)], [])
  }

  function SitePlane(): Plane {
    Plane(map[Key(Machine, "m") := SMALL, Key(Nat, "") := EMPTY_BODY, Key(Lldp, "") := EMPTY_BODY], {}, {}, {})
  }

  lemma OneNamed(d: Decl)
    ensures ByName([d]) == map[d.name := d.body] && ByName([]) == map[] && NamesOf([d]) == {d.name}
  {
    assert [d][..0] == [];
    assert ByName([d]) == ByName([])[d.name := d.body];
  }

  lemma SiteIndexes(switch: Body, machine: Body, kind: Kind)
    ensures var m := ByName(Listed(Site(switch, machine), kind));
      m == match kind
           case Machine => map["m" := machine]
           case BridgeDomain => if switch.tag == "l2" then map["s" := switch] else map[]
           case Nat => map["" := EMPTY_BODY]
           case Lldp => map["" := EMPTY_BODY]
           case _ => map[]
    ensures UniqueNames(Listed(Site(switch, machine), kind))
  {
    var d := Decl("s", switch);
    assert [d][..0] == [];
    assert L2Only([d]) == if IsL2(d) then [d] else [];
    OneNamed(d);
    OneNamed(Decl("m", machine));
    OneNamed(Decl("", EMPTY_BODY));
  }

  lemma SiteNamed(switch: Body, machine: Body)
    ensures WellNamed(Site(switch, machine))
  {
    forall kind: Kind ensures UniqueNames(Listed(Site(switch, machine), kind)) {
      SiteIndexes(switch, machine, kind);
    }
  }

  lemma SiteOrders()
    ensures ValidOrders(Site(L3, SMALL), Orders([], [Decl("m", SMALL)], [Decl("s", L3)], [], []))
  {
    OneNamed(Decl("s", L3));
    OneNamed(Decl("m", SMALL));
  }

  lemma SiteExact()
    ensures Exact(SitePlane(), Site(L3, SMALL))
  {
    forall k | InScope(k, Site(L3, SMALL)) ensures Lookup(SitePlane(), k) == Wanted(Site(L3, SMALL), k) {
      SiteIndexes(L3, SMALL, k.kind);
      assert k == Key(k.kind, k.name);
    }
    assert WantedRoutes(Site(L3, SMALL)) == {};
  }

  /** The switch of a site goes from l3 to l2 and its machine cannot be changed: after a clean compensation a bridge domain is left over. */
  lemma SwitchTypeExample() returns (o: Orders, s: State, w: Oracle)
    ensures var was, next := Site(L3, SMALL), Site(L2, LARGE);
      && WellNamed(was) && WellNamed(next) && ValidOrders(was, o) && !next.refErrors && Exact(s.plane, was)
      && var (t, report) := RunPlan(PlanOf(was, next, o), s, w);
         report.Rejected? && report.residue == [] && Lookup(t.plane, Key(BridgeDomain, "s")) != Wanted(was, Key(BridgeDomain, "s"))
  {
    var was, next := Site(L3, SMALL), Site(L2, LARGE);
    o := Orders([], [Decl("m", SMALL)], [Decl("s", L3)], [], []);
    s := State(SitePlane(), {});
    SiteNamed(L3, SMALL);
    SiteNamed(L2, LARGE);
    SiteOrders();
    SiteExact();
    SiteIndexes(L3, SMALL, BridgeDomain);
    SiteIndexes(L2, LARGE, BridgeDomain);
    SiteIndexes(L3, SMALL, Machine);
    SiteIndexes(L2, LARGE, Machine);
    OneNamed(Decl("s", L3));
    hide PlanOf, RunPlan, ValidOrders, WellNamed, Exact, ByName, Listed;
    var i := MachineFollows(was, next, o, Key(BridgeDomain, "s"), Key(Machine, "m"));
    w := TypeChangeIsNotUndone(was, next, o, s, Key(BridgeDomain, "s"), i);
  }

  // ---------- references that dangle in the middle of a plan ----------

  /** One l2 switch, and at most one VRF, bond and mirroring session. */
  function Plant(switch: Body, vrfs: seq<Decl>, bonds: seq<Decl>, spans: seq<Decl>): Config {
    Config(false, [], [], bonds, [Decl("s", switch)], vrfs, None, spans, [], None, {}, [], [], [])
  }

  predicate Small(ds: seq<Decl>) {
    |ds| <= 1
  }

  function Entry(ds: seq<Decl>): map<string, Body>
    requires Small(ds)
  {
    if ds == [] then map[] else map[ds[0].name := ds[0].body]
  }

  lemma {:induction false} SmallIndex(ds: seq<Decl>)
    requires Small(ds)
    ensures ByName(ds) == Entry(ds) && UniqueNames(ds)
  {
    if ds != [] {
      OneNamed(ds[0]);
      assert ds == [ds[0]];
    }
  }

  lemma PlantIndexes(switch: Body, vrfs: seq<Decl>, bonds: seq<Decl>, spans: seq<Decl>, kind: Kind)
    requires IsL2(Decl("s", switch)) && Small(vrfs) && Small(bonds) && Small(spans)
    ensures var ds := Listed(Plant(switch, vrfs, bonds, spans), kind);
      UniqueNames(ds) && ByName(ds) ==
        match kind
        case BridgeDomain => map["s" := switch]
        case Nat => map["" := EMPTY_BODY]
        case Lldp => map["" := EMPTY_BODY]
        case Vrf => Entry(vrfs)
        case Bond => Entry(bonds)
        case Span => Entry(spans)
        case _ => map[]
  {
    var ds := Listed(Plant(switch, vrfs, bonds, spans), kind);
    PlantListed(switch, vrfs, bonds, spans, kind);
    hide Listed, Plant, ByName, UniqueNames;
    SmallIndex(ds);
  }

  lemma PlantListed(switch: Body, vrfs: seq<Decl>, bonds: seq<Decl>, spans: seq<Decl>, kind: Kind)
    requires IsL2(Decl("s", switch)) && Small(vrfs) && Small(bonds) && Small(spans)
    ensures Listed(Plant(switch, vrfs, bonds, spans), kind) ==
      match kind
      case BridgeDomain => [Decl("s", switch)]
      case Nat => [Decl("", EMPTY_BODY)]
      case Lldp => [Decl("", EMPTY_BODY)]
      case Vrf => vrfs
      case Bond => bonds
      case Span => spans
      case _ => []
  {
    OnlyL2(Decl("s", switch));
    hide L2Only;
  }

  lemma OnlyL2(d: Decl)
    requires IsL2(d)
    ensures L2Only([d]) == [d]
  {
    assert [d][..0] == [];
  }

  lemma PlantNamed(switch: Body, vrfs: seq<Decl>, bonds: seq<Decl>, spans: seq<Decl>)
    requires IsL2(Decl("s", switch)) && Small(vrfs) && Small(bonds) && Small(spans)
    ensures WellNamed(Plant(switch, vrfs, bonds, spans))
  {
    forall kind: Kind ensures UniqueNames(Listed(Plant(switch, vrfs, bonds, spans), kind)) {
      PlantIndexes(switch, vrfs, bonds, spans, kind);
    }
  }

  /** The data plane of a plant without VRFs. */
  function PlantPlane(switch: Body, bonds: seq<Decl>, spans: seq<Decl>): Plane
    requires Small(bonds) && Small(spans)
  {
    var fixed := map[Key(BridgeDomain, "s") := switch, Key(Nat, "") := EMPTY_BODY, Key(Lldp, "") := EMPTY_BODY];
    var bond := if bonds == [] then map[] else map[Key(Bond, bonds[0].name) := bonds[0].body];
    var span := if spans == [] then map[] else map[Key(Span, spans[0].name) := spans[0].body];
    Plane(fixed + bond + span, {}, {}, {})
  }

  lemma PlantStarts(switch: Body, bonds: seq<Decl>, spans: seq<Decl>)
    requires IsL2(Decl("s", switch)) && Small(bonds) && Small(spans)
    ensures Starts(PlantPlane(switch, bonds, spans), Plant(switch, [], bonds, spans))
  {
    var c := Plant(switch, [], bonds, spans);
    forall k | InScope(k, c) ensures Lookup(PlantPlane(switch, bonds, spans), k) == Wanted(c, k) {
      PlantIndexes(switch, [], bonds, spans, k.kind);
      hide ByName, Listed, UniqueNames, InScope, Plant;
      assert k == Key(k.kind, k.name);
      PlantHolds(switch, bonds, spans, k);
    }
  }

  /** What stands under a key of the plant's data plane. */
  lemma PlantHolds(switch: Body, bonds: seq<Decl>, spans: seq<Decl>, k: Key)
    requires Small(bonds) && Small(spans)
    ensures var m :=
        match k.kind
        case BridgeDomain => map["s" := switch]
        case Nat => map["" := EMPTY_BODY]
        case Lldp => map["" := EMPTY_BODY]
        case Bond => Entry(bonds)
        case Span => Entry(spans)
        case _ => map[];
      Lookup(PlantPlane(switch, bonds, spans), k) == if k.name in m then Some(m[k.name]) else None
  {
    assert k == Key(k.kind, k.name);
  }

  lemma PlantOrders(switch: Body, bonds: seq<Decl>, spans: seq<Decl>)
    requires Small(bonds)
    ensures ValidOrders(Plant(switch, [], bonds, spans), Orders([], [], [Decl("s", switch)], [], bonds))
  {
    OneNamed(Decl("s", switch));
    SmallIndex(bonds);
    assert IsIterationOf(bonds, Entry(bonds));
  }

  const ROUTED := Body("l2", "", {Key(Vrf, "v")}, [])
  const WATCHING := Body("", "", {Key(Bond, "b")}, [])

  const GATEWAY: Key := Key(BridgeDomain, "s")
  const TABLE: Key := Key(Vrf, "v")
  const SESSION: Key := Key(Span, "m")
  const WATCHED: Key := Key(Bond, "b")

  function Unrouted(): Config {
    Plant(L2, [], [], [])
  }

  function Routed(): Config {
    Plant(ROUTED, [Decl("v", EMPTY_BODY)], [], [])
  }

  function Watched(): Config {
    Plant(L2, [], [Decl("b", EMPTY_BODY)], [Decl("m", WATCHING)])
  }

  function OneSwitch(bonds: seq<Decl>): Orders {
    Orders([], [], [Decl("s", L2)], [], bonds)
  }

  lemma PlantsNamed()
    ensures WellNamed(Unrouted()) && WellNamed(Routed()) && WellNamed(Watched())
    ensures !Unrouted().refErrors && !Routed().refErrors
  {
    PlantNamed(L2, [], [], []);
    PlantNamed(ROUTED, [Decl("v", EMPTY_BODY)], [], []);
    PlantNamed(L2, [], [Decl("b", EMPTY_BODY)], [Decl("m", WATCHING)]);
    hide WellNamed;
  }

  lemma GatewayPlants()
    ensures GATEWAY.kind == BridgeDomain && TABLE.kind == Vrf
    ensures Wanted(Unrouted(), GATEWAY) == Some(L2) && Wanted(Unrouted(), TABLE).None?
    ensures Wanted(Routed(), GATEWAY) == Some(ROUTED) && Wanted(Routed(), TABLE).Some?
  {
    var vrfs := [Decl("v", EMPTY_BODY)];
    PlantIndexes(L2, [], [], [], BridgeDomain);
    PlantIndexes(L2, [], [], [], Vrf);
    PlantIndexes(ROUTED, vrfs, [], [], BridgeDomain);
    PlantIndexes(ROUTED, vrfs, [], [], Vrf);
    hide ByName, Listed, UniqueNames;
  }

  lemma GatewayIsExposed()
    ensures Resolves(Unrouted(), GATEWAY, TABLE) && Resolves(Routed(), GATEWAY, TABLE)
    ensures RefersTo(Routed(), GATEWAY, TABLE)
  {
    GatewayPlants();
    hide Wanted, Unrouted, Routed;
  }

  lemma MirrorPlants()
    ensures SESSION.kind == Span && WATCHED.kind == Bond
    ensures Wanted(Watched(), SESSION) == Some(WATCHING) && Wanted(Watched(), WATCHED).Some?
    ensures Wanted(Unrouted(), SESSION).None? && Wanted(Unrouted(), WATCHED).None?
  {
    var bonds, spans := [Decl("b", EMPTY_BODY)], [Decl("m", WATCHING)];
    PlantIndexes(L2, [], bonds, spans, Span);
    PlantIndexes(L2, [], bonds, spans, Bond);
    PlantIndexes(L2, [], [], [], Span);
    PlantIndexes(L2, [], [], [], Bond);
    hide ByName, Listed, UniqueNames;
  }

  lemma MirrorIsExposed()
    ensures Resolves(Watched(), SESSION, WATCHED) && Resolves(Unrouted(), SESSION, WATCHED)
    ensures RefersTo(Watched(), SESSION, WATCHED)
  {
    MirrorPlants();
    hide Wanted, Unrouted, Watched;
  }

  lemma PlantStates() returns (unrouted: State, watched: State)
    ensures Starts(unrouted.plane, Unrouted()) && ValidOrders(Unrouted(), OneSwitch([]))
    ensures Starts(watched.plane, Watched()) && ValidOrders(Watched(), OneSwitch([Decl("b", EMPTY_BODY)]))
  {
    var bonds, spans := [Decl("b", EMPTY_BODY)], [Decl("m", WATCHING)];
    unrouted, watched := State(PlantPlane(L2, [], []), {}), State(PlantPlane(L2, bonds, spans), {});
    PlantStarts(L2, [], []);
    PlantStarts(L2, bonds, spans);
    PlantOrders(L2, [], []);
    PlantOrders(L2, bonds, spans);
    hide Starts, ValidOrders, PlantPlane;
  }

  /** A switch that exists gets a gateway into a VRF of the same commit: for a moment the VRF is missing. */
  lemma GatewayExample() returns (s: State)
    ensures Starts(s.plane, Unrouted())
    ensures RunPlan(PlanOf(Unrouted(), Routed(), OneSwitch([])), s, Healthy()).1.Applied?
    ensures DanglesSometime(PlanOf(Unrouted(), Routed(), OneSwitch([])), s, Healthy(), GATEWAY, TABLE)
  {
    hide *;
    PlantsNamed();
    GatewayPlants();
    GatewayIsExposed();
    var other;
    s, other := PlantStates();
    HealthyProvidersApply(Unrouted(), Routed(), OneSwitch([]), s);
    GatewayDangles(Unrouted(), Routed(), OneSwitch([]), s, Healthy(), GATEWAY, TABLE);
  }

  /** A session and the bond it watches are removed together: for a moment the session watches nothing. */
  lemma MirrorExample() returns (s: State)
    ensures Starts(s.plane, Watched())
    ensures RunPlan(PlanOf(Watched(), Unrouted(), OneSwitch([Decl("b", EMPTY_BODY)])), s, Healthy()).1.Applied?
    ensures DanglesSometime(PlanOf(Watched(), Unrouted(), OneSwitch([Decl("b", EMPTY_BODY)])), s, Healthy(), SESSION, WATCHED)
  {
    hide *;
    PlantsNamed();
    MirrorPlants();
    MirrorIsExposed();
    var other;
    other, s := PlantStates();
    HealthyProvidersApply(Watched(), Unrouted(), OneSwitch([Decl("b", EMPTY_BODY)]), s);
    MirrorDangles(Watched(), Unrouted(), OneSwitch([Decl("b", EMPTY_BODY)]), s, Healthy(), SESSION, WATCHED);
  }
}
