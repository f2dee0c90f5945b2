/**
  What a plan touches, exactly, in terms of the two configurations alone: an object is applied if
  and only if its declaration is new or different, and deleted if and only if it is gone; an
  object that is declared as before is named by no operation.
 */
module PlanExact {
  import opened Common
  import opened DataPlane
  import opened Plan
  import opened PlanFacts
  import opened Apply
  import opened Convergence
  import opened Atomicity

  // ---------- what a configuration declares ----------

  predicate InList(ds: seq<Decl>, k: Key, b: Body) {
    Decl(k.name, b) in ds
  }

  /** The data plane object `k` is declared with content `b`; an absent nat or lldp section is the empty one. */
  predicate Declares(c: Config, k: Key, b: Body) {
    match k.kind
    case VnicPort => InList(c.ports, k, b)
    case Acl => InList(c.acls, k, b)
    case Bond => InList(c.bonds, k, b)
    case BridgeDomain => InList(c.switches, k, b) && b.tag == "l2"
    case Vrf => InList(c.vrfs, k, b)
    case Nat => k.name == "" && b == (if c.natConfig.Some? then c.natConfig.value else Body("", "", {}, []))
    case Span => InList(c.spans, k, b)
    case Qos => InList(c.qos, k, b)
    case Lldp =>
      k.name == "" && b == (if c.protocols.Some? && c.protocols.value.Some? then c.protocols.value.value else Body("", "", {}, []))
    case Interface => InList(c.interfaces, k, b)
    case Machine => InList(c.machines, k, b)
    case Container => InList(c.containers, k, b)
  }

  predicate IsSingleton(k: Key) {
    k.kind.Nat? || k.kind.Lldp?
  }

  lemma {:induction false} ListedAt(ds: seq<Decl>, k: Key, b: Body)
    requires UniqueNames(ds)
    ensures InList(ds, k, b) <==> k.name in ByName(ds) && ByName(ds)[k.name] == b
  {
    ByNameFacts(ds);
    ByNameUnique(ds);
  }

  predicate IsLast(ds: seq<Decl>, name: string, i: nat) {
    i < |ds| && ds[i].name == name && forall j :: i < j < |ds| ==> ds[j].name != name
  }

  /** In an index a later declaration of the same name wins. */
  lemma {:induction false} LastDeclarationCounts(ds: seq<Decl>, name: string, i: nat)
    requires IsLast(ds, name, i)
    ensures name in ByName(ds) && ByName(ds)[name] == ds[i].body
  {
    var n := |ds| - 1;
    if i < n {
      assert forall j :: 0 <= j < n ==> ds[..n][j] == ds[j];
      LastDeclarationCounts(ds[..n], name, i);
    }
  }

  /** What the plan is made to reach is what the configuration declares. */
  lemma WantedIsDeclared(c: Config, k: Key, b: Body)
    requires WellNamed(c)
    ensures Wanted(c, k) == Some(b) <==> Declares(c, k, b)
  {
    assert UniqueNames(Listed(c, k.kind));
    ListedAt(Listed(c, k.kind), k, b);
    if k.kind.BridgeDomain? {
      L2OnlyFacts(c.switches);
    } else if IsSingleton(k) {
      var d := Listed(c, k.kind)[0];
      assert Listed(c, k.kind) == [d];
      assert InList([d], k, b) <==> Decl(k.name, b) == d;
    }
  }

  lemma RoutesAreDeclared(c: Config, e: FibEntry)
    ensures e in WantedRoutes(c) <==>
      exists v, r :: v in c.vrfs && r in v.body.routes && v.name == e.table && e.dst == RouteKey(r.prefix, r.nextHop)
  {
    if e in WantedRoutes(c) {
      var i, j :| 0 <= i < |c.vrfs| && 0 <= j < |c.vrfs[i].body.routes|
        && e == FibEntry(c.vrfs[i].name, RouteKeyOf(c.vrfs[i].body.routes[j]));
      var v := c.vrfs[i];
      assert v in c.vrfs && v.body.routes[j] in v.body.routes;
    }
    if v, r :| v in c.vrfs && r in v.body.routes && v.name == e.table && e.dst == RouteKey(r.prefix, r.nextHop) {
      var i :| 0 <= i < |c.vrfs| && c.vrfs[i] == v;
      var j :| 0 <= j < |v.body.routes| && v.body.routes[j] == r;
      assert e == FibEntry(c.vrfs[i].name, RouteKeyOf(c.vrfs[i].body.routes[j]));
    }
  }

  // ---------- no operation without a difference ----------

  predicate Puts(op: Op, k: Key, b: Body) {
    op.run.Put? && op.run.key == k && op.run.body == b
  }

  predicate Dels(op: Op, k: Key) {
    op.run.Del? && op.run.key == k
  }

  lemma {:induction false} UpsertsDiffer(kind: Kind, ds: seq<Decl>, olds: map<string, Body>, perDev: set<string>)
    ensures forall op :: op in Upserts(kind, ds, olds, perDev) ==>
      && op.run.Put? && op.run.key.kind == kind
      && !(op.run.key.name in olds && olds[op.run.key.name] == op.run.body)
  {
    if ds != [] {
      UpsertsDiffer(kind, ds[..|ds| - 1], olds, perDev);
    }
  }

  lemma {:induction false} WithdrawalsAre(vrfs: seq<Decl>, news: map<string, Body>)
    ensures forall op :: op in Withdrawals(vrfs, news) ==> Gone(op)
  {
    if vrfs != [] {
      WithdrawalsAre(vrfs[..|vrfs| - 1], news);
    }
  }

  /** An addition changes its object; a singleton's section differs. */
  predicate Fresh(op: Op, was: Config, next: Config) {
    && op.run.Put?
    && match op.run.key.kind
       case Nat => was.natConfig != next.natConfig
       case Lldp => was.protocols != next.protocols
       case _ => RestoreTarget(was, op.run.key) != Some(op.run.body)
  }

  predicate Gone(op: Op) {
    op.run.DelRoute? || op.run.Del?
  }

  lemma AdditionsFresh(kind: Kind, was: Config, next: Config)
    requires !kind.Nat? && !kind.Lldp?
    ensures forall op :: op in AdditionsOf(kind, was, next) ==> Fresh(op, was, next)
  {
    UpsertsDiffer(kind, Listed(next, kind), OldIndex(was, kind), if kind.Interface? then next.perDev else {});
    hide Upserts, ByName;
  }

  lemma SectionsFresh(was: Config, next: Config, op: Op)
    requires op in NatOps(was, next) || op in LldpOps(was, next)
    ensures Fresh(op, was, next)
  {
  }

  ghost predicate FromLoop(op: Op, kind: Kind, was: Config, next: Config) {
    !kind.Nat? && !kind.Lldp? && op in AdditionsOf(kind, was, next)
  }

  lemma AdditionFrom(was: Config, next: Config, op: Op)
    requires op in Additions(was, next)
    ensures op in NatOps(was, next) || op in LldpOps(was, next) || exists kind :: FromLoop(op, kind, was, next)
  {
    hide AdditionsOf, NatOps, LldpOps, FromLoop;
    if op !in NatOps(was, next) && op !in LldpOps(was, next) {
      AdditionKind(was, next, op);
    }
  }

  lemma AdditionKind(was: Config, next: Config, op: Op)
    requires op in Additions(was, next) && op !in NatOps(was, next) && op !in LldpOps(was, next)
    ensures exists kind :: FromLoop(op, kind, was, next)
  {
    hide AdditionsOf, NatOps, LldpOps;
    var kind :=
      if op in AdditionsOf(VnicPort, was, next) then VnicPort
      else if op in AdditionsOf(Acl, was, next) then Acl
      else if op in AdditionsOf(Bond, was, next) then Bond
      else if op in AdditionsOf(BridgeDomain, was, next) then BridgeDomain
      else if op in AdditionsOf(Vrf, was, next) then Vrf
      else if op in AdditionsOf(Span, was, next) then Span
      else if op in AdditionsOf(Qos, was, next) then Qos
      else if op in AdditionsOf(Interface, was, next) then Interface
      else if op in AdditionsOf(Machine, was, next) then Machine
      else Container;
    assert FromLoop(op, kind, was, next);
  }

  lemma AdditionFresh(was: Config, next: Config, op: Op)
    requires op in Additions(was, next)
    ensures Fresh(op, was, next)
  {
    AdditionFrom(was, next, op);
    hide Additions, NatOps, LldpOps, AdditionsOf, Fresh;
    if op in NatOps(was, next) || op in LldpOps(was, next) {
      SectionsFresh(was, next, op);
    } else {
      var kind :| FromLoop(op, kind, was, next);
      AdditionsFresh(kind, was, next);
    }
  }

  lemma RemovalsGone(kind: Kind, was: Config, next: Config, o: Orders)
    ensures forall op :: op in RemovalsOf(kind, was, next, o) ==> Gone(op)
  {
    DeletesMembers(kind, RemovalOrder(kind, was, o), Kept(kind, next));
    hide Deletes;
  }

  lemma AllRemovalsGone(was: Config, next: Config, o: Orders)
    ensures forall op :: op in Removals(was, next, o) ==> Gone(op)
  {
    RemovalsGone(Container, was, next, o);
    RemovalsGone(Machine, was, next, o);
    RemovalsGone(BridgeDomain, was, next, o);
    WithdrawalsAre(was.vrfs, ByName(next.vrfs));
    RemovalsGone(Vrf, was, next, o);
    RemovalsGone(Bond, was, next, o);
    RemovalsGone(VnicPort, was, next, o);
    RemovalsGone(Span, was, next, o);
    RemovalsGone(Qos, was, next, o);
    RemovalsGone(Acl, was, next, o);
    assert forall op :: op in WithdrawalOps(was, next) ==> Gone(op);
    hide RemovalsOf, WithdrawalOps, Gone;
  }

  lemma PlanMembers(was: Config, next: Config, o: Orders, op: Op)
    requires !next.refErrors && op in PlanOf(was, next, o)
    ensures Fresh(op, was, next) || Gone(op)
  {
    AllRemovalsGone(was, next, o);
    hide Additions, Removals, Fresh, Gone;
    if op in Additions(was, next) {
      AdditionFresh(was, next, op);
    }
  }

  // ---------- exactness ----------

  /** An old switch of another type is no reason not to create the domain: its content differs in the type. */
  lemma FreshDiffers(was: Config, next: Config, k: Key, b: Body)
    requires WellNamed(was) && WellNamed(next) && Wanted(next, k) == Some(b)
    ensures RestoreTarget(was, k) == Some(b) <==> Wanted(was, k) == Some(b)
  {
    if k.kind.BridgeDomain? {
      ByNameFacts(was.switches);
      ByNameUnique(was.switches);
      L2OnlyFacts(was.switches);
      L2OnlyFacts(next.switches);
      ByNameUnique(Listed(was, BridgeDomain));
      ByNameFacts(Listed(was, BridgeDomain));
      ByNameFacts(Listed(next, BridgeDomain));
    }
  }

  lemma SoundMember(was: Config, next: Config, o: Orders, op: Op)
    requires WellNamed(was) && WellNamed(next) && ValidOrders(was, o) && !next.refErrors && op in PlanOf(was, next, o)
    ensures SoundOp(op, was, next)
  {
    PlanBlock(was, next, o);
    hide PlanOf, ValidOrders, WellNamed, SoundOp;
  }

  lemma PutSound(was: Config, next: Config, o: Orders, op: Op, k: Key, b: Body)
    requires WellNamed(was) && WellNamed(next) && ValidOrders(was, o) && !next.refErrors
    requires op in PlanOf(was, next, o) && Puts(op, k, b)
    ensures Wanted(next, k) == Some(b)
    ensures match k.kind
      case Nat => was.natConfig != next.natConfig
      case Lldp => was.protocols != next.protocols
      case _ => Wanted(was, k) != Some(b)
  {
    SoundMember(was, next, o, op);
    PlanMembers(was, next, o, op);
    SoundPut(op, k, b, was, next);
    FreshPut(op, k, b, was, next);
    hide *;
    FreshDiffers(was, next, k, b);
  }

  lemma SoundPut(op: Op, k: Key, b: Body, was: Config, next: Config)
    requires SoundOp(op, was, next) && Moves(op, k)
    ensures Puts(op, k, b) ==> Wanted(next, k) == Some(b)
    ensures Wanted(next, k).Some? ==> Puts(op, k, Wanted(next, k).value)
  {
    hide Wanted;
  }

  lemma FreshPut(op: Op, k: Key, b: Body, was: Config, next: Config)
    requires (Fresh(op, was, next) || Gone(op)) && Puts(op, k, b)
    ensures match k.kind
      case Nat => was.natConfig != next.natConfig
      case Lldp => was.protocols != next.protocols
      case _ => RestoreTarget(was, k) != Some(b)
  {
    hide RestoreTarget;
  }

  lemma SoundDel(op: Op, k: Key, was: Config, next: Config)
    requires SoundOp(op, was, next) && Moves(op, k)
    ensures Dels(op, k) ==>
      && Wanted(next, k).None? && Wanted(was, k).Some? && !k.kind.Interface?
      && (k.kind.BridgeDomain? ==> k.name !in NamesOf(next.switches))
    ensures Wanted(next, k).None? ==> Dels(op, k)
  {
    hide Wanted;
  }

  lemma PutComplete(was: Config, next: Config, o: Orders, k: Key, b: Body)
    requires WellNamed(was) && WellNamed(next) && ValidOrders(was, o) && !next.refErrors
    requires Wanted(next, k) == Some(b) && Wanted(was, k) != Some(b)
    ensures exists op :: op in PlanOf(was, next, o) && Puts(op, k, b)
  {
    hide PlanOf, ValidOrders, Wanted, WellNamed, SoundOp, Moves, Puts;
    PlanComplete(was, next, o, k);
    var op :| op in PlanOf(was, next, o) && Moves(op, k);
    SoundMember(was, next, o, op);
    SoundPut(op, k, b, was, next);
  }

  /** An object is applied, with this content, exactly if this is its declaration and was not before. */
  lemma PutsExactly(was: Config, next: Config, o: Orders, k: Key, b: Body)
    requires WellNamed(was) && WellNamed(next) && ValidOrders(was, o) && !next.refErrors
    ensures (exists op :: op in PlanOf(was, next, o) && Puts(op, k, b)) <==>
      Declares(next, k, b) && match k.kind
        case Nat => was.natConfig != next.natConfig
        case Lldp => was.protocols != next.protocols
        case _ => !Declares(was, k, b)
  {
    WantedIsDeclared(was, k, b);
    WantedIsDeclared(next, k, b);
    hide PlanOf, ValidOrders, Wanted, WellNamed, Declares, Puts;
    if op :| op in PlanOf(was, next, o) && Puts(op, k, b) {
      PutSound(was, next, o, op, k, b);
    }
    if Declares(next, k, b) {
      if IsSingleton(k) {
        if (if k.kind.Nat? then was.natConfig != next.natConfig else was.protocols != next.protocols) {
          SingletonPut(was, next, o, k, b);
        }
      } else if !Declares(was, k, b) {
        PutComplete(was, next, o, k, b);
      }
    }
  }

  lemma SingletonPut(was: Config, next: Config, o: Orders, k: Key, b: Body)
    requires !next.refErrors && IsSingleton(k) && Declares(next, k, b)
    requires if k.kind.Nat? then was.natConfig != next.natConfig else was.protocols != next.protocols
    ensures exists op :: op in PlanOf(was, next, o) && Puts(op, k, b)
  {
    var op := if k.kind.Nat? then NatOps(was, next)[0] else LldpOps(was, next)[0];
    InAdditions(op, k.kind, was, next);
    assert op in PlanOf(was, next, o) && Puts(op, k, b);
  }

  /**
    An object is deleted exactly if it was declared and no longer is; interfaces and the nat and
    lldp sections never are, and a bridge domain only if no switch of its name is left.
   */
  lemma DelsExactly(was: Config, next: Config, o: Orders, k: Key)
    requires WellNamed(was) && WellNamed(next) && ValidOrders(was, o) && !next.refErrors
    ensures (exists op :: op in PlanOf(was, next, o) && Dels(op, k)) <==>
      && !k.kind.Interface? && !IsSingleton(k)
      && (exists b :: Declares(was, k, b)) && (forall b :: !Declares(next, k, b))
      && (k.kind.BridgeDomain? ==> forall d :: d in next.switches ==> d.name != k.name)
  {
    SomeDeclared(was, k);
    SomeDeclared(next, k);
    SingletonsStay(next, k);
    hide Declares, PlanOf, ValidOrders, Wanted, WellNamed, SoundOp;
    if op :| op in PlanOf(was, next, o) && Dels(op, k) {
      SoundMember(was, next, o, op);
      SoundDel(op, k, was, next);
    }
    hide Moves, Dels;
    if !k.kind.Interface? && !IsSingleton(k) && Wanted(was, k).Some? && Wanted(next, k).None?
      && (k.kind.BridgeDomain? ==> forall d :: d in next.switches ==> d.name != k.name)
    {
      PlanComplete(was, next, o, k);
      var op :| op in PlanOf(was, next, o) && Moves(op, k);
      SoundMember(was, next, o, op);
      SoundDel(op, k, was, next);
    }
  }

  lemma SomeDeclared(c: Config, k: Key)
    requires WellNamed(c)
    ensures (exists b :: Declares(c, k, b)) <==> Wanted(c, k).Some?
  {
    forall b ensures Declares(c, k, b) <==> Wanted(c, k) == Some(b) {
      WantedIsDeclared(c, k, b);
    }
    hide Declares, Wanted;
    if Wanted(c, k).Some? {
      assert Declares(c, k, Wanted(c, k).value);
    }
  }

  lemma SingletonsStay(c: Config, k: Key)
    ensures IsSingleton(k) && Wanted(c, k).None? ==> k.name != ""
    ensures IsSingleton(k) && k.name != "" ==> forall d: Config :: Wanted(d, k).None?
  {
    forall d: Config | IsSingleton(k) ensures Wanted(d, k).Some? <==> k.name == "" {
      ByNameFacts(Listed(d, k.kind));
    }
  }

  /** A route is withdrawn exactly if it was declared and no longer is, by prefix and next hop. */
  lemma WithdrawnExactly(was: Config, next: Config, o: Orders, e: FibEntry)
    requires WellNamed(was) && WellNamed(next) && ValidOrders(was, o) && !next.refErrors
    ensures (exists op :: op in PlanOf(was, next, o) && op.run.DelRoute? && op.run.table == e.table && RouteKeyOf(op.run.route) == e.dst) <==>
      e in WantedRoutes(was) - WantedRoutes(next)
  {
    hide PlanOf, ValidOrders, WellNamed, WantedRoutes, Wanted, RestoreTarget;
    if op :| op in PlanOf(was, next, o) && op.run.DelRoute? && op.run.table == e.table && RouteKeyOf(op.run.route) == e.dst {
      SoundMember(was, next, o, op);
      assert e == FibEntry(op.run.table, RouteKeyOf(op.run.route));
    }
    if e in WantedRoutes(was) - WantedRoutes(next) {
      RoutesComplete(was, next, o, e);
      var r :| RouteOp(e.table, r) in PlanOf(was, next, o) && RouteKeyOf(r) == e.dst;
      var op := RouteOp(e.table, r);
      assert op in PlanOf(was, next, o) && op.run.DelRoute?;
    }
  }

  /** Only settings of interfaces with a per-device entry, and removals of VRFs, may be put off. */
  lemma PutOffExactly(was: Config, next: Config, o: Orders, op: Op)
    requires WellNamed(was) && WellNamed(next) && ValidOrders(was, o) && !next.refErrors && op in PlanOf(was, next, o)
    ensures op.run.Put? ==> (op.run.deferrable <==> op.run.key.kind.Interface? && op.run.key.name in next.perDev)
    ensures op.run.Del? ==> (op.run.tolerant <==> op.run.key.kind.Vrf?)
  {
    SoundMember(was, next, o, op);
    hide PlanOf, ValidOrders, WellNamed, Wanted, WantedRoutes;
  }

  // ---------- what is declared as before is left alone ----------

  /** The declaration of the object is the same in both configurations. */
  ghost predicate SameDeclaration(was: Config, next: Config, k: Key) {
    match k.kind
    case Nat => was.natConfig == next.natConfig
    case Lldp => was.protocols == next.protocols
    case _ => exists b :: Declares(was, k, b) && Declares(next, k, b)
  }

  lemma NotNamed(was: Config, next: Config, o: Orders, k: Key)
    requires WellNamed(was) && WellNamed(next) && ValidOrders(was, o) && !next.refErrors
    requires SameDeclaration(was, next, k)
    ensures forall op :: op in PlanOf(was, next, o) ==> !Moves(op, k)
  {
    forall op | op in PlanOf(was, next, o) ensures !Moves(op, k) {
      if Moves(op, k) {
        MovedDiffers(was, next, o, op, k);
        assert false;
      }
    }
  }

  lemma MovedDiffers(was: Config, next: Config, o: Orders, op: Op, k: Key)
    requires WellNamed(was) && WellNamed(next) && ValidOrders(was, o) && !next.refErrors
    requires op in PlanOf(was, next, o) && Moves(op, k)
    ensures !SameDeclaration(was, next, k)
  {
    if op.run.Put? {
      PutsExactly(was, next, o, k, op.run.body);
      assert Puts(op, k, op.run.body);
      OneDeclaration(next, k);
    } else {
      DelsExactly(was, next, o, k);
      assert Dels(op, k);
    }
    hide PlanOf, ValidOrders, WellNamed, Declares;
  }

  lemma OneDeclaration(c: Config, k: Key)
    requires WellNamed(c)
    ensures forall b, d :: Declares(c, k, b) && Declares(c, k, d) ==> b == d
  {
    forall b, d | Declares(c, k, b) && Declares(c, k, d) ensures b == d {
      WantedIsDeclared(c, k, b);
      WantedIsDeclared(c, k, d);
    }
  }

  /** Whatever the providers answer and however the commit ends, it stays as it was. */
  lemma UnchangedStays(was: Config, next: Config, o: Orders, s: State, w: Oracle, k: Key)
    requires WellNamed(was) && WellNamed(next) && ValidOrders(was, o) && !next.refErrors
    requires SameDeclaration(was, next, k)
    ensures Lookup(RunPlan(PlanOf(was, next, o), s, w).0.plane, k) == Lookup(s.plane, k)
  {
    hide *;
    NotNamed(was, next, o, k);
    PlanSound(was, next, o);
    UnmovedStays(PlanOf(was, next, o), s, w, k, was, next);
  }

  /** A vNIC that names no switch: the commit is rejected before anything is touched. */
  lemma UnplacedVnicRefused(was: Config, next: Config, o: Orders, s: State, w: Oracle)
    requires next.refErrors
    ensures RunPlan(PlanOf(was, next, o), s, w) == (s, Rejected(0, []))
  {
    RefusedPlan(s, w);
  }

  // ---------- withdrawn routes ----------

  /** Where a route with this identity is first declared; |rs| if nowhere. */
  function FirstAt(rs: seq<Route>, key: RouteKey): (i: nat)
    ensures i <= |rs| && (i < |rs| ==> RouteKeyOf(rs[i]) == key) && forall j :: 0 <= j < i ==> RouteKeyOf(rs[j]) != key
  {
    if rs == [] then 0 else if RouteKeyOf(rs[0]) == key then 0 else 1 + FirstAt(rs[1..], key)
  }

  lemma {:induction false} FirstIs(rs: seq<Route>, key: RouteKey, i: nat)
    requires i <= |rs| && (i < |rs| ==> RouteKeyOf(rs[i]) == key) && forall j :: 0 <= j < i ==> RouteKeyOf(rs[j]) != key
    ensures FirstAt(rs, key) == i
  {
  }

  /** Each route is the first declaration of its identity, and declaration order is kept. */
  predicate OnceInOrder(olds: seq<Route>, out: seq<Route>) {
    && (forall i :: 0 <= i < |out| ==> IsFirst(olds, out[i]))
    && (forall i, j :: 0 <= i < j < |out| ==> FirstAt(olds, RouteKeyOf(out[i])) < FirstAt(olds, RouteKeyOf(out[j])))
  }

  predicate IsFirst(olds: seq<Route>, r: Route) {
    FirstAt(olds, RouteKeyOf(r)) < |olds| && olds[FirstAt(olds, RouteKeyOf(r))] == r
  }

  lemma {:induction false} RemovedOnceInOrder(olds: seq<Route>, news: seq<Route>)
    ensures OnceInOrder(olds, RemovedRoutes(olds, news))
  {
    if olds != [] {
      var n := |olds| - 1;
      var init, r, key := olds[..n], olds[n], RouteKeyOf(olds[n]);
      RemovedOnceInOrder(init, news);
      var before := RemovedRoutes(init, news);
      forall x | IsFirst(init, x) ensures IsFirst(olds, x) && FirstAt(olds, RouteKeyOf(x)) == FirstAt(init, RouteKeyOf(x)) {
        var f := FirstAt(init, RouteKeyOf(x));
        assert forall j :: 0 <= j <= f ==> olds[j] == init[j];
        FirstIs(olds, RouteKeyOf(x), f);
      }
      if key !in RouteKeys(init) {
        assert forall j :: 0 <= j < n ==> olds[j] in init;
        FirstIs(olds, key, n);
      }
      assert before + [] == before;
    }
  }
}
