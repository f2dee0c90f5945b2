/**
  What holds of every plan: each operation moves its object to the value the new configuration
  wants and its undo moves it back, nothing that differs is forgotten, no object is touched twice,
  and the operations come in dependency order.
 */
module PlanFacts {
  import opened Common
  import opened DataPlane
  import opened Plan

  // ---------- the vocabulary ----------

  function UpRank(kind: Kind): nat {
    match kind
    case VnicPort => 0
    case Acl => 1
    case Bond => 2
    case BridgeDomain => 3
    case Vrf => 4
    case Nat => 5
    case Span => 6
    case Qos => 7
    case Lldp => 8
    case Interface => 9
    case Machine => 10
    case Container => 11
  }

  function DelRank(kind: Kind): nat {
    match kind
    case Container => 12
    case Machine => 13
    case BridgeDomain => 14
    case Vrf => 16
    case Bond => 17
    case VnicPort => 18
    case Span => 19
    case Qos => 20
    case Acl => 21
    case _ => 22
  }

  function Rank(op: Op): nat {
    match op.run
    case Put(k, _, _) => UpRank(k.kind)
    case Del(k, _) => DelRank(k.kind)
    case DelRoute(_, _) => 15
    case _ => 22
  }

  /** What an undo goes back to: for a bridge domain, the old switch of that name of any type. */
  function RestoreTarget(c: Config, k: Key): Option<Body> {
    var m := if k.kind.BridgeDomain? then ByName(c.switches) else ByName(Listed(c, k.kind));
    if k.name in m then Some(m[k.name]) else None
  }

  predicate UndoMatches(undo: Action, k: Key, target: Option<Body>) {
    match target
    case Some(b) => undo == Put(k, b, false)
    case None => undo == if k.kind.Interface? then Skip else Del(k, false)
  }

  predicate SoundOp(op: Op, was: Config, next: Config) {
    match op.run
    case Put(k, b, deferrable) =>
      && Wanted(next, k) == Some(b) && UndoMatches(op.undo, k, RestoreTarget(was, k))
      && op.compensateOnFail == k.kind.Vrf? && (deferrable <==> k.kind.Interface? && k.name in next.perDev)
    case Del(k, tolerant) =>
      && Wanted(next, k) == None && !k.kind.Interface? && Wanted(was, k).Some? && tolerant == k.kind.Vrf?
      && UndoMatches(op.undo, k, RestoreTarget(was, k)) && op.compensateOnFail == k.kind.Vrf?
      && (k.kind.Vrf? ==> k.name !in NamesOf(next.vrfs))
      && (k.kind.BridgeDomain? ==> k.name !in NamesOf(next.switches))
    case DelRoute(t, r) =>
      && FibEntry(t, RouteKeyOf(r)) in WantedRoutes(was) - WantedRoutes(next)
      && op.undo == AddRoute(t, r) && !op.compensateOnFail
    case _ => false
  }

  predicate Moves(op: Op, k: Key) {
    Names(op.run, k)
  }

  ghost predicate Ordered(ops: seq<Op>) {
    forall i, j :: 0 <= i < j < |ops| ==> Rank(ops[i]) <= Rank(ops[j])
  }

  ghost predicate OncePerObject(ops: seq<Op>) {
    forall i, j, k :: 0 <= i < j < |ops| && Moves(ops[i], k) ==> !Moves(ops[j], k)
  }

  /** A stretch of a plan whose ranks lie between `lo` and `hi`. */
  ghost predicate Block(ops: seq<Op>, lo: nat, hi: nat, was: Config, next: Config) {
    && (forall op :: op in ops ==> SoundOp(op, was, next) && lo <= Rank(op) <= hi)
    && Ordered(ops)
    && OncePerObject(ops)
  }

  // ---------- indexes ----------

  lemma {:induction false} ByNameFacts(ds: seq<Decl>)
    ensures forall n :: n in ByName(ds) <==> n in NamesOf(ds)
    ensures forall n :: n in ByName(ds) ==> Decl(n, ByName(ds)[n]) in ds
  {
    if ds != [] {
      var n := |ds| - 1;
      ByNameFacts(ds[..n]);
      assert ds == ds[..n] + [ds[n]];
    }
  }

  lemma {:induction false} ByNameUnique(ds: seq<Decl>)
    requires UniqueNames(ds)
    ensures forall d :: d in ds ==> d.name in ByName(ds) && ByName(ds)[d.name] == d.body
  {
    forall d | d in ds
      ensures d.name in ByName(ds) && ByName(ds)[d.name] == d.body
    {
      ByNameFacts(ds);
      assert d.name in NamesOf(ds);
      var e := Decl(d.name, ByName(ds)[d.name]);
      assert e in ds;
    }
  }

  lemma {:induction false} L2OnlyFacts(ds: seq<Decl>)
    ensures forall d :: d in L2Only(ds) <==> d in ds && IsL2(d)
    ensures UniqueNames(ds) ==> UniqueNames(L2Only(ds))
  {
    if ds != [] {
      var n := |ds| - 1;
      L2OnlyFacts(ds[..n]);
      assert ds == ds[..n] + [ds[n]];
      if UniqueNames(ds) {
        assert forall d :: d in L2Only(ds[..n]) ==> d in ds[..n] && d.name != ds[n].name;
      }
    }
  }

  // ---------- one stretch at a time ----------

  lemma JoinBlocks(a: seq<Op>, b: seq<Op>, lo: nat, mid: nat, hi: nat, was: Config, next: Config)
    requires Block(a, lo, mid, was, next) && Block(b, mid + 1, hi, was, next) && lo <= mid < hi
    ensures Block(a + b, lo, hi, was, next)
  {
    var c := a + b;
    forall i, j | 0 <= i < j < |c|
      ensures Rank(c[i]) <= Rank(c[j])
      ensures forall k :: Moves(c[i], k) ==> !Moves(c[j], k)
    {
      if i < |a| <= j {
        assert c[i] in a && c[j] in b;
      } else if j < |a| {
        assert c[i] == a[i] && c[j] == a[j];
      } else {
        assert c[i] == b[i - |a|] && c[j] == b[j - |a|];
      }
    }
  }

  lemma GrowBlock(ops: seq<Op>, op: Op, rank: nat, was: Config, next: Config)
    requires Block(ops, rank, rank, was, next)
    requires SoundOp(op, was, next) && Rank(op) == rank
    requires forall x, k :: x in ops && Moves(x, k) ==> !Moves(op, k)
    ensures Block(ops + [op], rank, rank, was, next)
  {
  }

  lemma {:induction false} UpsertsMembers(kind: Kind, ds: seq<Decl>, olds: map<string, Body>, perDev: set<string>)
    ensures forall op :: op in Upserts(kind, ds, olds, perDev) ==> op.run.Put? && op.run.key.name in NamesOf(ds)
    ensures forall d :: d in ds && Changed(d, olds) ==> UpsertOp(kind, d, olds, d.name in perDev) in Upserts(kind, ds, olds, perDev)
  {
    hide Changed;
    if ds != [] {
      UpsertsMembers(kind, ds[..|ds| - 1], olds, perDev);
      assert ds == ds[..|ds| - 1] + [ds[|ds| - 1]];
    }
  }

  lemma {:induction false} UpsertsFacts(kind: Kind, ds: seq<Decl>, olds: map<string, Body>, perDev: set<string>, was: Config, next: Config)
    requires UniqueNames(ds)
    requires forall d :: d in ds ==> Wanted(next, Key(kind, d.name)) == Some(d.body)
    requires forall n :: RestoreTarget(was, Key(kind, n)) == if n in olds then Some(olds[n]) else None
    requires perDev == if kind.Interface? then next.perDev else {}
    ensures Block(Upserts(kind, ds, olds, perDev), UpRank(kind), UpRank(kind), was, next)
    ensures forall op :: op in Upserts(kind, ds, olds, perDev) ==> op.run.Put? && op.run.key.name in NamesOf(ds)
    ensures forall d :: d in ds && Changed(d, olds) ==> UpsertOp(kind, d, olds, d.name in perDev) in Upserts(kind, ds, olds, perDev)
  {
    hide SoundOp, Rank, UpRank, RestoreTarget, Wanted, Changed;
    UpsertsMembers(kind, ds, olds, perDev);
    if ds != [] {
      var n := |ds| - 1;
      var d, before := ds[n], Upserts(kind, ds[..n], olds, perDev);
      UpsertsFacts(kind, ds[..n], olds, perDev, was, next);
      UpsertsMembers(kind, ds[..n], olds, perDev);
      assert d.name !in NamesOf(ds[..n]);
      UpsertSound(kind, d, olds, perDev, was, next);
      var op := UpsertOp(kind, d, olds, d.name in perDev);
      forall x, k | x in before && Moves(x, k) ensures !Moves(op, k) {
        assert x.run.key.name in NamesOf(ds[..n]);
      }
      hide Block, Moves, UpsertOp;
      GrowBlock(before, op, UpRank(kind), was, next);
    }
  }

  lemma UpsertSound(kind: Kind, d: Decl, olds: map<string, Body>, perDev: set<string>, was: Config, next: Config)
    requires Wanted(next, Key(kind, d.name)) == Some(d.body)
    requires RestoreTarget(was, Key(kind, d.name)) == if d.name in olds then Some(olds[d.name]) else None
    requires perDev == if kind.Interface? then next.perDev else {}
    ensures var op := UpsertOp(kind, d, olds, d.name in perDev);
      SoundOp(op, was, next) && Rank(op) == UpRank(kind) && op.run.Put? && op.run.key == Key(kind, d.name)
  {
  }

  lemma {:induction false} DeletesMembers(kind: Kind, ds: seq<Decl>, keep: set<string>)
    ensures forall op :: op in Deletes(kind, ds, keep) ==> op.run.Del? && op.run.key.name in NamesOf(ds)
    ensures forall d :: d in ds && d.name !in keep ==> DeleteOp(kind, d) in Deletes(kind, ds, keep)
  {
    if ds != [] {
      DeletesMembers(kind, ds[..|ds| - 1], keep);
      assert ds == ds[..|ds| - 1] + [ds[|ds| - 1]];
    }
  }

  lemma {:induction false} DeletesFacts(kind: Kind, ds: seq<Decl>, keep: set<string>, was: Config, next: Config)
    requires UniqueNames(ds) && !kind.Interface?
    requires forall d :: d in ds ==> Wanted(was, Key(kind, d.name)) == Some(d.body) == RestoreTarget(was, Key(kind, d.name))
    requires forall n :: n !in keep ==> Wanted(next, Key(kind, n)) == None
    requires (kind.Vrf? ==> keep == NamesOf(next.vrfs)) && (kind.BridgeDomain? ==> keep == NamesOf(next.switches))
    ensures Block(Deletes(kind, ds, keep), DelRank(kind), DelRank(kind), was, next)
    ensures forall op :: op in Deletes(kind, ds, keep) ==> op.run.Del? && op.run.key.name in NamesOf(ds)
    ensures forall d :: d in ds && d.name !in keep ==> DeleteOp(kind, d) in Deletes(kind, ds, keep)
  {
    hide *;
    DeletesMembers(kind, ds, keep);
    if ds == [] {
      NothingDeleted(kind, keep, was, next);
    } else {
      var n := |ds| - 1;
      LastDecl(ds);
      DeletesFacts(kind, ds[..n], keep, was, next);
      GrowDeletes(kind, ds, keep, was, next);
    }
  }

  lemma {:induction false} NothingDeleted(kind: Kind, keep: set<string>, was: Config, next: Config)
    ensures Block(Deletes(kind, [], keep), DelRank(kind), DelRank(kind), was, next)
  {
  }

  lemma LastDecl(ds: seq<Decl>)
    requires UniqueNames(ds) && ds != []
    ensures var n := |ds| - 1;
      UniqueNames(ds[..n]) && ds[n] in ds && ds[n].name !in NamesOf(ds[..n]) && forall d :: d in ds[..n] ==> d in ds
  {
  }

  /** One more declaration: its removal follows the others and moves nothing they move. */
  lemma {:induction false} GrowDeletes(kind: Kind, ds: seq<Decl>, keep: set<string>, was: Config, next: Config)
    requires ds != [] && ds[|ds| - 1].name !in NamesOf(ds[..|ds| - 1]) && !kind.Interface?
    requires var d := ds[|ds| - 1];
      && Wanted(was, Key(kind, d.name)) == Some(d.body) == RestoreTarget(was, Key(kind, d.name))
      && (d.name !in keep ==> Wanted(next, Key(kind, d.name)) == None)
    requires (kind.Vrf? ==> keep == NamesOf(next.vrfs)) && (kind.BridgeDomain? ==> keep == NamesOf(next.switches))
    requires Block(Deletes(kind, ds[..|ds| - 1], keep), DelRank(kind), DelRank(kind), was, next)
    ensures Block(Deletes(kind, ds, keep), DelRank(kind), DelRank(kind), was, next)
  {
    hide SoundOp, Rank, DelRank, RestoreTarget, Wanted, Block;
    var n := |ds| - 1;
    var d, before := ds[n], Deletes(kind, ds[..n], keep);
    if d.name !in keep {
      DeletesMembers(kind, ds[..n], keep);
      DeleteSound(kind, d, keep, was, next);
      var op := DeleteOp(kind, d);
      forall x, k | x in before && Moves(x, k) ensures !Moves(op, k) {
        assert x.run.key.name in NamesOf(ds[..n]);
      }
      hide Moves, DeleteOp, NamesOf;
      GrowBlock(before, op, DelRank(kind), was, next);
    } else {
      assert before + [] == before;
    }
  }

  lemma DeleteSound(kind: Kind, d: Decl, keep: set<string>, was: Config, next: Config)
    requires !kind.Interface? && d.name !in keep && Wanted(next, Key(kind, d.name)) == None
    requires Wanted(was, Key(kind, d.name)) == Some(d.body) == RestoreTarget(was, Key(kind, d.name))
    requires (kind.Vrf? ==> keep == NamesOf(next.vrfs)) && (kind.BridgeDomain? ==> keep == NamesOf(next.switches))
    ensures SoundOp(DeleteOp(kind, d), was, next) && Rank(DeleteOp(kind, d)) == DelRank(kind)
  {
  }

  lemma {:induction false} RemovedRoutesFacts(olds: seq<Route>, news: seq<Route>)
    ensures forall r :: r in RemovedRoutes(olds, news) ==> r in olds && RouteKeyOf(r) !in RouteKeys(news)
    ensures forall r :: r in olds && RouteKeyOf(r) !in RouteKeys(news) ==>
      RouteKeyOf(r) in RouteKeys(RemovedRoutes(olds, news))
  {
    if olds != [] {
      var n := |olds| - 1;
      RemovedRoutesFacts(olds[..n], news);
      assert olds == olds[..n] + [olds[n]];
    }
  }

  /** The declared entries of a table are those of the VRF of that name. */
  lemma TableEntries(c: Config, v: Decl, q: RouteKey)
    requires UniqueNames(c.vrfs) && v in c.vrfs
    ensures FibEntry(v.name, q) in WantedRoutes(c) <==> q in RouteKeys(v.body.routes)
  {
    var vi :| 0 <= vi < |c.vrfs| && c.vrfs[vi] == v;
    if FibEntry(v.name, q) in WantedRoutes(c) {
      var i, j :| 0 <= i < |c.vrfs| && 0 <= j < |c.vrfs[i].body.routes|
        && FibEntry(v.name, q) == FibEntry(c.vrfs[i].name, RouteKeyOf(c.vrfs[i].body.routes[j]));
      assert i == vi;
    }
    if q in RouteKeys(v.body.routes) {
      var j :| 0 <= j < |v.body.routes| && RouteKeyOf(v.body.routes[j]) == q;
      assert FibEntry(c.vrfs[vi].name, RouteKeyOf(c.vrfs[vi].body.routes[j])) in WantedRoutes(c);
    }
  }

  lemma NoTable(c: Config, e: FibEntry)
    ensures e in WantedRoutes(c) ==> e.table in NamesOf(c.vrfs)
  {
    if e in WantedRoutes(c) {
      var i, j :| 0 <= i < |c.vrfs| && 0 <= j < |c.vrfs[i].body.routes|
        && e == FibEntry(c.vrfs[i].name, RouteKeyOf(c.vrfs[i].body.routes[j]));
      assert c.vrfs[i] in c.vrfs;
    }
  }

  /** What a VRF no longer declares, seen as FIB entries. */
  lemma GoneRoutesFacts(v: Decl, was: Config, next: Config)
    requires UniqueNames(was.vrfs) && UniqueNames(next.vrfs) && v in was.vrfs
    ensures forall r :: r in GoneRoutes(v, ByName(next.vrfs)) ==>
      FibEntry(v.name, RouteKeyOf(r)) in WantedRoutes(was) - WantedRoutes(next)
    ensures forall e :: e in WantedRoutes(was) - WantedRoutes(next) && e.table == v.name ==>
      e.dst in RouteKeys(GoneRoutes(v, ByName(next.vrfs)))
  {
    ByNameFacts(next.vrfs);
    var news := ByName(next.vrfs);
    var w := Decl(v.name, if v.name in news then news[v.name] else EMPTY_BODY);
    if v.name in news {
      RemovedRoutesFacts(v.body.routes, w.body.routes);
    }
    forall q ensures FibEntry(v.name, q) in WantedRoutes(was) <==> q in RouteKeys(v.body.routes) {
      TableEntries(was, v, q);
    }
    forall q ensures FibEntry(v.name, q) in WantedRoutes(next) <==> v.name in news && q in RouteKeys(w.body.routes) {
      if v.name in news {
        TableEntries(next, w, q);
      } else {
        NoTable(next, FibEntry(v.name, q));
      }
    }
    hide WantedRoutes, UniqueNames, ByName, RemovedRoutes, NamesOf;
    forall e | e in WantedRoutes(was) - WantedRoutes(next) && e.table == v.name
      ensures e.dst in RouteKeys(GoneRoutes(v, news))
    {
      assert e == FibEntry(v.name, e.dst);
    }
  }

  /** The withdrawals of one VRF. */
  lemma GoneOps(v: Decl, was: Config, next: Config)
    requires UniqueNames(was.vrfs) && UniqueNames(next.vrfs) && v in was.vrfs
    ensures var ops := RouteOps(v.name, GoneRoutes(v, ByName(next.vrfs)));
      && Block(ops, 15, 15, was, next) && OnlyWithdraws(ops)
      && forall e :: e in WantedRoutes(was) - WantedRoutes(next) && e.table == v.name ==> Withdraws(ops, e)
  {
    var gone := GoneRoutes(v, ByName(next.vrfs));
    GoneRoutesFacts(v, was, next);
    hide WantedRoutes, GoneRoutes, UniqueNames;
    var ops := RouteOps(v.name, gone);
    forall e | e in WantedRoutes(was) - WantedRoutes(next) && e.table == v.name ensures Withdraws(ops, e) {
      var j :| 0 <= j < |gone| && RouteKeyOf(gone[j]) == e.dst;
      assert ops[j] == RouteOp(e.table, gone[j]);
    }
  }

  predicate OnlyWithdraws(ops: seq<Op>) {
    forall i :: 0 <= i < |ops| ==> ops[i].run.DelRoute?
  }

  ghost predicate Withdraws(ops: seq<Op>, e: FibEntry) {
    exists i, r :: 0 <= i < |ops| && ops[i] == RouteOp(e.table, r) && RouteKeyOf(r) == e.dst
  }

  lemma JoinWithdrawals(a: seq<Op>, b: seq<Op>, was: Config, next: Config)
    requires Block(a, 15, 15, was, next) && OnlyWithdraws(a) && Block(b, 15, 15, was, next) && OnlyWithdraws(b)
    ensures Block(a + b, 15, 15, was, next) && OnlyWithdraws(a + b)
    ensures forall e :: Withdraws(a, e) || Withdraws(b, e) ==> Withdraws(a + b, e)
  {
    hide SoundOp;
    var c := a + b;
    forall e | Withdraws(a, e) || Withdraws(b, e) ensures Withdraws(c, e) {
      if Withdraws(a, e) {
        var i, r :| 0 <= i < |a| && a[i] == RouteOp(e.table, r) && RouteKeyOf(r) == e.dst;
        assert c[i] == RouteOp(e.table, r);
      } else {
        var i, r :| 0 <= i < |b| && b[i] == RouteOp(e.table, r) && RouteKeyOf(r) == e.dst;
        assert c[|a| + i] == RouteOp(e.table, r);
      }
    }
  }

  lemma {:induction false} WithdrawalsFacts(vrfs: seq<Decl>, was: Config, next: Config)
    requires UniqueNames(was.vrfs) && UniqueNames(next.vrfs)
    requires forall v :: v in vrfs ==> v in was.vrfs
    ensures Block(Withdrawals(vrfs, ByName(next.vrfs)), 15, 15, was, next)
    ensures OnlyWithdraws(Withdrawals(vrfs, ByName(next.vrfs)))
    ensures forall e, v :: e in WantedRoutes(was) - WantedRoutes(next) && v in vrfs && v.name == e.table ==>
      Withdraws(Withdrawals(vrfs, ByName(next.vrfs)), e)
  {
    if vrfs != [] {
      var init, v, news := vrfs[..|vrfs| - 1], vrfs[|vrfs| - 1], ByName(next.vrfs);
      WithdrawalsFacts(init, was, next);
      GoneOps(v, was, next);
      var before, last := Withdrawals(init, news), RouteOps(v.name, GoneRoutes(v, news));
      assert Withdrawals(vrfs, news) == before + last;
      hide *;
      JoinWithdrawals(before, last, was, next);
      assert forall u :: u in vrfs ==> u in init || u == v;
    }
  }

  // ---------- the whole plan ----------

  lemma AdditionFacts(kind: Kind, was: Config, next: Config)
    requires WellNamed(next)
    ensures Block(AdditionsOf(kind, was, next), UpRank(kind), UpRank(kind), was, next)
    ensures forall op :: op in AdditionsOf(kind, was, next) ==> op.run.Put?
    ensures forall n :: Wanted(next, Key(kind, n)).Some? && Wanted(next, Key(kind, n)) != Wanted(was, Key(kind, n)) ==>
      exists op :: op in AdditionsOf(kind, was, next) && Moves(op, Key(kind, n))
  {
    var ds, olds := Listed(next, kind), OldIndex(was, kind);
    var perDev := if kind.Interface? then next.perDev else {};
    ByNameUnique(ds);
    UpsertsFacts(kind, ds, olds, perDev, was, next);
    ByNameFacts(ds);
    forall n | Wanted(next, Key(kind, n)).Some? && Wanted(next, Key(kind, n)) != Wanted(was, Key(kind, n))
      ensures exists op :: op in AdditionsOf(kind, was, next) && Moves(op, Key(kind, n))
    {
      var d := Decl(n, ByName(ds)[n]);
      assert d in ds;
      if kind.BridgeDomain? {
        L2OnlyFacts(next.switches);
        L2OnlyFacts(was.switches);
        UnchangedDomain(was, d);
      }
      assert Changed(d, olds);
      var op := UpsertOp(kind, d, olds, d.name in perDev);
      assert op in AdditionsOf(kind, was, next) && Moves(op, Key(kind, n));
    }
  }

  /** A switch that was of type l2 with the same content was a bridge domain with that content. */
  lemma {:induction false} UnchangedDomain(was: Config, d: Decl)
    requires IsL2(d)
    ensures d.name in ByName(was.switches) && ByName(was.switches)[d.name] == d.body ==>
      Wanted(was, Key(BridgeDomain, d.name)) == Some(d.body)
  {
    LastDomain(was.switches, d);
  }

  lemma {:induction false} LastDomain(ds: seq<Decl>, d: Decl)
    requires IsL2(d)
    ensures d.name in ByName(ds) && ByName(ds)[d.name] == d.body ==>
      d.name in ByName(L2Only(ds)) && ByName(L2Only(ds))[d.name] == d.body
  {
    if ds != [] {
      var n := |ds| - 1;
      LastDomain(ds[..n], d);
      var l := L2Only(ds[..n]);
      assert (l + [ds[n]])[..|l|] == l;
      assert l + [] == l;
    }
  }

  lemma SingletonFacts(kind: Kind, was: Config, next: Config, ops: seq<Op>)
    requires kind.Nat? || kind.Lldp?
    requires ops == if kind.Nat? then NatOps(was, next) else LldpOps(was, next)
    ensures Block(ops, UpRank(kind), UpRank(kind), was, next)
    ensures forall n :: Wanted(next, Key(kind, n)) != Wanted(was, Key(kind, n)) ==>
      exists op :: op in ops && Moves(op, Key(kind, n))
  {
    var k := Key(kind, "");
    ByNameFacts(Listed(was, kind));
    ByNameFacts(Listed(next, kind));
    assert Wanted(was, k).Some? && Wanted(next, k).Some? && RestoreTarget(was, k) == Wanted(was, k);
    forall n | Wanted(next, Key(kind, n)) != Wanted(was, Key(kind, n))
      ensures exists op :: op in ops && Moves(op, Key(kind, n))
    {
      assert n == "";
      assert Moves(ops[0], k) && ops[0] in ops;
    }
  }

  lemma {:induction false} IterationFacts(order: seq<Decl>, ds: seq<Decl>)
    requires IsIterationOf(order, ByName(ds)) && UniqueNames(ds)
    ensures UniqueNames(order) && forall d :: d in order <==> d in ds
  {
    ByNameUnique(ds);
    ByNameFacts(ds);
    forall d
      ensures d in order <==> d in ds
    {
      if d in order {
        assert Decl(d.name, ByName(ds)[d.name]) in ds;
      }
      if d in ds {
        assert Decl(d.name, ByName(ds)[d.name]) in order;
      }
    }
  }

  lemma RemovalFacts(kind: Kind, was: Config, next: Config, o: Orders)
    requires WellNamed(was) && WellNamed(next) && ValidOrders(was, o)
    requires !kind.Interface? && !kind.Nat? && !kind.Lldp?
    ensures Block(RemovalsOf(kind, was, next, o), DelRank(kind), DelRank(kind), was, next)
    ensures forall n :: Wanted(was, Key(kind, n)).Some? && n !in Kept(kind, next) ==>
      exists op :: op in RemovalsOf(kind, was, next, o) && Moves(op, Key(kind, n))
  {
    var ds, keep := RemovalOrder(kind, was, o), Kept(kind, next);
    RemovalOrderFacts(kind, was, o);
    ByNameUnique(Listed(was, kind));
    ByNameFacts(Listed(was, kind));
    ByNameFacts(Listed(next, kind));
    ByNameUnique(was.switches);
    L2OnlyFacts(was.switches);
    L2OnlyFacts(next.switches);
    DeletesFacts(kind, ds, keep, was, next);
    forall n | Wanted(was, Key(kind, n)).Some? && n !in keep
      ensures exists op :: op in RemovalsOf(kind, was, next, o) && Moves(op, Key(kind, n))
    {
      var d := Decl(n, ByName(Listed(was, kind))[n]);
      assert d in ds;
      assert DeleteOp(kind, d) in Deletes(kind, ds, keep) && Moves(DeleteOp(kind, d), Key(kind, n));
    }
  }

  lemma RemovalOrderFacts(kind: Kind, was: Config, o: Orders)
    requires WellNamed(was) && ValidOrders(was, o)
    requires !kind.Interface? && !kind.Nat? && !kind.Lldp?
    ensures UniqueNames(RemovalOrder(kind, was, o))
    ensures forall d :: d in RemovalOrder(kind, was, o) <==> d in Listed(was, kind)
  {
    assert UniqueNames(Listed(was, kind));
    match kind
    case Container => IterationFacts(o.containers, was.containers);
    case Machine => IterationFacts(o.machines, was.machines);
    case Vrf => IterationFacts(o.vrfs, was.vrfs);
    case Bond => IterationFacts(o.bonds, was.bonds);
    case BridgeDomain =>
      IterationFacts(o.switches, was.switches);
      L2OnlyFacts(o.switches);
      L2OnlyFacts(was.switches);
    case _ =>
  }

  lemma AdditionBlock(kind: Kind, was: Config, next: Config)
    requires WellNamed(next)
    ensures Block(AdditionsOf(kind, was, next), UpRank(kind), UpRank(kind), was, next)
  {
    AdditionFacts(kind, was, next);
  }

  lemma SingletonBlocks(was: Config, next: Config)
    ensures Block(NatOps(was, next), 5, 5, was, next)
    ensures Block(LldpOps(was, next), 8, 8, was, next)
  {
    SingletonFacts(Nat, was, next, NatOps(was, next));
    SingletonFacts(Lldp, was, next, LldpOps(was, next));
  }

  /** Five more stretches of consecutive ranks. */
  lemma JoinFive(a: seq<Op>, n: nat, b: seq<Op>, c: seq<Op>, d: seq<Op>, e: seq<Op>, f: seq<Op>, was: Config, next: Config)
    requires Block(a, 0, n, was, next) && Block(b, n + 1, n + 1, was, next) && Block(c, n + 2, n + 2, was, next)
    requires Block(d, n + 3, n + 3, was, next) && Block(e, n + 4, n + 4, was, next) && Block(f, n + 5, n + 5, was, next)
    ensures Block(a + b + c + d + e + f, 0, n + 5, was, next)
  {
    JoinBlocks(a, b, 0, n, n + 1, was, next);
    JoinBlocks(a + b, c, 0, n + 1, n + 2, was, next);
    JoinBlocks(a + b + c, d, 0, n + 2, n + 3, was, next);
    JoinBlocks(a + b + c + d, e, 0, n + 3, n + 4, was, next);
    JoinBlocks(a + b + c + d + e, f, 0, n + 4, n + 5, was, next);
  }

  lemma AdditionsBlock(was: Config, next: Config)
    requires WellNamed(was) && WellNamed(next)
    ensures Block(Additions(was, next), 0, 11, was, next)
  {
    hide Block, AdditionsOf, NatOps, LldpOps, WellNamed;
    AdditionBlock(VnicPort, was, next);
    AdditionBlock(Acl, was, next);
    AdditionBlock(Bond, was, next);
    AdditionBlock(BridgeDomain, was, next);
    AdditionBlock(Vrf, was, next);
    AdditionBlock(Span, was, next);
    AdditionBlock(Qos, was, next);
    AdditionBlock(Interface, was, next);
    AdditionBlock(Machine, was, next);
    AdditionBlock(Container, was, next);
    SingletonBlocks(was, next);
    AdditionsJoined(AdditionsOf(VnicPort, was, next), AdditionsOf(Acl, was, next), AdditionsOf(Bond, was, next),
                    AdditionsOf(BridgeDomain, was, next), AdditionsOf(Vrf, was, next), NatOps(was, next),
                    AdditionsOf(Span, was, next), AdditionsOf(Qos, was, next), LldpOps(was, next),
                    AdditionsOf(Interface, was, next), AdditionsOf(Machine, was, next), AdditionsOf(Container, was, next),
                    was, next);
  }

  lemma AdditionsJoined(a: seq<Op>, b: seq<Op>, c: seq<Op>, d: seq<Op>, e: seq<Op>, f: seq<Op>, g: seq<Op>, h: seq<Op>,
                        i: seq<Op>, j: seq<Op>, k: seq<Op>, l: seq<Op>, was: Config, next: Config)
    requires Block(a, 0, 0, was, next) && Block(b, 1, 1, was, next) && Block(c, 2, 2, was, next)
    requires Block(d, 3, 3, was, next) && Block(e, 4, 4, was, next) && Block(f, 5, 5, was, next)
    requires Block(g, 6, 6, was, next) && Block(h, 7, 7, was, next) && Block(i, 8, 8, was, next)
    requires Block(j, 9, 9, was, next) && Block(k, 10, 10, was, next) && Block(l, 11, 11, was, next)
    ensures Block(a + b + c + d + e + f + g + h + i + j + k + l, 0, 11, was, next)
  {
    JoinFive(a, 0, b, c, d, e, f, was, next);
    JoinFive(a + b + c + d + e + f, 5, g, h, i, j, k, was, next);
    JoinBlocks(a + b + c + d + e + f + g + h + i + j + k, l, 0, 10, 11, was, next);
  }

  lemma RemovalBlock(kind: Kind, was: Config, next: Config, o: Orders)
    requires WellNamed(was) && WellNamed(next) && ValidOrders(was, o)
    requires !kind.Interface? && !kind.Nat? && !kind.Lldp?
    ensures Block(RemovalsOf(kind, was, next, o), DelRank(kind), DelRank(kind), was, next)
  {
    RemovalFacts(kind, was, next, o);
  }

  lemma WithdrawalBlock(was: Config, next: Config)
    requires WellNamed(was) && WellNamed(next)
    ensures Block(WithdrawalOps(was, next), 15, 15, was, next)
  {
    assert UniqueNames(Listed(was, Vrf)) && UniqueNames(Listed(next, Vrf));
    WithdrawalsFacts(was.vrfs, was, next);
  }

  lemma RemovalsJoined(x: seq<Op>, a: seq<Op>, b: seq<Op>, c: seq<Op>, d: seq<Op>, e: seq<Op>, f: seq<Op>, g: seq<Op>,
                       h: seq<Op>, i: seq<Op>, j: seq<Op>, was: Config, next: Config)
    requires Block(x, 0, 11, was, next)
    requires Block(a, 12, 12, was, next) && Block(b, 13, 13, was, next) && Block(c, 14, 14, was, next)
    requires Block(d, 15, 15, was, next) && Block(e, 16, 16, was, next) && Block(f, 17, 17, was, next)
    requires Block(g, 18, 18, was, next) && Block(h, 19, 19, was, next) && Block(i, 20, 20, was, next)
    requires Block(j, 21, 21, was, next)
    ensures Block(x + (a + b + c + d + e + f + g + h + i + j), 0, 21, was, next)
  {
    JoinFive(x, 11, a, b, c, d, e, was, next);
    JoinFive(x + a + b + c + d + e, 16, f, g, h, i, j, was, next);
    assert x + (a + b + c + d + e + f + g + h + i + j) == x + a + b + c + d + e + f + g + h + i + j;
  }

  /** Every plan is sound, ordered by dependency, and touches each object at most once. */
  lemma PlanBlock(was: Config, next: Config, o: Orders)
    requires WellNamed(was) && WellNamed(next) && ValidOrders(was, o) && !next.refErrors
    ensures Block(PlanOf(was, next, o), 0, 21, was, next)
  {
    hide Block, WellNamed, ValidOrders, RemovalsOf, Additions, WithdrawalOps;
    AdditionsBlock(was, next);
    RemovalBlock(Container, was, next, o);
    RemovalBlock(Machine, was, next, o);
    RemovalBlock(BridgeDomain, was, next, o);
    WithdrawalBlock(was, next);
    RemovalBlock(Vrf, was, next, o);
    RemovalBlock(Bond, was, next, o);
    RemovalBlock(VnicPort, was, next, o);
    RemovalBlock(Span, was, next, o);
    RemovalBlock(Qos, was, next, o);
    RemovalBlock(Acl, was, next, o);
    RemovalsJoined(Additions(was, next), RemovalsOf(Container, was, next, o), RemovalsOf(Machine, was, next, o),
                   RemovalsOf(BridgeDomain, was, next, o), WithdrawalOps(was, next), RemovalsOf(Vrf, was, next, o),
                   RemovalsOf(Bond, was, next, o), RemovalsOf(VnicPort, was, next, o), RemovalsOf(Span, was, next, o),
                   RemovalsOf(Qos, was, next, o), RemovalsOf(Acl, was, next, o), was, next);
  }

  // ---------- nothing is forgotten ----------

  lemma InAdditions(op: Op, kind: Kind, was: Config, next: Config)
    ensures !kind.Nat? && !kind.Lldp? && op in AdditionsOf(kind, was, next) ==> op in Additions(was, next)
    ensures op in NatOps(was, next) || op in LldpOps(was, next) ==> op in Additions(was, next)
  {
    hide AdditionsOf, NatOps, LldpOps;
  }

  lemma InRemovals(op: Op, kind: Kind, was: Config, next: Config, o: Orders)
    requires !kind.Interface? && !kind.Nat? && !kind.Lldp?
    ensures op in RemovalsOf(kind, was, next, o) ==> op in Removals(was, next, o)
    ensures op in WithdrawalOps(was, next) ==> op in Removals(was, next, o)
  {
    hide RemovalsOf, WithdrawalOps;
  }

  /** An old l2 switch whose name now belongs to a switch of another type. */
  predicate LeavesL2(k: Key, was: Config, next: Config) {
    k.kind.BridgeDomain? && Wanted(was, k).Some? && Wanted(next, k).None? && k.name in NamesOf(next.switches)
  }

  lemma PlanComplete(was: Config, next: Config, o: Orders, k: Key)
    requires WellNamed(was) && WellNamed(next) && ValidOrders(was, o) && !next.refErrors
    requires Wanted(was, k) != Wanted(next, k)
    requires k.kind.Interface? ==> Wanted(next, k).Some?
    requires !LeavesL2(k, was, next)
    ensures exists op :: op in PlanOf(was, next, o) && Moves(op, k)
  {
    ByNameFacts(Listed(next, k.kind));
    if k.kind.Nat? || k.kind.Lldp? {
      var ops := if k.kind.Nat? then NatOps(was, next) else LldpOps(was, next);
      SingletonFacts(k.kind, was, next, ops);
      var op :| op in ops && Moves(op, k);
      InAdditions(op, k.kind, was, next);
      assert op in PlanOf(was, next, o);
    } else if Wanted(next, k).Some? {
      AdditionFacts(k.kind, was, next);
      assert k == Key(k.kind, k.name);
      var op :| op in AdditionsOf(k.kind, was, next) && Moves(op, k);
      InAdditions(op, k.kind, was, next);
      assert op in PlanOf(was, next, o);
    } else {
      RemovalFacts(k.kind, was, next, o);
      assert k == Key(k.kind, k.name);
      var op :| op in RemovalsOf(k.kind, was, next, o) && Moves(op, k);
      InRemovals(op, k.kind, was, next, o);
      assert op in PlanOf(was, next, o);
    }
  }

  /** Every static route that is no longer declared is withdrawn. */
  lemma RoutesComplete(was: Config, next: Config, o: Orders, e: FibEntry)
    requires WellNamed(was) && WellNamed(next) && !next.refErrors
    requires e in WantedRoutes(was) - WantedRoutes(next)
    ensures exists r :: RouteOp(e.table, r) in PlanOf(was, next, o) && RouteKeyOf(r) == e.dst
  {
    assert UniqueNames(Listed(was, Vrf)) && UniqueNames(Listed(next, Vrf));
    WithdrawalsFacts(was.vrfs, was, next);
    var i, j :| 0 <= i < |was.vrfs| && 0 <= j < |was.vrfs[i].body.routes|
      && e == FibEntry(was.vrfs[i].name, RouteKeyOf(was.vrfs[i].body.routes[j]));
    assert was.vrfs[i] in was.vrfs;
    var r :| RouteOp(e.table, r) in Withdrawals(was.vrfs, ByName(next.vrfs)) && RouteKeyOf(r) == e.dst;
    InRemovals(RouteOp(e.table, r), Vrf, was, next, o);
    assert RouteOp(e.table, r) in PlanOf(was, next, o);
  }

  // ---------- when an undo really goes back ----------

  /** A switch that was declared with another type and is now of type l2. */
  predicate EntersL2(k: Key, was: Config, next: Config) {
    k.kind.BridgeDomain? && k.name in NamesOf(was.switches) && Wanted(was, k).None? && Wanted(next, k).Some?
  }

  lemma RestoreIsOld(was: Config, next: Config, k: Key)
    requires WellNamed(was)
    ensures RestoreTarget(was, k) == Wanted(was, k) <==>
      !(k.kind.BridgeDomain? && k.name in NamesOf(was.switches) && Wanted(was, k).None?)
  {
    if k.kind.BridgeDomain? {
      ByNameFacts(was.switches);
      ByNameUnique(was.switches);
      ByNameUnique(Listed(was, BridgeDomain));
      ByNameFacts(Listed(was, BridgeDomain));
      L2OnlyFacts(was.switches);
    }
  }
}
