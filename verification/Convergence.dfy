/**
  All or nothing, convergence and FIB exactness. The invariant of every sequence of commits is
  that each object either has the value the committed configuration wants or is named by an
  active residue alarm; without failing undos this is all-or-nothing, without failures it is
  convergence.
 */
module Convergence {
  import opened DataPlane
  import opened Plan
  import opened PlanFacts
  import opened Apply

  // ---------- vocabulary ----------

  ghost predicate Touched(ops: seq<Op>, m: nat, k: Key)
    requires m <= |ops|
  {
    exists i :: 0 <= i < m && Moves(ops[i], k)
  }

  /** The operation removes the entry, or rebuilds or removes its table. */
  predicate MovesRoute(op: Op, e: FibEntry) {
    Moves(op, Key(Vrf, e.table)) || DescOf(op) == RouteDesc(e)
  }

  ghost predicate RouteTouched(ops: seq<Op>, m: nat, e: FibEntry)
    requires m <= |ops|
  {
    exists i :: 0 <= i < m && MovesRoute(ops[i], e)
  }

  predicate Alarmed(alarms: set<Alarm>, k: Key) {
    Residue(PutDesc(k)) in alarms || Residue(DelDesc(k)) in alarms
  }

  predicate RouteAlarmed(alarms: set<Alarm>, e: FibEntry) {
    Residue(RouteDesc(e)) in alarms || Alarmed(alarms, Key(Vrf, e.table))
  }

  /** Undeclared interfaces are physical ports: they are not objects of the configuration. */
  predicate InScope(k: Key, c: Config) {
    k.kind.Interface? ==> Wanted(c, k).Some?
  }

  /** An interface with a DPDK per-device entry whose settings wait for the data plane to restart. */
  predicate PutOff(p: Plane, k: Key, next: Config) {
    k.kind.Interface? && k.name in p.pending && k.name in next.perDev
  }

  /** At its declared value, or alarmed, or an interface that was already put off. */
  predicate Accounted(s: State, k: Key, c: Config, putOff: set<string>) {
    || Lookup(s.plane, k) == Wanted(c, k)
    || Alarmed(s.alarms, k)
    || (k.kind.Interface? && k.name in putOff && k.name in s.plane.pending)
  }

  predicate RouteAccounted(s: State, e: FibEntry) {
    e in s.plane.fib || RouteAlarmed(s.alarms, e)
  }

  ghost predicate AllAccounted(s: State, c: Config) {
    && (forall k :: InScope(k, c) ==> Accounted(s, k, c, s.plane.pending))
    && (forall e :: e in WantedRoutes(c) ==> RouteAccounted(s, e))
  }

  // The type of a switch is meant to stay as it was created: a comment on the field and the help
  // text say so (internal/model/model.go:160, internal/schema/tree_config.go:189). Validation looks
  // at one configuration at a time, and nothing that compares two of them enforces it.

  ghost predicate NoneLeavesL2(was: Config, next: Config) {
    forall k :: !LeavesL2(k, was, next)
  }

  ghost predicate NoneEntersL2(was: Config, next: Config) {
    forall k :: !EntersL2(k, was, next)
  }

  ghost predicate AllSound(ops: seq<Op>, was: Config, next: Config) {
    forall op :: op in ops ==> SoundOp(op, was, next)
  }

  // ---------- one call ----------

  lemma StepOther(s: State, op: Op, o: Outcome, k: Key)
    requires Succeeds(op.run, o) && !Moves(op, k)
    requires op.run.Put? && op.run.deferrable ==> op.run.key.kind.Interface?
    ensures Lookup(Step(s, op, o).plane, k) == Lookup(s.plane, k)
    ensures Alarmed(Step(s, op, o).alarms, k) == Alarmed(s.alarms, k)
    ensures k.kind.Interface? ==> (k.name in Step(s, op, o).plane.pending <==> k.name in s.plane.pending)
  {
    assert k == Key(k.kind, k.name);
    if (op.run.Put? || op.run.Del?) && op.run.key.kind == k.kind {
      assert op.run.key == Key(op.run.key.kind, op.run.key.name);
    }
  }

  lemma StepOwn(s: State, op: Op, o: Outcome, k: Key, was: Config, next: Config)
    requires Succeeds(op.run, o) && SoundOp(op, was, next) && Moves(op, k)
    ensures Lookup(Step(s, op, o).plane, k) == Wanted(next, k) || PutOff(Step(s, op, o).plane, k, next)
  {
  }

  lemma UndoOther(s: State, op: Op, o: Outcome, k: Key, was: Config, next: Config)
    requires SoundOp(op, was, next) && !Moves(op, k)
    ensures Lookup(Undo(s, op, o).plane, k) == Lookup(s.plane, k)
    ensures Alarmed(s.alarms, k) ==> Alarmed(Undo(s, op, o).alarms, k)
    ensures k.kind.Interface? && k.name in s.plane.pending ==> k.name in Undo(s, op, o).plane.pending
  {
    assert k == Key(k.kind, k.name);
    if op.run.Put? || op.run.Del? {
      assert op.run.key == Key(op.run.key.kind, op.run.key.name);
    }
  }

  lemma UndoOwn(s: State, op: Op, o: Outcome, k: Key, was: Config, next: Config)
    requires SoundOp(op, was, next) && Moves(op, k) && InScope(k, was)
    requires RestoreTarget(was, k) == Wanted(was, k)
    ensures Lookup(Undo(s, op, o).plane, k) == Wanted(was, k) || Alarmed(Undo(s, op, o).alarms, k)
  {
  }

  lemma RestoresOld(op: Op, k: Key, was: Config, next: Config)
    requires WellNamed(was) && SoundOp(op, was, next) && Moves(op, k) && !EntersL2(k, was, next)
    ensures RestoreTarget(was, k) == Wanted(was, k)
  {
    RestoreIsOld(was, next, k);
  }

  // ---------- objects, forward ----------

  lemma {:induction false} ForwardKey(ops: seq<Op>, n: nat, s: State, w: Oracle, k: Key, was: Config, next: Config)
    requires AllSound(ops, was, next) && n <= |ops| && forall i :: 0 <= i < n ==> Succeeds(ops[i].run, w(i))
    ensures var t := ForwardTo(ops, n, s, w);
      if Touched(ops, n, k) then
        Lookup(t.plane, k) == Wanted(next, k) || PutOff(t.plane, k, next)
      else
        Lookup(t.plane, k) == Lookup(s.plane, k) && Alarmed(t.alarms, k) == Alarmed(s.alarms, k) &&
        (k.kind.Interface? ==> (k.name in t.plane.pending <==> k.name in s.plane.pending))
  {
    if n > 0 {
      ForwardKey(ops, n - 1, s, w, k, was, next);
      var op := ops[n - 1];
      assert SoundOp(op, was, next);
      if Moves(op, k) {
        StepOwn(ForwardTo(ops, n - 1, s, w), op, w(n - 1), k, was, next);
      } else {
        StepOther(ForwardTo(ops, n - 1, s, w), op, w(n - 1), k);
      }
    }
  }

  // ---------- objects, backward ----------

  lemma {:induction false} UnwindKey(ops: seq<Op>, m: nat, s: State, w: Oracle, t: nat, k: Key, putOff: set<string>, was: Config, next: Config)
    requires WellNamed(was) && AllSound(ops, was, next) && m <= |ops|
    requires InScope(k, was) && !EntersL2(k, was, next)
    requires Touched(ops, m, k) || Accounted(s, k, was, putOff)
    ensures Accounted(Unwind(ops, m, s, w, t), k, was, putOff)
    decreases m
  {
    if m > 0 {
      var op := ops[m - 1];
      assert SoundOp(op, was, next);
      if Moves(op, k) {
        RestoresOld(op, k, was, next);
        UndoOwn(s, op, w(t), k, was, next);
      } else {
        UndoOther(s, op, w(t), k, was, next);
      }
      UnwindKey(ops, m - 1, Undo(s, op, w(t)), w, t + 1, k, putOff, was, next);
    }
  }

  lemma FailedCallKey(s: State, op: Op, w: Oracle, n: nat, k: Key, putOff: set<string>, was: Config, next: Config)
    requires WellNamed(was) && SoundOp(op, was, next) && !Succeeds(op.run, w(n))
    requires InScope(k, was) && !EntersL2(k, was, next)
    requires Accounted(s, k, was, putOff)
    ensures Accounted(FailedCall(s, op, w, n), k, was, putOff)
  {
    var hit := State(After(s.plane, op.run, w(n)), s.alarms);
    if Moves(op, k) && k.kind.Vrf? {
      RestoresOld(op, k, was, next);
      UndoOwn(hit, op, w(n + 1), k, was, next);
    } else {
      assert Lookup(hit.plane, k) == Lookup(s.plane, k);
      if !Moves(op, k) {
        UndoOther(hit, op, w(n + 1), k, was, next);
      }
    }
  }

  lemma FailedCallElsewhere(s: State, op: Op, w: Oracle, n: nat, k: Key, was: Config, next: Config)
    requires SoundOp(op, was, next) && !Succeeds(op.run, w(n)) && !Moves(op, k)
    ensures Lookup(FailedCall(s, op, w, n).plane, k) == Lookup(s.plane, k)
  {
    UndoOther(State(After(s.plane, op.run, w(n)), s.alarms), op, w(n + 1), k, was, next);
  }

  /** After a rejected commit every object of the old configuration is back, or alarmed. */
  lemma {:induction false} RejectedKey(ops: seq<Op>, s: State, w: Oracle, k: Key, was: Config, next: Config)
    requires WellNamed(was) && AllSound(ops, was, next) && FirstFailure(ops, 0, w) < |ops|
    requires InScope(k, was) && !EntersL2(k, was, next)
    requires Accounted(s, k, was, s.plane.pending)
    ensures Accounted(RunPlan(ops, s, w).0, k, was, s.plane.pending)
  {
    var n := FirstFailure(ops, 0, w);
    var reached := ForwardTo(ops, n, s, w);
    ForwardKey(ops, n, s, w, k, was, next);
    assert SoundOp(ops[n], was, next);
    if !Touched(ops, n, k) {
      FailedCallKey(reached, ops[n], w, n, k, s.plane.pending, was, next);
    }
    UnwindKey(ops, n, FailedCall(reached, ops[n], w, n), w, UnwindStart(ops[n], n), k, s.plane.pending, was, next);
  }

  lemma AppliedKey(was: Config, next: Config, o: Orders, s: State, w: Oracle, k: Key)
    requires WellNamed(was) && WellNamed(next) && ValidOrders(was, o) && !next.refErrors
    requires FirstFailure(PlanOf(was, next, o), 0, w) == |PlanOf(was, next, o)|
    requires InScope(k, next) && !LeavesL2(k, was, next)
    requires InScope(k, was) ==> Accounted(s, k, was, s.plane.pending)
    ensures var t := RunPlan(PlanOf(was, next, o), s, w).0; Accounted(t, k, next, t.plane.pending)
  {
    var ops := PlanOf(was, next, o);
    PlanBlock(was, next, o);
    ForwardKey(ops, |ops|, s, w, k, was, next);
    if !Touched(ops, |ops|, k) && Wanted(was, k) != Wanted(next, k) {
      PlanComplete(was, next, o, k);
    }
  }

  // ---------- routes ----------

  /** The routes of a VRF are exactly the declared entries of its table. */
  lemma VrfRoutes(c: Config, table: string)
    requires UniqueNames(c.vrfs)
    ensures Wanted(c, Key(Vrf, table)).Some? ==>
      RoutesOf(table, Wanted(c, Key(Vrf, table)).value.routes) == TableOf(WantedRoutes(c), table)
    ensures Wanted(c, Key(Vrf, table)).None? ==> TableOf(WantedRoutes(c), table) == {}
    ensures Wanted(c, Key(Vrf, table)).Some? <==> table in NamesOf(c.vrfs)
  {
    ByNameFacts(c.vrfs);
    ByNameUnique(c.vrfs);
    var k := Key(Vrf, table);
    if Wanted(c, k).Some? {
      var v := Decl(table, Wanted(c, k).value);
      assert v in c.vrfs;
      forall e ensures e in RoutesOf(table, v.body.routes) <==> e in TableOf(WantedRoutes(c), table) {
        TableEntries(c, v, e.dst);
        assert e == FibEntry(e.table, e.dst);
      }
    } else {
      forall e: FibEntry | e.table == table ensures e !in WantedRoutes(c) {
        NoTable(c, e);
      }
    }
  }

  /** One forward step: nothing still declared is lost, and only declared routes are added. */
  lemma StepRoutes(s: State, op: Op, o: Outcome, e: FibEntry, was: Config, next: Config)
    requires SoundOp(op, was, next) && Succeeds(op.run, o) && UniqueNames(next.vrfs)
    ensures var t := Step(s, op, o);
      && (e in t.plane.fib ==> e in s.plane.fib || e in WantedRoutes(next))
      && (e in s.plane.fib && e in WantedRoutes(next) ==> e in t.plane.fib)
      && (e in WantedRoutes(next) && MovesRoute(op, e) ==> e in t.plane.fib)
      && (!MovesRoute(op, e) ==> (e in t.plane.fib <==> e in s.plane.fib) && (RouteAlarmed(t.alarms, e) <==> RouteAlarmed(s.alarms, e)))
      && (DescOf(op) == RouteDesc(e) ==> e !in t.plane.fib)
  {
    VrfRoutes(next, e.table);
    if op.run.Put? && op.run.key.kind.Vrf? {
      VrfRoutes(next, op.run.key.name);
      assert op.run.key == Key(Vrf, op.run.key.name);
    }
    if op.run.Del? && op.run.key.kind.Vrf? {
      assert op.run.key == Key(Vrf, op.run.key.name);
    }
  }

  lemma {:induction false} ForwardRoutes(ops: seq<Op>, n: nat, s: State, w: Oracle, e: FibEntry, was: Config, next: Config)
    requires AllSound(ops, was, next) && UniqueNames(next.vrfs)
    requires n <= |ops| && forall i :: 0 <= i < n ==> Succeeds(ops[i].run, w(i))
    ensures var t := ForwardTo(ops, n, s, w);
      && (e in t.plane.fib ==> e in s.plane.fib || e in WantedRoutes(next))
      && (e in s.plane.fib && e in WantedRoutes(next) ==> e in t.plane.fib)
      && (e in WantedRoutes(next) && RouteTouched(ops, n, e) ==> e in t.plane.fib)
      && (!RouteTouched(ops, n, e) && RouteAccounted(s, e) ==> RouteAccounted(t, e))
      && (e !in WantedRoutes(next) && (exists i :: 0 <= i < n && DescOf(ops[i]) == RouteDesc(e)) ==> e !in t.plane.fib)
  {
    if n > 0 {
      ForwardRoutes(ops, n - 1, s, w, e, was, next);
      assert SoundOp(ops[n - 1], was, next);
      StepRoutes(ForwardTo(ops, n - 1, s, w), ops[n - 1], w(n - 1), e, was, next);
    }
  }

  /** Undoing whatever moved an old route brings it back, or raises an alarm. */
  lemma UndoRoutes(s: State, op: Op, o: Outcome, e: FibEntry, was: Config, next: Config)
    requires WellNamed(was) && SoundOp(op, was, next)
    ensures var t := Undo(s, op, o);
      && (e in t.plane.fib ==> e in s.plane.fib || e in WantedRoutes(was))
      && (e in WantedRoutes(was) && (MovesRoute(op, e) || RouteAccounted(s, e)) ==> RouteAccounted(t, e))
  {
    assert UniqueNames(Listed(was, Vrf));
    if (op.run.Put? || op.run.Del?) && op.run.key.kind.Vrf? {
      UndoTable(s, op, o, e, was, next);
    } else {
      hide WantedRoutes, WellNamed, Wanted, UniqueNames;
    }
  }

  lemma UndoTable(s: State, op: Op, o: Outcome, e: FibEntry, was: Config, next: Config)
    requires UniqueNames(was.vrfs) && SoundOp(op, was, next) && (op.run.Put? || op.run.Del?) && op.run.key.kind.Vrf?
    ensures var t := Undo(s, op, o);
      && (e in t.plane.fib ==> e in s.plane.fib || e in WantedRoutes(was))
      && (e in WantedRoutes(was) && (MovesRoute(op, e) || RouteAccounted(s, e)) ==> RouteAccounted(t, e))
  {
    VrfRoutes(was, op.run.key.name);
    hide WantedRoutes, Wanted, UniqueNames;
    assert op.run.key == Key(Vrf, op.run.key.name);
  }

  lemma FailedCallRoutes(s: State, op: Op, w: Oracle, n: nat, e: FibEntry, was: Config, next: Config)
    requires WellNamed(was) && UniqueNames(next.vrfs) && SoundOp(op, was, next) && !Succeeds(op.run, w(n))
    ensures var t := FailedCall(s, op, w, n);
      && (e in t.plane.fib ==> e in s.plane.fib || e in WantedRoutes(was) || e in WantedRoutes(next))
      && (e in WantedRoutes(was) && RouteAccounted(s, e) ==> RouteAccounted(t, e))
  {
    var hit := State(After(s.plane, op.run, w(n)), s.alarms);
    UndoRoutes(hit, op, w(n + 1), e, was, next);
    if (op.run.Put? || op.run.Del?) && op.run.key.kind.Vrf? {
      VrfRoutes(next, op.run.key.name);
      assert op.run.key == Key(Vrf, op.run.key.name);
    }
  }

  lemma {:induction false} UnwindRoutes(ops: seq<Op>, m: nat, s: State, w: Oracle, t: nat, e: FibEntry, was: Config, next: Config)
    requires WellNamed(was) && AllSound(ops, was, next) && m <= |ops|
    ensures var r := Unwind(ops, m, s, w, t);
      && (e in r.plane.fib ==> e in s.plane.fib || e in WantedRoutes(was))
      && (e in WantedRoutes(was) && (RouteTouched(ops, m, e) || RouteAccounted(s, e)) ==> RouteAccounted(r, e))
    decreases m
  {
    if m > 0 {
      assert SoundOp(ops[m - 1], was, next);
      UndoRoutes(s, ops[m - 1], w(t), e, was, next);
      UnwindRoutes(ops, m - 1, Undo(s, ops[m - 1], w(t)), w, t + 1, e, was, next);
    }
  }

  lemma {:induction false} RejectedRoutes(ops: seq<Op>, s: State, w: Oracle, e: FibEntry, was: Config, next: Config)
    requires WellNamed(was) && UniqueNames(next.vrfs) && AllSound(ops, was, next) && FirstFailure(ops, 0, w) < |ops|
    ensures var t := RunPlan(ops, s, w).0;
      && (e in t.plane.fib ==> e in s.plane.fib || e in WantedRoutes(was) || e in WantedRoutes(next))
      && (e in WantedRoutes(was) && RouteAccounted(s, e) ==> RouteAccounted(t, e))
  {
    var n := FirstFailure(ops, 0, w);
    var reached := ForwardTo(ops, n, s, w);
    assert SoundOp(ops[n], was, next);
    ForwardRoutes(ops, n, s, w, e, was, next);
    FailedCallRoutes(reached, ops[n], w, n, e, was, next);
    UnwindRoutes(ops, n, FailedCall(reached, ops[n], w, n), w, UnwindStart(ops[n], n), e, was, next);
  }

  lemma UniqueVrfs(c: Config)
    requires WellNamed(c)
    ensures UniqueNames(c.vrfs)
  {
    assert UniqueNames(Listed(c, Vrf));
  }

  lemma WithdrawnSomewhere(was: Config, next: Config, o: Orders, e: FibEntry) returns (i: nat)
    requires WellNamed(was) && WellNamed(next) && !next.refErrors && e in WantedRoutes(was) - WantedRoutes(next)
    ensures i < |PlanOf(was, next, o)| && DescOf(PlanOf(was, next, o)[i]) == RouteDesc(e)
  {
    hide PlanOf, WellNamed, WantedRoutes;
    RoutesComplete(was, next, o, e);
    var r :| RouteOp(e.table, r) in PlanOf(was, next, o) && RouteKeyOf(r) == e.dst;
    i :| 0 <= i < |PlanOf(was, next, o)| && PlanOf(was, next, o)[i] == RouteOp(e.table, r);
  }

  lemma RebuiltSomewhere(was: Config, next: Config, o: Orders, e: FibEntry) returns (i: nat)
    requires WellNamed(was) && WellNamed(next) && ValidOrders(was, o) && !next.refErrors
    requires e in WantedRoutes(next) - WantedRoutes(was)
    ensures i < |PlanOf(was, next, o)| && MovesRoute(PlanOf(was, next, o)[i], e)
  {
    assert UniqueNames(Listed(was, Vrf)) && UniqueNames(Listed(next, Vrf));
    VrfRoutes(was, e.table);
    VrfRoutes(next, e.table);
    assert e in TableOf(WantedRoutes(next), e.table) && e !in TableOf(WantedRoutes(was), e.table);
    PlanComplete(was, next, o, Key(Vrf, e.table));
    var op :| op in PlanOf(was, next, o) && Moves(op, Key(Vrf, e.table));
    i :| 0 <= i < |PlanOf(was, next, o)| && PlanOf(was, next, o)[i] == op;
  }

  lemma AppliedRoutes(was: Config, next: Config, o: Orders, s: State, w: Oracle, e: FibEntry)
    requires WellNamed(was) && WellNamed(next) && ValidOrders(was, o) && !next.refErrors
    requires FirstFailure(PlanOf(was, next, o), 0, w) == |PlanOf(was, next, o)|
    ensures var t := RunPlan(PlanOf(was, next, o), s, w).0;
      && (e in t.plane.fib ==> e in s.plane.fib || e in WantedRoutes(next))
      && (e in WantedRoutes(was) - WantedRoutes(next) ==> e !in t.plane.fib)
      && (e in WantedRoutes(next) && (e in WantedRoutes(was) ==> RouteAccounted(s, e)) ==> RouteAccounted(t, e))
  {
    hide PlanOf, WellNamed, ValidOrders, WantedRoutes, UniqueNames;
    PlanBlock(was, next, o);
    UniqueVrfs(next);
    var ops := PlanOf(was, next, o);
    ForwardRoutes(ops, |ops|, s, w, e, was, next);
    if e in WantedRoutes(was) - WantedRoutes(next) {
      var i := WithdrawnSomewhere(was, next, o, e);
    }
    if e in WantedRoutes(next) - WantedRoutes(was) {
      var i := RebuiltSomewhere(was, next, o, e);
    }
  }

  // ---------- main results ----------

  lemma RefusedPlan(s: State, w: Oracle)
    ensures RunPlan([Op(Refuse, Skip, false)], s, w) == (s, Rejected(0, []))
  {
    var ops := [Op(Refuse, Skip, false)];
    assert FirstFailure(ops, 0, w) == 0 && ForwardTo(ops, 0, s, w) == s;
    assert FailedCall(s, ops[0], w, 0) == s;
    assert UnwindStart(ops[0], 0) == 1 && RejectedAt(ops, 0, ops[0], w) == Rejected(0, []);
  }

  lemma AppliedAccounted(was: Config, next: Config, o: Orders, s: State, w: Oracle)
    requires WellNamed(was) && WellNamed(next) && ValidOrders(was, o) && NoneLeavesL2(was, next) && !next.refErrors
    requires AllAccounted(s, was) && RunPlan(PlanOf(was, next, o), s, w).1.Applied?
    ensures AllAccounted(RunPlan(PlanOf(was, next, o), s, w).0, next)
  {
    hide PlanOf, WellNamed, ValidOrders, WantedRoutes, Accounted, RouteAccounted;
    var t := RunPlan(PlanOf(was, next, o), s, w).0;
    forall k | InScope(k, next) ensures Accounted(t, k, next, t.plane.pending) {
      AppliedKey(was, next, o, s, w, k);
    }
    forall e | e in WantedRoutes(next) ensures RouteAccounted(t, e) {
      AppliedRoutes(was, next, o, s, w, e);
    }
  }

  lemma RejectedAccounted(ops: seq<Op>, s: State, w: Oracle, was: Config, next: Config)
    requires WellNamed(was) && WellNamed(next) && AllSound(ops, was, next) && NoneEntersL2(was, next)
    requires AllAccounted(s, was) && RunPlan(ops, s, w).1.Rejected?
    ensures AllAccounted(RunPlan(ops, s, w).0, was)
  {
    var t := RunPlan(ops, s, w).0;
    assert UniqueNames(Listed(next, Vrf));
    forall k | InScope(k, was) ensures Accounted(t, k, was, t.plane.pending) {
      RejectedKey(ops, s, w, k, was, next);
    }
    forall e | e in WantedRoutes(was) ensures RouteAccounted(t, e) {
      RejectedRoutes(ops, s, w, e, was, next);
    }
  }

  /**
    Whatever fails, including undos: a commit that is applied leaves every object of the new
    configuration accounted for unless an l2 switch changed its type, and a rejected one every
    object of the old configuration unless a switch became l2.
   */
  lemma CommitsStayAccounted(was: Config, next: Config, o: Orders, s: State, w: Oracle)
    requires WellNamed(was) && WellNamed(next) && ValidOrders(was, o) && AllAccounted(s, was)
    ensures var (t, report) := RunPlan(PlanOf(was, next, o), s, w);
      && (report.Applied? && NoneLeavesL2(was, next) ==> AllAccounted(t, next))
      && (report.Rejected? && NoneEntersL2(was, next) ==> AllAccounted(t, was))
  {
    if next.refErrors {
      RefusedPlan(s, w);
    } else {
      PlanBlock(was, next, o);
      hide PlanOf, WellNamed, ValidOrders, NoneLeavesL2, NoneEntersL2, AllAccounted;
      var (t, report) := RunPlan(PlanOf(was, next, o), s, w);
      if report.Applied? && NoneLeavesL2(was, next) {
        AppliedAccounted(was, next, o, s, w);
      }
      if report.Rejected? && NoneEntersL2(was, next) {
        RejectedAccounted(PlanOf(was, next, o), s, w, was, next);
      }
    }
  }

  lemma SoundAt(ops: seq<Op>, i: nat, was: Config, next: Config)
    requires AllSound(ops, was, next) && i < |ops|
    ensures SoundOp(ops[i], was, next)
  {
    hide SoundOp;
    assert ops[i] in ops;
  }

  // ---------- removals that were put off ----------

  /** Every table that stays although its VRF was deleted is named by an alarm. */
  predicate LingeringReported(s: State) {
    forall t :: t in s.plane.lingering ==> DeleteDeferred(t) in s.alarms || Residue(PutDesc(Key(Vrf, t))) in s.alarms
  }

  lemma StepReports(s: State, op: Op, o: Outcome, was: Config, next: Config)
    requires SoundOp(op, was, next) && LingeringReported(s) && Succeeds(op.run, o)
    ensures LingeringReported(Step(s, op, o)) && Residue(DescOf(op)) !in Step(s, op, o).alarms
    ensures op.run.Del? && op.run.key.kind.Vrf? ==>
      var t := Step(s, op, o);
      && (op.run.key.name in t.plane.lingering <==> o.TableStays?)
      && (DeleteDeferred(op.run.key.name) in t.alarms <==> o.TableStays?)
  {
    hide Wanted, RestoreTarget, WantedRoutes;
    var t := Step(s, op, o);
    forall n | n in t.plane.lingering ensures DeleteDeferred(n) in t.alarms || Residue(PutDesc(Key(Vrf, n))) in t.alarms {
      assert n in s.plane.lingering || DeleteDeferred(n) in t.alarms;
    }
  }

  lemma UndoReports(s: State, op: Op, o: Outcome, was: Config, next: Config)
    requires SoundOp(op, was, next) && LingeringReported(s)
    ensures LingeringReported(Undo(s, op, o))
  {
    hide WantedRoutes;
    var t := Undo(s, op, o);
    forall n | n in t.plane.lingering ensures DeleteDeferred(n) in t.alarms || Residue(PutDesc(Key(Vrf, n))) in t.alarms {
      if n !in s.plane.lingering {
        assert op.undo.Del? && op.undo.key == Key(Vrf, n);
        assert op.run.Put? && op.run.key == op.undo.key;
      }
    }
  }

  lemma {:induction false} ForwardReports(ops: seq<Op>, n: nat, s: State, w: Oracle, was: Config, next: Config)
    requires AllSound(ops, was, next) && n <= |ops| && LingeringReported(s)
    requires forall i :: 0 <= i < n ==> Succeeds(ops[i].run, w(i))
    ensures LingeringReported(ForwardTo(ops, n, s, w))
  {
    hide SoundOp, LingeringReported, Step;
    if n > 0 {
      ForwardReports(ops, n - 1, s, w, was, next);
      SoundAt(ops, n - 1, was, next);
      StepReports(ForwardTo(ops, n - 1, s, w), ops[n - 1], w(n - 1), was, next);
    }
  }

  lemma {:induction false} UnwindReports(ops: seq<Op>, m: nat, s: State, w: Oracle, t: nat, was: Config, next: Config)
    requires AllSound(ops, was, next) && m <= |ops| && LingeringReported(s)
    ensures LingeringReported(Unwind(ops, m, s, w, t))
    decreases m
  {
    hide SoundOp, LingeringReported, Undo;
    if m > 0 {
      SoundAt(ops, m - 1, was, next);
      UndoReports(s, ops[m - 1], w(t), was, next);
      UnwindReports(ops, m - 1, Undo(s, ops[m - 1], w(t)), w, t + 1, was, next);
    }
  }

  lemma FailedCallReports(s: State, op: Op, w: Oracle, n: nat, was: Config, next: Config)
    requires SoundOp(op, was, next) && LingeringReported(s) && !Succeeds(op.run, w(n))
    ensures LingeringReported(FailedCall(s, op, w, n))
  {
    hide Wanted, RestoreTarget, WantedRoutes;
    var hit := State(After(s.plane, op.run, w(n)), s.alarms);
    assert LingeringReported(hit) by {
      assert hit.plane.lingering <= s.plane.lingering;
    }
    if op.compensateOnFail {
      UndoReports(hit, op, w(n + 1), was, next);
    }
  }

  lemma RunReports(ops: seq<Op>, s: State, w: Oracle, was: Config, next: Config)
    requires AllSound(ops, was, next) && LingeringReported(s)
    ensures LingeringReported(RunPlan(ops, s, w).0)
  {
    hide LingeringReported, SoundOp, AllSound, FailedCall;
    var n := FirstFailure(ops, 0, w);
    ForwardReports(ops, n, s, w, was, next);
    if n < |ops| {
      SoundAt(ops, n, was, next);
      var reached := ForwardTo(ops, n, s, w);
      FailedCallReports(reached, ops[n], w, n, was, next);
      UnwindReports(ops, n, FailedCall(reached, ops[n], w, n), w, UnwindStart(ops[n], n), was, next);
    }
  }

  /** Whatever the providers answer and however the commit ends, no table is left over without an alarm. */
  lemma LeftoverTablesReported(was: Config, next: Config, o: Orders, s: State, w: Oracle)
    requires WellNamed(was) && WellNamed(next) && ValidOrders(was, o) && LingeringReported(s)
    ensures LingeringReported(RunPlan(PlanOf(was, next, o), s, w).0)
  {
    if next.refErrors {
      hide RunPlan;
      RefusedPlan(s, w);
    } else {
      PlanBlock(was, next, o);
      BlockIsSound(PlanOf(was, next, o), was, next);
      hide *;
      RunReports(PlanOf(was, next, o), s, w, was, next);
    }
  }

  lemma BlockIsSound(ops: seq<Op>, was: Config, next: Config)
    requires Block(ops, 0, 21, was, next)
    ensures AllSound(ops, was, next)
  {
    hide SoundOp;
  }
}
