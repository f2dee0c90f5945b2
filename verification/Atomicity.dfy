/**
  What the accounting invariant means for one commit that starts from a data plane equal to the
  old configuration: exactly when a rejected commit leaves no trace, and exactly when an applied
  one converges.
 */
module Atomicity {
  import opened Common
  import opened DataPlane
  import opened Plan
  import opened PlanFacts
  import opened Apply
  import opened Convergence

  /** The data plane is the view of the configuration; undeclared interfaces may be in any state. */
  ghost predicate Exact(p: Plane, c: Config) {
    && (forall k :: InScope(k, c) ==> Lookup(p, k) == Wanted(c, k))
    && p.fib == WantedRoutes(c)
  }

  // ---------- rejected ----------

  lemma UndoCleanKey(s: State, op: Op, o: Outcome, k: Key, was: Config, next: Config)
    requires SoundOp(op, was, next) && InScope(k, was) && Succeeds(op.undo, o)
    ensures Lookup(Undo(s, op, o).plane, k) == if Moves(op, k) then RestoreTarget(was, k) else Lookup(s.plane, k)
  {
    if Moves(op, k) {
      if k.kind.Interface? {
        assert RestoreTarget(was, k) == Wanted(was, k);
      }
    } else {
      UndoOther(s, op, o, k, was, next);
    }
  }

  lemma {:induction false} UnwindCleanKey(ops: seq<Op>, m: nat, s: State, w: Oracle, t: nat, k: Key, was: Config, next: Config)
    requires AllSound(ops, was, next) && m <= |ops| && InScope(k, was) && UndoFailures(ops, m, w, t) == []
    ensures Lookup(Unwind(ops, m, s, w, t).plane, k) ==
      if Touched(ops, m, k) then RestoreTarget(was, k) else Lookup(s.plane, k)
    decreases m
  {
    hide SoundOp, AllSound, Moves, RestoreTarget, Undo, InScope, Succeeds;
    if m > 0 {
      var op := ops[m - 1];
      SoundAt(ops, m - 1, was, next);
      assert Succeeds(op.undo, w(t)) && UndoFailures(ops, m - 1, w, t + 1) == [];
      UndoCleanKey(s, op, w(t), k, was, next);
      UnwindCleanKey(ops, m - 1, Undo(s, op, w(t)), w, t + 1, k, was, next);
    }
  }

  lemma FailedCallCleanKey(s: State, op: Op, w: Oracle, n: nat, k: Key, was: Config, next: Config)
    requires SoundOp(op, was, next) && InScope(k, was) && !Succeeds(op.run, w(n))
    requires op.compensateOnFail ==> Succeeds(op.undo, w(n + 1))
    ensures Lookup(FailedCall(s, op, w, n).plane, k) ==
      if Moves(op, k) && k.kind.Vrf? then RestoreTarget(was, k) else Lookup(s.plane, k)
  {
    var hit := State(After(s.plane, op.run, w(n)), s.alarms);
    if op.compensateOnFail {
      UndoCleanKey(hit, op, w(n + 1), k, was, next);
    }
    if !(Moves(op, k) && k.kind.Vrf?) {
      assert Lookup(hit.plane, k) == Lookup(s.plane, k);
    }
  }

  /** Where a rejected commit with clean compensation leaves an object. */
  lemma RejectedClean(ops: seq<Op>, s: State, w: Oracle, k: Key, was: Config, next: Config)
    requires WellNamed(was) && AllSound(ops, was, next) && InScope(k, was)
    requires RunPlan(ops, s, w).1.Rejected? && RunPlan(ops, s, w).1.residue == []
    requires Lookup(s.plane, k) == Wanted(was, k)
    ensures Lookup(RunPlan(ops, s, w).0.plane, k) ==
      if Touched(ops, RunPlan(ops, s, w).1.at, k) then RestoreTarget(was, k) else Wanted(was, k)
  {
    var n := FirstFailure(ops, 0, w);
    var reached := ForwardTo(ops, n, s, w);
    var op := ops[n];
    assert SoundOp(op, was, next);
    ForwardKey(ops, n, s, w, k, was, next);
    FailedCallCleanKey(reached, op, w, n, k, was, next);
    UnwindCleanKey(ops, n, FailedCall(reached, op, w, n), w, UnwindStart(op, n), k, was, next);
    RestoreIsOld(was, next, k);
  }

  /**
    One run: a commit that is rejected with no failing undo puts every object back if and only
    if it had not yet turned a switch of another type into an l2 switch. Interfaces that the new
    configuration does not declare are never touched.
   */
  lemma RestoredExactly(was: Config, next: Config, o: Orders, s: State, w: Oracle)
    requires WellNamed(was) && WellNamed(next) && ValidOrders(was, o) && !next.refErrors
    requires Exact(s.plane, was)
    requires RunPlan(PlanOf(was, next, o), s, w).1.Rejected? && RunPlan(PlanOf(was, next, o), s, w).1.residue == []
    ensures var (t, report) := RunPlan(PlanOf(was, next, o), s, w);
      (forall k :: InScope(k, was) ==> Lookup(t.plane, k) == Wanted(was, k)) <==>
      (forall k :: EntersL2(k, was, next) ==> !Touched(PlanOf(was, next, o), report.at, k))
    ensures forall k: Key :: k.kind.Interface? && Wanted(next, k).None? ==>
      Lookup(RunPlan(PlanOf(was, next, o), s, w).0.plane, k) == Lookup(s.plane, k)
  {
    hide *;
    var ops := PlanOf(was, next, o);
    var (t, report) := RunPlan(ops, s, w);
    FailurePoint(ops, s, w);
    forall k | InScope(k, was)
      ensures Lookup(t.plane, k) == Wanted(was, k) <==> !(EntersL2(k, was, next) && Touched(ops, report.at, k))
    {
      RestoredKey(was, next, o, s, w, k);
    }
    forall k | EntersL2(k, was, next) ensures InScope(k, was) {
      DomainsInScope(k, was, next);
    }
    PlanSound(was, next, o);
    forall k: Key | k.kind.Interface? && Wanted(next, k).None? ensures Lookup(t.plane, k) == Lookup(s.plane, k) {
      OtherInterfacesUntouched(ops, s, w, k, was, next);
    }
  }

  /** Interfaces the new configuration does not declare are left alone, whatever the outcome. */
  lemma OtherInterfacesUntouched(ops: seq<Op>, s: State, w: Oracle, k: Key, was: Config, next: Config)
    requires AllSound(ops, was, next) && k.kind.Interface? && Wanted(next, k).None?
    ensures Lookup(RunPlan(ops, s, w).0.plane, k) == Lookup(s.plane, k)
  {
    NeverMoved(ops, k, was, next);
    UnmovedStays(ops, s, w, k, was, next);
  }

  /** An object that no operation moves stays as it is. */
  lemma UnmovedStays(ops: seq<Op>, s: State, w: Oracle, k: Key, was: Config, next: Config)
    requires AllSound(ops, was, next) && forall op :: op in ops ==> !Moves(op, k)
    ensures Lookup(RunPlan(ops, s, w).0.plane, k) == Lookup(s.plane, k)
  {
    var n := FirstFailure(ops, 0, w);
    ForwardKey(ops, n, s, w, k, was, next);
    if n < |ops| {
      SoundAt(ops, n, was, next);
      hide SoundOp, AllSound, Wanted, After, Moves;
      var reached := ForwardTo(ops, n, s, w);
      FailedCallElsewhere(reached, ops[n], w, n, k, was, next);
      UnwindUntouched(ops, n, FailedCall(reached, ops[n], w, n), w, UnwindStart(ops[n], n), k, was, next);
    }
  }

  lemma NeverMoved(ops: seq<Op>, k: Key, was: Config, next: Config)
    requires AllSound(ops, was, next) && k.kind.Interface? && Wanted(next, k).None?
    ensures forall op :: op in ops ==> !Moves(op, k)
  {
    forall op | op in ops ensures !Moves(op, k) {
      assert SoundOp(op, was, next);
    }
  }

  lemma {:induction false} UnwindUntouched(ops: seq<Op>, m: nat, s: State, w: Oracle, t: nat, k: Key, was: Config, next: Config)
    requires AllSound(ops, was, next) && m <= |ops| && forall i :: 0 <= i < |ops| ==> !Moves(ops[i], k)
    ensures Lookup(Unwind(ops, m, s, w, t).plane, k) == Lookup(s.plane, k)
    decreases m
  {
    hide SoundOp, Undo, Moves;
    if m > 0 {
      SoundAt(ops, m - 1, was, next);
      UndoOther(s, ops[m - 1], w(t), k, was, next);
      UnwindUntouched(ops, m - 1, Undo(s, ops[m - 1], w(t)), w, t + 1, k, was, next);
    }
  }

  lemma FailurePoint(ops: seq<Op>, s: State, w: Oracle)
    ensures RunPlan(ops, s, w).1.Rejected? ==> RunPlan(ops, s, w).1.at < |ops|
  {
  }

  lemma RestoredKey(was: Config, next: Config, o: Orders, s: State, w: Oracle, k: Key)
    requires WellNamed(was) && WellNamed(next) && ValidOrders(was, o) && !next.refErrors
    requires Exact(s.plane, was) && InScope(k, was)
    requires RunPlan(PlanOf(was, next, o), s, w).1.Rejected? && RunPlan(PlanOf(was, next, o), s, w).1.residue == []
    ensures var (t, report) := RunPlan(PlanOf(was, next, o), s, w);
      Lookup(t.plane, k) == Wanted(was, k) <==> !(EntersL2(k, was, next) && Touched(PlanOf(was, next, o), report.at, k))
  {
    PlanBlock(was, next, o);
    hide PlanOf, ValidOrders, EntersL2, Touched;
    var ops := PlanOf(was, next, o);
    RejectedClean(ops, s, w, k, was, next);
    var at := RunPlan(ops, s, w).1.at;
    if Touched(ops, at, k) {
      TouchedFlip(ops, at, k, was, next);
    }
  }

  lemma DomainsInScope(k: Key, was: Config, next: Config)
    requires EntersL2(k, was, next)
    ensures InScope(k, was)
  {
  }

  lemma TouchedFlip(ops: seq<Op>, n: nat, k: Key, was: Config, next: Config)
    requires WellNamed(was) && AllSound(ops, was, next) && n <= |ops| && Touched(ops, n, k)
    ensures RestoreTarget(was, k) == Wanted(was, k) <==> !EntersL2(k, was, next)
  {
    var i :| 0 <= i < n && Moves(ops[i], k);
    assert SoundOp(ops[i], was, next);
    RestoreIsOld(was, next, k);
  }

  /** What happens on the data plane does not depend on the alarms that are active. */
  lemma PlaneIgnoresAlarms(ops: seq<Op>, s: State, w: Oracle)
    ensures RunPlan(ops, s, w).1 == RunPlan(ops, State(s.plane, {}), w).1
    ensures RunPlan(ops, s, w).0.plane == RunPlan(ops, State(s.plane, {}), w).0.plane
  {
    var n := FirstFailure(ops, 0, w);
    ForwardPlane(ops, n, s, State(s.plane, {}), w);
    if n < |ops| {
      var a, b := ForwardTo(ops, n, s, w), ForwardTo(ops, n, State(s.plane, {}), w);
      UnwindPlane(ops, n, FailedCall(a, ops[n], w, n), FailedCall(b, ops[n], w, n), w, UnwindStart(ops[n], n));
    }
  }

  lemma {:induction false} ForwardPlane(ops: seq<Op>, n: nat, s: State, t: State, w: Oracle)
    requires n <= |ops| && s.plane == t.plane
    ensures ForwardTo(ops, n, s, w).plane == ForwardTo(ops, n, t, w).plane
  {
    if n > 0 {
      ForwardPlane(ops, n - 1, s, t, w);
    }
  }

  lemma {:induction false} UnwindPlane(ops: seq<Op>, m: nat, s: State, t: State, w: Oracle, i: nat)
    requires m <= |ops| && s.plane == t.plane
    ensures Unwind(ops, m, s, w, i).plane == Unwind(ops, m, t, w, i).plane
    decreases m
  {
    if m > 0 {
      UnwindPlane(ops, m - 1, Undo(s, ops[m - 1], w(i)), Undo(t, ops[m - 1], w(i)), w, i + 1);
    }
  }

  /** Routes of a rejected commit: nothing old is missing, and what is left over belongs to the new configuration. */
  lemma RejectedFib(was: Config, next: Config, o: Orders, s: State, w: Oracle)
    requires WellNamed(was) && WellNamed(next) && ValidOrders(was, o) && !next.refErrors
    requires s.plane.fib == WantedRoutes(was)
    requires RunPlan(PlanOf(was, next, o), s, w).1.Rejected? && RunPlan(PlanOf(was, next, o), s, w).1.residue == []
    ensures var t := RunPlan(PlanOf(was, next, o), s, w).0;
      WantedRoutes(was) <= t.plane.fib <= WantedRoutes(was) + WantedRoutes(next)
  {
    hide *;
    PlanSound(was, next, o);
    UniqueVrfs(next);
    PlaneIgnoresAlarms(PlanOf(was, next, o), s, w);
    forall e
      ensures e in RunPlan(PlanOf(was, next, o), s, w).0.plane.fib ==> e in WantedRoutes(was) || e in WantedRoutes(next)
      ensures e in WantedRoutes(was) ==> e in RunPlan(PlanOf(was, next, o), s, w).0.plane.fib
    {
      RejectedFibEntry(PlanOf(was, next, o), State(s.plane, {}), w, e, was, next);
    }
  }

  lemma PlanSound(was: Config, next: Config, o: Orders)
    requires WellNamed(was) && WellNamed(next) && ValidOrders(was, o) && !next.refErrors
    ensures AllSound(PlanOf(was, next, o), was, next)
  {
    hide PlanOf, WellNamed, ValidOrders;
    PlanBlock(was, next, o);
  }

  lemma RejectedFibEntry(ops: seq<Op>, s: State, w: Oracle, e: FibEntry, was: Config, next: Config)
    requires WellNamed(was) && UniqueNames(next.vrfs) && AllSound(ops, was, next)
    requires s.plane.fib == WantedRoutes(was) && (forall a :: a in s.alarms ==> !a.Residue?)
    requires RunPlan(ops, s, w).1.Rejected? && RunPlan(ops, s, w).1.residue == []
    ensures var t := RunPlan(ops, s, w).0;
      && (e in t.plane.fib ==> e in WantedRoutes(was) || e in WantedRoutes(next))
      && (e in WantedRoutes(was) ==> e in t.plane.fib)
  {
    hide WantedRoutes, AllSound, WellNamed;
    CleanAlarms(ops, s, w);
    RejectedRoutes(ops, s, w, e, was, next);
  }

  /** Residue alarms are raised for failing undos only. */
  lemma CleanAlarms(ops: seq<Op>, s: State, w: Oracle)
    requires forall a :: a in s.alarms ==> !a.Residue?
    requires RunPlan(ops, s, w).1.Rejected? && RunPlan(ops, s, w).1.residue == []
    ensures forall a :: a in RunPlan(ops, s, w).0.alarms ==> !a.Residue?
  {
    var n := FirstFailure(ops, 0, w);
    var reached := ForwardTo(ops, n, s, w);
    ForwardAlarms(ops, n, s, w);
    UnwindAlarms(ops, n, FailedCall(reached, ops[n], w, n), w, UnwindStart(ops[n], n));
  }

  lemma {:induction false} ForwardAlarms(ops: seq<Op>, n: nat, s: State, w: Oracle)
    requires n <= |ops| && forall a :: a in s.alarms ==> !a.Residue?
    ensures forall a :: a in ForwardTo(ops, n, s, w).alarms ==> !a.Residue?
  {
    if n > 0 {
      ForwardAlarms(ops, n - 1, s, w);
    }
  }

  /** Compensation raises a residue alarm for each undo it reports as failed, and no other. */
  lemma {:induction false} UnwindAlarms(ops: seq<Op>, m: nat, s: State, w: Oracle, t: nat)
    requires m <= |ops|
    ensures Unwind(ops, m, s, w, t).alarms ==
      s.alarms + set op | op in UndoFailures(ops, m, w, t) :: Residue(DescOf(op))
    decreases m
  {
    if m > 0 {
      UnwindAlarms(ops, m - 1, Undo(s, ops[m - 1], w(t)), w, t + 1);
    }
  }

  // ---------- applied ----------

  /**
    Convergence, exactly: an applied commit leaves every object at the value the new
    configuration wants if and only if no l2 switch was turned into a switch of another type.
    Interfaces are at their declared value, or have a per-device entry and were put off until the
    data plane restarts.
   */
  lemma Converges(was: Config, next: Config, o: Orders, s: State, w: Oracle)
    requires WellNamed(was) && WellNamed(next) && ValidOrders(was, o) && !next.refErrors
    requires Exact(s.plane, was) && RunPlan(PlanOf(was, next, o), s, w).1.Applied?
    ensures var t := RunPlan(PlanOf(was, next, o), s, w).0;
      && ((forall k: Key :: !k.kind.Interface? ==> Lookup(t.plane, k) == Wanted(next, k)) <==>
          (forall k :: !LeavesL2(k, was, next)))
      && (forall k: Key :: k.kind.Interface? && Wanted(next, k).Some? ==>
           Lookup(t.plane, k) == Wanted(next, k) || PutOff(t.plane, k, next))
  {
    hide *;
    var t := RunPlan(PlanOf(was, next, o), s, w).0;
    forall k: Key
      ensures !k.kind.Interface? ==> (Lookup(t.plane, k) == Wanted(next, k) <==> !LeavesL2(k, was, next))
      ensures k.kind.Interface? && Wanted(next, k).Some? ==>
           Lookup(t.plane, k) == Wanted(next, k) || PutOff(t.plane, k, next)
      ensures k.kind.Interface? ==> !LeavesL2(k, was, next)
    {
      ConvergesKey(was, next, o, s, w, k);
    }
  }

  lemma ConvergesKey(was: Config, next: Config, o: Orders, s: State, w: Oracle, k: Key)
    requires WellNamed(was) && WellNamed(next) && ValidOrders(was, o) && !next.refErrors
    requires Exact(s.plane, was) && RunPlan(PlanOf(was, next, o), s, w).1.Applied?
    ensures var t := RunPlan(PlanOf(was, next, o), s, w).0;
      && (!k.kind.Interface? ==> (Lookup(t.plane, k) == Wanted(next, k) <==> !LeavesL2(k, was, next)))
      && (k.kind.Interface? && Wanted(next, k).Some? ==> Lookup(t.plane, k) == Wanted(next, k) || PutOff(t.plane, k, next))
      && (k.kind.Interface? ==> !LeavesL2(k, was, next))
  {
    hide *;
    var ops := PlanOf(was, next, o);
    PlanSound(was, next, o);
    if Wanted(was, k) != Wanted(next, k) && (k.kind.Interface? ==> Wanted(next, k).Some?) && !LeavesL2(k, was, next) {
      PlanComplete(was, next, o, k);
      FoundAt(ops, k);
    }
    ConvergesOnceMoved(ops, s, w, k, was, next);
  }

  lemma FoundAt(ops: seq<Op>, k: Key)
    requires exists op :: op in ops && Moves(op, k)
    ensures Touched(ops, |ops|, k)
  {
    var op :| op in ops && Moves(op, k);
    var i :| 0 <= i < |ops| && ops[i] == op;
  }

  lemma ConvergesOnceMoved(ops: seq<Op>, s: State, w: Oracle, k: Key, was: Config, next: Config)
    requires AllSound(ops, was, next) && Exact(s.plane, was) && RunPlan(ops, s, w).1.Applied?
    requires (Wanted(was, k) != Wanted(next, k) && (k.kind.Interface? ==> Wanted(next, k).Some?) && !LeavesL2(k, was, next)) ==>
      Touched(ops, |ops|, k)
    ensures var t := RunPlan(ops, s, w).0;
      && (!k.kind.Interface? ==> (Lookup(t.plane, k) == Wanted(next, k) <==> !LeavesL2(k, was, next)))
      && (k.kind.Interface? && Wanted(next, k).Some? ==> Lookup(t.plane, k) == Wanted(next, k) || PutOff(t.plane, k, next))
      && (k.kind.Interface? ==> !LeavesL2(k, was, next))
  {
    hide WantedRoutes, AllSound;
    ForwardKey(ops, |ops|, s, w, k, was, next);
    if Touched(ops, |ops|, k) {
      MovedDomainStays(ops, k, was, next);
    }
  }

  lemma MovedDomainStays(ops: seq<Op>, k: Key, was: Config, next: Config)
    requires AllSound(ops, was, next) && Touched(ops, |ops|, k)
    ensures !LeavesL2(k, was, next)
  {
    var i :| 0 <= i < |ops| && Moves(ops[i], k);
    assert SoundOp(ops[i], was, next);
  }

  /** The FIB after an applied commit holds exactly the declared routes, whether or not a table deletion was put off. */
  lemma FibConverges(was: Config, next: Config, o: Orders, s: State, w: Oracle)
    requires WellNamed(was) && WellNamed(next) && ValidOrders(was, o) && !next.refErrors
    requires s.plane.fib == WantedRoutes(was)
    requires RunPlan(PlanOf(was, next, o), s, w).1.Applied?
    ensures RunPlan(PlanOf(was, next, o), s, w).0.plane.fib == WantedRoutes(next)
    ensures forall table :: table !in NamesOf(next.vrfs) ==>
      TableOf(RunPlan(PlanOf(was, next, o), s, w).0.plane.fib, table) == {}
  {
    hide PlanOf, WellNamed, ValidOrders, WantedRoutes, UniqueNames, NamesOf, RunPlan;
    var t := RunPlan(PlanOf(was, next, o), s, w).0;
    PlaneIgnoresAlarms(PlanOf(was, next, o), s, w);
    forall e ensures e in t.plane.fib <==> e in WantedRoutes(next) {
      FibConvergesEntry(was, next, o, State(s.plane, {}), w, e);
    }
    UniqueVrfs(next);
    forall table | table !in NamesOf(next.vrfs) ensures TableOf(t.plane.fib, table) == {} {
      VrfRoutes(next, table);
    }
  }

  lemma FibConvergesEntry(was: Config, next: Config, o: Orders, s: State, w: Oracle, e: FibEntry)
    requires WellNamed(was) && WellNamed(next) && ValidOrders(was, o) && !next.refErrors
    requires s.plane.fib == WantedRoutes(was) && s.alarms == {}
    requires RunPlan(PlanOf(was, next, o), s, w).1.Applied?
    ensures e in RunPlan(PlanOf(was, next, o), s, w).0.plane.fib <==> e in WantedRoutes(next)
  {
    hide PlanOf, WellNamed, ValidOrders, WantedRoutes;
    var ops := PlanOf(was, next, o);
    ForwardAlarms(ops, |ops|, s, w);
    AppliedRoutes(was, next, o, s, w, e);
  }

  /** At no moment of a plan is a route withdrawn that the new configuration still declares. */
  lemma {:induction false} DeclaredRoutesStay(was: Config, next: Config, o: Orders, s: State, w: Oracle, n: nat, e: FibEntry)
    requires WellNamed(was) && WellNamed(next) && ValidOrders(was, o) && !next.refErrors
    requires n <= FirstFailure(PlanOf(was, next, o), 0, w)
    requires e in s.plane.fib && e in WantedRoutes(next)
    ensures e in ForwardTo(PlanOf(was, next, o), n, s, w).plane.fib
  {
    PlanBlock(was, next, o);
    UniqueVrfs(next);
    ForwardRoutes(PlanOf(was, next, o), n, s, w, e, was, next);
  }

  /** Changing only distances withdraws nothing. */
  lemma DistanceChangeWithdrawsNothing(was: Config, next: Config, o: Orders, op: Op)
    requires WellNamed(was) && WellNamed(next) && ValidOrders(was, o) && !next.refErrors
    requires WantedRoutes(was) == WantedRoutes(next) && op in PlanOf(was, next, o)
    ensures !op.run.DelRoute?
  {
    PlanBlock(was, next, o);
    hide PlanOf, WellNamed, ValidOrders;
    assert SoundOp(op, was, next);
  }

  // ---------- all or nothing, seen before the commit ----------

  /** Nothing in the plan comes after an operation that turns a switch of another type into an l2 switch. */
  ghost predicate TypeChangesLast(ops: seq<Op>, was: Config, next: Config) {
    forall k, i :: EntersL2(k, was, next) && 0 <= i < |ops| && Moves(ops[i], k) ==> i == |ops| - 1
  }

  ghost predicate RestoresAll(ops: seq<Op>, s: State, w: Oracle, was: Config) {
    var (t, report) := RunPlan(ops, s, w);
    report.Rejected? && report.residue == [] ==> forall k :: InScope(k, was) ==> Lookup(t.plane, k) == Wanted(was, k)
  }

  /**
    All or nothing, exactly: whatever the providers answer, a commit that is rejected with no
    failing undo puts every object back, if and only if the plan has no operation after one that
    turns a switch of another type into an l2 switch.
   */
  lemma AllOrNothing(was: Config, next: Config, o: Orders, s: State)
    requires WellNamed(was) && WellNamed(next) && ValidOrders(was, o) && !next.refErrors
    requires Exact(s.plane, was)
    ensures (forall w: Oracle :: RestoresAll(PlanOf(was, next, o), s, w, was)) <==>
            TypeChangesLast(PlanOf(was, next, o), was, next)
  {
    var ops := PlanOf(was, next, o);
    hide PlanOf, WellNamed, ValidOrders, Exact, RestoresAll, EntersL2, Moves;
    if TypeChangesLast(ops, was, next) {
      forall w: Oracle ensures RestoresAll(ops, s, w, was) {
        AlwaysRestored(was, next, o, s, w);
      }
    } else {
      var k, i :| EntersL2(k, was, next) && 0 <= i < |ops| && Moves(ops[i], k) && i != |ops| - 1;
      var w := TypeChangeIsNotUndone(was, next, o, s, k, i);
      NotRestored(ops, s, w, k, was, next);
    }
  }

  lemma AlwaysRestored(was: Config, next: Config, o: Orders, s: State, w: Oracle)
    requires WellNamed(was) && WellNamed(next) && ValidOrders(was, o) && !next.refErrors
    requires Exact(s.plane, was) && TypeChangesLast(PlanOf(was, next, o), was, next)
    ensures RestoresAll(PlanOf(was, next, o), s, w, was)
  {
    hide PlanOf, WellNamed, ValidOrders, Exact, EntersL2, Moves, RunPlan;
    var ops := PlanOf(was, next, o);
    var (t, report) := RunPlan(ops, s, w);
    if report.Rejected? && report.residue == [] {
      FailurePoint(ops, s, w);
      forall k | InScope(k, was) ensures Lookup(t.plane, k) == Wanted(was, k) {
        RestoredKey(was, next, o, s, w, k);
      }
    }
  }

  lemma NotRestored(ops: seq<Op>, s: State, w: Oracle, k: Key, was: Config, next: Config)
    requires EntersL2(k, was, next)
    requires var (t, report) := RunPlan(ops, s, w);
      report.Rejected? && report.residue == [] && Lookup(t.plane, k) != Wanted(was, k)
    ensures !RestoresAll(ops, s, w, was)
  {
    hide RunPlan, Wanted;
    DomainsInScope(k, was, next);
  }

  /**
    When a switch of another type becomes an l2 switch and the plan goes on after that, there are
    provider answers for which every undo succeeds and the old state is not back.
   */
  lemma TypeChangeIsNotUndone(was: Config, next: Config, o: Orders, s: State, k: Key, i: nat) returns (w: Oracle)
    requires WellNamed(was) && WellNamed(next) && ValidOrders(was, o) && !next.refErrors && Exact(s.plane, was)
    requires EntersL2(k, was, next) && i + 1 < |PlanOf(was, next, o)| && Moves(PlanOf(was, next, o)[i], k)
    ensures var (t, report) := RunPlan(PlanOf(was, next, o), s, w);
      report.Rejected? && report.residue == [] && Lookup(t.plane, k) != Wanted(was, k)
  {
    hide *;
    var ops := PlanOf(was, next, o);
    PlanSound(was, next, o);
    w := FailAt(i + 1);
    OnlyFailure(ops, 0, i + 1, w, was, next);
    CleanReport(ops, s, w, i + 1, was, next);
    TouchedBy(ops, i + 1, k, i);
    DomainsInScope(k, was, next);
    RestoredKey(was, next, o, s, w, k);
  }

  /** A machine that changes in the same commit is such a later operation. */
  lemma MachineFollows(was: Config, next: Config, o: Orders, k: Key, m: Key) returns (i: nat)
    requires WellNamed(was) && WellNamed(next) && ValidOrders(was, o) && !next.refErrors
    requires EntersL2(k, was, next) && m.kind.Machine? && Wanted(was, m) != Wanted(next, m)
    ensures i + 1 < |PlanOf(was, next, o)| && Moves(PlanOf(was, next, o)[i], k)
  {
    hide *;
    var ops := PlanOf(was, next, o);
    PlanBlock(was, next, o);
    PlanSound(was, next, o);
    EntersIsNew(k, was, next);
    PlanComplete(was, next, o, k);
    OnlyDomainsLeave(m, was, next);
    PlanComplete(was, next, o, m);
    i := MoverIndex(ops, k);
    var j := MoverIndex(ops, m);
    SoundAt(ops, i, was, next);
    SoundAt(ops, j, was, next);
    MovedDomain(ops[i], k, was, next);
    MovedMachine(ops[j], m, was, next);
    InOrder(ops, i, j, was, next);
  }

  lemma EntersIsNew(k: Key, was: Config, next: Config)
    requires EntersL2(k, was, next)
    ensures Wanted(was, k) != Wanted(next, k) && !k.kind.Interface? && !LeavesL2(k, was, next)
  {
  }

  lemma OnlyDomainsLeave(k: Key, was: Config, next: Config)
    ensures k.kind.Machine? ==> !LeavesL2(k, was, next) && !k.kind.Interface?
  {
  }

  lemma MoverIndex(ops: seq<Op>, k: Key) returns (i: nat)
    requires exists op :: op in ops && Moves(op, k)
    ensures i < |ops| && Moves(ops[i], k)
  {
    hide Moves;
    var op :| op in ops && Moves(op, k);
    i :| 0 <= i < |ops| && ops[i] == op;
  }

  lemma TouchedBy(ops: seq<Op>, n: nat, k: Key, i: nat)
    requires i < n <= |ops| && Moves(ops[i], k)
    ensures Touched(ops, n, k)
  {
    hide Moves;
  }

  lemma InOrder(ops: seq<Op>, i: nat, j: nat, was: Config, next: Config)
    requires Block(ops, 0, 21, was, next) && i < |ops| && j < |ops| && Rank(ops[i]) < Rank(ops[j])
    ensures i < j
  {
    hide SoundOp, Rank;
  }

  lemma MovedMachine(op: Op, m: Key, was: Config, next: Config)
    requires SoundOp(op, was, next) && Moves(op, m) && m.kind.Machine?
    ensures Rank(op) >= 10
  {
  }

  /** If only call number `j` fails, every undo succeeds. */
  lemma {:induction false} CleanReport(ops: seq<Op>, s: State, w: Oracle, j: nat, was: Config, next: Config)
    requires AllSound(ops, was, next) && j < |ops| && w == FailAt(j) && FirstFailure(ops, 0, w) == j
    ensures RunPlan(ops, s, w).1 == Rejected(j, [])
  {
    SoundAt(ops, j, was, next);
    UndoGoes(ops[j], j, j + 1, was, next);
    hide *;
    CleanUndos(ops, j, w, UnwindStart(ops[j], j), j, was, next);
    ReportIs(ops, s, w);
    NoneFailed(ops, j, w);
  }

  lemma {:induction false} ReportIs(ops: seq<Op>, s: State, w: Oracle)
    ensures var n := FirstFailure(ops, 0, w);
      RunPlan(ops, s, w).1 == if n == |ops| then Applied else RejectedAt(ops, n, ops[n], w)
  {
    hide FirstFailure, ForwardTo, FailedCall, Unwind, RejectedAt;
  }

  lemma {:induction false} NoneFailed(ops: seq<Op>, j: nat, w: Oracle)
    requires j < |ops| && UndoFailures(ops, j, w, UnwindStart(ops[j], j)) == []
    requires ops[j].compensateOnFail ==> Succeeds(ops[j].undo, w(j + 1))
    ensures RejectedAt(ops, j, ops[j], w) == Rejected(j, [])
  {
    hide UndoFailures, Succeeds;
  }

  lemma UndoGoes(op: Op, j: nat, t: nat, was: Config, next: Config)
    requires SoundOp(op, was, next) && t != j
    ensures Succeeds(op.undo, FailAt(j)(t)) && UnwindStart(op, j) > j
  {
  }

  function FailAt(j: nat): Oracle {
    (n: nat) => if n == j then Failed(None, {}) else Done
  }

  lemma MovedDomain(op: Op, k: Key, was: Config, next: Config)
    requires SoundOp(op, was, next) && Moves(op, k) && EntersL2(k, was, next)
    ensures Rank(op) == 3
  {
  }

  lemma {:induction false} OnlyFailure(ops: seq<Op>, i: nat, j: nat, w: Oracle, was: Config, next: Config)
    requires AllSound(ops, was, next) && i <= j < |ops| && w == FailAt(j)
    ensures FirstFailure(ops, i, w) == j
    decreases j - i
  {
    assert SoundOp(ops[i], was, next);
    if i < j {
      OnlyFailure(ops, i + 1, j, w, was, next);
    }
  }

  lemma {:induction false} CleanUndos(ops: seq<Op>, m: nat, w: Oracle, t: nat, j: nat, was: Config, next: Config)
    requires AllSound(ops, was, next) && m <= |ops| && w == FailAt(j) && t > j
    ensures UndoFailures(ops, m, w, t) == []
    decreases m
  {
    if m > 0 {
      assert SoundOp(ops[m - 1], was, next);
      CleanUndos(ops, m - 1, w, t + 1, j, was, next);
    }
  }
}
