/**
  References resolve at every step. If they resolve inside the old and inside the new
  configuration, then no live object points at a missing one between any two provider calls of a
  plan, forward or during compensation.
 */
module References {
  import opened Common
  import opened DataPlane
  import opened Plan
  import opened PlanFacts
  import opened Apply
  import opened Convergence
  import opened Atomicity

  /** The reference kinds whose order the plan takes care of. */
  predicate Tracked(from: Kind, to: Kind) {
    || ((from.BridgeDomain? || from.Vrf?) && (to.Acl? || to.Bond? || to.VnicPort?))
    || (from.Nat? && (to.Vrf? || to.Bond? || to.VnicPort?))
    || ((from.Machine? || from.Container?) && to.VnicPort?)
    || (from.Interface? && to.Qos?)
  }

  ghost predicate Resolved(c: Config) {
    forall k, r :: Wanted(c, k).Some? && r in Wanted(c, k).value.refs && Tracked(k.kind, r.kind) ==> Wanted(c, r).Some?
  }

  /** Interfaces count when both configurations declare them and their settings were not put off. */
  predicate Counts(p: Plane, k: Key, was: Config, next: Config) {
    k.kind.Interface? ==> Wanted(was, k).Some? && Wanted(next, k).Some? && k.name !in p.pending
  }

  ghost predicate Closed(p: Plane, was: Config, next: Config) {
    forall k, r :: k in p.objs && Counts(p, k, was, next) && r in p.objs[k].refs && Tracked(k.kind, r.kind) ==> r in p.objs
  }

  /** The first `m` operations have been carried out, the others not. */
  ghost predicate AtStage(p: Plane, ops: seq<Op>, m: nat, was: Config, next: Config)
    requires m <= |ops|
  {
    forall k :: Counts(p, k, was, next) ==>
      Lookup(p, k) == if Touched(ops, m, k) then Wanted(next, k) else Wanted(was, k)
  }

  ghost predicate Starts(p: Plane, was: Config) {
    forall k :: InScope(k, was) ==> Lookup(p, k) == Wanted(was, k)
  }

  /** Every object whose wanted value differs is moved by some operation. */
  ghost predicate Complete(ops: seq<Op>, was: Config, next: Config) {
    forall k: Key :: Wanted(was, k) != Wanted(next, k) && (k.kind.Interface? ==> Wanted(next, k).Some?) ==>
      Touched(ops, |ops|, k)
  }

  // ---------- one reference ----------

  /** The rank of the operation that moves an object tells whether the object stays. */
  lemma MoverRank(ops: seq<Op>, i: nat, k: Key, was: Config, next: Config)
    requires Block(ops, 0, 21, was, next) && i < |ops| && Moves(ops[i], k)
    ensures Rank(ops[i]) == if Wanted(next, k).Some? then UpRank(k.kind) else DelRank(k.kind)
    ensures Wanted(next, k).None? ==> !k.kind.Interface? && Wanted(was, k).Some?
  {
    hide Wanted, RestoreTarget;
    assert ops[i] in ops;
  }

  /** What the plan moves earlier than `second` has been moved when `second` has. */
  lemma LaterTouch(ops: seq<Op>, n: nat, first: Key, second: Key, was: Config, next: Config)
    requires Block(ops, 0, 21, was, next) && n <= |ops| && Touched(ops, |ops|, first) && Touched(ops, n, second)
    requires (if Wanted(next, first).Some? then UpRank(first.kind) else DelRank(first.kind)) <
             (if Wanted(next, second).Some? then UpRank(second.kind) else DelRank(second.kind))
    ensures Touched(ops, n, first)
  {
    hide Wanted, SoundOp;
    var i :| 0 <= i < |ops| && Moves(ops[i], first);
    var j :| 0 <= j < n && Moves(ops[j], second);
    MoverRank(ops, i, first, was, next);
    MoverRank(ops, j, second, was, next);
  }

  lemma CompleteAt(ops: seq<Op>, k: Key, was: Config, next: Config)
    requires Complete(ops, was, next) && Wanted(was, k) != Wanted(next, k) && (k.kind.Interface? ==> Wanted(next, k).Some?)
    ensures Touched(ops, |ops|, k)
  {
    hide Wanted, Touched;
  }

  /** What a moved object refers to was moved before it, or did not have to be. */
  lemma NewReference(ops: seq<Op>, m: nat, k: Key, r: Key, was: Config, next: Config)
    requires Block(ops, 0, 21, was, next) && Complete(ops, was, next) && m <= |ops|
    requires Tracked(k.kind, r.kind) && Touched(ops, m, k) && Wanted(next, k).Some? && Wanted(next, r).Some?
    ensures Touched(ops, m, r) || Wanted(was, r).Some?
  {
    hide Wanted, Block, Complete, Touched;
    if Wanted(was, r).None? {
      CompleteAt(ops, r, was, next);
      LaterTouch(ops, m, r, k, was, next);
    }
  }

  /** What an object still refers to is deleted after the object itself was moved. */
  lemma OldReference(ops: seq<Op>, m: nat, k: Key, r: Key, was: Config, next: Config)
    requires Block(ops, 0, 21, was, next) && Complete(ops, was, next) && m <= |ops|
    requires Tracked(k.kind, r.kind) && !Touched(ops, m, k) && Touched(ops, m, r)
    requires Wanted(was, k) != Wanted(next, k) && (k.kind.Interface? ==> Wanted(next, k).Some?)
    ensures Wanted(next, r).Some?
  {
    hide Wanted, Block, Complete, Touched;
    CompleteAt(ops, k, was, next);
    if Wanted(next, r).None? && (Wanted(next, k).Some? || !k.kind.Nat?) {
      LaterTouch(ops, m, k, r, was, next);
    }
    if Wanted(next, k).None? && k.kind.Nat? {
      SingletonMoved(ops, k, was, next);
    }
  }

  /** The NAT configuration is never deleted. */
  lemma SingletonMoved(ops: seq<Op>, k: Key, was: Config, next: Config)
    requires Block(ops, 0, 21, was, next) && Touched(ops, |ops|, k) && k.kind.Nat?
    ensures Wanted(next, k).Some?
  {
    hide SoundOp, Wanted;
    var i :| 0 <= i < |ops| && Moves(ops[i], k);
    MoverRank(ops, i, k, was, next);
  }

  lemma StageResolves(ops: seq<Op>, m: nat, k: Key, r: Key, b: Body, was: Config, next: Config)
    requires Block(ops, 0, 21, was, next) && Complete(ops, was, next) && m <= |ops|
    requires Resolved(was) && Resolved(next)
    requires Tracked(k.kind, r.kind) && r in b.refs
    requires k.kind.Interface? ==> Wanted(was, k).Some? && Wanted(next, k).Some?
    requires (if Touched(ops, m, k) then Wanted(next, k) else Wanted(was, k)) == Some(b)
    ensures (if Touched(ops, m, r) then Wanted(next, r) else Wanted(was, r)).Some?
  {
    hide Wanted, SoundOp, Block, Complete, Touched;
    if Touched(ops, m, k) {
      NewReference(ops, m, k, r, was, next);
    } else if Touched(ops, m, r) && Wanted(was, k) != Wanted(next, k) {
      OldReference(ops, m, k, r, was, next);
    }
  }

  lemma StageClosed(p: Plane, ops: seq<Op>, m: nat, was: Config, next: Config)
    requires Block(ops, 0, 21, was, next) && Complete(ops, was, next) && m <= |ops|
    requires Resolved(was) && Resolved(next) && AtStage(p, ops, m, was, next)
    ensures Closed(p, was, next)
  {
    hide Block, Complete, Resolved, Wanted, Touched;
    forall k, r | k in p.objs && Counts(p, k, was, next) && r in p.objs[k].refs && Tracked(k.kind, r.kind)
      ensures r in p.objs
    {
      assert Lookup(p, k) == Some(p.objs[k]);
      StageResolves(ops, m, k, r, p.objs[k], was, next);
      assert Counts(p, r, was, next);
      assert Lookup(p, r).Some?;
    }
  }

  // ---------- the stages of a run ----------

  lemma {:induction false} ForwardStage(ops: seq<Op>, n: nat, s: State, w: Oracle, was: Config, next: Config)
    requires AllSound(ops, was, next) && n <= |ops| && Starts(s.plane, was)
    requires forall i :: 0 <= i < n ==> Succeeds(ops[i].run, w(i))
    ensures AtStage(ForwardTo(ops, n, s, w).plane, ops, n, was, next)
  {
    var p := ForwardTo(ops, n, s, w).plane;
    forall k | Counts(p, k, was, next)
      ensures Lookup(p, k) == if Touched(ops, n, k) then Wanted(next, k) else Wanted(was, k)
    {
      ForwardKey(ops, n, s, w, k, was, next);
    }
  }

  /** The state after undoing ops[m-1], ..., ops[j]. */
  function UnwindTo(ops: seq<Op>, m: nat, j: nat, s: State, w: Oracle, t: nat): State
    requires j <= m <= |ops|
    decreases m
  {
    if m == j then s else UnwindTo(ops, m - 1, j, Undo(s, ops[m - 1], w(t)), w, t + 1)
  }

  lemma {:induction false} UnwindToZero(ops: seq<Op>, m: nat, s: State, w: Oracle, t: nat)
    requires m <= |ops|
    ensures UnwindTo(ops, m, 0, s, w, t) == Unwind(ops, m, s, w, t)
    decreases m
  {
    if m > 0 {
      UnwindToZero(ops, m - 1, Undo(s, ops[m - 1], w(t)), w, t + 1);
    }
  }

  /** A successful undo goes from one stage to the stage before. */
  lemma UndoStage(ops: seq<Op>, m: nat, s: State, o: Outcome, was: Config, next: Config)
    requires WellNamed(was) && Block(ops, 0, 21, was, next) && NoneEntersL2(was, next)
    requires 0 < m <= |ops| && AtStage(s.plane, ops, m, was, next) && Succeeds(ops[m - 1].undo, o)
    ensures AtStage(Undo(s, ops[m - 1], o).plane, ops, m - 1, was, next)
  {
    var op := ops[m - 1];
    var p := Undo(s, op, o).plane;
    assert op in ops;
    forall k | Counts(p, k, was, next)
      ensures Lookup(p, k) == if Touched(ops, m - 1, k) then Wanted(next, k) else Wanted(was, k)
    {
      if Moves(op, k) {
        RestoresOld(op, k, was, next);
        assert Lookup(p, k) == Wanted(was, k);
      } else {
        UndoOther(s, op, o, k, was, next);
        assert Counts(s.plane, k, was, next);
        assert Touched(ops, m, k) <==> Touched(ops, m - 1, k);
      }
    }
  }

  lemma {:induction false} UnwindStage(ops: seq<Op>, m: nat, j: nat, s: State, w: Oracle, t: nat, was: Config, next: Config)
    requires WellNamed(was) && Block(ops, 0, 21, was, next) && NoneEntersL2(was, next)
    requires j <= m <= |ops| && AtStage(s.plane, ops, m, was, next)
    requires forall i :: j <= i < m ==> Succeeds(ops[i].undo, w(t + m - 1 - i))
    ensures AtStage(UnwindTo(ops, m, j, s, w, t).plane, ops, j, was, next)
    decreases m
  {
    hide Block, AtStage, Undo, WellNamed, NoneEntersL2, Succeeds;
    if m > j {
      assert Succeeds(ops[m - 1].undo, w(t));
      UndoStage(ops, m, s, w(t), was, next);
      UnwindStage(ops, m - 1, j, Undo(s, ops[m - 1], w(t)), w, t + 1, was, next);
    }
  }

  lemma FailedCallStage(ops: seq<Op>, n: nat, s: State, w: Oracle, was: Config, next: Config)
    requires WellNamed(was) && Block(ops, 0, 21, was, next) && NoneEntersL2(was, next)
    requires n < |ops| && AtStage(s.plane, ops, n, was, next) && !Succeeds(ops[n].run, w(n))
    requires ops[n].compensateOnFail ==> Succeeds(ops[n].undo, w(n + 1))
    ensures AtStage(FailedCall(s, ops[n], w, n).plane, ops, n, was, next)
  {
    var op := ops[n];
    var p := FailedCall(s, op, w, n).plane;
    assert op in ops;
    forall k | Counts(p, k, was, next)
      ensures Lookup(p, k) == if Touched(ops, n, k) then Wanted(next, k) else Wanted(was, k)
    {
      if Moves(op, k) && k.kind.Vrf? {
        RestoresOld(op, k, was, next);
      } else if Moves(op, k) {
        assert Lookup(p, k) == Lookup(s.plane, k);
      } else {
        FailedCallElsewhere(s, op, w, n, k, was, next);
      }
    }
  }

  // ---------- main result ----------

  lemma PlanIsComplete(was: Config, next: Config, o: Orders)
    requires WellNamed(was) && WellNamed(next) && ValidOrders(was, o) && !next.refErrors && NoneLeavesL2(was, next)
    ensures Complete(PlanOf(was, next, o), was, next)
  {
    forall k: Key | Wanted(was, k) != Wanted(next, k) && (k.kind.Interface? ==> Wanted(next, k).Some?)
      ensures Touched(PlanOf(was, next, o), |PlanOf(was, next, o)|, k)
    {
      hide PlanOf, WellNamed, ValidOrders, LeavesL2;
      PlanComplete(was, next, o, k);
      var op :| op in PlanOf(was, next, o) && Moves(op, k);
      var i :| 0 <= i < |PlanOf(was, next, o)| && PlanOf(was, next, o)[i] == op;
    }
  }

  /** Forward, after every completed operation. */
  lemma {:induction false} ForwardClosed(was: Config, next: Config, o: Orders, s: State, w: Oracle, n: nat)
    requires WellNamed(was) && WellNamed(next) && ValidOrders(was, o) && !next.refErrors && NoneLeavesL2(was, next)
    requires Resolved(was) && Resolved(next) && Starts(s.plane, was)
    requires n <= FirstFailure(PlanOf(was, next, o), 0, w)
    ensures Closed(ForwardTo(PlanOf(was, next, o), n, s, w).plane, was, next)
  {
    PlanBlock(was, next, o);
    PlanIsComplete(was, next, o);
    hide PlanOf, WellNamed, ValidOrders, Complete, Resolved, NoneLeavesL2, AtStage, Closed;
    var ops := PlanOf(was, next, o);
    ForwardStage(ops, n, s, w, was, next);
    StageClosed(ForwardTo(ops, n, s, w).plane, ops, n, was, next);
  }

  /** After the failed call was compensated and after every undo up to the first that fails, the run is back at an earlier stage. */
  lemma BackwardStage(was: Config, next: Config, o: Orders, s: State, w: Oracle, j: nat)
    requires WellNamed(was) && WellNamed(next) && ValidOrders(was, o) && !next.refErrors
    requires NoneEntersL2(was, next) && Starts(s.plane, was)
    requires FirstFailure(PlanOf(was, next, o), 0, w) < |PlanOf(was, next, o)|
    requires j <= FirstFailure(PlanOf(was, next, o), 0, w) && UndoneTo(PlanOf(was, next, o), w, j)
    ensures AtStage(BackAt(PlanOf(was, next, o), s, w, j).plane, PlanOf(was, next, o), j, was, next)
  {
    hide *;
    PlanBlock(was, next, o);
    PlanSound(was, next, o);
    var ops := PlanOf(was, next, o);
    var n := FirstFailure(ops, 0, w);
    ForwardStage(ops, n, s, w, was, next);
    StageBack(ops, n, j, ForwardTo(ops, n, s, w), w, was, next);
    BackIs(ops, s, w, j);
  }

  /** The failing call's own undo succeeds, and those of ops[n-1], ..., ops[j]. */
  predicate UndoneTo(ops: seq<Op>, w: Oracle, j: nat)
    requires FirstFailure(ops, 0, w) < |ops|
  {
    var n := FirstFailure(ops, 0, w);
    && (ops[n].compensateOnFail ==> Succeeds(ops[n].undo, w(n + 1)))
    && (forall i :: j <= i < n ==> Succeeds(ops[i].undo, w(UnwindStart(ops[n], n) + n - 1 - i)))
  }

  /** The state when everything back to ops[j] has been undone. */
  function BackAt(ops: seq<Op>, s: State, w: Oracle, j: nat): State
    requires FirstFailure(ops, 0, w) < |ops| && j <= FirstFailure(ops, 0, w)
  {
    var n := FirstFailure(ops, 0, w);
    UnwindTo(ops, n, j, FailedCall(ForwardTo(ops, n, s, w), ops[n], w, n), w, UnwindStart(ops[n], n))
  }

  lemma {:induction false} BackIs(ops: seq<Op>, s: State, w: Oracle, j: nat)
    requires FirstFailure(ops, 0, w) < |ops| && j <= FirstFailure(ops, 0, w)
    ensures var n := FirstFailure(ops, 0, w);
      BackAt(ops, s, w, j) == UnwindTo(ops, n, j, FailedCall(ForwardTo(ops, n, s, w), ops[n], w, n), w, UnwindStart(ops[n], n))
  {
  }

  lemma {:induction false} StageBack(ops: seq<Op>, n: nat, j: nat, reached: State, w: Oracle, was: Config, next: Config)
    requires WellNamed(was) && Block(ops, 0, 21, was, next) && NoneEntersL2(was, next)
    requires j <= n < |ops| && n == FirstFailure(ops, 0, w) && UndoneTo(ops, w, j)
    requires AtStage(reached.plane, ops, n, was, next)
    ensures AtStage(UnwindTo(ops, n, j, FailedCall(reached, ops[n], w, n), w, UnwindStart(ops[n], n)).plane, ops, j, was, next)
  {
    hide Block, AtStage, WellNamed, NoneEntersL2, UnwindTo, FailedCall;
    FailedCallStage(ops, n, reached, w, was, next);
    UnwindStage(ops, n, j, FailedCall(reached, ops[n], w, n), w, UnwindStart(ops[n], n), was, next);
  }

  /** Backward, after the failed call was compensated and after every undo up to the first that fails. */
  lemma BackwardClosed(was: Config, next: Config, o: Orders, s: State, w: Oracle, j: nat)
    requires WellNamed(was) && WellNamed(next) && ValidOrders(was, o) && !next.refErrors
    requires NoneLeavesL2(was, next) && NoneEntersL2(was, next)
    requires Resolved(was) && Resolved(next) && Starts(s.plane, was)
    requires FirstFailure(PlanOf(was, next, o), 0, w) < |PlanOf(was, next, o)|
    requires j <= FirstFailure(PlanOf(was, next, o), 0, w) && UndoneTo(PlanOf(was, next, o), w, j)
    ensures Closed(BackAt(PlanOf(was, next, o), s, w, j).plane, was, next)
  {
    hide *;
    PlanBlock(was, next, o);
    PlanIsComplete(was, next, o);
    BackwardStage(was, next, o, s, w, j);
    var ops := PlanOf(was, next, o);
    StageClosed(BackAt(ops, s, w, j).plane, ops, j, was, next);
  }

  /** Undoing to the start is what the whole compensation does. */
  lemma {:induction false} BackToStart(ops: seq<Op>, s: State, w: Oracle)
    requires FirstFailure(ops, 0, w) < |ops|
    ensures BackAt(ops, s, w, 0) == RunPlan(ops, s, w).0
  {
    hide ForwardTo, FailedCall;
    var n := FirstFailure(ops, 0, w);
    UnwindToZero(ops, n, FailedCall(ForwardTo(ops, n, s, w), ops[n], w, n), w, UnwindStart(ops[n], n));
  }

  lemma {:induction false} CleanUndone(ops: seq<Op>, m: nat, w: Oracle, t: nat)
    requires m <= |ops| && UndoFailures(ops, m, w, t) == []
    ensures forall i :: 0 <= i < m ==> Succeeds(ops[i].undo, w(t + m - 1 - i))
    decreases m
  {
    hide Succeeds;
    if m > 0 {
      assert Succeeds(ops[m - 1].undo, w(t)) && UndoFailures(ops, m - 1, w, t + 1) == [];
      CleanUndone(ops, m - 1, w, t + 1);
    }
  }

  /** A commit that is rejected with clean undos leaves no reference dangling. */
  lemma RejectedClosed(was: Config, next: Config, o: Orders, s: State, w: Oracle)
    requires WellNamed(was) && WellNamed(next) && ValidOrders(was, o) && !next.refErrors
    requires NoneLeavesL2(was, next) && NoneEntersL2(was, next)
    requires Resolved(was) && Resolved(next) && Starts(s.plane, was)
    requires RunPlan(PlanOf(was, next, o), s, w).1.Rejected? && RunPlan(PlanOf(was, next, o), s, w).1.residue == []
    ensures Closed(RunPlan(PlanOf(was, next, o), s, w).0.plane, was, next)
  {
    hide *;
    var ops := PlanOf(was, next, o);
    UndoneClean(ops, s, w);
    BackToStart(ops, s, w);
    BackwardClosed(was, next, o, s, w, 0);
  }

  lemma {:induction false} UndoneClean(ops: seq<Op>, s: State, w: Oracle)
    requires RunPlan(ops, s, w).1.Rejected? && RunPlan(ops, s, w).1.residue == []
    ensures FirstFailure(ops, 0, w) < |ops| && UndoneTo(ops, w, 0)
  {
    ReportIs(ops, s, w);
    hide RunPlan, FirstFailure, UndoFailures, Succeeds;
    var n := FirstFailure(ops, 0, w);
    NothingLeft(ops, n, ops[n], w);
    CleanUndone(ops, n, w, UnwindStart(ops[n], n));
  }

  lemma {:induction false} NothingLeft(ops: seq<Op>, n: nat, op: Op, w: Oracle)
    requires n <= |ops| && RejectedAt(ops, n, op, w).residue == []
    ensures UndoFailures(ops, n, w, UnwindStart(op, n)) == []
    ensures op.compensateOnFail ==> Succeeds(op.undo, w(n + 1))
  {
    hide UndoFailures, Succeeds;
    var rest := UndoFailures(ops, n, w, UnwindStart(op, n));
    assert |RejectedAt(ops, n, op, w).residue| == |rest| + if op.compensateOnFail && !Succeeds(op.undo, w(n + 1)) then 1 else 0;
  }

  // ---------- every pair of kinds: when a reference dangles ----------

  predicate Dangles(p: Plane, from: Key, to: Key) {
    from in p.objs && to in p.objs[from].refs && to !in p.objs
  }

  predicate RefersTo(c: Config, from: Key, to: Key) {
    Wanted(c, from).Some? && to in Wanted(c, from).value.refs
  }

  predicate Resolves(c: Config, from: Key, to: Key) {
    RefersTo(c, from, to) ==> Wanted(c, to).Some?
  }

  /** Some moment of a run, forward, at which the reference dangles. */
  ghost predicate DanglesSometime(ops: seq<Op>, s: State, w: Oracle, from: Key, to: Key) {
    exists n: nat :: n <= FirstFailure(ops, 0, w) && Dangles(ForwardTo(ops, n, s, w).plane, from, to)
  }

  /**
    The new object comes before what it refers to, or the old one stays behind it: because its
    kind is deleted later, or for good because an l2 switch changed its type.
   */
  predicate Exposed(was: Config, next: Config, from: Key, to: Key) {
    || (RefersTo(next, from, to) && Wanted(was, to).None? && UpRank(from.kind) < UpRank(to.kind))
    || (RefersTo(was, from, to) && Wanted(next, to).None? && !LeavesL2(to, was, next) &&
        (LeavesL2(from, was, next) || (Wanted(next, from).None? && DelRank(to.kind) < DelRank(from.kind))))
  }

  /**
    References, exactly: whatever the kinds, an object refers to a missing one at some moment of
    an applied plan if and only if the reference is exposed; if it is not, no moment of any plan
    shows it dangling.
   */
  lemma DanglesExactly(was: Config, next: Config, o: Orders, s: State, w: Oracle, from: Key, to: Key)
    requires WellNamed(was) && WellNamed(next) && ValidOrders(was, o) && !next.refErrors && Starts(s.plane, was)
    requires from.kind != to.kind && !from.kind.Interface? && !to.kind.Interface?
    requires Resolves(was, from, to) && Resolves(next, from, to)
    ensures DanglesSometime(PlanOf(was, next, o), s, w, from, to) ==> Exposed(was, next, from, to)
    ensures RunPlan(PlanOf(was, next, o), s, w).1.Applied? ==>
      (DanglesSometime(PlanOf(was, next, o), s, w, from, to) <==> Exposed(was, next, from, to))
  {
    hide *;
    var ops := PlanOf(was, next, o);
    PlanBlock(was, next, o);
    PlanSound(was, next, o);
    KeyMoved(was, next, o, from);
    KeyMoved(was, next, o, to);
    NeverLeaves(ops, from, was, next);
    NeverLeaves(ops, to, was, next);
    StagesExposed(ops, s, w, from, to, was, next);
    if RunPlan(ops, s, w).1.Applied? && Exposed(was, next, from, to) {
      AppliedThrough(ops, s, w);
      ExposedShows(ops, s, w, from, to, was, next);
    }
  }

  /** Gateways: the new gateway names a VRF that was not there, or its switch stays behind under another type. */
  lemma GatewayDangles(was: Config, next: Config, o: Orders, s: State, w: Oracle, d: Key, v: Key)
    requires WellNamed(was) && WellNamed(next) && ValidOrders(was, o) && !next.refErrors && Starts(s.plane, was)
    requires d.kind == BridgeDomain && v.kind == Vrf && Resolves(was, d, v) && Resolves(next, d, v)
    requires RunPlan(PlanOf(was, next, o), s, w).1.Applied?
    ensures DanglesSometime(PlanOf(was, next, o), s, w, d, v) <==>
      || (RefersTo(next, d, v) && Wanted(was, v).None?)
      || (LeavesL2(d, was, next) && RefersTo(was, d, v) && Wanted(next, v).None?)
  {
    hide *;
    ExposedGateway(was, next, d, v);
    DanglesExactly(was, next, o, s, w, d, v);
  }

  /** vNIC ports in the table of an l3 switch: the VRF comes with the reference, or both go together. */
  lemma VnicDangles(was: Config, next: Config, o: Orders, s: State, w: Oracle, p: Key, v: Key)
    requires WellNamed(was) && WellNamed(next) && ValidOrders(was, o) && !next.refErrors && Starts(s.plane, was)
    requires p.kind == VnicPort && v.kind == Vrf && Resolves(was, p, v) && Resolves(next, p, v)
    requires RunPlan(PlanOf(was, next, o), s, w).1.Applied?
    ensures DanglesSometime(PlanOf(was, next, o), s, w, p, v) <==>
      || (RefersTo(next, p, v) && Wanted(was, v).None?)
      || (RefersTo(was, p, v) && Wanted(next, v).None? && Wanted(next, p).None?)
  {
    hide *;
    ExposedVnic(was, next, p, v);
    DanglesExactly(was, next, o, s, w, p, v);
  }

  /** Mirroring sessions: the session goes together with the bond, or the vNIC, that it watches. */
  lemma MirrorDangles(was: Config, next: Config, o: Orders, s: State, w: Oracle, m: Key, p: Key)
    requires WellNamed(was) && WellNamed(next) && ValidOrders(was, o) && !next.refErrors && Starts(s.plane, was)
    requires m.kind == Span && (p.kind == Bond || p.kind == VnicPort) && Resolves(was, m, p) && Resolves(next, m, p)
    requires RunPlan(PlanOf(was, next, o), s, w).1.Applied?
    ensures DanglesSometime(PlanOf(was, next, o), s, w, m, p) <==>
      RefersTo(was, m, p) && Wanted(next, m).None? && Wanted(next, p).None?
  {
    hide *;
    ExposedMirror(was, next, m, p);
    DanglesExactly(was, next, o, s, w, m, p);
  }

  lemma ExposedGateway(was: Config, next: Config, d: Key, v: Key)
    requires d.kind == BridgeDomain && v.kind == Vrf
    ensures d.kind != v.kind && !d.kind.Interface? && !v.kind.Interface?
    ensures Exposed(was, next, d, v) <==>
      || (RefersTo(next, d, v) && Wanted(was, v).None?)
      || (LeavesL2(d, was, next) && RefersTo(was, d, v) && Wanted(next, v).None?)
  {
    hide Wanted;
  }

  lemma ExposedVnic(was: Config, next: Config, p: Key, v: Key)
    requires p.kind == VnicPort && v.kind == Vrf
    ensures p.kind != v.kind && !p.kind.Interface? && !v.kind.Interface?
    ensures Exposed(was, next, p, v) <==>
      || (RefersTo(next, p, v) && Wanted(was, v).None?)
      || (RefersTo(was, p, v) && Wanted(next, v).None? && Wanted(next, p).None?)
  {
    hide Wanted;
  }

  lemma ExposedMirror(was: Config, next: Config, m: Key, p: Key)
    requires m.kind == Span && (p.kind == Bond || p.kind == VnicPort)
    ensures m.kind != p.kind && !m.kind.Interface? && !p.kind.Interface?
    ensures Exposed(was, next, m, p) <==> RefersTo(was, m, p) && Wanted(next, m).None? && Wanted(next, p).None?
  {
    hide Wanted;
  }

  /** Kinds whose order is right in both directions never dangle, unless an l2 switch changes its type. */
  lemma OrderedNeverDangles(was: Config, next: Config, o: Orders, s: State, w: Oracle, from: Key, to: Key)
    requires WellNamed(was) && WellNamed(next) && ValidOrders(was, o) && !next.refErrors && Starts(s.plane, was)
    requires from.kind != to.kind && !from.kind.Interface? && !to.kind.Interface?
    requires Resolves(was, from, to) && Resolves(next, from, to) && !LeavesL2(from, was, next)
    requires UpRank(to.kind) < UpRank(from.kind) && DelRank(from.kind) <= DelRank(to.kind)
    ensures !DanglesSometime(PlanOf(was, next, o), s, w, from, to)
  {
    DanglesExactly(was, next, o, s, w, from, to);
    hide PlanOf, RunPlan, Wanted, DanglesSometime;
  }

  lemma KeyMoved(was: Config, next: Config, o: Orders, k: Key)
    requires WellNamed(was) && WellNamed(next) && ValidOrders(was, o) && !next.refErrors && !k.kind.Interface?
    ensures Wanted(was, k) != Wanted(next, k) && !LeavesL2(k, was, next) ==>
      Touched(PlanOf(was, next, o), |PlanOf(was, next, o)|, k)
  {
    hide *;
    if Wanted(was, k) != Wanted(next, k) && !LeavesL2(k, was, next) {
      PlanComplete(was, next, o, k);
      FoundAt(PlanOf(was, next, o), k);
    }
  }

  lemma NeverLeaves(ops: seq<Op>, k: Key, was: Config, next: Config)
    requires AllSound(ops, was, next)
    ensures LeavesL2(k, was, next) ==> !Touched(ops, |ops|, k)
  {
    if Touched(ops, |ops|, k) {
      MovedDomainStays(ops, k, was, next);
    }
  }

  lemma {:induction false} AppliedThrough(ops: seq<Op>, s: State, w: Oracle)
    requires RunPlan(ops, s, w).1.Applied?
    ensures FirstFailure(ops, 0, w) == |ops|
  {
  }

  /** What an object is at a moment of a run. */
  lemma {:induction false} StageValue(ops: seq<Op>, n: nat, s: State, w: Oracle, k: Key, was: Config, next: Config)
    requires AllSound(ops, was, next) && n <= FirstFailure(ops, 0, w) && Starts(s.plane, was) && !k.kind.Interface?
    ensures Lookup(ForwardTo(ops, n, s, w).plane, k) == if Touched(ops, n, k) then Wanted(next, k) else Wanted(was, k)
  {
    hide AllSound, Wanted;
    ForwardKey(ops, n, s, w, k, was, next);
  }

  /** At no stage does a reference dangle that is not exposed. */
  lemma StageExposed(p: Plane, ops: seq<Op>, n: nat, from: Key, to: Key, was: Config, next: Config)
    requires Block(ops, 0, 21, was, next) && n <= |ops| && AtStage(p, ops, n, was, next)
    requires from.kind != to.kind && !from.kind.Interface? && !to.kind.Interface?
    requires Resolves(was, from, to) && Resolves(next, from, to)
    requires Wanted(was, from) != Wanted(next, from) && !LeavesL2(from, was, next) ==> Touched(ops, |ops|, from)
    requires Wanted(was, to) != Wanted(next, to) && !LeavesL2(to, was, next) ==> Touched(ops, |ops|, to)
    requires LeavesL2(to, was, next) ==> !Touched(ops, |ops|, to)
    ensures Dangles(p, from, to) ==> Exposed(was, next, from, to)
  {
    if Dangles(p, from, to) {
      StageIs(p, ops, n, from, was, next);
      StageIs(p, ops, n, to, was, next);
      TouchGrows(ops, n, to);
      DifferentRanks(from.kind, to.kind);
      hide Block, AtStage, Wanted, Touched, LeavesL2, UpRank, DelRank, Dangles;
      if Touched(ops, n, from) {
        StageNew(ops, n, from, to, was, next);
      } else {
        StageOld(ops, n, from, to, was, next);
      }
    }
  }

  /** The object is new already and what it refers to is missing still. */
  lemma StageNew(ops: seq<Op>, n: nat, from: Key, to: Key, was: Config, next: Config)
    requires Block(ops, 0, 21, was, next) && n <= |ops| && Touched(ops, n, from)
    requires UpRank(from.kind) != UpRank(to.kind) && Resolves(next, from, to) && RefersTo(next, from, to)
    requires (if Touched(ops, n, to) then Wanted(next, to) else Wanted(was, to)).None?
    requires Wanted(was, to) != Wanted(next, to) && !LeavesL2(to, was, next) ==> Touched(ops, |ops|, to)
    ensures Wanted(was, to).None? && UpRank(from.kind) < UpRank(to.kind)
  {
    hide Block, Touched, UpRank, DelRank;
    if UpRank(to.kind) < UpRank(from.kind) {
      LaterTouch(ops, n, to, from, was, next);
    }
  }

  /** The object is old still and what it refers to is gone already. */
  lemma StageOld(ops: seq<Op>, n: nat, from: Key, to: Key, was: Config, next: Config)
    requires Block(ops, 0, 21, was, next) && n <= |ops| && !Touched(ops, n, from)
    requires DelRank(from.kind) != DelRank(to.kind) || DelRank(to.kind) == 22
    requires Resolves(was, from, to) && RefersTo(was, from, to) && Resolves(next, from, to)
    requires (if Touched(ops, n, to) then Wanted(next, to) else Wanted(was, to)).None?
    requires Wanted(was, from) != Wanted(next, from) && !LeavesL2(from, was, next) ==> Touched(ops, |ops|, from)
    requires LeavesL2(to, was, next) ==> !Touched(ops, n, to)
    ensures Exposed(was, next, from, to)
  {
    hide Block, Touched, UpRank, DelRank, LeavesL2, Wanted;
    if !LeavesL2(from, was, next) && !(Wanted(next, from).None? && DelRank(to.kind) < DelRank(from.kind)) {
      UpBeforeDel(from.kind, to.kind);
      GoneRank(ops, n, to, was, next);
      LaterTouch(ops, n, from, to, was, next);
    }
  }

  lemma GoneRank(ops: seq<Op>, n: nat, k: Key, was: Config, next: Config)
    requires Block(ops, 0, 21, was, next) && n <= |ops| && Touched(ops, n, k) && Wanted(next, k).None?
    ensures DelRank(k.kind) < 22
  {
    hide SoundOp, Wanted;
    var i :| 0 <= i < n && Moves(ops[i], k);
    MoverRank(ops, i, k, was, next);
  }

  lemma UpBeforeDel(a: Kind, b: Kind)
    ensures UpRank(a) < DelRank(b)
  {
  }

  lemma DifferentRanks(a: Kind, b: Kind)
    requires a != b
    ensures UpRank(a) != UpRank(b) && (DelRank(a) != DelRank(b) || DelRank(b) == 22)
  {
  }

  lemma TouchGrows(ops: seq<Op>, n: nat, k: Key)
    requires n <= |ops|
    ensures Touched(ops, n, k) ==> Touched(ops, |ops|, k)
  {
  }

  lemma StageIs(p: Plane, ops: seq<Op>, n: nat, k: Key, was: Config, next: Config)
    requires n <= |ops| && AtStage(p, ops, n, was, next) && !k.kind.Interface?
    ensures Lookup(p, k) == if Touched(ops, n, k) then Wanted(next, k) else Wanted(was, k)
  {
    hide Wanted, Touched;
    assert Counts(p, k, was, next);
  }

  /** The same while a failed plan is undone: only exposed references can dangle. */
  lemma ExposedBackward(was: Config, next: Config, o: Orders, s: State, w: Oracle, j: nat, from: Key, to: Key)
    requires WellNamed(was) && WellNamed(next) && ValidOrders(was, o) && !next.refErrors
    requires NoneEntersL2(was, next) && Starts(s.plane, was)
    requires FirstFailure(PlanOf(was, next, o), 0, w) < |PlanOf(was, next, o)|
    requires j <= FirstFailure(PlanOf(was, next, o), 0, w) && UndoneTo(PlanOf(was, next, o), w, j)
    requires from.kind != to.kind && !from.kind.Interface? && !to.kind.Interface?
    requires Resolves(was, from, to) && Resolves(next, from, to)
    ensures Dangles(BackAt(PlanOf(was, next, o), s, w, j).plane, from, to) ==> Exposed(was, next, from, to)
  {
    hide *;
    var ops := PlanOf(was, next, o);
    PlanBlock(was, next, o);
    PlanSound(was, next, o);
    BackwardStage(was, next, o, s, w, j);
    KeyMoved(was, next, o, from);
    KeyMoved(was, next, o, to);
    NeverLeaves(ops, to, was, next);
    StageExposed(BackAt(ops, s, w, j).plane, ops, j, from, to, was, next);
  }

  lemma StagesExposed(ops: seq<Op>, s: State, w: Oracle, from: Key, to: Key, was: Config, next: Config)
    requires Block(ops, 0, 21, was, next) && AllSound(ops, was, next) && Starts(s.plane, was)
    requires from.kind != to.kind && !from.kind.Interface? && !to.kind.Interface?
    requires Resolves(was, from, to) && Resolves(next, from, to)
    requires Wanted(was, from) != Wanted(next, from) && !LeavesL2(from, was, next) ==> Touched(ops, |ops|, from)
    requires Wanted(was, to) != Wanted(next, to) && !LeavesL2(to, was, next) ==> Touched(ops, |ops|, to)
    requires LeavesL2(to, was, next) ==> !Touched(ops, |ops|, to)
    ensures DanglesSometime(ops, s, w, from, to) ==> Exposed(was, next, from, to)
  {
    hide Block, AllSound, Starts, Wanted, ForwardTo, Touched, AtStage, Dangles, Exposed, Resolves, LeavesL2;
    if DanglesSometime(ops, s, w, from, to) {
      var n: nat :| n <= FirstFailure(ops, 0, w) && Dangles(ForwardTo(ops, n, s, w).plane, from, to);
      ForwardStage(ops, n, s, w, was, next);
      StageExposed(ForwardTo(ops, n, s, w).plane, ops, n, from, to, was, next);
    }
  }

  lemma {:induction false} ExposedShows(ops: seq<Op>, s: State, w: Oracle, from: Key, to: Key, was: Config, next: Config)
    requires Block(ops, 0, 21, was, next) && AllSound(ops, was, next) && Starts(s.plane, was) && FirstFailure(ops, 0, w) == |ops|
    requires !from.kind.Interface? && !to.kind.Interface? && Resolves(was, from, to) && Resolves(next, from, to)
    requires Wanted(was, from) != Wanted(next, from) && !LeavesL2(from, was, next) ==> Touched(ops, |ops|, from)
    requires Wanted(was, to) != Wanted(next, to) && !LeavesL2(to, was, next) ==> Touched(ops, |ops|, to)
    requires LeavesL2(from, was, next) ==> !Touched(ops, |ops|, from)
    requires Exposed(was, next, from, to)
    ensures DanglesSometime(ops, s, w, from, to)
  {
    LeavingIsGone(from, was, next);
    hide Block, AllSound, Starts, Wanted, ForwardTo, Touched, LeavesL2, UpRank, DelRank;
    var n := |ops|;
    if RefersTo(next, from, to) && Wanted(was, to).None? && UpRank(from.kind) < UpRank(to.kind) {
      n := Between(ops, s, w, from, to, was, next);
    } else if LeavesL2(from, was, next) {
      StageValue(ops, n, s, w, from, was, next);
      StageValue(ops, n, s, w, to, was, next);
    } else {
      n := Between(ops, s, w, to, from, was, next);
    }
    assert Dangles(ForwardTo(ops, n, s, w).plane, from, to);
  }

  lemma LeavingIsGone(k: Key, was: Config, next: Config)
    ensures LeavesL2(k, was, next) ==> Wanted(next, k).None?
  {
  }

  /** The moment right after `first` is moved, when that happens before `second` is moved. */
  lemma Between(ops: seq<Op>, s: State, w: Oracle, first: Key, second: Key, was: Config, next: Config) returns (n: nat)
    requires Block(ops, 0, 21, was, next) && AllSound(ops, was, next)
    requires Starts(s.plane, was) && FirstFailure(ops, 0, w) == |ops|
    requires !first.kind.Interface? && !second.kind.Interface? && Touched(ops, |ops|, first)
    requires (if Wanted(next, first).Some? then UpRank(first.kind) else DelRank(first.kind)) <
             (if Wanted(next, second).Some? then UpRank(second.kind) else DelRank(second.kind))
    ensures n <= |ops|
    ensures Lookup(ForwardTo(ops, n, s, w).plane, first) == Wanted(next, first)
    ensures Lookup(ForwardTo(ops, n, s, w).plane, second) == Wanted(was, second)
  {
    hide Wanted, SoundOp, AllSound;
    var i :| 0 <= i < |ops| && Moves(ops[i], first);
    MoverRank(ops, i, first, was, next);
    n := i + 1;
    if Touched(ops, n, second) {
      var j :| 0 <= j < n && Moves(ops[j], second);
      MoverRank(ops, j, second, was, next);
      assert false;
    }
    assert Touched(ops, n, first);
    StageValue(ops, n, s, w, first, was, next);
    StageValue(ops, n, s, w, second, was, next);
  }
}
