/**
  Running a plan: forward until the first failure, then compensation in reverse order
  (internal/orchestrator/apply.go, `Apply`, `deleteVRF`, `residueAlarm`).
 */
module Apply {
  import opened DataPlane
  import opened Plan

  /** The source of a commit alarm: the description of the operation. */
  datatype Desc = PutDesc(key: Key) | DelDesc(key: Key) | RouteDesc(entry: FibEntry) | OtherDesc

  datatype Alarm = Residue(desc: Desc) | DeleteDeferred(table: string)

  datatype State = State(plane: Plane, alarms: set<Alarm>)

  /** `residue`: the operations whose undo failed, in the order of compensation. */
  datatype Report = Applied | Rejected(at: nat, residue: seq<Op>)

  function DescOf(op: Op): Desc {
    match op.run
    case Put(k, _, _) => PutDesc(k)
    case Del(k, _) => DelDesc(k)
    case DelRoute(t, r) => RouteDesc(FibEntry(t, RouteKeyOf(r)))
    case _ => OtherDesc
  }

  /** deleteVRF raises or resolves the deferral alarm; any success resolves the residue alarm of its source. */
  function AlarmsAfter(alarms: set<Alarm>, op: Op, o: Outcome): set<Alarm> {
    var deferral :=
      if op.run.Del? && op.run.tolerant && op.run.key.kind.Vrf? then
        if o.TableStays? then alarms + {DeleteDeferred(op.run.key.name)} else alarms - {DeleteDeferred(op.run.key.name)}
      else alarms;
    deferral - {Residue(DescOf(op))}
  }

  function Step(s: State, op: Op, o: Outcome): State {
    State(After(s.plane, op.run, o), AlarmsAfter(s.alarms, op, o))
  }

  function Undo(s: State, op: Op, o: Outcome): State {
    State(After(s.plane, op.undo, o),
          if Succeeds(op.undo, o) then s.alarms else s.alarms + {Residue(DescOf(op))})
  }

  /** The first operation at or after `i` whose provider call fails; |ops| if there is none. */
  function FirstFailure(ops: seq<Op>, i: nat, w: Oracle): (n: nat)
    requires i <= |ops|
    ensures i <= n <= |ops|
    ensures forall j :: i <= j < n ==> Succeeds(ops[j].run, w(j))
    ensures n < |ops| ==> !Succeeds(ops[n].run, w(n))
    decreases |ops| - i
  {
    if i < |ops| && Succeeds(ops[i].run, w(i)) then FirstFailure(ops, i + 1, w) else i
  }

  function ForwardTo(ops: seq<Op>, n: nat, s: State, w: Oracle): State
    requires n <= |ops|
  {
    if n == 0 then s else Step(ForwardTo(ops, n - 1, s, w), ops[n - 1], w(n - 1))
  }

  /** Undo ops[m-1], ..., ops[0]; the first of these calls is number `t`. */
  function Unwind(ops: seq<Op>, m: nat, s: State, w: Oracle, t: nat): State
    requires m <= |ops|
    decreases m
  {
    if m == 0 then s else Unwind(ops, m - 1, Undo(s, ops[m - 1], w(t)), w, t + 1)
  }

  function UndoFailures(ops: seq<Op>, m: nat, w: Oracle, t: nat): seq<Op>
    requires m <= |ops|
    decreases m
  {
    if m == 0 then []
    else (if Succeeds(ops[m - 1].undo, w(t)) then [] else [ops[m - 1]]) + UndoFailures(ops, m - 1, w, t + 1)
  }

  /** A composite operation that failed is compensated itself. */
  function Compensated(s: State, op: Op, w: Oracle, n: nat): State {
    if op.compensateOnFail then Undo(s, op, w(n + 1)) else s
  }

  /** The failing call, number `n`, with its own compensation. */
  function FailedCall(s: State, op: Op, w: Oracle, n: nat): State {
    Compensated(State(After(s.plane, op.run, w(n)), s.alarms), op, w, n)
  }

  function UnwindStart(op: Op, n: nat): nat {
    if op.compensateOnFail then n + 2 else n + 1
  }

  function RejectedAt(ops: seq<Op>, n: nat, op: Op, w: Oracle): Report
    requires n <= |ops|
  {
    var own := if op.compensateOnFail && !Succeeds(op.undo, w(n + 1)) then [op] else [];
    Rejected(n, own + UndoFailures(ops, n, w, UnwindStart(op, n)))
  }

  function RunPlan(ops: seq<Op>, s: State, w: Oracle): (State, Report) {
    var n := FirstFailure(ops, 0, w);
    var reached := ForwardTo(ops, n, s, w);
    if n == |ops| then (reached, Applied)
    else (Unwind(ops, n, FailedCall(reached, ops[n], w, n), w, UnwindStart(ops[n], n)), RejectedAt(ops, n, ops[n], w))
  }

  class Applier {
    var plane: Plane
    var alarms: set<Alarm>

    constructor (plane: Plane)
      ensures this.plane == plane && alarms == {}
    {
      this.plane := plane;
      alarms := {};
    }

    function Now(): State
      reads this
    {
      State(plane, alarms)
    }

    /** A provider call: what it does and answers is up to the outside world. */
    method Call(a: Action, o: Outcome) returns (ok: bool)
      modifies this`plane
      ensures plane == After(old(plane), a, o)
      ensures ok == Succeeds(a, o)
    {
      plane := After(plane, a, o);
      ok := Succeeds(a, o);
    }

    /** Runs an undo and keeps its failure visible. */
    method Compensate(op: Op, o: Outcome, residue: seq<Op>) returns (r: seq<Op>)
      modifies this
      ensures Now() == Undo(old(Now()), op, o)
      ensures r == residue + if Succeeds(op.undo, o) then [] else [op]
    {
      var ok := Call(op.undo, o);
      r := residue;
      if !ok {
        r := r + [op];
        alarms := alarms + {Residue(DescOf(op))};
      }
    }

    /**
      Converge the data plane from `was` to `next`, or put it back. `w(i)` is the answer of the
      i-th provider call; `o` is the map iteration order that was met.
     */
    method Apply(was: Config, next: Config, w: Oracle) returns (report: Report, o: Orders)
      modifies this
      ensures was == next ==> report == Applied && Now() == old(Now())
      ensures was != next ==> ValidOrders(was, o) && (Now(), report) == RunPlan(PlanOf(was, next, o), old(Now()), w)
    {
      if was == next {
        return Applied, Orders([], [], [], [], []);
      }
      var ops;
      ops, o := MakePlan(was, next);
      report := RunOps(ops, w);
    }

    method RunOps(ops: seq<Op>, w: Oracle) returns (report: Report)
      modifies this
      ensures (Now(), report) == RunPlan(ops, old(Now()), w)
    {
      var executed: seq<Op> := [];
      while |executed| < |ops|
        invariant |executed| <= |ops| && executed == ops[..|executed|]
        invariant Now() == ForwardTo(ops, |executed|, old(Now()), w)
        invariant FirstFailure(ops, 0, w) == FirstFailure(ops, |executed|, w)
      {
        var n := |executed|;
        var op := ops[n];
        var ok := Call(op.run, w(n));
        if !ok {
          report := RollBack(op, executed, w);
          FailureReport(ops, n, old(Now()), w);
          return;
        }
        alarms := AlarmsAfter(alarms, op, w(n));
        executed := executed + [op];
      }
      report := Applied;
    }

    /** The failed call has been made: compensate it if it is composite, then everything before it. */
    method RollBack(op: Op, executed: seq<Op>, w: Oracle) returns (report: Report)
      modifies this
      ensures Now() == Unwind(executed, |executed|, Compensated(old(Now()), op, w, |executed|), w, UnwindStart(op, |executed|))
      ensures report == RejectedAt(executed, |executed|, op, w)
    {
      var n := |executed|;
      var residue: seq<Op> := [];
      if op.compensateOnFail {
        residue := Compensate(op, w(n + 1), residue);
      }
      residue := CompensateAll(executed, w, UnwindStart(op, n), residue);
      report := Rejected(n, residue);
    }

    /** Undo everything executed so far, last first. */
    method CompensateAll(executed: seq<Op>, w: Oracle, t: nat, sofar: seq<Op>) returns (residue: seq<Op>)
      modifies this
      ensures Now() == Unwind(executed, |executed|, old(Now()), w, t)
      ensures residue == sofar + UndoFailures(executed, |executed|, w, t)
    {
      residue := sofar;
      var m := |executed|;
      while m > 0
        invariant 0 <= m <= |executed|
        invariant Unwind(executed, m, Now(), w, t + |executed| - m) == Unwind(executed, |executed|, old(Now()), w, t)
        invariant residue + UndoFailures(executed, m, w, t + |executed| - m) == sofar + UndoFailures(executed, |executed|, w, t)
      {
        residue := Compensate(executed[m - 1], w(t + |executed| - m), residue);
        m := m - 1;
      }
    }
  }

  /** What was executed is a prefix of the plan, so undoing it is undoing the plan up to there. */
  lemma {:induction false} FailureReport(ops: seq<Op>, n: nat, s: State, w: Oracle)
    requires n < |ops| && FirstFailure(ops, 0, w) == n
    ensures RunPlan(ops, s, w) ==
      (Unwind(ops[..n], n, FailedCall(ForwardTo(ops, n, s, w), ops[n], w, n), w, UnwindStart(ops[n], n)),
       RejectedAt(ops[..n], n, ops[n], w))
  {
    UnwindAgrees(ops, ops[..n], n, FailedCall(ForwardTo(ops, n, s, w), ops[n], w, n), w, UnwindStart(ops[n], n));
  }

  lemma {:induction false} UnwindAgrees(a: seq<Op>, b: seq<Op>, m: nat, s: State, w: Oracle, t: nat)
    requires m <= |a| && m <= |b| && a[..m] == b[..m]
    ensures Unwind(a, m, s, w, t) == Unwind(b, m, s, w, t)
    ensures UndoFailures(a, m, w, t) == UndoFailures(b, m, w, t)
    decreases m
  {
    if m > 0 {
      assert a[m - 1] == a[..m][m - 1] == b[..m][m - 1] == b[m - 1];
      assert a[..m - 1] == a[..m][..m - 1] == b[..m][..m - 1] == b[..m - 1];
      UnwindAgrees(a, b, m - 1, Undo(s, a[m - 1], w(t)), w, t + 1);
    }
  }
}
