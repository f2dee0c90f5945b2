/**
  The engine over the orchestrator: what the engine takes for the applied configuration is what
  the data plane really holds (internal/config/engine.go over internal/orchestrator/apply.go).
 */
module Appliance {
  import E = EngineSpec
  import EF = EngineFacts
  import ER = EngineRuns
  import opened DataPlane
  import opened Plan
  import opened Apply
  import opened Convergence

  /** The part of a configuration that the orchestrator carries out. */
  type View = E.Config -> Config

  /** The engine with its store, and the data plane with the commit alarms. */
  datatype Whole = Whole(sys: E.Sys, data: State)

  /** An event, and what the outside world answers should the orchestrator be called. */
  datatype Input = Input(now: int, event: E.Event, orders: Orders, answers: Oracle)

  /** The orchestrator's Apply. */
  function Delivered(view: View, was: E.Config, next: E.Config, o: Orders, s: State, w: Oracle): (State, Report) {
    if was == next then (s, Applied) else RunPlan(PlanOf(view(was), view(next), o), s, w)
  }

  /** The commit gets as far as calling the orchestrator. */
  predicate Calls(s: E.Sys, i: Input, env: E.Env) {
    && i.event.Commit?
    && var t := E.BeforeCommit(s, i.event.sess, i.now, env.ttl);
      E.IsHolder(t, i.event.sess) && t.dirty && E.Refusal(t, t.candidate.value, i.event.sess, i.event.opts, env.hooks).None?
  }

  function Candidate(s: E.Sys, i: Input, env: E.Env): E.Config
    requires Calls(s, i, env)
  {
    E.BeforeCommit(s, i.event.sess, i.now, env.ttl).candidate.value
  }

  function Standing(s: E.Sys, i: Input, env: E.Env): E.Config
    requires Calls(s, i, env)
  {
    E.Committed(E.BeforeCommit(s, i.event.sess, i.now, env.ttl))
  }

  /** The process starts anew: its alarm table starts empty. */
  predicate Restarts(e: E.Event) {
    e.Restart? || e.CrashInRollback? || e.CrashInCommit?
  }

  /** The orchestrator's verdict decides the commit. */
  function Next(x: Whole, i: Input, env: E.Env, view: View): Whole {
    if Calls(x.sys, i, env) then
      var (data, report) := Delivered(view, Standing(x.sys, i, env), Candidate(x.sys, i, env), i.orders, x.data, i.answers);
      Whole(E.Next(x.sys, E.Commit(i.event.sess, i.event.opts, report.Applied?), i.now, env), data)
    else
      Whole(E.Next(x.sys, i.event, i.now, env), if Restarts(i.event) then x.data.(alarms := {}) else x.data)
  }

  function Run(x: Whole, ins: seq<Input>, env: E.Env, view: View): Whole {
    if ins == [] then x else Next(Run(x, ins[..|ins| - 1], env, view), ins[|ins| - 1], env, view)
  }

  // ---------- conditions ----------

  /** What the validator guarantees. */
  ghost predicate NamesValidated(env: E.Env, view: View) {
    WellNamed(view(E.EMPTY_CONFIG)) && forall c :: env.hooks.validate(c) ==> WellNamed(view(c))
  }

  /** No overdue confirm, no commit that dies halfway, no restart over a residue, no switch that changes its type. */
  ghost predicate Calm(x: Whole, i: Input, env: E.Env, view: View) {
    && !E.Due(x.sys, i.now) && !i.event.CrashInCommit?
    && (Restarts(i.event) ==> forall a :: a in x.data.alarms ==> !a.Residue?)
    && (Calls(x.sys, i, env) ==>
          var was, next := view(Standing(x.sys, i, env)), view(Candidate(x.sys, i, env));
          ValidOrders(was, i.orders) && NoneLeavesL2(was, next) && NoneEntersL2(was, next))
  }

  ghost predicate CalmRun(x: Whole, ins: seq<Input>, env: E.Env, view: View) {
    forall n :: 0 <= n < |ins| ==> Calm(Run(x, ins[..n], env, view), ins[n], env, view)
  }

  ghost predicate Good(x: Whole, env: E.Env, view: View) {
    && EF.Inv(x.sys) && ER.VettedRows(x.sys.rows, env.hooks, false)
    && AllAccounted(x.data, view(E.Committed(x.sys)))
  }

  // ---------- one event ----------

  /** Nothing but a commit that goes through changes the committed configuration. */
  lemma KeepsCommitted(s: E.Sys, e: E.Event, now: int, env: E.Env)
    requires EF.Inv(s) && !E.Due(s, now) && !e.Commit? && !e.CrashInCommit?
    ensures E.Committed(E.Next(s, e, now, env)) == E.Committed(s)
  {
    hide E.Swept, E.Find, EF.Inv;
    ER.SweepRows(s, now, env.ttl);
    if ER.Passive(e) && !e.CrashInRollback? {
      ER.PassiveRows(s, e, now, env);
      hide E.Next;
    } else if e.CrashInRollback? {
      ER.QuietRestart(s, now);
      hide E.DoRestart;
    }
  }

  lemma BeforeKeepsCommitted(s: E.Sys, sess: E.Session, now: int, ttl: int)
    requires EF.Inv(s) && !E.Due(s, now)
    ensures E.Committed(E.BeforeCommit(s, sess, now, ttl)) == E.Committed(s)
  {
    hide E.Swept, E.Find, EF.Inv;
    ER.SweepRows(s, now, ttl);
  }

  /** A commit that does not call the orchestrator, or that it turns down, keeps the committed configuration. */
  lemma CommitKeepsOrMoves(s: E.Sys, i: Input, env: E.Env, ok: bool)
    requires EF.Inv(s) && !E.Due(s, i.now) && i.event.Commit?
    ensures var u := E.Next(s, E.Commit(i.event.sess, i.event.opts, ok), i.now, env);
      E.Committed(u) == if Calls(s, i, env) && ok then Candidate(s, i, env) else E.Committed(s)
  {
    BeforeKeepsCommitted(s, i.event.sess, i.now, env.ttl);
    ER.CommitWrites(s, i.event.sess, i.event.opts, ok, env, i.now);
    ER.FailedCommitKeepsEverything(s, i.event.sess, i.event.opts, ok, env, i.now);
    EF.BeforeCommitInv(s, i.event.sess, i.now, env.ttl);
    hide E.BeforeCommit, E.Swept, E.Refusal, E.Persisted, EF.Inv;
  }

  lemma CommittedNamed(s: E.Sys, env: E.Env, view: View)
    requires NamesValidated(env, view) && ER.VettedRows(s.rows, env.hooks, false)
    ensures WellNamed(view(E.Committed(s)))
  {
    hide WellNamed;
    if s.rows != [] {
      assert ER.Vetted(s.rows[|s.rows| - 1].cfg, env.hooks, false);
    }
  }

  lemma CandidateNamed(s: E.Sys, i: Input, env: E.Env, view: View)
    requires NamesValidated(env, view) && Calls(s, i, env)
    ensures WellNamed(view(Candidate(s, i, env)))
  {
    hide WellNamed, E.BeforeCommit;
  }

  lemma DeliveredAccounted(view: View, was: E.Config, next: E.Config, o: Orders, s: State, w: Oracle)
    requires WellNamed(view(was)) && WellNamed(view(next)) && ValidOrders(view(was), o)
    requires NoneLeavesL2(view(was), view(next)) && NoneEntersL2(view(was), view(next)) && AllAccounted(s, view(was))
    ensures var (t, report) := Delivered(view, was, next, o, s, w);
      AllAccounted(t, view(if report.Applied? then next else was))
  {
    hide WellNamed, ValidOrders, NoneLeavesL2, NoneEntersL2, AllAccounted, PlanOf, RunPlan;
    if was != next {
      CommitsStayAccounted(view(was), view(next), o, s, w);
      var (t, report) := RunPlan(PlanOf(view(was), view(next), o), s, w);
      assert Delivered(view, was, next, o, s, w) == (t, report);
      if report.Applied? {
        assert AllAccounted(t, view(next));
      } else {
        assert AllAccounted(t, view(was));
      }
    }
  }

  lemma EngineStep(x: Whole, i: Input, env: E.Env, view: View) returns (e: E.Event)
    ensures Next(x, i, env, view).sys == E.Next(x.sys, e, i.now, env)
  {
    hide E.Next, Delivered;
    e := i.event;
    if Calls(x.sys, i, env) {
      var (data, report) := Delivered(view, Standing(x.sys, i, env), Candidate(x.sys, i, env), i.orders, x.data, i.answers);
      e := E.Commit(i.event.sess, i.event.opts, report.Applied?);
    }
  }

  lemma GoodStep(x: Whole, i: Input, env: E.Env, view: View)
    requires NamesValidated(env, view) && Good(x, env, view) && Calm(x, i, env, view)
    ensures Good(Next(x, i, env, view), env, view)
  {
    var e := EngineStep(x, i, env, view);
    EF.NextInv(x.sys, e, i.now, env);
    ER.NextVetted(x.sys, e, i.now, env, false);
    DataStep(x, i, env, view);
  }

  lemma DataStep(x: Whole, i: Input, env: E.Env, view: View)
    requires NamesValidated(env, view) && Good(x, env, view) && Calm(x, i, env, view)
    ensures var y := Next(x, i, env, view); AllAccounted(y.data, view(E.Committed(y.sys)))
  {
    hide E.Next, Delivered, AllAccounted, EF.Inv, E.Due, ValidOrders, NoneLeavesL2, NoneEntersL2;
    if Calls(x.sys, i, env) {
      var was, next := Standing(x.sys, i, env), Candidate(x.sys, i, env);
      var report := Delivered(view, was, next, i.orders, x.data, i.answers).1;
      BeforeKeepsCommitted(x.sys, i.event.sess, i.now, env.ttl);
      CommittedNamed(x.sys, env, view);
      CandidateNamed(x.sys, i, env, view);
      CommitKeepsOrMoves(x.sys, i, env, report.Applied?);
      hide Calls, NamesValidated, WellNamed;
      DeliveredAccounted(view, was, next, i.orders, x.data, i.answers);
    } else if i.event.Commit? {
      CommitKeepsOrMoves(x.sys, i, env, i.event.applyOk);
    } else {
      KeepsCommitted(x.sys, i.event, i.now, env);
      if Restarts(i.event) {
        NoResidueNeeded(x.data, view(E.Committed(x.sys)));
      }
    }
  }

  lemma NoResidueNeeded(s: State, c: Config)
    requires AllAccounted(s, c) && forall a :: a in s.alarms ==> !a.Residue?
    ensures AllAccounted(s.(alarms := {}), c)
  {
    hide Wanted, WantedRoutes, InScope;
    var t := s.(alarms := {});
    forall k | InScope(k, c) ensures Accounted(t, k, c, t.plane.pending) {
      assert Accounted(s, k, c, s.plane.pending);
    }
    forall e | e in WantedRoutes(c) ensures RouteAccounted(t, e) {
      assert RouteAccounted(s, e);
    }
  }

  // ---------- the theorem ----------

  /**
    On every run from an empty store, whatever providers and their undos do, each object and
    route of the committed configuration is on the data plane as declared, or named by an active
    alarm: as long as no confirm times out, no commit dies halfway, the process does not restart
    while a residue alarm is active, and no switch changes type.
   */
  lemma {:induction false} DataPlaneAccounted(ins: seq<Input>, env: E.Env, view: View, data: State)
    requires NamesValidated(env, view) && AllAccounted(data, view(E.EMPTY_CONFIG))
    requires CalmRun(Whole(E.FRESH, data), ins, env, view)
    ensures var x := Run(Whole(E.FRESH, data), ins, env, view); AllAccounted(x.data, view(E.Committed(x.sys)))
  {
    GoodRun(ins, env, view, data);
  }

  lemma {:induction false} GoodRun(ins: seq<Input>, env: E.Env, view: View, data: State)
    requires NamesValidated(env, view) && AllAccounted(data, view(E.EMPTY_CONFIG))
    requires CalmRun(Whole(E.FRESH, data), ins, env, view)
    ensures Good(Run(Whole(E.FRESH, data), ins, env, view), env, view)
  {
    hide Calm, CalmRun, Good, NamesValidated, Next, AllAccounted;
    if ins == [] {
      GoodStart(env, view, data);
    } else {
      var x, n := Whole(E.FRESH, data), |ins| - 1;
      CalmPrefix(x, ins, env, view);
      GoodRun(ins[..n], env, view, data);
      GoodStep(Run(x, ins[..n], env, view), ins[n], env, view);
    }
  }

  lemma GoodStart(env: E.Env, view: View, data: State)
    requires AllAccounted(data, view(E.EMPTY_CONFIG))
    ensures Good(Whole(E.FRESH, data), env, view)
  {
    hide AllAccounted;
    EF.ReachableInv([], env);
    assert E.Run(E.FRESH, [], env) == E.FRESH;
  }

  lemma {:induction false} CalmPrefix(x: Whole, ins: seq<Input>, env: E.Env, view: View)
    requires CalmRun(x, ins, env, view) && ins != []
    ensures CalmRun(x, ins[..|ins| - 1], env, view)
    ensures Calm(Run(x, ins[..|ins| - 1], env, view), ins[|ins| - 1], env, view)
  {
    hide Calm, Run;
    var init := ins[..|ins| - 1];
    forall m | 0 <= m < |init| ensures Calm(Run(x, init[..m], env, view), init[m], env, view) {
      assert init[..m] == ins[..m] && init[m] == ins[m];
    }
  }
}
