/**
  Promises of the engine over whole runs: confirmed commits time out, nobody's update is lost,
  only validated configurations are stored, and what the engine does not promise.
 */
module EngineRuns {
  import opened Common
  import opened EngineSpec
  import opened EngineFacts

  // ---------- what a sweep leaves alone ----------

  /** `t` has lost its pending confirm and gained a copy of the base revision. */
  ghost predicate GainsBase(s: Sys, t: Sys)
    requires s.pending.Some?
  {
    && t.pending.None? && Find(s.rows, s.pending.value.baseRev).Some?
    && t.rows == s.rows + [Row(s.nextId, Find(s.rows, s.pending.value.baseRev).value.cfg, "system")]
  }

  ghost predicate SameLog(s: Sys, t: Sys) {
    t.rows == s.rows && t.pending == s.pending
  }

  lemma SweepRows(s: Sys, now: int, ttl: int)
    requires Inv(s)
    ensures if Due(s, now) then GainsBase(s, Swept(s, now, ttl)) else SameLog(s, Swept(s, now, ttl))
    ensures Swept(s, now, ttl).applied == s.applied
  {
    if Due(s, now) {
      FindInWindow(s.rows, s.pending.value.baseRev);
    }
  }

  /** Events that neither write a revision of their own nor touch a pending confirm. */
  predicate Passive(e: Event) {
    !e.Commit? && !e.Confirm? && !e.Rollback? && !e.CrashInCommit?
  }

  /** Apart from the sweep, passive events leave the revision log and the pending row alone. */
  lemma PassiveRows(s: Sys, e: Event, now: int, env: Env)
    requires Inv(s) && Passive(e) && !e.CrashInRollback?
    ensures if Due(s, now) then GainsBase(s, Next(s, e, now, env)) else SameLog(s, Next(s, e, now, env))
  {
    SweepRows(s, now, env.ttl);
    hide Swept, Inherit, Inv;
    if e.Timer? || e.Restart? {
      TimerRows(s, now);
    }
  }

  lemma TimerRows(s: Sys, now: int)
    requires Inv(s)
    ensures DoTimer(s, now).rows == DoRestart(s, now).rows && DoTimer(s, now).pending == DoRestart(s, now).pending
    ensures if Due(s, now) then GainsBase(s, DoTimer(s, now)) else SameLog(s, DoTimer(s, now))
  {
    if Due(s, now) {
      FindInWindow(s.rows, s.pending.value.baseRev);
    }
  }

  // ---------- confirmed commits ----------

  /** Nobody has confirmed yet; `base` is stored as the configuration to return to. */
  ghost predicate Awaiting(s: Sys, base: Config, deadline: int) {
    && s.pending.Some? && s.pending.value.deadline == deadline
    && Find(s.rows, s.pending.value.baseRev).Some? && Find(s.rows, s.pending.value.baseRev).value.cfg == base
  }

  ghost predicate Settled(s: Sys, base: Config) {
    s.pending.None? && Committed(s) == base
  }

  /** A successful confirmed commit of a change awaits confirmation, with the previous configuration as base. */
  lemma ConfirmedCommitAwaits(s: Sys, sess: Session, opts: CommitOpts, env: Env, now: int)
    requires Inv(s) && opts.confirmedMinutes > 0
    requires Latest(DoCommit(s, sess, opts, true, env.hooks, now, env.ttl).0) > Latest(BeforeCommit(s, sess, now, env.ttl))
    ensures Awaiting(DoCommit(s, sess, opts, true, env.hooks, now, env.ttl).0,
                     Committed(BeforeCommit(s, sess, now, env.ttl)), now + 60 * opts.confirmedMinutes)
  {
    var t := BeforeCommit(s, sess, now, env.ttl);
    BeforeCommitInv(s, sess, now, env.ttl);
    assert IsHolder(t, sess) && t.dirty;
    var c := t.candidate.value;
    hide BeforeCommit, Refusal, Find, Inv, Persisted, IsHolder, RevisionWindow, PendingSound, LockCoherent;
    var u := t.(applied := c);
    PersistedBase(u, c, sess, opts, now);
    SameStore(Persisted(u, c, sess, opts, now), DoCommit(s, sess, opts, true, env.hooks, now, env.ttl).0);
  }

  /**
    A confirmed commit that dies halfway: its candidate is committed exactly if the revision was
    written, and somebody will be asked to confirm exactly if the pending row was written too. In
    between the candidate is committed for good without anybody confirming it.
   */
  lemma CrashedConfirmedCommit(s: Sys, sess: Session, opts: CommitOpts, point: CrashPoint, env: Env, now: int)
    requires Inv(s) && opts.confirmedMinutes > 0
    requires var t := BeforeCommit(s, sess, now, env.ttl);
      IsHolder(t, sess) && t.dirty && Refusal(t, t.candidate.value, sess, opts, env.hooks).None?
    ensures var t := BeforeCommit(s, sess, now, env.ttl); var u := Next(s, CrashInCommit(sess, opts, point), now, env);
      && Committed(u) == (if point.AfterApply? then Committed(t) else t.candidate.value)
      && (u.pending.Some? <==> point.AfterPending?)
      && (point.AfterPending? ==> Awaiting(u, Committed(t), now + 60 * opts.confirmedMinutes))
  {
    BeforeCommitInv(s, sess, now, env.ttl);
    CrashRestarts(s, sess, opts, point, env, now);
    hide *;
    var t := BeforeCommit(s, sess, now, env.ttl);
    var c := t.candidate.value;
    InterruptedRows(t, c, sess, opts, now, point);
    RestartKeeps(Interrupted(t, c, sess, opts, now, point), now);
  }

  lemma CrashRestarts(s: Sys, sess: Session, opts: CommitOpts, point: CrashPoint, env: Env, now: int)
    requires var t := BeforeCommit(s, sess, now, env.ttl);
      IsHolder(t, sess) && t.dirty && Refusal(t, t.candidate.value, sess, opts, env.hooks).None?
    ensures var t := BeforeCommit(s, sess, now, env.ttl);
      Next(s, CrashInCommit(sess, opts, point), now, env) ==
        DoRestart(Interrupted(t, t.candidate.value, sess, opts, now, point), now)
  {
    hide BeforeCommit, Refusal, IsHolder, Interrupted, DoRestart;
  }

  lemma RestartKeeps(u: Sys, now: int)
    requires u.rows != [] && (u.pending.Some? ==> u.pending.value.deadline > now)
    ensures var r := DoRestart(u, now);
      && Committed(r) == Committed(u) && r.pending == u.pending
      && forall base, deadline :: Awaiting(r, base, deadline) <==> Awaiting(u, base, deadline)
  {
    hide Find;
  }

  lemma InterruptedRows(t: Sys, c: Config, sess: Session, opts: CommitOpts, now: int, point: CrashPoint)
    requires Inv(t) && t.pending.None? && opts.confirmedMinutes > 0
    ensures var u := Interrupted(t, c, sess, opts, now, point);
      && u.rows != [] && Committed(u) == (if point.AfterApply? then Committed(t) else c)
      && (u.pending.Some? <==> point.AfterPending?)
      && (point.AfterPending? ==> Awaiting(u, Committed(t), now + 60 * opts.confirmedMinutes) && u.pending.value.deadline > now)
  {
    var v := t.(applied := c);
    AppendWindow(v, c, sess.user);
    PruneWindow(Append(v, c, sess.user));
    PersistedBase(v, c, sess, opts, now);
    hide Find, Consecutive;
  }

  lemma PersistedBase(s: Sys, c: Config, sess: Session, opts: CommitOpts, now: int)
    requires RevisionWindow(s) && opts.confirmedMinutes > 0
    ensures Awaiting(Persisted(s, c, sess, opts, now), Committed(s), now + 60 * opts.confirmedMinutes)
  {
    var t := Append(s, c, sess.user);
    AppendWindow(s, c, sess.user);
    PruneWindow(t);
    var u := Prune(t, KEEP);
    FindInWindow(u.rows, Latest(u) - 1);
    assert u.rows[|u.rows| - 2] == s.rows[|s.rows| - 1];
  }

  lemma PassiveStep(s: Sys, base: Config, deadline: int, e: Event, now: int, env: Env)
    requires Inv(s) && Passive(e)
    requires Awaiting(s, base, deadline) || Settled(s, base)
    ensures var t := Next(s, e, now, env);
      && (Settled(s, base) || now >= deadline ==> Settled(t, base))
      && (Awaiting(s, base, deadline) && now < deadline ==> Awaiting(t, base, deadline) && Committed(t) == Committed(s))
  {
    if e.CrashInRollback? {
      if Due(s, now) {
        CrashedRollbackSettles(s, base, now, env);
      } else {
        TimerRows(s, now);
      }
    } else {
      PassiveRows(s, e, now, env);
    }
  }

  /** A crash between writing the rollback revision and clearing the pending row does no harm. */
  lemma CrashedRollbackSettles(s: Sys, base: Config, now: int, env: Env)
    requires Inv(s) && Due(s, now) && Awaiting(s, base, s.pending.value.deadline)
    ensures Committed(HalfRolledBack(s)) == base
    ensures Settled(Next(s, CrashInRollback, now, env), base)
  {
    HalfRolledBackKeeps(s);
    var half := HalfRolledBack(s);
    var b := Boot(half);
    assert Find(b.rows, b.pending.value.baseRev).value.cfg == base;
  }

  /**
    If nobody commits, confirms or rolls back, the configuration before the confirmed commit is
    back as soon as anything happens at or after the deadline, restarts and crashes included;
    before that the confirmed configuration stays.
   */
  lemma {:induction false} ConfirmTimesOut(s: Sys, base: Config, deadline: int, es: seq<Timed>, env: Env)
    requires Inv(s) && Awaiting(s, base, deadline)
    requires forall i :: 0 <= i < |es| ==> Passive(es[i].event)
    ensures Inv(Run(s, es, env))
    ensures (exists i :: 0 <= i < |es| && es[i].now >= deadline) ==> Settled(Run(s, es, env), base)
    ensures (forall i :: 0 <= i < |es| ==> es[i].now < deadline) ==>
      Awaiting(Run(s, es, env), base, deadline) && Committed(Run(s, es, env)) == Committed(s)
  {
    hide Inv, Next, Awaiting, Settled, Passive;
    if es != [] {
      var n := |es| - 1;
      var init := es[..n];
      assert forall i :: 0 <= i < n ==> init[i] == es[i];
      ConfirmTimesOut(s, base, deadline, init, env);
      var t := Run(s, init, env);
      NextInv(t, es[n].event, es[n].now, env);
      PassiveStep(t, base, deadline, es[n].event, es[n].now, env);
      if exists i :: 0 <= i < |es| && es[i].now >= deadline {
        assert Settled(t, base) || es[n].now >= deadline;
      }
    }
  }

  /** A commit by somebody who holds nothing still counts as confirmation. */
  lemma StrangerConfirms(s: Sys, sess: Session, opts: CommitOpts, applyOk: bool, env: Env, now: int)
    requires Inv(s) && s.pending.Some? && !Due(s, now) && !IsHolder(Swept(s, now, env.ttl), sess)
    ensures var (t, reply) := DoCommit(s, sess, opts, applyOk, env.hooks, now, env.ttl);
      reply == NotEditing && t.pending.None? && Committed(t) == Committed(s)
  {
    SweepRows(s, now, env.ttl);
  }

  // ---------- revisions ----------

  ghost predicate Tight(s: Sys) {
    |s.rows| <= 52 && (s.pending.Some? ==> |s.rows| <= 51)
  }

  lemma BeforeCommitTight(s: Sys, sess: Session, now: int, ttl: int)
    requires Inv(s) && Tight(s)
    ensures |BeforeCommit(s, sess, now, ttl).rows| <= 52
  {
    hide Swept, Inv;
    SweepRows(s, now, ttl);
  }

  lemma CommitTight(s: Sys, sess: Session, opts: CommitOpts, applyOk: bool, env: Env, now: int)
    requires Inv(s) && Tight(s)
    ensures Tight(DoCommit(s, sess, opts, applyOk, env.hooks, now, env.ttl).0)
  {
    hide BeforeCommit, Swept, Persisted, Refusal, Inv;
    BeforeCommitInv(s, sess, now, env.ttl);
    BeforeCommitTight(s, sess, now, env.ttl);
    var t := BeforeCommit(s, sess, now, env.ttl);
    if IsHolder(t, sess) && t.dirty {
      var c := t.candidate.value;
      PersistedInv(t.(applied := c), c, sess, opts, now) by {
        SameStore(t, t.(applied := c));
        PersistedPre(t, c);
      }
    }
  }

  lemma PersistedPre(t: Sys, c: Config)
    requires Inv(t)
    ensures Inv(t.(applied := c))
  {
  }

  /** Without crashes at most 52 revisions are stored. */
  lemma {:induction false} LogStaysShort(es: seq<Timed>, env: Env)
    requires forall i :: 0 <= i < |es| ==> !es[i].event.CrashInCommit? && !es[i].event.CrashInRollback?
    ensures Tight(Run(FRESH, es, env))
  {
    if es != [] {
      var n := |es| - 1;
      var s, e, now := Run(FRESH, es[..n], env), es[n].event, es[n].now;
      LogStaysShort(es[..n], env);
      ReachableInv(es[..n], env);
      if e.Commit? {
        CommitTight(s, e.sess, e.opts, e.applyOk, env, now);
      } else if Passive(e) {
        PassiveRows(s, e, now, env);
      } else {
        hide Inv, Swept, Find;
        SweepRows(s, now, env.ttl);
      }
    }
  }

  /** Rollback(n) by the holder succeeds exactly for the 50 predecessors that exist, and selects the right one. */
  lemma RollbackFinds(s: Sys, sess: Session, n: int, env: Env, now: int)
    requires Inv(s)
    ensures var t := Swept(s, now, env.ttl);
            var (u, reply) := DoRollback(s, sess, n, now, env.ttl);
      && (reply == Done <==> IsHolder(t, sess) && 1 <= n <= 50 && n < Latest(t))
      && (reply == Done ==>
            && |t.rows| > n && t.rows[|t.rows| - 1 - n].rev == Latest(t) - n
            && u.candidate == Some(t.rows[|t.rows| - 1 - n].cfg) && u.dirty && u.rows == t.rows)
  {
    SweptInv(s, now, env.ttl);
    var t := Swept(s, now, env.ttl);
    hide Swept;
    FindInWindow(t.rows, Latest(t) - n);
    assert t.rows[|t.rows| - 1].rev == t.rows[0].rev + |t.rows| - 1;
  }

  /** Committing right after a rollback makes the snapshot the committed configuration, unless it is refused. */
  lemma RollbackThenCommit(s: Sys, sess: Session, n: int, opts: CommitOpts, env: Env, now: int, later: int)
    requires Inv(s) && env.ttl >= 0 && later - now <= env.ttl
    requires DoRollback(s, sess, n, now, env.ttl).1 == Done
    ensures var u := DoRollback(s, sess, n, now, env.ttl).0;
            var (v, reply) := DoCommit(u, sess, opts, true, env.hooks, later, env.ttl);
      if Refusal(u, u.candidate.value, sess, opts, env.hooks).None? then
        reply == Revision(Latest(u) + 1) && Committed(v) == u.candidate.value
      else v.rows == u.rows && v.candidate == u.candidate && v.dirty
  {
    var u := DoRollback(s, sess, n, now, env.ttl).0;
    ConfirmInv(s, sess, n, env, now);
    RolledBackState(s, sess, n, env, now);
    hide DoRollback, Refusal, Persisted, Find, RevisionWindow, RolledBack;
    assert Swept(u, later, env.ttl) == u;
    assert BeforeCommit(u, sess, later, env.ttl) == u;
    PersistedPre(u, u.candidate.value);
    PersistedInv(u.(applied := u.candidate.value), u.candidate.value, sess, opts, later);
  }

  lemma RolledBackState(s: Sys, sess: Session, n: int, env: Env, now: int)
    requires Inv(s) && DoRollback(s, sess, n, now, env.ttl).1 == Done
    ensures var u := DoRollback(s, sess, n, now, env.ttl).0;
      u.pending.None? && IsHolder(u, sess) && u.dirty && u.lock == Some(LockRow(Holder(sess), now))
  {
    hide Swept, Find;
    SweptInv(s, now, env.ttl);
  }

  // ---------- no lost updates ----------

  predicate Holds(s: Sys, sess: Session) {
    IsHolder(s, sess)
  }

  /** A commit attempt by somebody else cannot write a revision. */
  lemma StrangerCommitRows(s: Sys, sess: Session, other: Session, opts: CommitOpts, applyOk: bool, env: Env, now: int)
    requires Inv(s) && Holder(other) != Holder(sess)
    requires Holds(DoCommit(s, other, opts, applyOk, env.hooks, now, env.ttl).0, sess)
    ensures DoCommit(s, other, opts, applyOk, env.hooks, now, env.ttl).0 == BeforeCommit(s, other, now, env.ttl)
  {
    hide Swept, Inv, Refusal, Persisted;
    BeforeCommitInv(s, other, now, env.ttl);
    var t := BeforeCommit(s, other, now, env.ttl);
    if IsHolder(t, other) {
      hide BeforeCommit;
      PersistedMemory(t.(applied := t.candidate.value), t.candidate.value, other, opts, now);
    }
  }

  /** Events that may happen while `sess` holds the lock, other than its own commits. */
  predicate NotOwnCommit(e: Event, sess: Session) {
    !e.CrashInCommit? && (e.Commit? ==> Holder(e.sess) != Holder(sess))
  }

  lemma CrashDropsCandidate(s: Sys, now: int, env: Env)
    ensures Next(s, CrashInRollback, now, env).candidate.None?
  {
  }

  /** One event while the session keeps holding: the log grows by a timed-out confirm's base at most. */
  lemma HeldStep(s: Sys, e: Event, now: int, env: Env, sess: Session)
    requires Inv(s) && NotOwnCommit(e, sess) && Holds(s, sess) && Holds(Next(s, e, now, env), sess)
    ensures var t := Next(s, e, now, env);
      if Due(s, now) then GainsBase(s, t) else t.rows == s.rows && (t.pending == s.pending || t.pending.None?)
  {
    if e.Commit? {
      StrangerCommitRows(s, sess, e.sess, e.opts, e.applyOk, env, now);
      SweepRows(s, now, env.ttl);
    } else if e.Confirm? || e.Rollback? {
      hide Swept, Find, Inv;
      SweepRows(s, now, env.ttl);
    } else if e.CrashInRollback? {
      CrashDropsCandidate(s, now, env);
    } else {
      PassiveRows(s, e, now, env);
    }
  }

  ghost predicate HeldThroughout(s: Sys, es: seq<Timed>, env: Env, sess: Session) {
    forall n :: 0 <= n <= |es| ==> Holds(Run(s, es[..n], env), sess)
  }

  /**
    While one session holds the lock, nobody else writes a revision: the only one that can
    appear is the engine's own time-out of a confirm that was already pending. If none was
    pending, the configuration the session commits over is the one it started from.
   */
  lemma {:induction false} NoLostUpdate(s: Sys, es: seq<Timed>, env: Env, sess: Session)
    requires Inv(s) && HeldThroughout(s, es, env, sess)
    requires forall i :: 0 <= i < |es| ==> NotOwnCommit(es[i].event, sess)
    ensures var t := Run(s, es, env);
      && Inv(t)
      && (t.rows == s.rows || (s.pending.Some? && t.pending.None? && |t.rows| == |s.rows| + 1 && t.rows[..|s.rows|] == s.rows
                               && t.rows[|s.rows|].author == "system"
                               && Find(s.rows, s.pending.value.baseRev).Some?
                               && Committed(t) == Find(s.rows, s.pending.value.baseRev).value.cfg))
      && (t.rows == s.rows ==> t.pending.None? || t.pending == s.pending)
      && (s.pending.None? ==> Committed(t) == Committed(s))
  {
    assert es[..|es|] == es;
    if es != [] {
      var n := |es| - 1;
      var init := es[..n];
      forall m | 0 <= m <= n ensures Holds(Run(s, init[..m], env), sess) {
        assert init[..m] == es[..m];
      }
      assert forall i :: 0 <= i < n ==> init[i] == es[i];
      NoLostUpdate(s, init, env, sess);
      var t := Run(s, init, env);
      hide Inv, Next, Find, Committed;
      HeldStep(t, es[n].event, es[n].now, env, sess);
      NextInv(t, es[n].event, es[n].now, env);
      LastCommitted(t, Next(t, es[n].event, es[n].now, env));
    }
  }

  lemma LastCommitted(s: Sys, t: Sys)
    ensures t.rows == s.rows ==> Committed(t) == Committed(s)
    ensures s.pending.Some? && GainsBase(s, t) ==> Committed(t) == Find(s.rows, s.pending.value.baseRev).value.cfg
  {
  }

  /** When a confirm times out under an editing session, its candidate becomes the restored configuration. */
  lemma TimeoutReplacesCandidate(s: Sys, now: int, ttl: int)
    requires Inv(s) && Due(s, now) && Swept(s, now, ttl).candidate.Some?
    ensures var t := Swept(s, now, ttl); t.candidate == Some(Committed(t)) && t.dirty
  {
    RolledBackInv(s);
  }

  // ---------- only validated history ----------

  /** `strict`: no commit ever waived the super-user check. */
  predicate Vetted(c: Config, hooks: Hooks, strict: bool) {
    c == EMPTY_CONFIG || (hooks.validate(c) && hooks.images(c) && (strict ==> HasSuperUser(c)))
  }

  predicate VettedRows(rows: seq<Row>, hooks: Hooks, strict: bool) {
    forall i :: 0 <= i < |rows| ==> Vetted(rows[i].cfg, hooks, strict)
  }

  predicate NoWaiver(e: Event) {
    (e.Commit? || e.CrashInCommit?) ==> !e.opts.allowNoSuperUser
  }

  lemma {:induction false} FoundIsStored(rows: seq<Row>, rev: int)
    ensures Find(rows, rev).Some? ==> Find(rows, rev).value in rows
  {
    if rows != [] {
      FoundIsStored(rows[..|rows| - 1], rev);
    }
  }

  lemma GainsVetted(s: Sys, t: Sys, hooks: Hooks, strict: bool)
    requires VettedRows(s.rows, hooks, strict) && s.pending.Some? && GainsBase(s, t)
    ensures VettedRows(t.rows, hooks, strict)
  {
    FoundIsStored(s.rows, s.pending.value.baseRev);
  }

  lemma PersistedVetted(s: Sys, c: Config, sess: Session, opts: CommitOpts, now: int, hooks: Hooks, strict: bool)
    requires VettedRows(s.rows, hooks, strict) && Vetted(c, hooks, strict)
    ensures VettedRows(Append(s, c, sess.user).rows, hooks, strict)
    ensures VettedRows(Prune(Append(s, c, sess.user), KEEP).rows, hooks, strict)
    ensures VettedRows(Persisted(s, c, sess, opts, now).rows, hooks, strict)
  {
    hide Vetted;
  }

  lemma BeforeCommitVetted(s: Sys, sess: Session, env: Env, now: int, strict: bool)
    requires Inv(s) && VettedRows(s.rows, env.hooks, strict)
    ensures VettedRows(BeforeCommit(s, sess, now, env.ttl).rows, env.hooks, strict)
  {
    hide Swept, VettedRows, Inv;
    SweepRows(s, now, env.ttl);
    if Due(s, now) {
      GainsVetted(s, Swept(s, now, env.ttl), env.hooks, strict);
    }
  }

  lemma CommitVetted(s: Sys, sess: Session, opts: CommitOpts, applyOk: bool, env: Env, now: int, strict: bool)
    requires Inv(s) && VettedRows(s.rows, env.hooks, strict) && (strict ==> !opts.allowNoSuperUser)
    ensures VettedRows(DoCommit(s, sess, opts, applyOk, env.hooks, now, env.ttl).0.rows, env.hooks, strict)
  {
    hide BeforeCommit, VettedRows, Persisted, HasSuperUser;
    BeforeCommitVetted(s, sess, env, now, strict);
    var t := BeforeCommit(s, sess, now, env.ttl);
    if IsHolder(t, sess) && Refusal(t, t.candidate.value, sess, opts, env.hooks).None? {
      PersistedVetted(t.(applied := t.candidate.value), t.candidate.value, sess, opts, now, env.hooks, strict);
    }
  }

  lemma RestartVetted(s: Sys, now: int, hooks: Hooks, strict: bool)
    requires VettedRows(s.rows, hooks, strict)
    ensures VettedRows(DoRestart(s, now).rows, hooks, strict)
  {
    var t := Boot(s);
    assert VettedRows(t.rows, hooks, strict);
    if t.pending.Some? {
      FoundIsStored(t.rows, t.pending.value.baseRev);
    }
  }

  lemma CrashVetted(s: Sys, e: Event, now: int, env: Env, strict: bool)
    requires Inv(s) && VettedRows(s.rows, env.hooks, strict) && (strict ==> NoWaiver(e))
    requires e.CrashInCommit? || e.CrashInRollback?
    ensures VettedRows(Next(s, e, now, env).rows, env.hooks, strict)
  {
    hide BeforeCommit, VettedRows, HasSuperUser, DoRestart, Persisted, Prune;
    if e.CrashInCommit? {
      BeforeCommitVetted(s, e.sess, env, now, strict);
      var t := BeforeCommit(s, e.sess, now, env.ttl);
      RestartVetted(t, now, env.hooks, strict);
      if IsHolder(t, e.sess) && Refusal(t, t.candidate.value, e.sess, e.opts, env.hooks).None? {
        var c := t.candidate.value;
        PersistedVetted(t.(applied := c), c, e.sess, e.opts, now, env.hooks, strict);
        RestartVetted(Interrupted(t, c, e.sess, e.opts, now, e.point), now, env.hooks, strict);
      }
    } else {
      RestartVetted(s, now, env.hooks, strict);
      if Due(s, now) {
        HalfVetted(s, env.hooks, strict);
        RestartVetted(HalfRolledBack(s), now, env.hooks, strict);
      }
    }
  }

  lemma HalfVetted(s: Sys, hooks: Hooks, strict: bool)
    requires VettedRows(s.rows, hooks, strict) && s.pending.Some?
    ensures VettedRows(HalfRolledBack(s).rows, hooks, strict)
  {
    FoundIsStored(s.rows, s.pending.value.baseRev);
  }

  /** Every stored revision is the empty configuration or passed the validator, images and the super-user check. */
  lemma {:induction false} OnlyVettedHistory(es: seq<Timed>, env: Env, strict: bool)
    requires strict ==> forall i :: 0 <= i < |es| ==> NoWaiver(es[i].event)
    ensures VettedRows(Run(FRESH, es, env).rows, env.hooks, strict)
  {
    if es != [] {
      var n := |es| - 1;
      OnlyVettedHistory(es[..n], env, strict);
      ReachableInv(es[..n], env);
      NextVetted(Run(FRESH, es[..n], env), es[n].event, es[n].now, env, strict);
    }
  }

  lemma NextVetted(s: Sys, e: Event, now: int, env: Env, strict: bool)
    requires Inv(s) && VettedRows(s.rows, env.hooks, strict) && (strict ==> NoWaiver(e))
    ensures VettedRows(Next(s, e, now, env).rows, env.hooks, strict)
  {
    hide VettedRows, Inv, Find;
    if e.Commit? {
      CommitVetted(s, e.sess, e.opts, e.applyOk, env, now, strict);
    } else if e.CrashInCommit? || e.CrashInRollback? {
      CrashVetted(s, e, now, env, strict);
    } else if Passive(e) {
      PassiveRows(s, e, now, env);
      if Due(s, now) {
        GainsVetted(s, Next(s, e, now, env), env.hooks, strict);
      }
    } else {
      hide Swept;
      SweepRows(s, now, env.ttl);
      if Due(s, now) {
        GainsVetted(s, Swept(s, now, env.ttl), env.hooks, strict);
      }
      assert Next(s, e, now, env).rows == Swept(s, now, env.ttl).rows;
    }
  }

  // ---------- failing commits ----------

  /** A refused or failing commit keeps the log, candidate, dirty flag and lock as its sweep left them. */
  lemma FailedCommitKeepsEverything(s: Sys, sess: Session, opts: CommitOpts, applyOk: bool, env: Env, now: int)
    ensures var t := Swept(s, now, env.ttl); var (u, reply) := DoCommit(s, sess, opts, applyOk, env.hooks, now, env.ttl);
      !reply.Revision? ==>
        && u.rows == t.rows && u.candidate == t.candidate && u.dirty == t.dirty
        && u.holder == t.holder && u.lock == t.lock && u.applied == t.applied && u.pending.None?
  {
    hide Swept;
  }

  /** A commit writes exactly when its holder has changes that nothing refuses and the data plane takes. */
  lemma CommitWrites(s: Sys, sess: Session, opts: CommitOpts, applyOk: bool, env: Env, now: int)
    requires Inv(s)
    ensures var t := BeforeCommit(s, sess, now, env.ttl); var (u, reply) := DoCommit(s, sess, opts, applyOk, env.hooks, now, env.ttl);
      && (Latest(u) > Latest(t) <==>
          IsHolder(t, sess) && t.dirty && applyOk && Refusal(t, t.candidate.value, sess, opts, env.hooks).None?)
      && (Latest(u) > Latest(t) ==> reply == Revision(Latest(t) + 1) && Committed(u) == t.candidate.value == u.applied && !u.dirty)
  {
    hide BeforeCommit, Refusal, Persisted;
    BeforeCommitInv(s, sess, now, env.ttl);
    var t := BeforeCommit(s, sess, now, env.ttl);
    if IsHolder(t, sess) && t.dirty {
      var v := t.(applied := t.candidate.value);
      PersistedPre(t, t.candidate.value);
      PersistedInv(v, v.candidate.value, sess, opts, now);
      PersistedMemory(v, v.candidate.value, sess, opts, now);
    }
  }

  // ---------- a lock row that outlives its process ----------

  predicate Orphaned(s: Sys, h: string) {
    HoldsRow(s, h) && s.candidate.None? && s.holder == "" && !s.dirty
  }

  predicate ByOthers(e: Event, h: string) {
    && (e.Edit? || e.Release? || e.Update? || e.Merge? || e.Commit? || e.Confirm? || e.Rollback? || e.CrashInCommit? ==>
          Holder(e.sess) != h)
  }

  lemma RestartOrphans(s: Sys, h: string, now: int)
    requires HoldsRow(s, h)
    ensures Orphaned(DoRestart(s, now), h)
  {
  }

  lemma SweepKeepsOrphan(s: Sys, h: string, now: int, ttl: int)
    requires Orphaned(s, h) && h != ""
    ensures Orphaned(Swept(s, now, ttl), h) && Orphaned(DoTimer(s, now), h)
  {
  }

  lemma OrphanStep(s: Sys, h: string, e: Event, now: int, env: Env)
    requires Orphaned(s, h) && h != "" && ByOthers(e, h)
    ensures Orphaned(Next(s, e, now, env), h)
    ensures e.Edit? ==> DoEdit(s, e.sess, now, env.ttl).1 == Locked
  {
    hide Swept, Refusal, Persisted, DoRestart, DoTimer;
    SweepKeepsOrphan(s, h, now, env.ttl);
    RestartOrphans(s, h, now);
    if e.CrashInRollback? && Due(s, now) {
      RestartOrphans(HalfRolledBack(s), h, now);
    }
    if e.CrashInCommit? {
      RestartOrphans(BeforeCommit(s, e.sess, now, env.ttl), h, now);
    }
  }

  /**
    After a restart an abandoned lock never expires: however long the others wait and whatever
    they do, every attempt of theirs to edit is refused, until its own holder comes back.
   */
  lemma {:induction false} OrphanedLockStays(s: Sys, h: string, es: seq<Timed>, env: Env, sess: Session, now: int)
    requires Orphaned(s, h) && h != "" && Holder(sess) != h
    requires forall i :: 0 <= i < |es| ==> ByOthers(es[i].event, h)
    ensures Orphaned(Run(s, es, env), h)
    ensures DoEdit(Run(s, es, env), sess, now, env.ttl).1 == Locked
  {
    hide Orphaned, ByOthers, DoEdit, Next;
    if es != [] {
      var n := |es| - 1;
      var init := es[..n];
      assert forall i :: 0 <= i < n ==> init[i] == es[i];
      OrphanedLockStays(s, h, init, env, sess, now);
      OrphanStep(Run(s, init, env), h, es[n].event, es[n].now, env);
    }
    OtherIsByOthers(sess, h);
    OrphanStep(Run(s, es, env), h, Edit(sess), now, env);
  }

  lemma OtherIsByOthers(sess: Session, h: string)
    requires Holder(sess) != h
    ensures ByOthers(Edit(sess), h)
  {
  }

  /**
    When a sweep frees a lock row, in every reachable state: exactly if the row is idle and this
    process has a session open.
   */
  lemma {:induction false} IdleLockFreed(es: seq<Timed>, env: Env, now: int)
    requires Run(FRESH, es, env).lock.Some?
    ensures Swept(Run(FRESH, es, env), now, env.ttl).lock.None? <==>
      Idle(Run(FRESH, es, env), now, env.ttl) && Run(FRESH, es, env).candidate.Some?
  {
    ReachableInv(es, env);
    hide Run;
    IdleSweep(Run(FRESH, es, env), now, env.ttl);
  }

  lemma IdleSweep(s: Sys, now: int, ttl: int)
    requires Inv(s) && s.lock.Some?
    ensures Swept(s, now, ttl).lock.None? <==> Idle(s, now, ttl) && s.candidate.Some?
  {
    if Due(s, now) {
      RolledBackInv(s);
    }
  }

  lemma HolderTakesOver(s: Sys, sess: Session, now: int, ttl: int)
    requires Inv(s) && Orphaned(s, Holder(sess))
    ensures var (t, reply) := DoEdit(s, sess, now, ttl);
      reply == Done && IsHolder(t, sess) && t.candidate == Some(Committed(t)) && !t.dirty
  {
    NonEmptyHolder(sess);
    SweepKeepsOrphan(s, Holder(sess), now, ttl);
    SweptInv(s, now, ttl);
    hide Swept;
  }

  // ---------- the data plane and a timed-out confirm ----------

  /** Without a time-out or crash, the data plane was last told the committed configuration. */
  lemma StepApplied(s: Sys, e: Event, now: int, env: Env)
    requires Inv(s) && s.applied == Committed(s) && !Due(s, now) && !e.CrashInCommit?
    ensures Next(s, e, now, env).applied == Committed(Next(s, e, now, env))
  {
    if e.Commit? {
      CommitApplied(s, e.sess, e.opts, e.applyOk, env, now);
    } else if e.Timer? || e.Restart? || e.CrashInRollback? {
      QuietRestart(s, now);
      hide DoRestart, DoTimer, Inv, Find;
    } else if e.Edit? || e.Release? || e.Look? {
      SweepRows(s, now, env.ttl);
      hide Swept, Find, Inv;
    } else {
      SweepRows(s, now, env.ttl);
      hide Swept, Find, Inv, Inherit;
    }
  }

  lemma CommitApplied(s: Sys, sess: Session, opts: CommitOpts, applyOk: bool, env: Env, now: int)
    requires Inv(s) && s.applied == Committed(s) && !Due(s, now)
    ensures var t := DoCommit(s, sess, opts, applyOk, env.hooks, now, env.ttl).0; t.applied == Committed(t)
  {
    SweepRows(s, now, env.ttl);
    CommitWrites(s, sess, opts, applyOk, env, now);
    FailedCommitKeepsEverything(s, sess, opts, applyOk, env, now);
    IdleCommit(s, sess, opts, applyOk, env, now);
    hide Inv, Swept, Refusal, Persisted, Find;
  }

  /** No event meets an overdue confirm, and no commit dies halfway. */
  ghost predicate Undisturbed(es: seq<Timed>, env: Env) {
    forall i :: 0 <= i < |es| ==> !es[i].event.CrashInCommit? && !Due(Run(FRESH, es[..i], env), es[i].now)
  }

  /** On runs without time-outs and halfway commits, the data plane was last told the committed configuration. */
  lemma {:induction false} RunApplied(es: seq<Timed>, env: Env)
    requires Undisturbed(es, env)
    ensures Run(FRESH, es, env).applied == Committed(Run(FRESH, es, env))
  {
    if es != [] {
      var n := |es| - 1;
      var init := es[..n];
      forall i | 0 <= i < n ensures !init[i].event.CrashInCommit? && !Due(Run(FRESH, init[..i], env), init[i].now) {
        assert init[..i] == es[..i] && init[i] == es[i];
      }
      hide Due, Next, Committed;
      RunApplied(init, env);
      ReachableInv(init, env);
      StepApplied(Run(FRESH, init, env), es[n].event, es[n].now, env);
    } else {
      hide Due, Undisturbed;
    }
  }

  lemma QuietRestart(s: Sys, now: int)
    requires Inv(s) && !Due(s, now)
    ensures DoTimer(s, now) == s
    ensures DoRestart(s, now).rows == s.rows && DoRestart(s, now).applied == s.applied
  {
  }

  lemma IdleCommit(s: Sys, sess: Session, opts: CommitOpts, applyOk: bool, env: Env, now: int)
    ensures var t := BeforeCommit(s, sess, now, env.ttl); var (u, reply) := DoCommit(s, sess, opts, applyOk, env.hooks, now, env.ttl);
      reply.Revision? && IsHolder(t, sess) && !t.dirty ==> u == t
  {
  }

  /** A time-out restores the stored configuration only: the data plane keeps the confirmed one. */
  lemma TimeoutLeavesDataPlane(s: Sys, now: int, ttl: int)
    requires Inv(s) && Due(s, now) && s.applied == Committed(s)
    ensures Find(s.rows, s.pending.value.baseRev).Some?
    ensures var t := Swept(s, now, ttl);
      && t.applied == Committed(s) && Committed(t) == Find(s.rows, s.pending.value.baseRev).value.cfg
      && (t.applied == Committed(t) <==> Committed(s) == Find(s.rows, s.pending.value.baseRev).value.cfg)
  {
    SweepRows(s, now, ttl);
  }
}
