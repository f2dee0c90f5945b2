/**
  What holds in every reachable state of the engine, and over whole runs.
 */
module EngineFacts {
  import opened Common
  import opened EngineSpec

  // ---------- the invariant ----------

  ghost predicate Consecutive(rows: seq<Row>) {
    forall i :: 0 <= i < |rows| ==> rows[i].rev == rows[0].rev + i
  }

  /** Stored revisions are a gap-free interval that ends at the latest and reaches back 50. */
  ghost predicate RevisionWindow(s: Sys) {
    && s.rows != [] && Consecutive(s.rows) && s.rows[0].rev >= 1
    && s.nextId == Latest(s) + 1
    && (s.rows[0].rev == 1 || s.rows[0].rev <= Latest(s) - 50)
  }

  /** A pending confirm has its base stored, older than the latest, and its timer armed. */
  ghost predicate PendingSound(s: Sys) {
    s.pending.Some? ==> s.rows != [] && s.rows[0].rev <= s.pending.value.baseRev < Latest(s) && s.timer
  }

  /** A candidate implies the stored lock is the engine holder's; dirty implies a candidate; a lock row has a holder. */
  ghost predicate LockCoherent(s: Sys) {
    && (s.candidate.Some? <==> s.holder != "")
    && (s.candidate.Some? ==> HoldsRow(s, s.holder))
    && (s.dirty ==> s.candidate.Some?)
    && (s.lock.Some? ==> s.lock.value.holder != "")
  }

  ghost predicate Inv(s: Sys) {
    RevisionWindow(s) && PendingSound(s) && LockCoherent(s)
  }

  // ---------- store facts ----------

  lemma {:induction false} FindInWindow(rows: seq<Row>, rev: int)
    requires Consecutive(rows)
    ensures rows != [] && rows[0].rev <= rev <= rows[|rows| - 1].rev ==>
      Find(rows, rev) == Some(rows[rev - rows[0].rev])
    ensures rows == [] || rev < rows[0].rev || rev > rows[|rows| - 1].rev ==> Find(rows, rev) == None
  {
    if rows != [] {
      var init := rows[..|rows| - 1];
      assert init != [] ==> init[0] == rows[0] && init[|init| - 1] == rows[|rows| - 2];
      FindInWindow(init, rev);
    }
  }

  lemma {:induction false} FindAppended(rows: seq<Row>, row: Row, rev: int)
    requires row.rev != rev
    ensures Find(rows + [row], rev) == Find(rows, rev)
  {
    assert (rows + [row])[..|rows|] == rows;
  }

  lemma AppendWindow(s: Sys, cfg: Config, author: string)
    requires RevisionWindow(s)
    ensures RevisionWindow(Append(s, cfg, author)) && Latest(Append(s, cfg, author)) == Latest(s) + 1
    ensures Committed(Append(s, cfg, author)) == cfg
  {
  }

  lemma PruneWindow(s: Sys)
    requires RevisionWindow(s)
    ensures RevisionWindow(Prune(s, KEEP)) && Latest(Prune(s, KEEP)) == Latest(s) && Committed(Prune(s, KEEP)) == Committed(s)
    ensures Prune(s, KEEP).rows[0].rev <= s.rows[0].rev || Prune(s, KEEP).rows[0].rev == Latest(s) - 50
  {
  }

  /** Pruning keeps exactly the newest revisions, each as it was, and reads them back under the same number. */
  lemma {:induction false} PruneKeepsNewest(s: Sys, keep: nat, rev: int)
    requires RevisionWindow(s) && keep > 0
    ensures Find(Prune(s, keep).rows, rev) == if rev > Latest(s) - keep then Find(s.rows, rev) else None
    ensures |Prune(s, keep).rows| <= keep && Latest(Prune(s, keep)) == Latest(s)
  {
    var kept := Prune(s, keep).rows;
    FindInWindow(s.rows, rev);
    FindInWindow(kept, rev);
  }

  // ---------- every operation keeps the invariant ----------

  lemma RolledBackInv(s: Sys)
    requires Inv(s) && s.pending.Some?
    ensures var t := RolledBack(s, s.pending.value);
      && Inv(t) && t.pending.None? && Latest(t) == Latest(s) + 1
      && Find(s.rows, s.pending.value.baseRev).Some? && Committed(t) == Find(s.rows, s.pending.value.baseRev).value.cfg
      && (t.candidate.Some? <==> s.candidate.Some?) && t.holder == s.holder && t.lock == s.lock
      && (t.candidate.Some? ==> t.candidate.value == Committed(t) && t.dirty)
  {
    FindInWindow(s.rows, s.pending.value.baseRev);
    AppendWindow(s, Find(s.rows, s.pending.value.baseRev).value.cfg, "system");
  }

  lemma SweptInv(s: Sys, now: int, ttl: int)
    requires Inv(s)
    ensures Inv(SweptConfirm(s, now)) && Inv(Swept(s, now, ttl))
  {
    if Due(s, now) {
      RolledBackInv(s);
    }
  }

  lemma BeforeCommitInv(s: Sys, sess: Session, now: int, ttl: int)
    requires Inv(s)
    ensures Inv(BeforeCommit(s, sess, now, ttl)) && BeforeCommit(s, sess, now, ttl).pending.None?
  {
    SweptInv(s, now, ttl);
  }

  lemma PersistedInv(s: Sys, c: Config, sess: Session, opts: CommitOpts, now: int)
    requires Inv(s) && s.pending.None?
    ensures var t := Persisted(s, c, sess, opts, now);
      Inv(t) && Latest(t) == Latest(s) + 1 && Committed(t) == c && |t.rows| <= 51
  {
    AppendWindow(s, c, sess.user);
    PruneWindow(Append(s, c, sess.user));
  }

  /** The revision log and the pending confirm are all that two of the three clauses look at. */
  lemma SameStore(s: Sys, t: Sys)
    requires s.rows == t.rows && s.nextId == t.nextId && s.pending == t.pending && (s.timer ==> t.timer)
    ensures RevisionWindow(s) ==> RevisionWindow(t)
    ensures PendingSound(s) ==> PendingSound(t)
  {
  }

  lemma PersistedMemory(s: Sys, c: Config, sess: Session, opts: CommitOpts, now: int)
    ensures var t := Persisted(s, c, sess, opts, now);
      t.candidate == s.candidate && t.holder == s.holder && t.dirty == s.dirty && t.lock == s.lock && t.applied == s.applied
  {
  }

  lemma CommitInv(s: Sys, sess: Session, opts: CommitOpts, applyOk: bool, env: Env, now: int)
    requires Inv(s)
    ensures Inv(DoCommit(s, sess, opts, applyOk, env.hooks, now, env.ttl).0)
  {
    hide BeforeCommit, Swept, Persisted, Refusal, RevisionWindow, PendingSound;
    BeforeCommitInv(s, sess, now, env.ttl);
    var t := BeforeCommit(s, sess, now, env.ttl);
    if IsHolder(t, sess) && t.dirty {
      var u := t.(applied := t.candidate.value);
      SameStore(t, u);
      PersistedInv(u, u.candidate.value, sess, opts, now);
      var r := Persisted(u, u.candidate.value, sess, opts, now);
      PersistedMemory(u, u.candidate.value, sess, opts, now);
      SameStore(r, Audited(r, sess.user, "config.commit", true).(dirty := false));
    }
    SameStore(t, Audited(t, sess.user, "config.commit", false));
  }

  lemma RestartInv(s: Sys, now: int)
    requires RevisionWindow(s) && (s.lock.Some? ==> s.lock.value.holder != "")
    requires s.pending.Some? ==> s.rows[0].rev <= s.pending.value.baseRev < Latest(s)
    ensures Inv(DoRestart(s, now))
  {
    var t := Boot(s);
    if Due(t, now) {
      RolledBackInv(t.(timer := true));
      assert RolledBack(t.(timer := true), t.pending.value) == RolledBack(t, t.pending.value);
    }
  }

  lemma HalfRolledBackKeeps(s: Sys)
    requires Inv(s) && s.pending.Some?
    ensures var t := HalfRolledBack(s);
      && RevisionWindow(t) && t.lock == s.lock && t.pending == s.pending && t.rows[0].rev <= t.pending.value.baseRev < Latest(t)
      && Find(s.rows, s.pending.value.baseRev).Some? && Committed(t) == Find(s.rows, s.pending.value.baseRev).value.cfg
      && Find(t.rows, t.pending.value.baseRev) == Find(s.rows, s.pending.value.baseRev)
  {
    FindInWindow(s.rows, s.pending.value.baseRev);
    var base := Find(s.rows, s.pending.value.baseRev).value;
    AppendWindow(s, base.cfg, "system");
    FindAppended(s.rows, Row(s.nextId, base.cfg, "system"), s.pending.value.baseRev);
  }

  lemma CrashInCommitInv(s: Sys, sess: Session, opts: CommitOpts, point: CrashPoint, env: Env, now: int)
    requires Inv(s)
    ensures Inv(Next(s, CrashInCommit(sess, opts, point), now, env))
  {
    BeforeCommitInv(s, sess, now, env.ttl);
    var t := BeforeCommit(s, sess, now, env.ttl);
    if IsHolder(t, sess) && t.dirty && Refusal(t, t.candidate.value, sess, opts, env.hooks).None? {
      InterruptedKeeps(t, t.candidate.value, sess, opts, now, point);
      hide *;
      RestartInv(Interrupted(t, t.candidate.value, sess, opts, now, point), now);
    } else {
      RestartInv(t, now);
    }
  }

  /** Wherever a commit is interrupted, the log and the pending confirm on disk are in order. */
  lemma InterruptedKeeps(t: Sys, c: Config, sess: Session, opts: CommitOpts, now: int, point: CrashPoint)
    requires Inv(t) && t.pending.None?
    ensures var u := Interrupted(t, c, sess, opts, now, point);
      RevisionWindow(u) && u.lock == t.lock && (u.pending.Some? ==> u.rows[0].rev <= u.pending.value.baseRev < Latest(u))
  {
    var u := t.(applied := c);
    AppendWindow(u, c, sess.user);
    PruneWindow(Append(u, c, sess.user));
    PersistedInv(u, c, sess, opts, now);
    hide Persisted, Append, Prune, Latest, Consecutive;
  }

  lemma SessionInv(s: Sys, sess: Session, cfg: Config, env: Env, now: int)
    requires Inv(s)
    ensures Inv(DoEdit(s, sess, now, env.ttl).0)
    ensures Inv(DoRelease(s, sess, now, env.ttl).0)
    ensures Inv(DoUpdate(s, sess, cfg, now, env.ttl).0)
    ensures Inv(DoMerge(s, sess, cfg, env.hooks, now, env.ttl).0)
  {
    hide Swept, Inherit, RevisionWindow, PendingSound;
    SweptInv(s, now, env.ttl);
    NonEmptyHolder(sess);
    var t := Swept(s, now, env.ttl);
    SameStore(t, DoEdit(s, sess, now, env.ttl).0);
    SameStore(t, DoRelease(s, sess, now, env.ttl).0);
    SameStore(t, DoUpdate(s, sess, cfg, now, env.ttl).0);
    SameStore(t, DoMerge(s, sess, cfg, env.hooks, now, env.ttl).0);
  }

  lemma ConfirmInv(s: Sys, sess: Session, n: int, env: Env, now: int)
    requires Inv(s)
    ensures Inv(DoConfirm(s, sess, now, env.ttl).0)
    ensures Inv(DoRollback(s, sess, n, now, env.ttl).0)
  {
    hide Swept, RevisionWindow, Find;
    SweptInv(s, now, env.ttl);
    var t := Swept(s, now, env.ttl);
    var u := ConfirmCleared(t, sess.user);
    SameStore(t.(pending := None, timer := false), u);
    RowsOnly(t, u);
    RowsOnly(t, DoRollback(s, sess, n, now, env.ttl).0);
  }

  lemma RowsOnly(s: Sys, t: Sys)
    requires s.rows == t.rows && s.nextId == t.nextId
    ensures RevisionWindow(s) ==> RevisionWindow(t)
  {
  }

  /** One event, whatever it is, keeps the invariant. */
  lemma NextInv(s: Sys, e: Event, now: int, env: Env)
    requires Inv(s)
    ensures Inv(Next(s, e, now, env))
  {
    hide Inv, DoEdit, DoRelease, DoUpdate, DoMerge, DoCommit, DoConfirm, DoRollback, DoRestart, Swept;
    match e
    case Edit(sess) => SessionInv(s, sess, EMPTY_CONFIG, env, now);
    case Release(sess) => SessionInv(s, sess, EMPTY_CONFIG, env, now);
    case Update(sess, cfg) => SessionInv(s, sess, cfg, env, now);
    case Merge(sess, cfg) => SessionInv(s, sess, cfg, env, now);
    case Look => SweptInv(s, now, env.ttl);
    case Commit(sess, opts, applyOk) => CommitInv(s, sess, opts, applyOk, env, now);
    case Confirm(sess) => ConfirmInv(s, sess, 0, env, now);
    case Rollback(sess, n) => ConfirmInv(s, sess, n, env, now);
    case Timer => SweptInv(s, now, env.ttl);
    case Restart => RestartEventInv(s, now);
    case CrashInRollback => CrashInRollbackInv(s, now, env);
    case CrashInCommit(sess, opts, point) => CrashInCommitInv(s, sess, opts, point, env, now);
  }

  lemma RestartEventInv(s: Sys, now: int)
    requires Inv(s)
    ensures Inv(DoRestart(s, now))
  {
    RestartInv(s, now);
  }

  lemma CrashInRollbackInv(s: Sys, now: int, env: Env)
    requires Inv(s)
    ensures Inv(Next(s, CrashInRollback, now, env))
  {
    if Due(s, now) {
      HalfRolledBackKeeps(s);
      RestartInv(HalfRolledBack(s), now);
    } else {
      RestartInv(s, now);
    }
  }

  lemma NonEmptyHolder(sess: Session)
    ensures Holder(sess) != ""
  {
    assert Holder(sess)[|sess.user|] == '@';
  }

  /** Every reachable state satisfies the invariant. */
  lemma {:induction false} ReachableInv(es: seq<Timed>, env: Env)
    ensures Inv(Run(FRESH, es, env))
  {
    if es != [] {
      var n := |es| - 1;
      ReachableInv(es[..n], env);
      NextInv(Run(FRESH, es[..n], env), es[n].event, es[n].now, env);
    }
  }
}
