/**
  What each call of the engine answers and does, in terms of the state its sweep leaves
  (internal/config/engine.go): the decision table of a commit, the guard of the management
  interface, and what editing, updating, confirming and releasing are for.
 */
module EngineLaws {
  import opened Common
  import opened EngineSpec
  import opened EngineFacts
  import opened EngineRuns

  // ---------- the sweep ----------

  /** A state with no overdue confirm and no idle lock is left as it is. */
  lemma QuietSweep(s: Sys, now: int, ttl: int)
    requires s.pending.Some? ==> now < s.pending.value.deadline
    requires s.lock.Some? ==> now - s.lock.value.lastActivity <= ttl
    ensures Swept(s, now, ttl) == s
  {
  }

  /** An idle session of this process loses its lock and its changes, and nothing else happens. */
  lemma IdleSweepDiscards(s: Sys, now: int, ttl: int)
    requires Inv(s) && s.candidate.Some? && (s.pending.Some? ==> now < s.pending.value.deadline)
    requires now - s.lock.value.lastActivity > ttl
    ensures var t := Swept(s, now, ttl);
      && t == s.(lock := None, candidate := None, holder := "", dirty := false, audit := t.audit)
      && t.audit == s.audit + [AuditRow(s.holder, "config.lock-timeout", true)]
  {
  }

  // ---------- the answer of a commit ----------

  /** The session has the candidate open. */
  predicate Has(t: Sys, sess: Session) {
    t.candidate.Some? && t.holder == sess.user + "@" + sess.source
  }

  predicate HasSuper(c: Config) {
    c.login.Some? && exists u :: u in c.login.value && u.role == "super-user"
  }

  predicate Checked(c: Config, opts: CommitOpts, hooks: Hooks) {
    hooks.validate(c) && (opts.allowNoSuperUser || HasSuper(c))
  }

  /** The session reaches the appliance over the network and asks for a change of its management interface for good. */
  predicate CutsItselfOff(t: Sys, c: Config, sess: Session, opts: CommitOpts) {
    Committed(t).mgmt != c.mgmt && sess.source != "console" && opts.confirmedMinutes <= 0
  }

  lemma SuperUserFound(c: Config)
    ensures HasSuperUser(c) <==> HasSuper(c)
  {
    if HasSuper(c) {
      var u :| u in c.login.value && u.role == "super-user";
      var i :| 0 <= i < |c.login.value| && c.login.value[i] == u;
    }
  }

  /** Why a commit is refused, for each answer exactly. */
  lemma CommitAnswers(s: Sys, sess: Session, opts: CommitOpts, applyOk: bool, env: Env, now: int)
    requires Inv(s)
    ensures var t := BeforeCommit(s, sess, now, env.ttl);
      var reply := DoCommit(s, sess, opts, applyOk, env.hooks, now, env.ttl).1;
      var open := Has(t, sess) && t.dirty;
      && (reply == NotEditing <==> !Has(t, sess))
      && (reply == ConfirmRequired <==>
            open && Checked(t.candidate.value, opts, env.hooks) && CutsItselfOff(t, t.candidate.value, sess, opts))
      && (reply == ValidationFailed <==>
            open && (!Checked(t.candidate.value, opts, env.hooks) ||
                     (!CutsItselfOff(t, t.candidate.value, sess, opts) && !env.hooks.images(t.candidate.value))))
      && (reply == ApplyFailed <==>
            open && Checked(t.candidate.value, opts, env.hooks) && !CutsItselfOff(t, t.candidate.value, sess, opts)
            && env.hooks.images(t.candidate.value) && !applyOk)
      && (reply.Revision? <==>
            Has(t, sess) && (t.dirty ==>
              && Checked(t.candidate.value, opts, env.hooks) && !CutsItselfOff(t, t.candidate.value, sess, opts)
              && env.hooks.images(t.candidate.value) && applyOk))
  {
    BeforeCommitInv(s, sess, now, env.ttl);
    var t := BeforeCommit(s, sess, now, env.ttl);
    if t.candidate.Some? {
      SuperUserFound(t.candidate.value);
    }
    hide BeforeCommit, HasSuper, HasSuperUser, Persisted;
  }

  /** Each commit that was looked at leaves one audit entry that tells how it ended. */
  lemma CommitAudited(s: Sys, sess: Session, opts: CommitOpts, applyOk: bool, env: Env, now: int)
    ensures var t := BeforeCommit(s, sess, now, env.ttl);
      var (u, reply) := DoCommit(s, sess, opts, applyOk, env.hooks, now, env.ttl);
      u.audit == t.audit +
        if Has(t, sess) && t.dirty && reply != ConfirmRequired && reply != NoCommitted then
          [AuditRow(sess.user, "config.commit", reply.Revision?)]
        else []
  {
    hide BeforeCommit, HasSuperUser, Find;
    NonEmptyHolder(sess);
  }

  /** What a commit that writes leaves in the store, and in the open session. */
  lemma CommitLeaves(s: Sys, sess: Session, opts: CommitOpts, env: Env, now: int)
    requires Inv(s)
    ensures var t := BeforeCommit(s, sess, now, env.ttl);
      var u := DoCommit(s, sess, opts, true, env.hooks, now, env.ttl).0;
      Latest(u) > Latest(t) ==>
        t.candidate.Some? && Stored(t, u, t.candidate.value, sess, opts, now)
        && u.candidate == t.candidate && !u.dirty && u.holder == t.holder && u.lock == t.lock
  {
    BeforeCommitInv(s, sess, now, env.ttl);
    CommitWrites(s, sess, opts, true, env, now);
    hide BeforeCommit, Refusal, HasSuperUser, Find, Persisted, Stored;
    var t := BeforeCommit(s, sess, now, env.ttl);
    if Latest(DoCommit(s, sess, opts, true, env.hooks, now, env.ttl).0) > Latest(t) {
      var v := t.(applied := t.candidate.value);
      PersistedPre(t, t.candidate.value);
      hide Inv;
      PersistedRows(v, t.candidate.value, sess, opts, now);
      PersistedMemory(v, t.candidate.value, sess, opts, now);
      StoredSame(v, Persisted(v, t.candidate.value, sess, opts, now), t, DoCommit(s, sess, opts, true, env.hooks, now, env.ttl).0,
                 t.candidate.value, sess, opts, now);
    }
  }

  /** One more revision, signed by the user, behind the newest old ones; a pending row with the session's name if asked for. */
  predicate Stored(t: Sys, u: Sys, c: Config, sess: Session, opts: CommitOpts, now: int) {
    && u.rows != [] && |u.rows| - 1 <= |t.rows|
    && u.rows[|u.rows| - 1] == Row(Latest(t) + 1, c, sess.user)
    && u.rows[..|u.rows| - 1] == t.rows[|t.rows| - (|u.rows| - 1)..]
    && u.pending == if opts.confirmedMinutes > 0 then
         Some(Pending(Latest(t), now + 60 * opts.confirmedMinutes, sess.user + "@" + sess.source)) else None
  }

  lemma StoredSame(s: Sys, r: Sys, t: Sys, u: Sys, c: Config, sess: Session, opts: CommitOpts, now: int)
    requires s.rows == t.rows && u.rows == r.rows && u.pending == r.pending && Stored(s, r, c, sess, opts, now)
    ensures Stored(t, u, c, sess, opts, now)
  {
  }

  lemma NewestBehind(rows: seq<Row>, row: Row, keep: nat)
    requires keep > 0
    ensures var a := rows + [row]; var r := if |a| > keep then a[|a| - keep..] else a;
      r != [] && |r| - 1 <= |rows| && r[|r| - 1] == row && r[..|r| - 1] == rows[|rows| - (|r| - 1)..]
  {
    var a := rows + [row];
    var r := if |a| > keep then a[|a| - keep..] else a;
    assert r == rows[|rows| - (|r| - 1)..] + [row];
  }

  lemma PersistedRows(s: Sys, c: Config, sess: Session, opts: CommitOpts, now: int)
    requires Inv(s) && s.pending.None?
    ensures Stored(s, Persisted(s, c, sess, opts, now), c, sess, opts, now)
  {
    NewestBehind(s.rows, Row(s.nextId, c, sess.user), KEEP);
    hide Consecutive, LockCoherent;
  }

  /** A new management interface was committed from the console, or waits to be confirmed and returns otherwise. */
  lemma ManagementGuarded(s: Sys, sess: Session, opts: CommitOpts, env: Env, now: int)
    requires Inv(s)
    requires var t, u := BeforeCommit(s, sess, now, env.ttl), DoCommit(s, sess, opts, true, env.hooks, now, env.ttl).0;
      Latest(u) > Latest(t) && Committed(u).mgmt != Committed(t).mgmt
    ensures var t, u := BeforeCommit(s, sess, now, env.ttl), DoCommit(s, sess, opts, true, env.hooks, now, env.ttl).0;
      sess.source == "console" || (opts.confirmedMinutes > 0 && Awaiting(u, Committed(t), now + 60 * opts.confirmedMinutes))
  {
    CommitWrites(s, sess, opts, true, env, now);
    CommitAnswers(s, sess, opts, true, env, now);
    if opts.confirmedMinutes > 0 {
      ConfirmedCommitAwaits(s, sess, opts, env, now);
    }
    hide BeforeCommit, DoCommit, Awaiting, Refusal, Inv;
  }

  /**
    Whoever cuts off a network session with a commit gets the old management interface back:
    unless somebody confirms, it is in force again once the time is over, whatever else happens.
   */
  lemma {:induction false} CutOffComesBack(s: Sys, sess: Session, opts: CommitOpts, env: Env, now: int, es: seq<Timed>)
    requires Inv(s) && sess.source != "console"
    requires var t, u := BeforeCommit(s, sess, now, env.ttl), DoCommit(s, sess, opts, true, env.hooks, now, env.ttl).0;
      Latest(u) > Latest(t) && Committed(u).mgmt != Committed(t).mgmt
    requires forall i :: 0 <= i < |es| ==> Passive(es[i].event)
    requires exists i :: 0 <= i < |es| && es[i].now >= now + 60 * opts.confirmedMinutes
    ensures var t, u := BeforeCommit(s, sess, now, env.ttl), DoCommit(s, sess, opts, true, env.hooks, now, env.ttl).0;
      Committed(Run(u, es, env)) == Committed(t)
  {
    ManagementGuarded(s, sess, opts, env, now);
    CommitInv(s, sess, opts, true, env, now);
    hide BeforeCommit, DoCommit, Awaiting, Inv, Run, Passive;
    var t, u := BeforeCommit(s, sess, now, env.ttl), DoCommit(s, sess, opts, true, env.hooks, now, env.ttl).0;
    ConfirmTimesOut(u, Committed(t), now + 60 * opts.confirmedMinutes, es, env);
  }

  // ---------- editing ----------

  lemma HolderText(sess: Session)
    ensures Holder(sess) == sess.user + "@" + sess.source != ""
  {
    NonEmptyHolder(sess);
  }

  /**
    Edit: refused while somebody else has the lock; a free lock is taken and the candidate is the
    committed configuration; a session that has it open keeps its changes.
   */
  lemma EditAnswers(s: Sys, sess: Session, now: int, ttl: int)
    requires Inv(s)
    ensures var t := Swept(s, now, ttl); var (u, reply) := DoEdit(s, sess, now, ttl); var h := sess.user + "@" + sess.source;
      if t.lock.Some? && t.lock.value.holder != h then reply == Locked && u == t
      else if t.lock.Some? && t.candidate.Some? then reply == Done && u == t.(lock := Some(LockRow(h, now)))
      else
        && reply == Done
        && u == t.(lock := Some(LockRow(h, now)), candidate := Some(Committed(t)), holder := h, dirty := false)
  {
    SweptInv(s, now, ttl);
    hide Swept;
  }

  /** Release gives up the changes and frees the lock; only the holder can. */
  lemma ReleaseAnswers(s: Sys, sess: Session, now: int, ttl: int)
    requires Inv(s)
    ensures var t := Swept(s, now, ttl); var (u, reply) := DoRelease(s, sess, now, ttl);
      if Has(t, sess) then reply == Done && u == t.(lock := None, candidate := None, holder := "", dirty := false)
      else reply == NotEditing && u == t
  {
    SweptInv(s, now, ttl);
    HolderText(sess);
    hide Swept;
  }

  /** After a release anybody may edit, and starts from what is committed. */
  lemma ReleasedForAll(s: Sys, sess: Session, now: int, other: Session, later: int, ttl: int)
    requires Inv(s) && Has(Swept(s, now, ttl), sess)
    ensures var u := DoRelease(s, sess, now, ttl).0; var (v, reply) := DoEdit(u, other, later, ttl);
      reply == Done && Has(v, other) && v.candidate == Some(Committed(v)) && !v.dirty
  {
    ReleaseAnswers(s, sess, now, ttl);
    SweptInv(s, now, ttl);
    var u := DoRelease(s, sess, now, ttl).0;
    assert Inv(u) by {
      SameStore(Swept(s, now, ttl), u);
    }
    EditAnswers(u, other, later, ttl);
    FreeStaysFree(u, later, ttl);
    hide Swept, DoRelease, DoEdit, RevisionWindow, PendingSound;
  }

  lemma FreeStaysFree(s: Sys, now: int, ttl: int)
    requires s.lock.None? && s.candidate.None?
    ensures Swept(s, now, ttl).lock.None? && Swept(s, now, ttl).candidate.None?
  {
  }

  // ---------- replacing and merging the candidate ----------

  /** The hash the last of the users with this name and a hash has; none gives the empty one. */
  predicate LastHash(users: seq<User>, name: string, hash: string) {
    if hash == "" then forall j :: 0 <= j < |users| && users[j].name == name ==> users[j].hash == ""
    else
      exists j :: 0 <= j < |users| && users[j].name == name && users[j].hash == hash
        && forall k :: j < k < |users| && users[k].name == name ==> users[k].hash == ""
  }

  lemma {:induction false} PasswordIsLast(users: seq<User>, name: string)
    ensures LastHash(users, name, PasswordOf(users, name))
  {
    if users != [] {
      var n := |users| - 1;
      PasswordIsLast(users[..n], name);
      var hash := PasswordOf(users, name);
      if users[n].name == name && users[n].hash != "" {
        assert users[n].hash == hash;
      } else if hash != "" {
        var j :| 0 <= j < n && users[..n][j].name == name && users[..n][j].hash == hash
          && forall k :: j < k < n && users[..n][k].name == name ==> users[..n][k].hash == "";
        assert users[j].hash == hash && forall k :: j < k < |users| && users[k].name == name ==> users[k].hash == "" by {
          assert forall k :: j < k < n ==> users[..n][k] == users[k];
        }
      } else {
        assert forall k :: 0 <= k < n ==> users[..n][k] == users[k];
      }
    }
  }

  /** The user as given, except that a missing hash is the committed one of that name. */
  predicate FilledUser(r: User, given: User, prior: seq<User>) {
    && r.name == given.name && r.role == given.role
    && if given.hash != "" then r.hash == given.hash else LastHash(prior, given.name, r.hash)
  }

  predicate Filled(r: Config, given: Config, prior: Config) {
    if given.login.None? || prior.login.None? then r == given
    else
      && r.mgmt == given.mgmt && r.rest == given.rest && r.login.Some? && |r.login.value| == |given.login.value|
      && forall i :: 0 <= i < |r.login.value| ==> FilledUser(r.login.value[i], given.login.value[i], prior.login.value)
  }

  lemma InheritFills(given: Config, prior: Config)
    ensures Filled(Inherit(given, prior), given, prior)
  {
    if given.login.Some? && prior.login.Some? {
      var us := given.login.value;
      forall i | 0 <= i < |us| ensures FilledUser(Inherit(given, prior).login.value[i], us[i], prior.login.value) {
        PasswordIsLast(prior.login.value, us[i].name);
      }
    }
  }

  /** The holder's candidate becomes the given configuration, with nothing but missing hashes filled in. */
  lemma UpdateAnswers(s: Sys, sess: Session, cfg: Config, now: int, ttl: int)
    requires Inv(s)
    ensures var t := Swept(s, now, ttl); var (u, reply) := DoUpdate(s, sess, cfg, now, ttl); var h := sess.user + "@" + sess.source;
      if Has(t, sess) then
        && reply == Done && u.candidate.Some? && Filled(u.candidate.value, cfg, Committed(t))
        && u == t.(candidate := u.candidate, dirty := true, lock := Some(LockRow(h, now)))
      else reply == NotEditing && u == t
  {
    SweptInv(s, now, ttl);
    HolderText(sess);
    InheritFills(cfg, Committed(Swept(s, now, ttl)));
    hide Swept, Filled, Inherit;
  }

  /** The candidate becomes the merge of itself and the patch; a merge that fails leaves it alone. */
  lemma MergeAnswers(s: Sys, sess: Session, patch: Config, hooks: Hooks, now: int, ttl: int)
    requires Inv(s)
    ensures var t := Swept(s, now, ttl); var (u, reply) := DoMerge(s, sess, patch, hooks, now, ttl); var h := sess.user + "@" + sess.source;
      if !Has(t, sess) then reply == NotEditing && u == t
      else if hooks.merge(t.candidate.value, patch).None? then reply == MergeFailed && u == t
      else
        reply == Done && u == t.(candidate := hooks.merge(t.candidate.value, patch), dirty := true, lock := Some(LockRow(h, now)))
  {
    SweptInv(s, now, ttl);
    HolderText(sess);
    hide Swept;
  }

  /** What the configuration looks like to a client: without password hashes. */
  function Redacted(c: Config): Config {
    if c.login.None? then c
    else c.(login := Some(seq(|c.login.value|, i requires 0 <= i < |c.login.value| => c.login.value[i].(hash := ""))))
  }

  predicate OneHashPerName(c: Config) {
    c.login.Some? ==>
      forall u, v :: u in c.login.value && v in c.login.value && u.name == v.name ==> u.hash == v.hash
  }

  /** Writing back what was read changes nothing exactly if users of one name have one password hash. */
  lemma WriteBackKeepsHashes(c: Config)
    ensures Inherit(Redacted(c), c) == c <==> OneHashPerName(c)
  {
    if c.login.Some? {
      var us, r := c.login.value, Inherit(Redacted(c), c).login.value;
      forall i | 0 <= i < |us| ensures r[i] == us[i].(hash := PasswordOf(us, us[i].name)) && LastHash(us, us[i].name, r[i].hash) {
        PasswordIsLast(us, us[i].name);
      }
      if OneHashPerName(c) {
        forall i | 0 <= i < |us| ensures r[i] == us[i] {
          assert us[i].name == us[i].name;
        }
        assert r == us;
      }
      if Inherit(Redacted(c), c) == c {
        assert r == us;
        forall i, j | 0 <= i < |us| && 0 <= j < |us| && us[i].name == us[j].name ensures us[i].hash == us[j].hash {
          assert r[i].hash == PasswordOf(us, us[i].name) == r[j].hash;
        }
      }
    }
  }

  // ---------- confirming ----------

  lemma ConfirmAnswers(s: Sys, sess: Session, now: int, ttl: int)
    ensures var t := Swept(s, now, ttl); var (u, reply) := DoConfirm(s, sess, now, ttl);
      if t.pending.None? then reply == NothingPending && u == t
      else
        && reply == Done && u == t.(pending := None, timer := false, audit := u.audit)
        && u.audit == t.audit + [AuditRow(sess.user, "config.confirm", true)]
  {
    hide Swept;
  }

  lemma {:induction false} SettledStays(s: Sys, base: Config, es: seq<Timed>, env: Env)
    requires Inv(s) && Settled(s, base) && forall i :: 0 <= i < |es| ==> Passive(es[i].event)
    ensures Inv(Run(s, es, env)) && Settled(Run(s, es, env), base)
  {
    hide Inv, Next, Awaiting, Settled, Passive;
    if es != [] {
      var n := |es| - 1;
      var init := es[..n];
      assert forall i :: 0 <= i < n ==> init[i] == es[i];
      SettledStays(s, base, init, env);
      var t := Run(s, init, env);
      NextInv(t, es[n].event, es[n].now, env);
      PassiveStep(t, base, 0, es[n].event, es[n].now, env);
    }
  }

  lemma ConfirmSettles(s: Sys, sess: Session, now: int, ttl: int)
    requires Inv(s) && s.pending.Some? && now < s.pending.value.deadline
    ensures var (u, reply) := DoConfirm(s, sess, now, ttl); reply == Done && Inv(u) && Settled(u, Committed(s))
  {
    SweptInv(s, now, ttl);
    SweepRows(s, now, ttl);
    hide Swept, Find;
  }

  /** What is confirmed in time stays: no time-out brings the configuration before it back. */
  lemma {:induction false} ConfirmedForGood(s: Sys, sess: Session, env: Env, now: int, es: seq<Timed>)
    requires Inv(s) && s.pending.Some? && now < s.pending.value.deadline
    requires forall i :: 0 <= i < |es| ==> Passive(es[i].event)
    ensures var (u, reply) := DoConfirm(s, sess, now, env.ttl); reply == Done && Committed(Run(u, es, env)) == Committed(s)
  {
    ConfirmSettles(s, sess, now, env.ttl);
    hide DoConfirm, Inv, Run, Passive;
    SettledStays(DoConfirm(s, sess, now, env.ttl).0, Committed(s), es, env);
  }

  // ---------- rollback, time-out, restart ----------

  /** The holder gets the snapshot of the n-th predecessor, n from 1 to 50; a pending confirm counts as given even if there is none. */
  lemma {:induction false} RollbackAnswers(s: Sys, sess: Session, n: int, now: int, ttl: int)
    requires Inv(s)
    ensures var t := Swept(s, now, ttl); var (u, reply) := DoRollback(s, sess, n, now, ttl);
      if !Has(t, sess) then reply == NotEditing && u == t
      else if n < 1 || n > 50 then reply == NoRevision && u == t
      else if Find(t.rows, Latest(t) - n).None? then reply == NoRevision && u == Confirmed(t, sess)
      else
        && reply == Done
        && u == Confirmed(t, sess).(candidate := Some(Find(t.rows, Latest(t) - n).value.cfg), dirty := true,
             lock := Some(LockRow(sess.user + "@" + sess.source, now)),
             audit := Confirmed(t, sess).audit + [AuditRow(sess.user, "config.rollback", true)])
  {
    SweptInv(s, now, ttl);
    HasRow(Swept(s, now, ttl), sess);
    RollbackRefused(s, sess, n, now, ttl);
    hide *;
    var t := Swept(s, now, ttl);
    if IsHolder(t, sess) && 1 <= n <= 50 && Find(t.rows, Latest(t) - n).Some? {
      RollbackDone(s, sess, n, now, ttl);
    }
  }

  lemma {:induction false} RollbackRefused(s: Sys, sess: Session, n: int, now: int, ttl: int)
    ensures var t := Swept(s, now, ttl); var (u, reply) := DoRollback(s, sess, n, now, ttl);
      && (!IsHolder(t, sess) ==> reply == NotEditing && u == t)
      && (IsHolder(t, sess) && !(1 <= n <= 50) ==> reply == NoRevision && u == t)
      && (IsHolder(t, sess) && 1 <= n <= 50 && Find(t.rows, Latest(t) - n).None? ==> reply == NoRevision && u == Confirmed(t, sess))
  {
    hide Swept, Find, IsHolder, Refreshed, RefreshReply;
  }

  lemma {:induction false} RollbackDone(s: Sys, sess: Session, n: int, now: int, ttl: int)
    requires var t := Swept(s, now, ttl);
      IsHolder(t, sess) && HoldsRow(t, Holder(sess)) && 1 <= n <= 50 && Find(t.rows, Latest(t) - n).Some?
    ensures var t := Swept(s, now, ttl);
      DoRollback(s, sess, n, now, ttl) ==
        (Confirmed(t, sess).(candidate := Some(Find(t.rows, Latest(t) - n).value.cfg), dirty := true,
           lock := Some(LockRow(Holder(sess), now)),
           audit := Confirmed(t, sess).audit + [AuditRow(sess.user, "config.rollback", true)]), Done)
  {
    hide Swept, Find, IsHolder;
  }

  lemma HasRow(t: Sys, sess: Session)
    requires Inv(t)
    ensures Holder(sess) == sess.user + "@" + sess.source && (Has(t, sess) <==> IsHolder(t, sess))
    ensures Has(t, sess) ==> HoldsRow(t, Holder(sess))
  {
    HolderText(sess);
  }

  /** A pending confirm taken as given. */
  function Confirmed(t: Sys, sess: Session): Sys {
    if t.pending.None? then t
    else t.(pending := None, timer := false, audit := t.audit + [AuditRow(sess.user, "config.confirm", true)])
  }

  /** An overdue confirm: the base is appended once more by the system, and nothing but an open candidate changes besides. */
  lemma TimeoutAnswers(s: Sys, now: int)
    requires Inv(s) && s.pending.Some? && now >= s.pending.value.deadline
    ensures Find(s.rows, s.pending.value.baseRev).Some?
    ensures var base := Find(s.rows, s.pending.value.baseRev).value.cfg; var t := DoTimer(s, now);
      t == s.(rows := s.rows + [Row(s.nextId, base, "system")], nextId := s.nextId + 1, pending := None, timer := false,
              audit := s.audit + [AuditRow("system", "config.rollback-auto", true)],
              candidate := if s.candidate.Some? then Some(base) else None, dirty := s.candidate.Some?)
  {
    FindInWindow(s.rows, s.pending.value.baseRev);
    hide Find;
  }

  /** A restart before the deadline forgets the session, not its lock row, and waits on. */
  lemma RestartAnswers(s: Sys, now: int)
    requires Inv(s) && (s.pending.Some? ==> now < s.pending.value.deadline)
    ensures DoRestart(s, now) == s.(candidate := None, holder := "", dirty := false, timer := s.pending.Some?)
  {
  }

  /** Both at once: the confirm is rolled back first, and the idle session loses the candidate that gave it. */
  lemma DueBeforeIdle(s: Sys, now: int, ttl: int)
    requires Inv(s) && s.pending.Some? && now >= s.pending.value.deadline
    requires s.candidate.Some? && now - s.lock.value.lastActivity > ttl
    ensures var t := Swept(s, now, ttl);
      && t == DoTimer(s, now).(lock := None, candidate := None, holder := "", dirty := false, audit := t.audit)
      && t.audit == s.audit + [AuditRow("system", "config.rollback-auto", true), AuditRow(s.holder, "config.lock-timeout", true)]
  {
    TimeoutAnswers(s, now);
    hide Find;
    var a, b := AuditRow("system", "config.rollback-auto", true), AuditRow(s.holder, "config.lock-timeout", true);
    assert s.audit + [a] + [b] == s.audit + [a, b];
  }
}
