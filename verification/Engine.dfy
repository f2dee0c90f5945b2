/**
  The engine and its store as objects. Every method is proved against the operation of the same
  name in EngineSpec.
 */
module Engine {
  import opened Common
  import opened EngineSpec

  /** internal/config/store_sqlite.go: four tables, one statement per method. */
  class Store {
    var rows: seq<Row>
    var nextId: nat
    var lock: Option<LockRow>
    var pending: Option<Pending>
    var audit: seq<AuditRow>

    constructor ()
      ensures rows == [] && nextId == 1 && lock.None? && pending.None? && audit == []
    {
      rows, nextId, lock, pending, audit := [], 1, None, None, [];
    }

    /** 0 and the empty configuration when there is no revision. */
    method LatestRevision() returns (rev: nat, cfg: Config)
      ensures rev == if rows == [] then 0 else rows[|rows| - 1].rev
      ensures cfg == if rows == [] then EMPTY_CONFIG else rows[|rows| - 1].cfg
    {
      if rows == [] {
        return 0, EMPTY_CONFIG;
      }
      return rows[|rows| - 1].rev, rows[|rows| - 1].cfg;
    }

    method LoadRevision(rev: int) returns (row: Option<Row>)
      ensures row == Find(rows, rev)
    {
      row := None;
      var i := |rows|;
      assert rows[..i] == rows;
      while i > 0
        invariant 0 <= i <= |rows|
        invariant Find(rows, rev) == Find(rows[..i], rev)
      {
        i := i - 1;
        assert rows[..i + 1][..i] == rows[..i];
        if rows[i].rev == rev {
          return Some(rows[i]);
        }
      }
    }

    method AppendRevision(cfg: Config, author: string) returns (rev: nat)
      modifies this`rows, this`nextId
      ensures rows == old(rows) + [Row(old(nextId), cfg, author)]
      ensures rev == old(nextId) && nextId == old(nextId) + 1
    {
      rows := rows + [Row(nextId, cfg, author)];
      rev := nextId;
      nextId := nextId + 1;
    }

    method PruneRevisions(keep: nat)
      modifies this`rows
      ensures rows == if |old(rows)| > keep then old(rows)[|old(rows)| - keep..] else old(rows)
    {
      if |rows| > keep {
        rows := rows[|rows| - keep..];
      }
    }

    method RefreshLock(h: string, now: int) returns (ok: bool)
      modifies this`lock
      ensures ok == (old(lock).Some? && old(lock).value.holder == h)
      ensures lock == if ok then Some(LockRow(h, now)) else old(lock)
    {
      ok := lock.Some? && lock.value.holder == h;
      if ok {
        lock := Some(LockRow(h, now));
      }
    }

    method AcquireLock(h: string, now: int) returns (ok: bool)
      modifies this`lock
      ensures ok == old(lock).None?
      ensures lock == if ok then Some(LockRow(h, now)) else old(lock)
    {
      ok := lock.None?;
      if ok {
        lock := Some(LockRow(h, now));
      }
    }

    method ReleaseLock(h: string) returns (ok: bool)
      modifies this`lock
      ensures ok == (old(lock).Some? && old(lock).value.holder == h)
      ensures lock == if ok then None else old(lock)
    {
      ok := lock.Some? && lock.value.holder == h;
      if ok {
        lock := None;
      }
    }

    method AppendAudit(user: string, action: string, ok: bool)
      modifies this`audit
      ensures audit == old(audit) + [AuditRow(user, action, ok)]
    {
      audit := audit + [AuditRow(user, action, ok)];
    }
  }

  /** internal/config/engine.go. */
  class Engine {
    const store: Store
    const hooks: Hooks
    const ttl: int
    var candidate: Option<Config>
    var holder: string
    var dirty: bool
    var timer: bool
    var applied: Config

    ghost function Abs(): Sys
      reads this, store
    {
      Sys(store.rows, store.nextId, store.lock, store.pending, store.audit, candidate, holder, dirty, timer, applied)
    }

    /** NewEngine: `running` is what the data plane was last told before this process started. */
    constructor (store: Store, hooks: Hooks, ttl: int, running: Config, now: int)
      modifies store
      ensures this.store == store && this.hooks == hooks && this.ttl == ttl
      ensures Abs() == DoRestart(old(Sys(store.rows, store.nextId, store.lock, store.pending, store.audit,
                                         None, "", false, false, running)), now)
    {
      this.store, this.hooks, this.ttl := store, hooks, ttl;
      candidate, holder, dirty, timer, applied := None, "", false, false, running;
      new;
      var rev, _ := store.LatestRevision();
      if store.rows == [] {
        var _ := store.AppendRevision(EMPTY_CONFIG, "system");
      }
      if store.pending.Some? {
        if now >= store.pending.value.deadline {
          DoConfirmedRollback();
        } else {
          timer := true;
        }
      }
    }

    method DoConfirmedRollback()
      requires store.pending.Some?
      modifies this, store
      ensures Abs() == RolledBack(old(Abs()), old(store.pending).value)
    {
      var base := store.LoadRevision(store.pending.value.baseRev);
      if base.None? {
        store.pending := None;
        return;
      }
      var _ := store.AppendRevision(base.value.cfg, "system");
      store.pending := None;
      timer := false;
      store.AppendAudit("system", "config.rollback-auto", true);
      if candidate.Some? {
        candidate := Some(base.value.cfg);
        dirty := true;
      }
    }

    method ReleaseLocked() returns (ok: bool)
      modifies this, store
      ensures Abs() == Released(old(Abs()))
      ensures ok == HoldsRow(old(Abs()), old(holder))
    {
      ok := store.ReleaseLock(holder);
      candidate := None;
      holder := "";
      dirty := false;
    }

    method OnConfirmedTimer(now: int)
      modifies this, store
      ensures Abs() == DoTimer(old(Abs()), now)
    {
      if store.pending.Some? && now >= store.pending.value.deadline {
        DoConfirmedRollback();
      }
    }

    method Sweep(now: int)
      modifies this, store
      ensures Abs() == Swept(old(Abs()), now, ttl)
    {
      OnConfirmedTimer(now);
      if store.lock.Some? && now - store.lock.value.lastActivity > ttl {
        var who := store.lock.value.holder;
        var _ := ReleaseLocked();
        store.AppendAudit(who, "config.lock-timeout", true);
      }
    }

    method ClearConfirmed(user: string)
      modifies this, store
      ensures Abs() == ConfirmCleared(old(Abs()), user)
    {
      store.pending := None;
      timer := false;
      store.AppendAudit(user, "config.confirm", true);
    }

    predicate Editing(sess: Session)
      reads this
    {
      candidate.Some? && holder != "" && holder == Holder(sess)
    }

    method Touch(h: string, now: int) returns (reply: Reply)
      modifies store
      ensures Abs() == Refreshed(old(Abs()), h, now)
      ensures reply == RefreshReply(old(Abs()), h)
    {
      var ok := store.RefreshLock(h, now);
      reply := if ok then Done else NotHeld;
    }

    method Edit(sess: Session, now: int) returns (reply: Reply)
      modifies this, store
      ensures (Abs(), reply) == DoEdit(old(Abs()), sess, now, ttl)
    {
      Sweep(now);
      var h := Holder(sess);
      if store.lock.Some? && store.lock.value.holder != h {
        return Locked;
      }
      if store.lock.Some? && candidate.Some? {
        reply := Touch(h, now);
        return;
      }
      if store.rows == [] {
        return NoCommitted;
      }
      if store.lock.None? {
        var _ := store.AcquireLock(h, now);
      }
      var _, committed := store.LatestRevision();
      candidate := Some(committed);
      holder := h;
      dirty := false;
      reply := Touch(h, now);
    }

    /** Release and Discard. */
    method Release(sess: Session, now: int) returns (reply: Reply)
      modifies this, store
      ensures (Abs(), reply) == DoRelease(old(Abs()), sess, now, ttl)
    {
      Sweep(now);
      if !Editing(sess) {
        return NotEditing;
      }
      var ok := ReleaseLocked();
      reply := if ok then Done else NotHeld;
    }

    method UpdateCandidate(sess: Session, cfg: Config, now: int) returns (reply: Reply)
      modifies this, store
      ensures (Abs(), reply) == DoUpdate(old(Abs()), sess, cfg, now, ttl)
    {
      Sweep(now);
      if !Editing(sess) {
        return NotEditing;
      }
      var cand := cfg;
      if store.rows != [] {
        var _, committed := store.LatestRevision();
        cand := InheritSensitive(cand, committed);
      }
      candidate := Some(cand);
      dirty := true;
      reply := Touch(Holder(sess), now);
    }

    method InheritSensitive(cand: Config, committed: Config) returns (r: Config)
      ensures r == Inherit(cand, committed)
    {
      if cand.login.None? || committed.login.None? {
        return cand;
      }
      var us: seq<User> := [];
      for i := 0 to |cand.login.value|
        invariant |us| == i
        invariant forall j :: 0 <= j < i ==> us[j] == Inherit(cand, committed).login.value[j]
      {
        var u := cand.login.value[i];
        if u.hash == "" {
          u := u.(hash := PasswordOf(committed.login.value, u.name));
        }
        us := us + [u];
      }
      assert us == Inherit(cand, committed).login.value;
      r := cand.(login := Some(us));
    }

    method MergeCandidate(sess: Session, patch: Config, now: int) returns (reply: Reply)
      modifies this, store
      ensures (Abs(), reply) == DoMerge(old(Abs()), sess, patch, hooks, now, ttl)
    {
      Sweep(now);
      if !Editing(sess) {
        return NotEditing;
      }
      var merged := hooks.merge(candidate.value, patch);
      if merged.None? {
        return MergeFailed;
      }
      candidate := merged;
      dirty := true;
      reply := Touch(Holder(sess), now);
    }

    method SuperUserPresent(c: Config) returns (b: bool)
      ensures b == HasSuperUser(c)
    {
      if c.login.Some? {
        for i := 0 to |c.login.value|
          invariant forall j :: 0 <= j < i ==> c.login.value[j].role != "super-user"
        {
          if c.login.value[i].role == "super-user" {
            return true;
          }
        }
      }
      b := false;
    }

    /** `applyOk` is the applier's answer, should it be asked. */
    method Commit(sess: Session, opts: CommitOpts, applyOk: bool, now: int) returns (reply: Reply)
      modifies this, store
      ensures (Abs(), reply) == DoCommit(old(Abs()), sess, opts, applyOk, hooks, now, ttl)
    {
      Sweep(now);
      if store.pending.Some? {
        ClearConfirmed(sess.user);
      }
      assert Abs() == BeforeCommit(old(Abs()), sess, now, ttl);
      if !Editing(sess) {
        return NotEditing;
      }
      var rev, committed := store.LatestRevision();
      if !dirty {
        return Revision(rev);
      }
      reply := Decide(sess, opts, applyOk, now);
    }

    /** The second half of Commit: check, apply, persist. */
    method Decide(sess: Session, opts: CommitOpts, applyOk: bool, now: int) returns (reply: Reply)
      requires candidate.Some?
      modifies this, store
      ensures (Abs(), reply) == Decided(old(Abs()), sess, opts, applyOk, hooks, now)
    {
      var c := candidate.value;
      var refusal := Check(c, sess, opts);
      if refusal.Some? {
        if refusal.value == ValidationFailed {
          store.AppendAudit(sess.user, "config.commit", false);
        }
        return refusal.value;
      }
      if !applyOk {
        store.AppendAudit(sess.user, "config.commit", false);
        return ApplyFailed;
      }
      applied := c;
      var rev := Persist(c, sess, opts, now);
      store.AppendAudit(sess.user, "config.commit", true);
      dirty := false;
      reply := Revision(rev);
    }

    /** The checks of Commit, in order. */
    method Check(c: Config, sess: Session, opts: CommitOpts) returns (refusal: Option<Reply>)
      ensures refusal == Refusal(Abs(), c, sess, opts, hooks)
    {
      var valid := hooks.validate(c);
      if valid && !opts.allowNoSuperUser {
        valid := SuperUserPresent(c);
      }
      if !valid {
        return Some(ValidationFailed);
      }
      if store.rows == [] {
        return Some(NoCommitted);
      }
      var _, committed := store.LatestRevision();
      if committed.mgmt != c.mgmt && sess.source != "console" && opts.confirmedMinutes <= 0 {
        return Some(ConfirmRequired);
      }
      if !hooks.images(c) {
        return Some(ValidationFailed);
      }
      return None;
    }

    method Persist(c: Config, sess: Session, opts: CommitOpts, now: int) returns (rev: nat)
      modifies this, store
      ensures Abs() == Persisted(old(Abs()), c, sess, opts, now)
      ensures rev == Latest(Abs())
    {
      rev := store.AppendRevision(c, sess.user);
      store.PruneRevisions(KEEP);
      if opts.confirmedMinutes > 0 {
        store.pending := Some(Pending(rev - 1, now + 60 * opts.confirmedMinutes, Holder(sess)));
        timer := true;
      }
    }

    method ConfirmCommit(sess: Session, now: int) returns (reply: Reply)
      modifies this, store
      ensures (Abs(), reply) == DoConfirm(old(Abs()), sess, now, ttl)
    {
      Sweep(now);
      if store.pending.None? {
        return NothingPending;
      }
      ClearConfirmed(sess.user);
      reply := Done;
    }

    method RollbackTo(sess: Session, n: int, now: int) returns (reply: Reply)
      modifies this, store
      ensures (Abs(), reply) == DoRollback(old(Abs()), sess, n, now, ttl)
    {
      Sweep(now);
      if !Editing(sess) {
        return NotEditing;
      }
      if n < 1 || n > KEEP - 1 {
        return NoRevision;
      }
      if store.pending.Some? {
        ClearConfirmed(sess.user);
      }
      var rev, _ := store.LatestRevision();
      var snap := store.LoadRevision(rev - n);
      if snap.None? {
        return NoRevision;
      }
      candidate := Some(snap.value.cfg);
      dirty := true;
      store.AppendAudit(sess.user, "config.rollback", true);
      reply := Touch(Holder(sess), now);
    }
  }
}
