/**
  The configuration transaction engine as a state machine: session lock, candidate, revision
  log and pending "commit confirmed" (internal/config/engine.go over store_sqlite.go).
  A function per operation takes the state, the clock and the arguments to the new state and
  the reply; times are in seconds.
 */
module EngineSpec {
  import opened Common

  datatype User = User(name: string, hash: string, role: string)

  /** The parts of a configuration the engine itself looks at; `rest` is everything else. */
  datatype Config = Config(mgmt: Option<string>, login: Option<seq<User>>, rest: string)

  const EMPTY_CONFIG := Config(None, None, "")

  datatype Row = Row(rev: nat, cfg: Config, author: string)
  datatype LockRow = LockRow(holder: string, lastActivity: int)
  datatype Pending = Pending(baseRev: int, deadline: int, holder: string)
  datatype AuditRow = AuditRow(user: string, action: string, ok: bool)

  datatype Session = Session(user: string, source: string)

  function Holder(sess: Session): string {
    sess.user + "@" + sess.source
  }

  /** What is plugged into the engine: validator, image check and merge. */
  datatype Hooks = Hooks(validate: Config -> bool, images: Config -> bool, merge: (Config, Config) -> Option<Config>)

  /**
    `rows` to `audit` are persistent, the others live in memory; `timer` tells whether the
    confirm timer is armed and `applied` what the data plane was last told to be.
   */
  datatype Sys = Sys(
    rows: seq<Row>, nextId: nat, lock: Option<LockRow>, pending: Option<Pending>, audit: seq<AuditRow>,
    candidate: Option<Config>, holder: string, dirty: bool, timer: bool, applied: Config)

  datatype CommitOpts = CommitOpts(confirmedMinutes: int, allowNoSuperUser: bool)

  datatype Reply =
    | Done | Revision(rev: nat) | Locked | NotEditing | ValidationFailed | ConfirmRequired | ApplyFailed
    | MergeFailed | NoRevision | NothingPending | NotHeld | NoCommitted

  const KEEP: nat := 51

  // ---------- store ----------

  function Latest(s: Sys): nat {
    if s.rows == [] then 0 else s.rows[|s.rows| - 1].rev
  }

  function Committed(s: Sys): Config {
    if s.rows == [] then EMPTY_CONFIG else s.rows[|s.rows| - 1].cfg
  }

  function Find(rows: seq<Row>, rev: int): Option<Row> {
    if rows == [] then None
    else if rows[|rows| - 1].rev == rev then Some(rows[|rows| - 1])
    else Find(rows[..|rows| - 1], rev)
  }

  function Append(s: Sys, cfg: Config, author: string): Sys {
    s.(rows := s.rows + [Row(s.nextId, cfg, author)], nextId := s.nextId + 1)
  }

  function Prune(s: Sys, keep: nat): Sys {
    s.(rows := if |s.rows| > keep then s.rows[|s.rows| - keep..] else s.rows)
  }

  function Audited(s: Sys, user: string, action: string, ok: bool): Sys {
    s.(audit := s.audit + [AuditRow(user, action, ok)])
  }

  predicate HoldsRow(s: Sys, h: string) {
    s.lock.Some? && s.lock.value.holder == h
  }

  /** RefreshLock: touches the row only if it is the caller's. */
  function Refreshed(s: Sys, h: string, now: int): Sys {
    if HoldsRow(s, h) then s.(lock := Some(LockRow(h, now))) else s
  }

  function RefreshReply(s: Sys, h: string): Reply {
    if HoldsRow(s, h) then Done else NotHeld
  }

  // ---------- internal steps ----------

  /** releaseLocked: the row goes only if it belongs to the engine's holder; memory is cleared anyway. */
  function Released(s: Sys): Sys {
    s.(lock := if HoldsRow(s, s.holder) then None else s.lock, candidate := None, holder := "", dirty := false)
  }

  /** doConfirmedRollback. The applier is not called. */
  function RolledBack(s: Sys, cf: Pending): Sys {
    var base := Find(s.rows, cf.baseRev);
    if base.None? then s.(pending := None)
    else
      var t := Append(s, base.value.cfg, "system").(pending := None, timer := false);
      var u := Audited(t, "system", "config.rollback-auto", true);
      if u.candidate.Some? then u.(candidate := Some(base.value.cfg), dirty := true) else u
  }

  predicate Due(s: Sys, now: int) {
    s.pending.Some? && now >= s.pending.value.deadline
  }

  predicate Idle(s: Sys, now: int, ttl: int) {
    s.lock.Some? && now - s.lock.value.lastActivity > ttl
  }

  function SweptConfirm(s: Sys, now: int): Sys {
    if Due(s, now) then RolledBack(s, s.pending.value) else s
  }

  /** sweepLocked: an overdue confirm first, then an idle lock. */
  function Swept(s: Sys, now: int, ttl: int): Sys {
    var t := SweptConfirm(s, now);
    if Idle(t, now, ttl) then Audited(Released(t), t.lock.value.holder, "config.lock-timeout", true) else t
  }

  predicate IsHolder(s: Sys, sess: Session) {
    s.candidate.Some? && s.holder != "" && s.holder == Holder(sess)
  }

  function ConfirmCleared(s: Sys, user: string): Sys {
    Audited(s.(pending := None, timer := false), user, "config.confirm", true)
  }

  // ---------- sessions ----------

  function DoEdit(s0: Sys, sess: Session, now: int, ttl: int): (Sys, Reply) {
    var s := Swept(s0, now, ttl);
    var h := Holder(sess);
    if s.lock.Some? && s.lock.value.holder != h then (s, Locked)
    else if s.lock.Some? && s.candidate.Some? then (Refreshed(s, h, now), RefreshReply(s, h))
    else if s.rows == [] then (s, NoCommitted)
    else (s.(lock := Some(LockRow(h, now)), candidate := Some(Committed(s)), holder := h, dirty := false), Done)
  }

  function DoRelease(s0: Sys, sess: Session, now: int, ttl: int): (Sys, Reply) {
    var s := Swept(s0, now, ttl);
    if !IsHolder(s, sess) then (s, NotEditing) else (Released(s), RefreshReply(s, s.holder))
  }

  function PasswordOf(users: seq<User>, name: string): string {
    if users == [] then ""
    else
      var u := users[|users| - 1];
      if u.name == name && u.hash != "" then u.hash else PasswordOf(users[..|users| - 1], name)
  }

  /** inheritSensitive: a missing password hash is taken from the committed user of that name. */
  function Inherit(cand: Config, committed: Config): Config {
    if cand.login.None? || committed.login.None? then cand
    else
      var us, prior := cand.login.value, committed.login.value;
      cand.(login := Some(seq(|us|, i requires 0 <= i < |us| =>
        if us[i].hash == "" then us[i].(hash := PasswordOf(prior, us[i].name)) else us[i])))
  }

  function DoUpdate(s0: Sys, sess: Session, cfg: Config, now: int, ttl: int): (Sys, Reply) {
    var s := Swept(s0, now, ttl);
    if !IsHolder(s, sess) then (s, NotEditing)
    else
      var cand := if s.rows == [] then cfg else Inherit(cfg, Committed(s));
      (Refreshed(s.(candidate := Some(cand), dirty := true), Holder(sess), now), RefreshReply(s, Holder(sess)))
  }

  function DoMerge(s0: Sys, sess: Session, patch: Config, hooks: Hooks, now: int, ttl: int): (Sys, Reply) {
    var s := Swept(s0, now, ttl);
    if !IsHolder(s, sess) then (s, NotEditing)
    else
      var merged := hooks.merge(s.candidate.value, patch);
      if merged.None? then (s, MergeFailed)
      else (Refreshed(s.(candidate := merged, dirty := true), Holder(sess), now), RefreshReply(s, Holder(sess)))
  }

  // ---------- commit ----------

  predicate HasSuperUser(c: Config) {
    c.login.Some? && exists i :: 0 <= i < |c.login.value| && c.login.value[i].role == "super-user"
  }

  predicate Valid(c: Config, opts: CommitOpts, hooks: Hooks) {
    hooks.validate(c) && (opts.allowNoSuperUser || HasSuperUser(c))
  }

  /** Why a commit of this candidate is refused before the data plane is touched. */
  function Refusal(s: Sys, c: Config, sess: Session, opts: CommitOpts, hooks: Hooks): Option<Reply> {
    if !Valid(c, opts, hooks) then Some(ValidationFailed)
    else if s.rows == [] then Some(NoCommitted)
    else if Committed(s).mgmt != c.mgmt && sess.source != "console" && opts.confirmedMinutes <= 0 then Some(ConfirmRequired)
    else if !hooks.images(c) then Some(ValidationFailed)
    else None
  }

  function Persisted(s: Sys, c: Config, sess: Session, opts: CommitOpts, now: int): Sys {
    var t := Prune(Append(s, c, sess.user), KEEP);
    if opts.confirmedMinutes > 0 then
      t.(pending := Some(Pending(Latest(t) - 1, now + 60 * opts.confirmedMinutes, Holder(sess))), timer := true)
    else t
  }

  /** The state in which Commit examines its candidate: swept, and any confirm taken as given. */
  function BeforeCommit(s0: Sys, sess: Session, now: int, ttl: int): Sys {
    var s := Swept(s0, now, ttl);
    if s.pending.Some? then ConfirmCleared(s, sess.user) else s
  }

  /** Commit of a dirty candidate by its holder. */
  function Decided(s: Sys, sess: Session, opts: CommitOpts, applyOk: bool, hooks: Hooks, now: int): (Sys, Reply)
    requires s.candidate.Some?
  {
    var c := s.candidate.value;
    var refusal := Refusal(s, c, sess, opts, hooks);
    if refusal.Some? then
      (if refusal.value == ValidationFailed then Audited(s, sess.user, "config.commit", false) else s, refusal.value)
    else if !applyOk then (Audited(s, sess.user, "config.commit", false), ApplyFailed)
    else
      var t := Persisted(s.(applied := c), c, sess, opts, now);
      (Audited(t, sess.user, "config.commit", true).(dirty := false), Revision(Latest(t)))
  }

  function DoCommit(s0: Sys, sess: Session, opts: CommitOpts, applyOk: bool, hooks: Hooks, now: int, ttl: int): (Sys, Reply) {
    var s := BeforeCommit(s0, sess, now, ttl);
    if !IsHolder(s, sess) then (s, NotEditing)
    else if !s.dirty then (s, Revision(Latest(s)))
    else Decided(s, sess, opts, applyOk, hooks, now)
  }

  function DoConfirm(s0: Sys, sess: Session, now: int, ttl: int): (Sys, Reply) {
    var s := Swept(s0, now, ttl);
    if s.pending.None? then (s, NothingPending) else (ConfirmCleared(s, sess.user), Done)
  }

  function DoRollback(s0: Sys, sess: Session, n: int, now: int, ttl: int): (Sys, Reply) {
    var s := Swept(s0, now, ttl);
    if !IsHolder(s, sess) then (s, NotEditing)
    else if n < 1 || n > KEEP - 1 then (s, NoRevision)
    else
      var t := if s.pending.Some? then ConfirmCleared(s, sess.user) else s;
      var snap := Find(t.rows, Latest(t) - n);
      if snap.None? then (t, NoRevision)
      else
        var u := Audited(t.(candidate := Some(snap.value.cfg), dirty := true), sess.user, "config.rollback", true);
        (Refreshed(u, Holder(sess), now), RefreshReply(u, Holder(sess)))
  }

  // ---------- timer, restart, crashes ----------

  function DoTimer(s: Sys, now: int): Sys {
    SweptConfirm(s, now)
  }

  /** A new process on the same store. */
  function Boot(s: Sys): Sys {
    var t := s.(candidate := None, holder := "", dirty := false, timer := false);
    if t.rows == [] then Append(t, EMPTY_CONFIG, "system") else t
  }

  function DoRestart(s: Sys, now: int): Sys {
    var t := Boot(s);
    if t.pending.None? then t else if Due(t, now) then RolledBack(t, t.pending.value) else t.(timer := true)
  }

  /** The rollback revision was written, and the process died before clearing the pending row. */
  function HalfRolledBack(s: Sys): Sys
    requires s.pending.Some?
  {
    var base := Find(s.rows, s.pending.value.baseRev);
    if base.None? then s else Append(s, base.value.cfg, "system")
  }

  /** How far a commit got before the process died. */
  datatype CrashPoint = AfterApply | AfterAppend | AfterPrune | AfterPending

  function Interrupted(s: Sys, c: Config, sess: Session, opts: CommitOpts, now: int, point: CrashPoint): Sys {
    var t := s.(applied := c);
    match point
    case AfterApply => t
    case AfterAppend => Append(t, c, sess.user)
    case AfterPrune => Prune(Append(t, c, sess.user), KEEP)
    case AfterPending => Persisted(t, c, sess, opts, now)
  }

  // ---------- runs ----------

  datatype Event =
    | Edit(sess: Session)
    | Release(sess: Session)
    | Update(sess: Session, cfg: Config)
    | Merge(sess: Session, cfg: Config)
    | Look
    | Commit(sess: Session, opts: CommitOpts, applyOk: bool)
    | Confirm(sess: Session)
    | Rollback(sess: Session, n: int)
    | Timer
    | Restart
    | CrashInRollback
    | CrashInCommit(sess: Session, opts: CommitOpts, point: CrashPoint)

  datatype Env = Env(hooks: Hooks, ttl: int)

  /** Look stands for Candidate, Sessions, CommitCheck and CompareCandidate: they only sweep. */
  function Next(s: Sys, e: Event, now: int, env: Env): Sys {
    match e
    case Edit(sess) => DoEdit(s, sess, now, env.ttl).0
    case Release(sess) => DoRelease(s, sess, now, env.ttl).0
    case Update(sess, cfg) => DoUpdate(s, sess, cfg, now, env.ttl).0
    case Merge(sess, cfg) => DoMerge(s, sess, cfg, env.hooks, now, env.ttl).0
    case Look => Swept(s, now, env.ttl)
    case Commit(sess, opts, applyOk) => DoCommit(s, sess, opts, applyOk, env.hooks, now, env.ttl).0
    case Confirm(sess) => DoConfirm(s, sess, now, env.ttl).0
    case Rollback(sess, n) => DoRollback(s, sess, n, now, env.ttl).0
    case Timer => DoTimer(s, now)
    case Restart => DoRestart(s, now)
    case CrashInRollback => if Due(s, now) then DoRestart(HalfRolledBack(s), now) else DoRestart(s, now)
    case CrashInCommit(sess, opts, point) =>
      var t := BeforeCommit(s, sess, now, env.ttl);
      if IsHolder(t, sess) && t.dirty && Refusal(t, t.candidate.value, sess, opts, env.hooks).None? then
        DoRestart(Interrupted(t, t.candidate.value, sess, opts, now, point), now)
      else DoRestart(t, now)
  }

  datatype Timed = At(now: int, event: Event)

  function Run(s: Sys, es: seq<Timed>, env: Env): Sys {
    if es == [] then s else Next(Run(s, es[..|es| - 1], env), es[|es| - 1].event, es[|es| - 1].now, env)
  }

  /** NewEngine on an empty store. */
  const FRESH := Sys([Row(1, EMPTY_CONFIG, "system")], 2, None, None, [], None, "", false, false, EMPTY_CONFIG)
}
