/**
  Account lockout (internal/aaa/service.go): failed logins are counted per user, at the threshold
  the account is locked for a while, and expired locks are swept away at the next call.
 */
module Lockout {
  import opened Common
  import opened Ordering

  const MINUTE: int := 60_000_000_000
  const DEFAULT_THRESHOLD := 5
  const DEFAULT_MINUTES := 10

  /** Times are nanoseconds since Go's zero time, so 0 is a lock that was never set. */
  datatype Lock = Lock(failures: int, lockedUntil: int)

  type Locks = map<string, Lock>

  /** The password policy of the committed configuration; non-positive values stand for the defaults. */
  datatype Policy = Policy(threshold: int, minutes: int)

  function Threshold(p: Option<Policy>): (n: int)
    ensures n > 0
  {
    if p.Some? && p.value.threshold > 0 then p.value.threshold else DEFAULT_THRESHOLD
  }

  function LockTime(p: Option<Policy>): (d: int)
    ensures d > 0
  {
    (if p.Some? && p.value.minutes > 0 then p.value.minutes else DEFAULT_MINUTES) * MINUTE
  }

  /** What the committed configuration and the password check say about an attempt. */
  datatype Finding = ConfigUnreadable | NoUsers | UnknownUser | NoPasswordSet | WrongPassword | RightPassword

  datatype Reply = Locked(until: int) | Unavailable | Uninitialised | BadCredentials | PasswordMissing | Granted

  /**
    A call on the service: a login, or another call that sweeps. A login reads the clock twice,
    for the sweep and for itself, and the policy when it records a failure.
   */
  datatype Event =
    | Login(user: string, finding: Finding, policy: Option<Policy>, sweepAt: int, now: int)
    | Other(sweepAt: int)

  // ---------- one call ----------

  predicate Expired(k: Lock, now: int) {
    k.lockedUntil <= now && k.lockedUntil != 0
  }

  function Swept(locks: Locks, now: int): Locks {
    map u | u in locks && !Expired(locks[u], now) :: locks[u]
  }

  function Recorded(locks: Locks, user: string, now: int, policy: Option<Policy>): Locks {
    var k := if user in locks then locks[user] else Lock(0, 0);
    locks[user := if k.failures + 1 >= Threshold(policy) then Lock(0, now + LockTime(policy)) else Lock(k.failures + 1, k.lockedUntil)]
  }

  function LoginReply(locks: Locks, e: Event): Reply
    requires e.Login?
  {
    var swept := Swept(locks, e.sweepAt);
    if e.user in swept && e.now < swept[e.user].lockedUntil then Locked(swept[e.user].lockedUntil)
    else
      match e.finding
      case ConfigUnreadable => Unavailable
      case NoUsers => Uninitialised
      case UnknownUser => BadCredentials
      case NoPasswordSet => PasswordMissing
      case WrongPassword => BadCredentials
      case RightPassword => Granted
  }

  function After(locks: Locks, e: Event): Locks {
    var swept := Swept(locks, e.sweepAt);
    if e.Other? then swept
    else
      match LoginReply(locks, e)
      case BadCredentials => Recorded(swept, e.user, e.now, e.policy)
      case Granted => swept - {e.user}
      case _ => swept
  }

  class Service {
    var lockouts: Locks

    constructor ()
      ensures lockouts == map[]
    {
      lockouts := map[];
    }

    method SweepLocked(now: int)
      modifies this
      ensures lockouts == Swept(old(lockouts), now)
    {
      var rest := lockouts.Keys;
      ghost var was := lockouts;
      while rest != {}
        invariant rest <= was.Keys
        invariant lockouts == map u | u in was && (u in rest || !Expired(was[u], now)) :: was[u]
        decreases rest
      {
        var u := AnyOf(rest);
        rest := rest - {u};
        if !(now < lockouts[u].lockedUntil) && lockouts[u].lockedUntil != 0 {
          lockouts := lockouts - {u};
        }
      }
    }

    method RecordFailure(user: string, now: int, policy: Option<Policy>)
      modifies this
      ensures lockouts == Recorded(old(lockouts), user, now, policy)
    {
      if user !in lockouts {
        lockouts := lockouts[user := Lock(0, 0)];
      }
      var k := lockouts[user];
      k := k.(failures := k.failures + 1);
      var threshold, minutes := DEFAULT_THRESHOLD, DEFAULT_MINUTES;
      if policy.Some? {
        if policy.value.threshold > 0 {
          threshold := policy.value.threshold;
        }
        if policy.value.minutes > 0 {
          minutes := policy.value.minutes;
        }
      }
      if k.failures >= threshold {
        k := Lock(0, now + minutes * MINUTE);
      }
      lockouts := lockouts[user := k];
    }

    method Login(user: string, finding: Finding, policy: Option<Policy>, sweepAt: int, now: int) returns (reply: Reply)
      modifies this
      ensures reply == LoginReply(old(lockouts), Event.Login(user, finding, policy, sweepAt, now))
      ensures lockouts == After(old(lockouts), Event.Login(user, finding, policy, sweepAt, now))
    {
      SweepLocked(sweepAt);
      if user in lockouts && now < lockouts[user].lockedUntil {
        return Locked(lockouts[user].lockedUntil);
      }
      match finding
      case ConfigUnreadable => reply := Unavailable;
      case NoUsers => reply := Uninitialised;
      case UnknownUser =>
        RecordFailure(user, now, policy);
        reply := BadCredentials;
      case NoPasswordSet => reply := PasswordMissing;
      case WrongPassword =>
        RecordFailure(user, now, policy);
        reply := BadCredentials;
      case RightPassword =>
        lockouts := lockouts - {user};
        reply := Granted;
    }
  }

  // ---------- runs ----------

  function RunLocks(locks: Locks, es: seq<Event>): Locks
    decreases |es|
  {
    if es == [] then locks else RunLocks(After(locks, es[0]), es[1..])
  }

  /** The failed logins of a user that the service counts. */
  function Counted(locks: Locks, es: seq<Event>, user: string): nat
    decreases |es|
  {
    if es == [] then 0
    else
      (if es[0].Login? && es[0].user == user && LoginReply(locks, es[0]) == BadCredentials then 1 else 0) +
      Counted(After(locks, es[0]), es[1..], user)
  }

  /** A counted failure whose lock ran out between the two clock readings of the call. */
  predicate IsRaced(locks: Locks, e: Event, user: string) {
    && e.Login? && e.user == user && LoginReply(locks, e) == BadCredentials
    && user in locks && e.sweepAt < locks[user].lockedUntil <= e.now
  }

  function Raced(locks: Locks, es: seq<Event>, user: string): nat
    decreases |es|
  {
    if es == [] then 0
    else (if IsRaced(locks, es[0], user) then 1 else 0) + Raced(After(locks, es[0]), es[1..], user)
  }

  predicate NoSuccess(locks: Locks, es: seq<Event>, user: string)
    decreases |es|
  {
    es != [] ==>
      && !(es[0].Login? && es[0].user == user && LoginReply(locks, es[0]) == Granted)
      && NoSuccess(After(locks, es[0]), es[1..], user)
  }

  function LastRead(e: Event): int {
    if e.Login? then e.now else e.sweepAt
  }

  /** A monotone clock between `start` and `end`. */
  predicate Clocked(es: seq<Event>, start: int, end: int)
    decreases |es|
  {
    if es == [] then start <= end
    else start <= es[0].sweepAt <= LastRead(es[0]) <= end && Clocked(es[1..], LastRead(es[0]), end)
  }

  predicate FixedPolicy(es: seq<Event>, n: int, m: int) {
    forall i :: 0 <= i < |es| && es[i].Login? ==> Threshold(es[i].policy) == n && LockTime(es[i].policy) == m
  }

  /** Counters are below the threshold; locks that are not zero were set in positive time. */
  predicate Sane(locks: Locks, n: int) {
    forall u :: u in locks ==> 0 <= locks[u].failures < n && locks[u].lockedUntil >= 0
  }

  lemma SaneAfter(locks: Locks, e: Event, n: int)
    requires n > 0 && Sane(locks, n) && (e.Login? ==> Threshold(e.policy) == n && e.now >= 0)
    ensures Sane(After(locks, e), n)
  {
  }

  /** With a fixed policy, counters stay below the threshold in every run from the start. */
  lemma {:induction false} SaneRun(locks: Locks, es: seq<Event>, n: int, m: int, start: int, end: int)
    requires n > 0 && Sane(locks, n) && FixedPolicy(es, n, m) && Clocked(es, start, end) && start >= 0
    ensures Sane(RunLocks(locks, es), n)
    decreases |es|
  {
    if es != [] {
      SaneAfter(locks, es[0], n);
      SaneRun(After(locks, es[0]), es[1..], n, m, LastRead(es[0]), end);
    }
  }

  // ---------- the bound ----------

  /** How many failures a user has left until `end`: a full round of `n` per lock time that fits. */
  function Budget(locks: Locks, user: string, n: int, m: int, now: int, end: int): int
    requires m > 0
  {
    if user !in locks || Expired(locks[user], now) then n * ((end - now) / m + 1)
    else if now < locks[user].lockedUntil then
      if end < locks[user].lockedUntil then 0 else n * ((end - locks[user].lockedUntil) / m + 1)
    else n * ((end - now) / m + 1) - locks[user].failures
  }

  lemma RoundsShrink(n: int, m: int, a: int, b: int)
    requires n > 0 && m > 0 && 0 <= a <= b
    ensures 0 <= n * (a / m + 1) <= n * (b / m + 1)
    ensures n <= n * (a / m + 1)
  {
    DivisionGrows(a, b, m);
    MultiplyGrows(n, a / m + 1, b / m + 1);
    MultiplyGrows(n, 1, a / m + 1);
  }

  lemma DivisionGrows(a: int, b: int, m: int)
    requires m > 0 && 0 <= a <= b
    ensures 0 <= a / m <= b / m
  {
    if a / m > b / m {
      MultiplyGrows(m, b / m + 1, a / m);
    }
  }

  lemma MultiplyGrows(n: int, a: int, b: int)
    requires n > 0 && a <= b
    ensures n * a <= n * b
  {
  }

  lemma OneRoundLess(n: int, m: int, d: int)
    requires n > 0 && m > 0 && d >= m
    ensures n * ((d - m) / m + 1) == n * (d / m + 1) - n
  {
    OneLess(m, d);
    TimesOneLess(n, d / m + 1);
  }

  lemma OneLess(m: int, d: int)
    requires m > 0 && d >= m
    ensures (d - m) / m == d / m - 1
  {
    var q, r := (d - m) / m, (d - m) % m;
    assert d - m == m * q + r;
    TimesOneLess(m, q + 1);
    var p, t := d / m, d % m;
    assert d == m * p + t;
    if p < q + 1 {
      MultiplyGrows(m, p, q);
    } else if p > q + 1 {
      MultiplyGrows(m, q + 2, p);
      TimesOneLess(m, q + 2);
    }
  }

  lemma TimesOneLess(n: int, q: int)
    ensures n * (q - 1) == n * q - n
  {
  }

  lemma BudgetShrinks(locks: Locks, user: string, n: int, m: int, now: int, later: int, end: int)
    requires n > 0 && m > 0 && 0 <= now <= later <= end && Sane(locks, n)
    ensures 0 <= Budget(locks, user, n, m, later, end) <= Budget(locks, user, n, m, now, end) <= n * ((end - now) / m + 1)
  {
    RoundsShrink(n, m, end - later, end - now);
    if user in locks && now < locks[user].lockedUntil <= end {
      RoundsShrink(n, m, end - locks[user].lockedUntil, end - now);
      if locks[user].lockedUntil <= later {
        RoundsShrink(n, m, end - later, end - locks[user].lockedUntil);
      }
    }
  }

  lemma SweepKeepsBudget(locks: Locks, user: string, n: int, m: int, now: int, end: int)
    requires m > 0
    ensures Budget(Swept(locks, now), user, n, m, now, end) == Budget(locks, user, n, m, now, end)
  {
  }

  /** A failure that is counted costs one unit, unless its lock ran out during the call. */
  lemma FailureCosts(swept: Locks, user: string, policy: Option<Policy>, n: int, m: int, now: int, end: int)
    requires n == Threshold(policy) && m == LockTime(policy) && 0 <= now <= end && Sane(swept, n)
    requires user in swept ==> swept[user].lockedUntil <= now
    requires user in swept && swept[user].lockedUntil != 0 ==> swept[user].failures == 0 || n > 1
    ensures var raced := user in swept && swept[user].lockedUntil != 0;
      Budget(Recorded(swept, user, now, policy), user, n, m, now, end) + 1 <=
        Budget(swept, user, n, m, now, end) + if raced then 1 else 0
  {
    RoundsShrink(n, m, end - now, end - now);
    var k := if user in swept then swept[user] else Lock(0, 0);
    if k.failures + 1 >= n && end >= now + m {
      OneRoundLess(n, m, end - now);
    }
  }

  lemma EventBudget(locks: Locks, e: Event, user: string, n: int, m: int, start: int, end: int)
    requires n > 0 && m > 0 && Sane(locks, n) && 0 <= start <= e.sweepAt <= LastRead(e) <= end
    requires e.Login? ==> Threshold(e.policy) == n && LockTime(e.policy) == m
    requires !(e.Login? && e.user == user && LoginReply(locks, e) == Granted)
    ensures var counted := e.Login? && e.user == user && LoginReply(locks, e) == BadCredentials;
      Budget(After(locks, e), user, n, m, LastRead(e), end) + (if counted then 1 else 0) <=
        Budget(locks, user, n, m, start, end) + if IsRaced(locks, e, user) then 1 else 0
  {
    var swept := Swept(locks, e.sweepAt);
    BudgetShrinks(locks, user, n, m, start, e.sweepAt, end);
    SweepKeepsBudget(locks, user, n, m, e.sweepAt, end);
    BudgetShrinks(swept, user, n, m, e.sweepAt, LastRead(e), end);
    if e.Login? && e.user == user && LoginReply(locks, e) == BadCredentials {
      FailureCosts(swept, user, e.policy, n, m, e.now, end);
    } else {
      SameForOthers(locks, e, user);
    }
  }

  lemma SameForOthers(locks: Locks, e: Event, user: string)
    requires !(e.Login? && e.user == user && LoginReply(locks, e) in {BadCredentials, Granted})
    ensures var a, s := After(locks, e), Swept(locks, e.sweepAt);
      (user in a <==> user in s) && (user in a ==> a[user] == s[user])
  {
  }

  lemma {:induction false} CountedWithinBudget(locks: Locks, es: seq<Event>, user: string, n: int, m: int, start: int, end: int)
    requires n > 0 && m > 0 && Sane(locks, n) && FixedPolicy(es, n, m) && Clocked(es, start, end) && start >= 0
    requires NoSuccess(locks, es, user)
    ensures Counted(locks, es, user) <= Budget(locks, user, n, m, start, end) + Raced(locks, es, user)
    decreases |es|
  {
    if es == [] {
      BudgetShrinks(locks, user, n, m, start, start, end);
    } else {
      ClockedEnds(es, start, end);
      EventBudget(locks, es[0], user, n, m, start, end);
      SaneAfter(locks, es[0], n);
      CountedWithinBudget(After(locks, es[0]), es[1..], user, n, m, LastRead(es[0]), end);
    }
  }

  lemma {:induction false} ClockedEnds(es: seq<Event>, start: int, end: int)
    requires Clocked(es, start, end)
    ensures start <= end
    decreases |es|
  {
    if es != [] {
      ClockedEnds(es[1..], LastRead(es[0]), end);
    }
  }

  /**
    In a window without a successful login of the user, at most n failures are counted per lock
    time begun, plus those whose lock ran out between the two clock readings of their call.
   */
  lemma {:induction false} FailuresBounded(locks: Locks, es: seq<Event>, user: string, n: int, m: int, start: int, end: int)
    requires n > 0 && m > 0 && Sane(locks, n) && FixedPolicy(es, n, m) && Clocked(es, start, end) && start >= 0
    requires NoSuccess(locks, es, user)
    ensures Counted(locks, es, user) <= n * ((end - start) / m + 1) + Raced(locks, es, user)
  {
    CountedWithinBudget(locks, es, user, n, m, start, end);
    ClockedEnds(es, start, end);
    BudgetShrinks(locks, user, n, m, start, start, end);
  }

  /** With one clock reading per call there are no such failures. */
  lemma {:induction false} OneReadingNoRace(locks: Locks, es: seq<Event>, user: string)
    requires forall i :: 0 <= i < |es| && es[i].Login? ==> es[i].sweepAt == es[i].now
    ensures Raced(locks, es, user) == 0
    decreases |es|
  {
    if es != [] {
      OneReadingNoRace(After(locks, es[0]), es[1..], user);
    }
  }

  /** While an account is locked, its logins are refused and nothing is counted, right password or not. */
  lemma {:induction false} LockHolds(locks: Locks, es: seq<Event>, user: string, start: int, end: int)
    requires user in locks && end < locks[user].lockedUntil && Clocked(es, start, end)
    ensures Counted(locks, es, user) == 0 && NoSuccess(locks, es, user)
    ensures user in RunLocks(locks, es) && RunLocks(locks, es)[user] == locks[user]
    decreases |es|
  {
    if es != [] {
      ClockedEnds(es[1..], LastRead(es[0]), end);
      SameForOthers(locks, es[0], user);
      LockHolds(After(locks, es[0]), es[1..], user, LastRead(es[0]), end);
    }
  }

  /**
    The bound without the last term does not hold: with threshold 2, a failure that arrives as
    its lock runs out is forgotten by the next sweep, and five are counted in one lock time.
   */
  lemma ForgottenFailure(user: string, policy: Policy)
    requires policy == Policy(2, 1)
    ensures var p := Some(policy);
      var fail := (a: int, t: int) => Login(user, WrongPassword, p, a, t);
      var es := [fail(0, 0), fail(0, 0), fail(MINUTE - 1, MINUTE), fail(MINUTE, MINUTE), fail(MINUTE, MINUTE)];
      && Clocked(es, 0, MINUTE) && FixedPolicy(es, 2, MINUTE) && NoSuccess(map[], es, user)
      && Counted(map[], es, user) == 5 == 2 * ((MINUTE - 0) / MINUTE + 1) + 1
  {
    var p := Some(policy);
    var f := (a: int, t: int) => Login(user, WrongPassword, p, a, t);
    var es := [f(0, 0), f(0, 0), f(MINUTE - 1, MINUTE), f(MINUTE, MINUTE), f(MINUTE, MINUTE)];
    var l0: Locks := map[];
    var l1: Locks := map[user := Lock(1, 0)];
    var l2: Locks := map[user := Lock(0, MINUTE)];
    var l3: Locks := map[user := Lock(1, MINUTE)];
    assert After(l0, es[0]) == l1;
    assert After(l1, es[1]) == l2;
    assert After(l2, es[2]) == l3;
    assert After(l3, es[3]) == l1;
    RunStep(l1, es, 4, user);
    RunStep(l3, es, 3, user);
    RunStep(l2, es, 2, user);
    RunStep(l1, es, 1, user);
    RunStep(l0, es, 0, user);
    assert es[0..] == es;
  }

  lemma {:induction false} RunStep(locks: Locks, es: seq<Event>, i: nat, user: string)
    requires i < |es|
    ensures var rest, next := es[i + 1..], After(locks, es[i]);
      && Counted(locks, es[i..], user) == Counted(next, rest, user) +
         (if es[i].Login? && es[i].user == user && LoginReply(locks, es[i]) == BadCredentials then 1 else 0)
      && (NoSuccess(next, rest, user) && !(es[i].Login? && es[i].user == user && LoginReply(locks, es[i]) == Granted)
          ==> NoSuccess(locks, es[i..], user))
      && forall start, end :: start <= es[i].sweepAt <= LastRead(es[i]) <= end && Clocked(rest, LastRead(es[i]), end)
           ==> Clocked(es[i..], start, end)
  {
    assert es[i..][1..] == es[i + 1..];
  }

  // ---------- what a login answers ----------

  /** Without a policy: five failures, ten minutes. */
  lemma DefaultPolicy(p: Option<Policy>)
    ensures Threshold(p) == if p.Some? && p.value.threshold > 0 then p.value.threshold else 5
    ensures LockTime(p) == (if p.Some? && p.value.minutes > 0 then p.value.minutes else 10) * 60 * 1_000_000_000
  {
    var m := if p.Some? && p.value.minutes > 0 then p.value.minutes else 10;
    assert m * 60 * 1_000_000_000 == m * 60_000_000_000;
  }

  /** Locked out exactly until the lock runs out; otherwise the right password is granted and the failures forgotten. */
  lemma LoginAnswers(locks: Locks, user: string, finding: Finding, policy: Option<Policy>, sweepAt: int, now: int)
    requires sweepAt <= now
    ensures var e := Event.Login(user, finding, policy, sweepAt, now);
      var (reply, after, swept) := (LoginReply(locks, e), After(locks, e), Swept(locks, sweepAt));
      if user in locks && now < locks[user].lockedUntil then
        reply == Locked(locks[user].lockedUntil) && after == swept && user in after && after[user] == locks[user]
      else
        && !reply.Locked?
        && (reply == Granted <==> finding == RightPassword)
        && (reply == BadCredentials <==> finding == UnknownUser || finding == WrongPassword)
        && (reply == Unavailable <==> finding == ConfigUnreadable)
        && (reply == Uninitialised <==> finding == NoUsers)
        && (reply == PasswordMissing <==> finding == NoPasswordSet)
        && (reply == Granted ==> user !in after)
        && (reply != BadCredentials ==> after == swept - (if reply == Granted then {user} else {}))
        && forall u :: u != user ==> (u in after <==> u in swept) && (u in after ==> after[u] == swept[u])
  {
  }

  /** The failures counted so far; none if the user is unknown to the service. */
  predicate HasFailed(locks: Locks, user: string, k: nat) {
    if user in locks then locks[user] == Lock(k, 0) else k == 0
  }

  /** Below the threshold failures only add up. */
  lemma {:induction false} FailuresAddUp(locks: Locks, es: seq<Event>, user: string, n: int, m: int, k: nat)
    requires FixedPolicy(es, n, m) && NoSuccess(locks, es, user) && HasFailed(locks, user, k)
    requires k + Counted(locks, es, user) < n
    ensures HasFailed(RunLocks(locks, es), user, k + Counted(locks, es, user))
    decreases |es|
  {
    if es != [] {
      var counts := es[0].Login? && es[0].user == user && LoginReply(locks, es[0]) == BadCredentials;
      assert FixedPolicy(es[1..], n, m);
      FailuresAddUp(After(locks, es[0]), es[1..], user, n, m, if counts then k + 1 else k);
    }
  }

  /** Nobody is locked out before the n-th failure since the last success or lock, and the n-th locks for the whole time. */
  lemma {:induction false} LockedAtThreshold(locks: Locks, es: seq<Event>, e: Event, user: string, n: int, m: int)
    requires FixedPolicy(es + [e], n, m) && NoSuccess(locks, es, user) && user !in locks
    requires Counted(locks, es, user) < n
    requires e.Login? && e.user == user && e.now >= 0 && (e.finding == WrongPassword || e.finding == UnknownUser)
    ensures var before, k := RunLocks(locks, es), Counted(locks, es, user) + 1;
      && LoginReply(before, e) == BadCredentials
      && user in After(before, e) && After(before, e)[user] == if k == n then Lock(0, e.now + m) else Lock(k, 0)
  {
    assert FixedPolicy(es, n, m) by {
      assert forall i :: 0 <= i < |es| ==> (es + [e])[i] == es[i];
    }
    assert (es + [e])[|es|] == e;
    FailuresAddUp(locks, es, user, n, m, 0);
  }
}
