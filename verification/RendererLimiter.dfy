/** The renderer's unlock limiter: the count is not reset when a lockout ends, so every wrong secret
    from the eighth on locks again. Times are milliseconds of a monotone clock. */
module RendererLimiter {
  import opened Common
  import opened UnlockAttempts

  const LOCKOUT_MS := 30_000
  const MAX_ATTEMPTS := 8

  datatype Limiter = Limiter(failedAttempts: nat, lockedUntil: nat)

  const FRESH := Limiter(0, 0)

  // ---- src/desktop/unlock-rate-limit.ts

  predicate Blocked(s: Limiter, now: nat) {
    now < s.lockedUntil
  }

  function SecondsLeft(s: Limiter, now: nat): nat
    requires Blocked(s, now)
  {
    (s.lockedUntil - now + 999) / 1000
  }

  function Failed(s: Limiter, now: nat): Limiter {
    var n := s.failedAttempts + 1;
    Limiter(n, if n >= MAX_ATTEMPTS then now + LOCKOUT_MS else s.lockedUntil)
  }

  function Attempted(s: Limiter, a: Attempt): Limiter {
    if Blocked(s, a.checkedAt) then s else if a.correct then FRESH else Failed(s, a.recordedAt)
  }

  /** The module's two variables. */
  class UnlockRateLimit {
    var failedAttempts: nat
    var lockedUntil: nat

    function State(): Limiter
      reads this
    {
      Limiter(failedAttempts, lockedUntil)
    }

    constructor ()
      ensures State() == FRESH
    {
      failedAttempts, lockedUntil := 0, 0;
    }

    method CheckUnlockAttempt(now: nat) returns (seconds: Option<nat>)
      ensures seconds == if Blocked(State(), now) then Some(SecondsLeft(State(), now)) else None
    {
      var remainingMs := lockedUntil - now;
      if remainingMs <= 0 { return None; }
      seconds := Some((remainingMs + 999) / 1000);
    }

    method RecordUnlockFailure(now: nat)
      modifies this
      ensures State() == Failed(old(State()), now)
    {
      failedAttempts := failedAttempts + 1;
      if failedAttempts >= MAX_ATTEMPTS { lockedUntil := now + LOCKOUT_MS; }
    }

    method ResetUnlockRateLimit()
      modifies this
      ensures State() == FRESH
    {
      failedAttempts := 0;
      lockedUntil := 0;
    }

    /** How the vault uses the three: `verified` says whether the secret was looked at. */
    method Unlock(a: Attempt) returns (verified: bool)
      modifies this
      ensures verified == !Blocked(old(State()), a.checkedAt)
      ensures State() == Attempted(old(State()), a)
    {
      var blocked := CheckUnlockAttempt(a.checkedAt);
      if blocked.Some? { return false; }
      if a.correct { ResetUnlockRateLimit(); } else { RecordUnlockFailure(a.recordedAt); }
      verified := true;
    }
  }

  // ---- runs

  function After(s: Limiter, attempts: seq<Attempt>): Limiter
    decreases |attempts|
  {
    if attempts == [] then s else After(Attempted(s, attempts[0]), attempts[1..])
  }

  function Verified(s: Limiter, attempts: seq<Attempt>): nat
    decreases |attempts|
  {
    if attempts == [] then 0
    else (if Blocked(s, attempts[0].checkedAt) then 0 else 1) + Verified(Attempted(s, attempts[0]), attempts[1..])
  }

  predicate Sound(s: Limiter) {
    s.failedAttempts < MAX_ATTEMPTS ==> s.lockedUntil == 0
  }

  lemma {:induction false} AlwaysSound(s: Limiter, attempts: seq<Attempt>)
    requires Sound(s)
    ensures Sound(After(s, attempts))
    decreases |attempts|
  {
    if attempts != [] { AlwaysSound(Attempted(s, attempts[0]), attempts[1..]); }
  }

  /** What the state still allows between `start` and `end`: after eight failures, one for each lockout. */
  function Allowance(s: Limiter, start: nat, end: nat): nat {
    var v := Max(start, s.lockedUntil);
    if end < v then 0
    else (if s.failedAttempts < MAX_ATTEMPTS then MAX_ATTEMPTS - s.failedAttempts else 1) + (end - v) / LOCKOUT_MS
  }

  lemma OneAttempt(s: Limiter, a: Attempt, start: nat, end: nat)
    requires Sound(s) && !a.correct && start <= a.checkedAt <= a.recordedAt && a.checkedAt <= end
    ensures Sound(Attempted(s, a))
    ensures (if Blocked(s, a.checkedAt) then 0 else 1) + Allowance(Attempted(s, a), a.recordedAt, end) <= Allowance(s, start, end)
  {
  }

  lemma {:induction false} VerifiedWithinAllowance(s: Limiter, attempts: seq<Attempt>, start: nat, end: nat)
    requires Sound(s) && InOrder(attempts, start) && NoneCorrect(attempts) && CheckedBy(attempts, end)
    ensures Verified(s, attempts) <= Allowance(s, start, end)
    decreases |attempts|
  {
    if attempts != [] {
      var a := attempts[0];
      OneAttempt(s, a, start, end);
      Tail(attempts, end);
      VerifiedWithinAllowance(Attempted(s, a), attempts[1..], a.recordedAt, end);
    }
  }

  /** In any run, however it began, a stretch without a right secret that lasts `length` gets at
      most `8 + length / 30 s` secrets verified. */
  lemma AttemptsAreBounded(before: seq<Attempt>, stretch: seq<Attempt>, start: nat, length: nat)
    requires InOrder(stretch, start) && NoneCorrect(stretch) && CheckedBy(stretch, start + length)
    ensures Verified(After(FRESH, before), stretch) <= 8 + length / 30_000
  {
    var s := After(FRESH, before);
    AlwaysSound(FRESH, before);
    VerifiedWithinAllowance(s, stretch, start, start + length);
    var v := Max(start, s.lockedUntil);
    if v <= start + length { assert (start + length - v) / LOCKOUT_MS <= length / LOCKOUT_MS; }
  }

  // ---- what a right secret restores

  /** After any run, a right secret that is looked at restores all eight attempts: the next eight
      wrong secrets are looked at whenever they come, and after the eighth none for thirty seconds. */
  lemma RightSecretRestoresAll(before: seq<Attempt>, right: Attempt, wrong: seq<Attempt>, now: nat)
    requires right.correct && !Blocked(After(FRESH, before), right.checkedAt)
    requires InOrder(wrong, right.recordedAt) && NoneCorrect(wrong)
    ensures |wrong| <= 8 ==> Verified(After(FRESH, before + [right]), wrong) == |wrong|
    ensures |wrong| == 8 && now >= wrong[7].recordedAt ==>
      (Blocked(After(FRESH, before + [right] + wrong), now) <==> now < wrong[7].recordedAt + 30_000)
  {
    AfterAppend(FRESH, before, [right]);
    AfterAppend(FRESH, before + [right], wrong);
    assert After(FRESH, before + [right]) == FRESH;
    if |wrong| <= 8 { WrongOnes(FRESH, wrong, right.recordedAt); }
  }

  lemma {:induction false} AfterAppend(s: Limiter, first: seq<Attempt>, more: seq<Attempt>)
    ensures After(s, first + more) == After(After(s, first), more)
    decreases |first|
  {
    if first == [] {
      assert [] + more == more;
    } else {
      assert (first + more)[1..] == first[1..] + more;
      AfterAppend(Attempted(s, first[0]), first[1..], more);
    }
  }

  lemma {:induction false} WrongOnes(s: Limiter, wrong: seq<Attempt>, start: nat)
    requires s.lockedUntil == 0 && InOrder(wrong, start) && NoneCorrect(wrong) && s.failedAttempts + |wrong| <= 8
    ensures Verified(s, wrong) == |wrong|
    ensures After(s, wrong) == if wrong == [] then s
      else Limiter(s.failedAttempts + |wrong|, if s.failedAttempts + |wrong| == 8 then wrong[|wrong| - 1].recordedAt + 30_000 else 0)
    decreases |wrong|
  {
    if |wrong| > 1 {
      forall i | 0 <= i < |wrong[1..]| ensures !wrong[1..][i].correct { assert wrong[1..][i] == wrong[i + 1]; }
      WrongOnes(Attempted(s, wrong[0]), wrong[1..], wrong[0].recordedAt);
    }
  }

  // ---- the bound is reached

  /** Eight failures at once, then one at the end of every lockout. */
  function Persistent(t: nat, failures: nat, lockouts: nat): seq<Attempt>
    decreases lockouts + MAX_ATTEMPTS - failures
    requires failures <= MAX_ATTEMPTS
  {
    if failures < MAX_ATTEMPTS then [Attempt(t, t, false)] + Persistent(t, failures + 1, lockouts)
    else if lockouts == 0 then []
    else [Attempt(t + LOCKOUT_MS, t + LOCKOUT_MS, false)] + Persistent(t + LOCKOUT_MS, failures, lockouts - 1)
  }

  lemma {:induction false} PersistentVerified(s: Limiter, t: nat, failures: nat, lockouts: nat, end: nat)
    requires failures <= MAX_ATTEMPTS && end == t + lockouts * LOCKOUT_MS
    requires if failures < MAX_ATTEMPTS then s == Limiter(failures, 0) else s.failedAttempts >= MAX_ATTEMPTS && s.lockedUntil == t + LOCKOUT_MS
    ensures var run := Persistent(t, failures, lockouts);
      InOrder(run, t) && NoneCorrect(run) && CheckedBy(run, end) && Verified(s, run) == MAX_ATTEMPTS - failures + lockouts
    decreases lockouts + MAX_ATTEMPTS - failures
  {
    var run := Persistent(t, failures, lockouts);
    if failures < MAX_ATTEMPTS {
      PersistentVerified(Attempted(s, run[0]), t, failures + 1, lockouts, end);
    } else if lockouts > 0 {
      PersistentVerified(Attempted(s, run[0]), t + LOCKOUT_MS, failures, lockouts - 1, end);
    }
  }

  /** For every number of lockouts there is a run that reaches the bound. */
  lemma BoundIsReached(lockouts: nat)
    ensures var run := Persistent(0, 0, lockouts); var length := lockouts * LOCKOUT_MS;
      && InOrder(run, 0) && NoneCorrect(run) && CheckedBy(run, length)
      && Verified(FRESH, run) == MAX_ATTEMPTS + length / LOCKOUT_MS
  {
    PersistentVerified(FRESH, 0, 0, lockouts, lockouts * LOCKOUT_MS);
  }

  /** Waiting as told is always enough, and never a full second too long. */
  lemma WaitingAsToldIsEnough(s: Limiter, now: nat)
    requires Blocked(s, now)
    ensures !Blocked(s, now + SecondsLeft(s, now) * 1000)
    ensures SecondsLeft(s, now) >= 1 && Blocked(s, now + (SecondsLeft(s, now) - 1) * 1000)
  {
  }
}
