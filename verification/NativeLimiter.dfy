/** The native unlock limiter: eight wrong secrets lock for thirty seconds, after which counting
    starts afresh. Times are nanoseconds of a monotone clock. */
module NativeLimiter {
  import opened Common
  import opened UnlockAttempts

  const SECOND := 1_000_000_000
  const LOCKOUT := 30 * SECOND
  const MAX_ATTEMPTS := 8

  datatype Limiter = Limiter(failedAttempts: nat, lockedUntil: Option<nat>)

  const FRESH := Limiter(0, None)

  // ---- desktop/src/system_commands.rs

  predicate Blocked(s: Limiter, now: nat) {
    s.lockedUntil.Some? && now < s.lockedUntil.value
  }

  /** The whole seconds that the message tells the user to wait. */
  function SecondsLeft(s: Limiter, now: nat): nat
    requires Blocked(s, now)
  {
    Max((s.lockedUntil.value - now) / SECOND, 1)
  }

  function Expired(s: Limiter, now: nat): Limiter {
    if s.lockedUntil.Some? && now >= s.lockedUntil.value then FRESH else s
  }

  function Failed(s: Limiter, now: nat): Limiter {
    var n := if s.failedAttempts < 255 then s.failedAttempts + 1 else 255;
    Limiter(n, if n >= MAX_ATTEMPTS then Some(now + LOCKOUT) else s.lockedUntil)
  }

  function Attempted(s: Limiter, a: Attempt): Limiter {
    if Blocked(s, a.checkedAt) then s
    else if a.correct then FRESH
    else Failed(Expired(s, a.checkedAt), a.recordedAt)
  }

  class UnlockRateLimit {
    var failedAttempts: nat
    var lockedUntil: Option<nat>

    function State(): Limiter
      reads this
    {
      Limiter(failedAttempts, lockedUntil)
    }

    constructor ()
      ensures State() == FRESH
    {
      failedAttempts, lockedUntil := 0, None;
    }

    /** `unlock_rate_limit_message`: the seconds of the message, if there is one. */
    method Message(now: nat) returns (seconds: Option<nat>)
      modifies this
      ensures seconds == if Blocked(old(State()), now) then Some(SecondsLeft(old(State()), now)) else None
      ensures State() == if Blocked(old(State()), now) then old(State()) else Expired(old(State()), now)
    {
      if lockedUntil.None? { return None; }
      if now >= lockedUntil.value {
        lockedUntil := None;
        failedAttempts := 0;
        return None;
      }
      seconds := Some(Max((lockedUntil.value - now) / SECOND, 1));
    }

    method RecordFailure(now: nat)
      modifies this
      ensures State() == Failed(old(State()), now)
    {
      failedAttempts := if failedAttempts < 255 then failedAttempts + 1 else 255;
      if failedAttempts >= MAX_ATTEMPTS { lockedUntil := Some(now + LOCKOUT); }
    }

    method Reset()
      modifies this
      ensures State() == FRESH
    {
      failedAttempts, lockedUntil := 0, None;
    }

    /** `unlock_vault_with_secret`: `verified` says whether the secret was looked at. */
    method UnlockWithSecret(a: Attempt) returns (verified: bool)
      modifies this
      ensures verified == !Blocked(old(State()), a.checkedAt)
      ensures State() == Attempted(old(State()), a)
    {
      var message := Message(a.checkedAt);
      if message.Some? { return false; }
      if a.correct { Reset(); } else { RecordFailure(a.recordedAt); }
      verified := true;
    }
  }

  // ---- runs

  function After(s: Limiter, attempts: seq<Attempt>): Limiter
    decreases |attempts|
  {
    if attempts == [] then s else After(Attempted(s, attempts[0]), attempts[1..])
  }

  /** How many of the attempts get their secret verified. */
  function Verified(s: Limiter, attempts: seq<Attempt>): nat
    decreases |attempts|
  {
    if attempts == [] then 0
    else (if Blocked(s, attempts[0].checkedAt) then 0 else 1) + Verified(Attempted(s, attempts[0]), attempts[1..])
  }

  /** Locked exactly when the count is full. */
  predicate Sound(s: Limiter) {
    s.failedAttempts <= MAX_ATTEMPTS && (s.lockedUntil.Some? <==> s.failedAttempts == MAX_ATTEMPTS)
  }

  lemma {:induction false} AlwaysSound(s: Limiter, attempts: seq<Attempt>)
    requires Sound(s)
    ensures Sound(After(s, attempts))
    decreases |attempts|
  {
    if attempts != [] { AlwaysSound(Attempted(s, attempts[0]), attempts[1..]); }
  }

  /** What the state still allows between `start` and `end`. */
  function Allowance(s: Limiter, start: nat, end: nat): nat
    requires Sound(s)
  {
    if s.lockedUntil.None? then
      if end < start then 0 else MAX_ATTEMPTS - s.failedAttempts + MAX_ATTEMPTS * ((end - start) / LOCKOUT)
    else
      var v := Max(start, s.lockedUntil.value);
      if end < v then 0 else MAX_ATTEMPTS + MAX_ATTEMPTS * ((end - v) / LOCKOUT)
  }

  lemma OneAttempt(s: Limiter, a: Attempt, start: nat, end: nat)
    requires Sound(s) && !a.correct && start <= a.checkedAt <= a.recordedAt && a.checkedAt <= end
    ensures Sound(Attempted(s, a))
    ensures (if Blocked(s, a.checkedAt) then 0 else 1) + Allowance(Attempted(s, a), a.recordedAt, end) <= Allowance(s, start, end)
  {
  }

  lemma {:induction false} VerifiedWithinAllowance(s: Limiter, attempts: seq<Attempt>, start: nat, end: nat)
    requires Sound(s) && InOrder(attempts, start) && NoneCorrect(attempts) && CheckedBy(attempts, end)
    ensures Verified(s, attempts) <= Allowance(s, start, end)
    decreases |attempts|
  {
    if attempts != [] {
      var a := attempts[0];
      OneAttempt(s, a, start, end);
      Tail(attempts, end);
      VerifiedWithinAllowance(Attempted(s, a), attempts[1..], a.recordedAt, end);
    }
  }

  /** In any run, however it began, a stretch without a right secret that lasts `length` gets at
      most `8 (length / 30 s + 1)` secrets verified. */
  lemma AttemptsAreBounded(before: seq<Attempt>, stretch: seq<Attempt>, start: nat, length: nat)
    requires InOrder(stretch, start) && NoneCorrect(stretch) && CheckedBy(stretch, start + length)
    ensures Verified(After(FRESH, before), stretch) <= 8 * (length / 30_000_000_000 + 1)
  {
    var s := After(FRESH, before);
    AlwaysSound(FRESH, before);
    VerifiedWithinAllowance(s, stretch, start, start + length);
    AllowanceBound(s, start, length);
  }

  lemma AllowanceBound(s: Limiter, start: nat, length: nat)
    requires Sound(s)
    ensures Allowance(s, start, start + length) <= MAX_ATTEMPTS * (length / LOCKOUT + 1)
  {
    if s.lockedUntil.Some? {
      var v := Max(start, s.lockedUntil.value);
      if v <= start + length { assert (start + length - v) / LOCKOUT <= length / LOCKOUT; }
    }
  }

  // ---- what a right secret restores

  /** After any run, a right secret that is looked at restores all eight attempts: the next eight
      wrong secrets are looked at whenever they come, and after the eighth none for thirty seconds. */
  lemma RightSecretRestoresAll(before: seq<Attempt>, right: Attempt, wrong: seq<Attempt>, now: nat)
    requires right.correct && !Blocked(After(FRESH, before), right.checkedAt)
    requires InOrder(wrong, right.recordedAt) && NoneCorrect(wrong)
    ensures |wrong| <= 8 ==> Verified(After(FRESH, before + [right]), wrong) == |wrong|
    ensures |wrong| == 8 && now >= wrong[7].recordedAt ==>
      (Blocked(After(FRESH, before + [right] + wrong), now) <==> now < wrong[7].recordedAt + 30_000_000_000)
  {
    AfterAppend(FRESH, before, [right]);
    AfterAppend(FRESH, before + [right], wrong);
    assert After(FRESH, before + [right]) == FRESH;
    if |wrong| <= 8 { WrongOnes(FRESH, wrong, right.recordedAt); }
  }

  lemma {:induction false} AfterAppend(s: Limiter, first: seq<Attempt>, more: seq<Attempt>)
    ensures After(s, first + more) == After(After(s, first), more)
    decreases |first|
  {
    if first == [] {
      assert [] + more == more;
    } else {
      assert (first + more)[1..] == first[1..] + more;
      AfterAppend(Attempted(s, first[0]), first[1..], more);
    }
  }

  lemma {:induction false} WrongOnes(s: Limiter, wrong: seq<Attempt>, start: nat)
    requires s.lockedUntil.None? && InOrder(wrong, start) && NoneCorrect(wrong) && s.failedAttempts + |wrong| <= 8
    ensures Verified(s, wrong) == |wrong|
    ensures After(s, wrong) == if wrong == [] then s
      else Limiter(s.failedAttempts + |wrong|, if s.failedAttempts + |wrong| == 8 then Some(wrong[|wrong| - 1].recordedAt + 30_000_000_000) else None)
    decreases |wrong|
  {
    if |wrong| > 1 {
      forall i | 0 <= i < |wrong[1..]| ensures !wrong[1..][i].correct { assert wrong[1..][i] == wrong[i + 1]; }
      WrongOnes(Attempted(s, wrong[0]), wrong[1..], wrong[0].recordedAt);
    }
  }

  // ---- the bound is reached

  /** The same wrong attempt `count` times, all at one moment. */
  function Burst(t: nat, count: nat): seq<Attempt> {
    if count == 0 then [] else [Attempt(t, t, false)] + Burst(t, count - 1)
  }

  /** A burst of eight at the start and after every lockout. */
  function Bursts(from: nat, lockouts: nat): seq<Attempt>
    decreases lockouts
  {
    if lockouts == 0 then Burst(from, MAX_ATTEMPTS) else Burst(from, MAX_ATTEMPTS) + Bursts(from + LOCKOUT, lockouts - 1)
  }

  lemma {:induction false} BurstVerified(s: Limiter, t: nat, count: nat, rest: seq<Attempt>)
    requires s.lockedUntil.None? && s.failedAttempts + count == MAX_ATTEMPTS
    ensures Verified(s, Burst(t, count) + rest) == count + Verified(if count == 0 then s else Limiter(MAX_ATTEMPTS, Some(t + LOCKOUT)), rest)
    decreases count
  {
    if count == 0 {
      assert Burst(t, 0) + rest == rest;
    } else {
      var all := Burst(t, count) + rest;
      assert all[1..] == Burst(t, count - 1) + rest && all[0] == Attempt(t, t, false);
      if count == 1 { assert all[1..] == rest; } else { BurstVerified(Attempted(s, all[0]), t, count - 1, rest); }
    }
  }

  lemma ExpiredBurst(s: Limiter, t: nat, rest: seq<Attempt>)
    requires s == FRESH || s == Limiter(MAX_ATTEMPTS, Some(t))
    ensures Verified(s, Burst(t, MAX_ATTEMPTS) + rest) == MAX_ATTEMPTS + Verified(Limiter(MAX_ATTEMPTS, Some(t + LOCKOUT)), rest)
  {
    BurstVerified(FRESH, t, MAX_ATTEMPTS, rest);
    var all := Burst(t, MAX_ATTEMPTS) + rest;
    assert all[0] == Attempt(t, t, false);
    assert Attempted(s, all[0]) == Attempted(FRESH, all[0]);
  }

  lemma {:induction false} BurstsVerified(s: Limiter, from: nat, lockouts: nat)
    requires s == FRESH || s == Limiter(MAX_ATTEMPTS, Some(from))
    ensures Verified(s, Bursts(from, lockouts)) == MAX_ATTEMPTS * (lockouts + 1)
    decreases lockouts
  {
    if lockouts == 0 {
      ExpiredBurst(s, from, []);
      assert Burst(from, MAX_ATTEMPTS) + [] == Bursts(from, 0);
    } else {
      ExpiredBurst(s, from, Bursts(from + LOCKOUT, lockouts - 1));
      BurstsVerified(Limiter(MAX_ATTEMPTS, Some(from + LOCKOUT)), from + LOCKOUT, lockouts - 1);
    }
  }

  lemma {:induction false} BurstOrder(t: nat, count: nat, rest: seq<Attempt>, start: nat, end: nat)
    requires start <= t <= end && InOrder(rest, t) && NoneCorrect(rest) && CheckedBy(rest, end)
    ensures var all := Burst(t, count) + rest;
      (count > 0 ==> InOrder(all, start)) && InOrder(all, t) && NoneCorrect(all) && CheckedBy(all, end)
  {
    var all := Burst(t, count) + rest;
    if count == 0 {
      assert all == rest;
    } else {
      BurstOrder(t, count - 1, rest, t, end);
      assert all == [Attempt(t, t, false)] + (Burst(t, count - 1) + rest);
      assert all[1..] == Burst(t, count - 1) + rest;
    }
  }

  lemma {:induction false} BurstsOrder(from: nat, lockouts: nat, start: nat)
    requires start <= from
    ensures var all := Bursts(from, lockouts);
      InOrder(all, start) && NoneCorrect(all) && CheckedBy(all, from + lockouts * LOCKOUT)
    decreases lockouts
  {
    if lockouts == 0 {
      BurstOrder(from, MAX_ATTEMPTS, [], start, from);
      assert Burst(from, MAX_ATTEMPTS) + [] == Bursts(from, 0);
    } else {
      BurstsOrder(from + LOCKOUT, lockouts - 1, from);
      BurstOrder(from, MAX_ATTEMPTS, Bursts(from + LOCKOUT, lockouts - 1), start, from + lockouts * LOCKOUT);
    }
  }

  /** For every number of lockouts there is a run that reaches the bound. */
  lemma BoundIsReached(lockouts: nat)
    ensures var run := Bursts(0, lockouts); var length := lockouts * LOCKOUT;
      && InOrder(run, 0) && NoneCorrect(run) && CheckedBy(run, length)
      && Verified(FRESH, run) == MAX_ATTEMPTS * (length / LOCKOUT + 1)
  {
    BurstsOrder(0, lockouts, 0);
    BurstsVerified(FRESH, 0, lockouts);
  }

  // ---- the message

  /** The message rounds down: waiting as told is enough exactly when less than a second or a whole
      number of seconds is left. */
  lemma WaitingAsToldIsEnoughExactlyWhen(s: Limiter, now: nat)
    requires Blocked(s, now)
    ensures !Blocked(s, now + SecondsLeft(s, now) * SECOND)
       <==> s.lockedUntil.value - now < SECOND || (s.lockedUntil.value - now) % SECOND == 0
  {
  }
}
