/** Attempts to unlock the vault with a secret, as both limiters see them. */
module UnlockAttempts {

  /** When the limiter is asked, when the answer is recorded, and whether the secret is right. */
  datatype Attempt = Attempt(checkedAt: nat, recordedAt: nat, correct: bool)

  /** One attempt at a time, from `start` on. */
  predicate InOrder(attempts: seq<Attempt>, start: nat)
    decreases |attempts|
  {
    attempts == [] ||
      (start <= attempts[0].checkedAt <= attempts[0].recordedAt && InOrder(attempts[1..], attempts[0].recordedAt))
  }

  predicate NoneCorrect(attempts: seq<Attempt>) {
    forall i :: 0 <= i < |attempts| ==> !attempts[i].correct
  }

  predicate CheckedBy(attempts: seq<Attempt>, end: nat) {
    forall i :: 0 <= i < |attempts| ==> attempts[i].checkedAt <= end
  }

  lemma Tail(attempts: seq<Attempt>, end: nat)
    requires attempts != [] && NoneCorrect(attempts) && CheckedBy(attempts, end)
    ensures NoneCorrect(attempts[1..]) && CheckedBy(attempts[1..], end)
  {
    forall i | 0 <= i < |attempts[1..]| ensures !attempts[1..][i].correct && attempts[1..][i].checkedAt <= end {
      assert attempts[1..][i] == attempts[i + 1];
    }
  }
}
