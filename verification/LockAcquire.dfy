/** The bounded polling for the shared lock key. The environment decides how long
    every call travels, how long every sleep overshoots and what the server
    answers; times are in milliseconds. */
module LockAcquire {
  import LockProtocol

  const LOCK_WAIT := LockProtocol.LOCK_TTL + 1000
  const FIRST_BACKOFF := 2
  const MAX_BACKOFF := 20
  const MAX_ATTEMPTS := 304

  datatype Reply = Granted | Taken | Failed

  /** For attempt `i`: the way to the server, the way back, the extra sleep after
      it, and the answer the server gives when it executes the call at `t`. */
  datatype Env = Env(there: nat -> nat, back: nat -> nat, overslept: nat -> nat, reply: (nat, int) -> Reply)

  datatype Outcome = Acquired(at: int) | CallFailed | TimedOut(gaveUp: int)

  function Backoff(i: nat): (ms: nat)
    ensures FIRST_BACKOFF <= ms <= MAX_BACKOFF
  {
    if i == 0 then FIRST_BACKOFF
    else if Backoff(i - 1) * 2 < MAX_BACKOFF then Backoff(i - 1) * 2 else MAX_BACKOFF
  }

  /** The time slept by the first `n` failed attempts. */
  function Slept(n: nat): nat {
    if n == 0 then 0 else Slept(n - 1) + Backoff(n - 1)
  }

  lemma {:induction false} SleptClosedForm(n: nat)
    requires n >= 4
    ensures Backoff(n) == 20 && Slept(n) == 30 + 20 * (n - 4)
  {
    if n > 4 {
      SleptClosedForm(n - 1);
    } else {
      assert Backoff(1) == 4 && Backoff(2) == 8 && Backoff(3) == 16 && Backoff(4) == 20;
      assert Slept(1) == 2 && Slept(2) == 6 && Slept(3) == 14 && Slept(4) == 30;
    }
  }

  /** A crashed holder's key lives for at most one TTL from now and nobody else
      competes for it. */
  ghost predicate SoleWaiter(env: Env, start: int, heldUntil: int) {
    && heldUntil <= start + LockProtocol.LOCK_TTL
    && (forall i, t :: env.reply(i, t) == if t < heldUntil then Taken else Granted)
  }

  ghost predicate QuickReplies(env: Env) {
    forall i :: env.back(i) < 1000
  }

  /** Calls and sleeps that take no extra time, on a key that never gets free. */
  ghost predicate WorstCase(env: Env) {
    && (forall i :: env.there(i) == 0 && env.back(i) == 0 && env.overslept(i) == 0)
    && (forall i, t :: env.reply(i, t) == Taken)
  }

  ghost predicate FailedAt(env: Env, i: nat) {
    exists t :: env.reply(i, t) == Failed
  }

  method Acquire(env: Env, start: int, ghost heldUntil: int) returns (r: Outcome, attempts: nat)
    ensures 1 <= attempts <= 304
    ensures r.CallFailed? ==> FailedAt(env, attempts - 1)
    ensures r.Acquired? ==> env.reply(attempts - 1, r.at) == Granted && r.at >= start + Slept(attempts - 1)
    ensures r.TimedOut? ==> r.gaveUp > start + 6000
    ensures SoleWaiter(env, start, heldUntil) && QuickReplies(env) ==> r.Acquired? && r.at >= heldUntil
    ensures WorstCase(env) ==> r.TimedOut? && attempts == 304
  {
    var now, backoff := start, FIRST_BACKOFF;
    attempts := 0;
    SleptClosedForm(MAX_ATTEMPTS - 1);
    SleptClosedForm(MAX_ATTEMPTS - 2);
    while true
      invariant attempts < MAX_ATTEMPTS
      invariant backoff == Backoff(attempts)
      invariant now >= start + Slept(attempts)
      invariant WorstCase(env) ==> now == start + Slept(attempts)
      decreases MAX_ATTEMPTS - attempts
    {
      var executed := now + env.there(attempts);
      var reply := env.reply(attempts, executed);
      now := executed + env.back(attempts);
      attempts := attempts + 1;
      if reply.Failed? {
        return CallFailed, attempts;
      }
      if reply.Granted? {
        return Acquired(executed), attempts;
      }
      if now > start + LOCK_WAIT {
        SleptMonotone(attempts - 1, MAX_ATTEMPTS - 2);
        return TimedOut(now), attempts;
      }
      SleptMonotone(attempts - 1, MAX_ATTEMPTS - 2);
      now := now + backoff + env.overslept(attempts - 1);
      backoff := if backoff * 2 < MAX_BACKOFF then backoff * 2 else MAX_BACKOFF;
    }
  }

  /** Sleeping more often takes longer. */
  lemma {:induction false} SleptMonotone(m: nat, n: nat)
    ensures m <= n ==> Slept(m) <= Slept(n)
    ensures n < m ==> Slept(n + 1) <= Slept(m)
    decreases m + n
  {
    if m < n {
      SleptMonotone(m, n - 1);
    } else if n < m && n + 1 < m {
      SleptMonotone(m - 1, n);
    }
  }
}
