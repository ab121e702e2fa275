/** The reconnect loop of `listen_for_changes` in daemon/src/db.rs. */
module Backoff {
  import opened Wrappers

  const HEALTHY_RUN_THRESHOLD_MS: nat := 5000
  const INITIAL_BACKOFF: nat := 1
  const MAX_BACKOFF: nat := 30

  predicate IsHealthy(elapsedMs: nat) {
    elapsedMs >= HEALTHY_RUN_THRESHOLD_MS
  }

  function Pow2(k: nat): (p: nat)
    ensures p >= 1
  {
    if k == 0 then 1 else 2 * Pow2(k - 1)
  }

  function Min(a: nat, b: nat): nat {
    if a <= b then a else b
  }

  /** Number of consecutive short sessions at the end of a history. */
  function ShortStreak(sessions: seq<nat>): nat {
    if |sessions| == 0 || IsHealthy(sessions[|sessions| - 1]) then 0
    else 1 + ShortStreak(sessions[..|sessions| - 1])
  }

  /** `ShortStreak` counts what it says: that many sessions at the end are short, and the
      one before them, if any, is healthy. */
  lemma {:induction false} StreakMeaning(sessions: seq<nat>)
    ensures ShortStreak(sessions) <= |sessions|
    ensures forall i :: |sessions| - ShortStreak(sessions) <= i < |sessions| ==> sessions[i] < 5000
    ensures ShortStreak(sessions) < |sessions| ==> sessions[|sessions| - 1 - ShortStreak(sessions)] >= 5000
  {
    if |sessions| > 0 && !IsHealthy(sessions[|sessions| - 1]) {
      StreakMeaning(sessions[..|sessions| - 1]);
    }
  }

  /** Doubling under a cap is the capped power. */
  lemma DoublingUnderCap(k: nat)
    ensures Min(Min(Pow2(k), MAX_BACKOFF) * 2, MAX_BACKOFF) == Min(Pow2(k + 1), MAX_BACKOFF)
  {
  }

  /** The elapsed times of attempts whose pool was created. */
  function Elapsed(attempts: seq<Option<nat>>): (s: seq<nat>)
    requires forall i :: 0 <= i < |attempts| ==> attempts[i].Some?
    ensures |s| == |attempts|
  {
    seq(|attempts|, i requires 0 <= i < |attempts| => attempts[i].value)
  }

  /** The loop over any finite history of attempts; `None` is a failed pool creation, which
      ends it with an error. The sleep after each session, in seconds, is two to the power
      of the current streak of short sessions, capped at 30. */
  method ListenForChanges(attempts: seq<Option<nat>>) returns (sleeps: seq<nat>, fatal: bool)
    ensures |sleeps| <= |attempts| && forall i :: 0 <= i < |sleeps| ==> attempts[i].Some?
    ensures fatal <==> |sleeps| < |attempts|
    ensures fatal ==> attempts[|sleeps|].None?
    ensures forall i :: 0 <= i < |sleeps| ==> sleeps[i] == Min(Pow2(ShortStreak(Elapsed(attempts[..i + 1]))), 30)
    ensures forall i :: 0 <= i < |sleeps| ==> 1 <= sleeps[i] <= 30
  {
    var backoff := INITIAL_BACKOFF;
    sleeps := [];
    for n := 0 to |attempts|
      invariant |sleeps| == n && forall i :: 0 <= i < n ==> attempts[i].Some?
      invariant backoff == Min(Pow2(ShortStreak(Elapsed(attempts[..n]))), MAX_BACKOFF)
      invariant forall i :: 0 <= i < n ==> sleeps[i] == Min(Pow2(ShortStreak(Elapsed(attempts[..i + 1]))), MAX_BACKOFF)
    {
      if attempts[n].None? {
        return sleeps, true;
      }
      assert Elapsed(attempts[..n + 1])[..n] == Elapsed(attempts[..n]);
      if IsHealthy(attempts[n].value) {
        backoff := INITIAL_BACKOFF;
      } else {
        DoublingUnderCap(ShortStreak(Elapsed(attempts[..n])));
        backoff := Min(backoff * 2, MAX_BACKOFF);
      }
      sleeps := sleeps + [backoff];
    }
    fatal := false;
  }
}
