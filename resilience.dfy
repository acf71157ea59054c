/**
 * The bounded-retry gate used both for the network readiness check and for
 * polling the Pi-hole query-log API: a counter, a fatal exit once the counter
 * exceeds the budget, an attempt, and on failure an increment and a fixed
 * sleep. The outcome of attempt number k is given by the oracle `outcome(k)`.
 */
module Resilience {

  /** How a bounded-retry run ends; `failures` is the final counter value. */
  datatype Verdict = Passed(failures: nat) | GaveUp(failures: nat)

  /** Budget and delay of the network readiness check (its configuration defaults). */
  const DEFAULT_MAXIMUM_NETWORK_TRIES: nat := 10
  const DEFAULT_NETWORK_RETRY_SECONDS: nat := 10

  /** Budget and delay of the query-log API poll (fixed in the code). */
  const PIHOLE_MAXIMUM_TRIES: nat := 15
  const PIHOLE_RETRY_SECONDS: nat := 15

  /** The retry state machine run from counter value `tries`. */
  function Retry(maxTries: nat, outcome: nat -> bool, tries: nat): Verdict
    requires tries <= maxTries + 1
    decreases maxTries + 1 - tries
  {
    if tries > maxTries then GaveUp(tries)
    else if outcome(tries) then Passed(tries)
    else Retry(maxTries, outcome, tries + 1)
  }

  /** Everything the state machine promises, from a given counter value on. */
  lemma {:induction false} RetryFrom(maxTries: nat, outcome: nat -> bool, tries: nat)
    requires tries <= maxTries + 1
    ensures Retry(maxTries, outcome, tries).Passed? <==>
            exists i :: tries <= i <= maxTries && outcome(i)
    ensures Retry(maxTries, outcome, tries).Passed? ==>
            var k := Retry(maxTries, outcome, tries).failures;
            tries <= k <= maxTries && outcome(k) && forall i :: tries <= i < k ==> !outcome(i)
    ensures Retry(maxTries, outcome, tries).GaveUp? ==>
            Retry(maxTries, outcome, tries).failures == maxTries + 1 &&
            forall i :: tries <= i <= maxTries ==> !outcome(i)
    decreases maxTries + 1 - tries
  {
    if tries <= maxTries && !outcome(tries) {
      RetryFrom(maxTries, outcome, tries + 1);
      assert forall i :: tries <= i <= maxTries && outcome(i) ==> tries + 1 <= i;
    }
  }

  /**
   * A run succeeds iff one of the first maxTries + 1 attempts succeeds; it then
   * stops at the first successful attempt, and the counter equals the number of
   * failed attempts. Otherwise it gives up after exactly maxTries + 1 failures.
   */
  lemma RetrySpec(maxTries: nat, outcome: nat -> bool)
    ensures Retry(maxTries, outcome, 0).Passed? <==> exists i :: 0 <= i <= maxTries && outcome(i)
    ensures Retry(maxTries, outcome, 0).Passed? ==>
            var k := Retry(maxTries, outcome, 0).failures;
            k <= maxTries && outcome(k) && forall i :: 0 <= i < k ==> !outcome(i)
    ensures Retry(maxTries, outcome, 0).GaveUp? ==>
            Retry(maxTries, outcome, 0).failures == maxTries + 1 &&
            forall i :: 0 <= i <= maxTries ==> !outcome(i)
  {
    RetryFrom(maxTries, outcome, 0);
  }

  /**
   * The retry boundary: a collaborator that fails exactly maxTries times and
   * then succeeds is not fatal; one that fails maxTries + 1 times is.
   */
  lemma RetryBoundary(maxTries: nat, outcome: nat -> bool)
    ensures (forall i :: 0 <= i < maxTries ==> !outcome(i)) && outcome(maxTries) ==>
            Retry(maxTries, outcome, 0) == Passed(maxTries)
    ensures (forall i :: 0 <= i <= maxTries ==> !outcome(i)) ==>
            Retry(maxTries, outcome, 0) == GaveUp(maxTries + 1)
  {
    RetryFrom(maxTries, outcome, 0);
  }

  /** The sleeps of a run with `failures` failed attempts, all of the fixed delay. */
  function Sleeps(delay: nat, failures: nat): (s: seq<nat>)
    ensures |s| == failures && forall i :: 0 <= i < |s| ==> s[i] == delay
  {
    seq(failures, _ => delay)
  }

  /** The seconds slept over a trace of sleeps. */
  function Total(s: seq<nat>): nat
  {
    if s == [] then 0 else Total(s[..|s| - 1]) + s[|s| - 1]
  }

  /** A run with `failures` failed attempts sleeps `failures` times the delay. */
  lemma {:induction false} SleepsTotal(delay: nat, failures: nat)
    ensures Total(Sleeps(delay, failures)) == delay * failures
    decreases failures
  {
    if failures > 0 {
      var s := Sleeps(delay, failures);
      assert s[..|s| - 1] == Sleeps(delay, failures - 1);
      SleepsTotal(delay, failures - 1);
    }
  }

  /**
   * The loop itself: returns whether an attempt succeeded, the final counter
   * and the trace of sleeps, which has one entry per failed attempt.
   */
  method RunRetry(maxTries: nat, delay: nat, outcome: nat -> bool)
    returns (ok: bool, tries: nat, sleeps: seq<nat>)
    ensures Retry(maxTries, outcome, 0) == (if ok then Passed(tries) else GaveUp(tries))
    ensures sleeps == Sleeps(delay, tries)
  {
    tries, sleeps := 0, [];
    while true
      invariant tries <= maxTries + 1
      invariant Retry(maxTries, outcome, 0) == Retry(maxTries, outcome, tries)
      invariant sleeps == Sleeps(delay, tries)
      decreases maxTries + 1 - tries
    {
      if tries > maxTries {
        ok := false;
        return;
      }
      if outcome(tries) {
        ok := true;
        return;
      }
      tries := tries + 1;
      sleeps := sleeps + [delay];
    }
  }
}
