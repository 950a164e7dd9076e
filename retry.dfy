/**
 * The reconnection schedule of `_connect_with_retry` (bridge.py lines 86-101):
 * up to `max_retries` connection attempts, stopping at the first one that
 * connects, with a wait of 2^k seconds after failed attempt k unless it was
 * the last one.
 */
module Retry {
  import opened Options

  /** What one call of `_connect` meets: a refusal or error, or a connection made at a time. */
  datatype AttemptOutcome = Refused | Accepted(at: real)

  /** The outcome of attempt `k` (0-based); attempts past the end of `outcomes` are refused. */
  function OutcomeAt(outcomes: seq<AttemptOutcome>, k: nat): AttemptOutcome
  {
    if k < |outcomes| then outcomes[k] else Refused
  }

  /** The attempts made, the time of the connection if one was made, and the waits in seconds. */
  datatype RetryRun = RetryRun(attempts: nat, connectedAt: Option<real>, waits: seq<nat>)

  function Pow2(k: nat): (p: nat)
    ensures p >= 1
  {
    if k == 0 then 1 else 2 * Pow2(k - 1)
  }

  /** The waits after the first `m` failed attempts: 1, 2, 4, ... seconds. */
  function Backoff(m: nat): (ws: seq<nat>)
    ensures |ws| == m
    ensures forall i :: 0 <= i < m ==> ws[i] == Pow2(i)
  {
    seq(m, i requires 0 <= i < m => Pow2(i))
  }

  /** The loop from attempt `k` on. */
  function RetryFrom(k: nat, maxRetries: int, outcomes: seq<AttemptOutcome>): RetryRun
    decreases maxRetries - k
  {
    if k >= maxRetries then RetryRun(0, None, [])
    else
      match OutcomeAt(outcomes, k)
      case Accepted(t) => RetryRun(1, Some(t), [])
      case Refused =>
        var rest := RetryFrom(k + 1, maxRetries, outcomes);
        var wait := if k < maxRetries - 1 then [Pow2(k)] else [];
        RetryRun(1 + rest.attempts, rest.connectedAt, wait + rest.waits)
  }

  /** `_connect_with_retry(max_retries)`. */
  function Retry(maxRetries: int, outcomes: seq<AttemptOutcome>): RetryRun
  {
    RetryFrom(0, maxRetries, outcomes)
  }

  /** Whether some attempt from `k` up to `n` connects. */
  predicate SomeAccepted(outcomes: seq<AttemptOutcome>, k: nat, n: int)
  {
    exists j :: k <= j < n && OutcomeAt(outcomes, j).Accepted?
  }

  lemma {:induction false} RetryFromShape(k: nat, n: int, outcomes: seq<AttemptOutcome>)
    ensures var r := RetryFrom(k, n, outcomes);
      && r.attempts <= (if n > k then n - k else 0)
      && (n > k ==> r.attempts >= 1)
      && (r.connectedAt.Some? <==> SomeAccepted(outcomes, k, n))
      && (r.connectedAt.Some? ==>
            && OutcomeAt(outcomes, k + r.attempts - 1) == Accepted(r.connectedAt.value)
            && forall j :: k <= j < k + r.attempts - 1 ==> OutcomeAt(outcomes, j).Refused?)
      && (r.connectedAt.None? ==> r.attempts == (if n > k then n - k else 0))
      && (r.attempts >= 1 ==> r.waits == seq(r.attempts - 1, i requires 0 <= i < r.attempts - 1 => Pow2(k + i)))
      && (r.attempts == 0 ==> r.waits == [])
    decreases n - k
  {
    if k < n && OutcomeAt(outcomes, k).Refused? {
      RetryFromShape(k + 1, n, outcomes);
      var rest := RetryFrom(k + 1, n, outcomes);
      if SomeAccepted(outcomes, k, n) {
        var j :| k <= j < n && OutcomeAt(outcomes, j).Accepted?;
        assert SomeAccepted(outcomes, k + 1, n);
      }
    } else if k < n {
      assert SomeAccepted(outcomes, k, n);
    }
  }

  /**
   * At most `max_retries` attempts are made; the run connects exactly when
   * one of them is accepted, and then the last attempt made is the first
   * accepted one; otherwise all of them are made.
   */
  lemma RetryAttempts(n: int, outcomes: seq<AttemptOutcome>)
    ensures var r := Retry(n, outcomes);
      && r.attempts <= (if n > 0 then n else 0)
      && (r.connectedAt.Some? <==> exists j :: 0 <= j < n && OutcomeAt(outcomes, j).Accepted?)
      && (r.connectedAt.Some? ==>
            && OutcomeAt(outcomes, r.attempts - 1) == Accepted(r.connectedAt.value)
            && forall j :: 0 <= j < r.attempts - 1 ==> OutcomeAt(outcomes, j).Refused?)
      && (r.connectedAt.None? ==> r.attempts == (if n > 0 then n else 0))
  {
    RetryFromShape(0, n, outcomes);
  }

  /** The waits are 2^k after failed attempt k, and there is none after the last attempt made. */
  lemma RetryWaits(n: int, outcomes: seq<AttemptOutcome>)
    ensures var r := Retry(n, outcomes);
      r.waits == if r.attempts == 0 then [] else Backoff(r.attempts - 1)
  {
    RetryFromShape(0, n, outcomes);
  }

  function Sum(ws: seq<nat>): nat
  {
    if ws == [] then 0 else Sum(ws[..|ws| - 1]) + ws[|ws| - 1]
  }

  /** Waiting 1, 2, ..., 2^(m-1) seconds adds up to 2^m - 1 seconds. */
  lemma {:induction false} BackoffTotal(m: nat)
    ensures Sum(Backoff(m)) == Pow2(m) - 1
  {
    if m > 0 {
      BackoffTotal(m - 1);
      assert Backoff(m)[..m - 1] == Backoff(m - 1);
    }
  }

  /** Starting up makes five attempts and, when all fail, has waited 15 seconds in all. */
  lemma StartupGivesUp(outcomes: seq<AttemptOutcome>)
    requires forall j :: 0 <= j < 5 ==> OutcomeAt(outcomes, j).Refused?
    ensures Retry(5, outcomes) == RetryRun(5, None, [1, 2, 4, 8])
    ensures Sum(Retry(5, outcomes).waits) == 15
  {
    RetryAttempts(5, outcomes);
    RetryWaits(5, outcomes);
    assert Backoff(4) == [1, 2, 4, 8];
    BackoffTotal(4);
  }

  /** Reconnecting after a disconnection makes three attempts, waiting 1 and then 2 seconds. */
  lemma ReconnectGivesUp(outcomes: seq<AttemptOutcome>)
    requires forall j :: 0 <= j < 3 ==> OutcomeAt(outcomes, j).Refused?
    ensures Retry(3, outcomes) == RetryRun(3, None, [1, 2])
  {
    RetryAttempts(3, outcomes);
    RetryWaits(3, outcomes);
    assert Backoff(2) == [1, 2];
  }
}
