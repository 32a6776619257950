/**
 * Retry-delay policy of the polling service: the three timing constants and
 * the backoff formula `min(POLLING_INTERVAL * n, MAX_BACKOFF_TIME)`, both as the
 * Java code evaluates it (32-bit `int` product) and as intended (no overflow).
 */
module Backoff {

  /** Normal interval between polling cycles, in milliseconds. */
  const PollingInterval: nat := 30000

  /** Consecutive failures after which error recovery runs. */
  const MaxConsecutiveErrors: nat := 10

  /** Upper bound on a backoff delay, in milliseconds. */
  const MaxBackoffTime: nat := 300000

  /** Delay of the first cycle after error recovery, in milliseconds. */
  const RecoveryDelay: nat := 60000

  const IntMin: int := -0x8000_0000
  const IntMax: int := 0x7fff_ffff
  const Modulus: int := 0x1_0000_0000

  /** The Java `int` that a mathematical integer wraps to (two's complement). */
  function Wrap32(x: int): (r: int)
    ensures IntMin <= r <= IntMax
    ensures (x - r) % Modulus == 0
    ensures IntMin <= x <= IntMax ==> r == x
  {
    var m := x % Modulus;
    if m <= IntMax then m else m - Modulus
  }

  /**
   * Backoff delay after `n` consecutive failures, computed without overflow:
   * it grows by one polling interval per failure until it reaches the cap.
   */
  function Delay(n: nat): (r: nat)
    ensures r <= MaxBackoffTime
    ensures n <= MaxConsecutiveErrors ==> r == PollingInterval * n
    ensures n >= MaxConsecutiveErrors ==> r == MaxBackoffTime
  {
    if PollingInterval * n <= MaxBackoffTime then PollingInterval * n else MaxBackoffTime
  }

  /** The delay never decreases as the failure count grows. */
  lemma DelayMonotone(m: nat, n: nat)
    requires m <= n
    ensures Delay(m) <= Delay(n)
  {
  }

  /** Largest failure count for which `30000 * n` still fits in an `int`. */
  const LastSafeCount: nat := 71582

  /**
   * The delay as the Java expression computes it: the product is an `int`
   * and wraps before `Math.min` sees it.
   */
  function BackoffAsWritten(n: nat): (r: int)
    ensures r <= MaxBackoffTime
    ensures n <= LastSafeCount ==> r == Delay(n)
  {
    var product := Wrap32(PollingInterval * n);
    if product <= MaxBackoffTime then product else MaxBackoffTime
  }

  /**
   * From 71583 up to 143165 failures the wrapped product is negative, so the
   * Java code asks for a negative delay instead of the five-minute cap.
   */
  lemma {:induction false} AsWrittenNegative(n: nat)
    requires LastSafeCount < n <= 143165
    ensures BackoffAsWritten(n) < 0
    ensures BackoffAsWritten(n) < Delay(n)
  {
    var p := PollingInterval * n;
    assert IntMax < p < Modulus;
    assert p % Modulus == p;
    assert Wrap32(p) == p - Modulus;
  }

  /** The as-written delay is not monotone: it drops at the first overflowing count. */
  lemma AsWrittenNotMonotone()
    ensures BackoffAsWritten(LastSafeCount) == MaxBackoffTime
    ensures BackoffAsWritten(LastSafeCount + 1) == -2147477296
  {
    AsWrittenNegative(LastSafeCount + 1);
    var p := PollingInterval * (LastSafeCount + 1);
    assert p % Modulus == p;
  }
}
