/** Which errors are retried, and how long a retry waits. Durations are Go's `int64`
    nanoseconds, so the doubling shift is written with its wrap-around. */
module Retry {
  const ER_LOCK_DEADLOCK := 1213
  const ER_LOCK_WAIT_TIMEOUT := 1205
  const ER_DUP_ENTRY := 1062

  const TWO_62: int := 0x4000_0000_0000_0000
  const TWO_63: int := 0x8000_0000_0000_0000

  datatype Error =
    | MySql(number: int)
    | ContextDone
    | Malformed
    | Wrapped(cause: Error)

  datatype Options = Options(maxAttempts: int, baseDelay: Int64, maxDelay: Int64)

  const DEFAULT := Options(3, 50_000_000, 500_000_000)

  /** Looks through wrapping, as `errors.As` does. */
  predicate IsDeadlock(err: Error) {
    match err
    case MySql(n) => n == ER_LOCK_DEADLOCK || n == ER_LOCK_WAIT_TIMEOUT
    case Wrapped(cause) => IsDeadlock(cause)
    case _ => false
  }

  /** What is left when all wrapping is taken off. */
  function Innermost(err: Error): Error {
    match err
    case Wrapped(cause) => Innermost(cause)
    case _ => err
  }

  /** However deep the wrapping, exactly a deadlock (1213) and a lock wait timeout (1205) count. */
  lemma {:induction false} RetryableExactly(err: Error)
    ensures IsDeadlock(err) <==> Innermost(err) == MySql(1213) || Innermost(err) == MySql(1205)
  {
    if err.Wrapped? {
      RetryableExactly(err.cause);
    }
  }

  function Pow2(n: nat): nat {
    if n == 0 then 1 else 2 * Pow2(n - 1)
  }

  function Min(a: int, b: int): int {
    if a < b then a else b
  }

  type Int64 = d: int | -TWO_63 <= d < TWO_63

  /** The value `d << 1` leaves in an int64. */
  function ShiftLeft(d: Int64): Int64 {
    (2 * d + TWO_63) % (2 * TWO_63) - TWO_63
  }

  /** `n` rounds of the doubling loop; it stops at the cap as soon as a round exceeds it. */
  function Double(d: Int64, maxDelay: Int64, n: int): Int64
    decreases n
  {
    if n <= 0 then d
    else if ShiftLeft(d) > maxDelay then maxDelay
    else Double(ShiftLeft(d), maxDelay, n - 1)
  }

  /** The documented wait after an attempt: base * 2^(attempt-1), capped. */
  function Nominal(base: nat, maxDelay: nat, attempt: nat): nat
    requires attempt >= 1
  {
    Min(base * Pow2(attempt - 1), maxDelay)
  }

  lemma {:induction false} Pow2Positive(n: nat)
    ensures Pow2(n) >= 1
  {
    if n > 0 {
      Pow2Positive(n - 1);
    }
  }

  lemma Scale(d: nat, p: nat)
    requires p >= 1
    ensures d * (2 * p) == (2 * d) * p >= 2 * d
  {
    assert (2 * d) * p == 2 * d + (2 * d) * (p - 1);
  }

  /** Some round of the loop shifts a bit out of the int64. */
  predicate Overflows(d: Int64, maxDelay: Int64, n: int)
    decreases n
  {
    n > 0 && (!(-TWO_62 <= d < TWO_62) || (ShiftLeft(d) <= maxDelay && Overflows(ShiftLeft(d), maxDelay, n - 1)))
  }

  /** The loop is still running in round `k` if it has met no more than the cap, and doubling
      what it has by then does not fit. */
  ghost predicate WrapsAt(base: int, maxDelay: int, k: nat) {
    && !(-TWO_62 <= base * Pow2(k) < TWO_62)
    && forall i :: 1 <= i <= k ==> base * Pow2(i) <= maxDelay
  }

  lemma WrapsLater(base: int, maxDelay: int, k: nat)
    requires k >= 1
    ensures WrapsAt(base, maxDelay, k) <==> 2 * base <= maxDelay && WrapsAt(2 * base, maxDelay, k - 1)
  {
    assert base * Pow2(1) == 2 * base by {
      assert Pow2(1) == 2 * Pow2(0);
    }
    forall i: nat | i >= 1 ensures base * Pow2(i) == (2 * base) * Pow2(i - 1) {
    }
    if 2 * base <= maxDelay && WrapsAt(2 * base, maxDelay, k - 1) {
      forall i | 1 <= i <= k ensures base * Pow2(i) <= maxDelay {
        if i > 1 {
          assert (2 * base) * Pow2(i - 1) <= maxDelay;
        }
      }
    }
    if WrapsAt(base, maxDelay, k) {
      forall i | 1 <= i <= k - 1 ensures (2 * base) * Pow2(i) <= maxDelay {
        assert base * Pow2(i + 1) <= maxDelay;
      }
    }
  }

  /** When a shift wraps, for all int64 bases and caps and any number of rounds: exactly when
      base * 2^k leaves the range that can be doubled in a round k that is reached. */
  lemma {:induction false} OverflowsExactly(base: Int64, maxDelay: Int64, n: int)
    ensures Overflows(base, maxDelay, n) <==> exists k: nat :: k < n && WrapsAt(base, maxDelay, k)
    decreases n
  {
    if n > 0 {
      assert base * Pow2(0) == base;
      if -TWO_62 <= base < TWO_62 {
        assert ShiftLeft(base) == 2 * base;
        OverflowsExactly(2 * base, maxDelay, n - 1);
        forall k: nat | 1 <= k < n
          ensures WrapsAt(base, maxDelay, k) <==> 2 * base <= maxDelay && WrapsAt(2 * base, maxDelay, k - 1)
        {
          WrapsLater(base, maxDelay, k);
        }
        assert !WrapsAt(base, maxDelay, 0);
        if k: nat :| k < n - 1 && WrapsAt(2 * base, maxDelay, k) {
          assert 2 * base <= maxDelay ==> WrapsAt(base, maxDelay, k + 1);
        }
      } else {
        assert WrapsAt(base, maxDelay, 0);
      }
    }
  }

  /** Durations below 2^62 never overflow. */
  lemma {:induction false} SmallNeverOverflows(base: Int64, maxDelay: Int64, n: int)
    requires 0 <= base < TWO_62 && 0 <= maxDelay < TWO_62
    ensures !Overflows(base, maxDelay, n)
    decreases n
  {
    if n > 0 && ShiftLeft(base) <= maxDelay {
      SmallNeverOverflows(ShiftLeft(base), maxDelay, n - 1);
    }
  }

  lemma ShiftDoubles(d: Int64)
    requires -TWO_62 <= d < TWO_62
    ensures ShiftLeft(d) == 2 * d
  {
  }

  lemma PowerStep(base: nat, n: nat)
    requires n >= 1
    ensures base * Pow2(n) == (2 * base) * Pow2(n - 1) >= 2 * base
    ensures n == 1 ==> base * Pow2(n) == 2 * base
  {
    Pow2Positive(n - 1);
    Scale(base, Pow2(n - 1));
  }

  /** As long as no shift wraps, the loop computes the capped power. */
  lemma {:induction false} DoubleIsCappedPower(base: Int64, maxDelay: Int64, n: nat)
    requires 0 <= base && 0 <= maxDelay && !Overflows(base, maxDelay, n)
    ensures Double(base, maxDelay, n) == if n == 0 then base else Min(base * Pow2(n), maxDelay)
    decreases n
  {
    if n > 0 {
      PowerStep(base, n);
      ShiftDoubles(base);
      if 2 * base <= maxDelay {
        DoubleIsCappedPower(2 * base, maxDelay, n - 1);
      }
    }
  }

  /** If no shift wraps, the wait before jitter is the documented one exactly when the attempt
      is not the first or the base is within the cap: the first wait is never capped. */
  lemma WaitIsNominal(base: Int64, maxDelay: Int64, attempt: nat)
    requires 0 <= base && 0 <= maxDelay && attempt >= 1 && !Overflows(base, maxDelay, attempt - 1)
    ensures Double(base, maxDelay, attempt - 1) == Nominal(base, maxDelay, attempt)
      <==> (attempt >= 2 || base <= maxDelay)
  {
    DoubleIsCappedPower(base, maxDelay, attempt - 1);
    assert base * Pow2(0) == base;
  }

  /** And it does happen: with a cap of 2^62 or more the second wait can come out negative. */
  lemma ShiftCanOverflow()
    ensures Overflows(TWO_62, TWO_63 - 1, 1) && Double(TWO_62, TWO_63 - 1, 1) == -TWO_63
  {
    assert ShiftLeft(TWO_62) == -TWO_63;
    assert Double(-TWO_63, TWO_63 - 1, 0) == -TWO_63;
  }

  /** `backoff`: the doubling loop, then a jitter drawn from [0, d/2), each value of which can come.
      `random` stands for the random source; its value is reduced to the range that is asked for. */
  method Backoff(base: Int64, maxDelay: Int64, attempt: int, random: nat) returns (d: Int64)
    ensures var w := Double(base, maxDelay, attempt - 1);
            && d <= w
            && (w >= 1 ==> 0 < d && 2 * d > w)
            && (w <= 1 ==> d == w)
            && (random < w / 2 ==> d == w - random)
    ensures 0 <= base <= maxDelay < TWO_62 && attempt >= 1 ==>
      0 <= d <= Nominal(base, maxDelay, attempt) <= 2 * d
  {
    d := base;
    var i := 0;
    while i < attempt - 1
      invariant 0 <= i
      invariant Double(d, maxDelay, attempt - 1 - i) == Double(base, maxDelay, attempt - 1)
    {
      d := ShiftLeft(d);
      if d > maxDelay {
        d := maxDelay;
        break;
      }
      i := i + 1;
    }
    assert d == Double(base, maxDelay, attempt - 1);
    if 0 <= base <= maxDelay < TWO_62 && attempt >= 1 {
      SmallNeverOverflows(base, maxDelay, attempt - 1);
      WaitIsNominal(base, maxDelay, attempt);
    }
    // Go divides toward zero; only a positive quotient draws a jitter.
    var whole: int := d;
    var jitter := if whole >= 0 then whole / 2 else -(-whole / 2);
    if jitter > 0 {
      SmallRemainder(random, jitter);
      d := d - random % jitter;
    }
  }

  lemma SmallRemainder(a: nat, b: nat)
    requires b > 0
    ensures a < b ==> a % b == a
  {
  }

  /** What a wait after an attempt may be: no longer than the documented one, and at least half of it. */
  ghost predicate Waited(o: Options, attempt: nat, d: int) {
    0 <= o.baseDelay <= o.maxDelay < TWO_62 && attempt >= 1 ==>
      0 <= d <= Nominal(o.baseDelay, o.maxDelay, attempt) <= 2 * d
  }

  /** The waits of a call, one after each attempt but the last. */
  ghost predicate AllWaited(o: Options, waits: seq<int>) {
    forall i :: 0 <= i < |waits| ==> Waited(o, i + 1, waits[i])
  }

  /** The wait after a failed attempt. */
  method Wait(o: Options, attempt: nat, random: nat, waits: seq<int>) returns (waits': seq<int>)
    requires attempt == |waits| + 1 && AllWaited(o, waits)
    ensures |waits'| == attempt && AllWaited(o, waits')
  {
    var d := Backoff(o.baseDelay, o.maxDelay, attempt, random);
    waits' := waits + [d];
  }

  function Sum(waits: seq<int>): int {
    if waits == [] then 0 else Sum(waits[..|waits| - 1]) + waits[|waits| - 1]
  }

  /** The sum of the first `n` documented waits. */
  function WaitBound(o: Options, n: nat): nat
    requires 0 <= o.baseDelay && 0 <= o.maxDelay
  {
    if n == 0 then 0 else WaitBound(o, n - 1) + Nominal(o.baseDelay, o.maxDelay, n)
  }

  /** All waiting of a call together lies between half the sum of the documented waits and that sum. */
  lemma {:induction false} TotalWait(o: Options, waits: seq<int>)
    requires AllWaited(o, waits) && 0 <= o.baseDelay <= o.maxDelay < TWO_62
    ensures 0 <= Sum(waits) <= WaitBound(o, |waits|) <= 2 * Sum(waits)
  {
    if waits != [] {
      TotalWait(o, waits[..|waits| - 1]);
      assert Waited(o, |waits|, waits[|waits| - 1]);
    }
  }

  /** With the default options a call waits at most 150 ms in all, of which at most 50 ms first. */
  lemma DefaultWaits(waits: seq<int>)
    requires AllWaited(DEFAULT, waits) && |waits| <= 2
    ensures 0 <= Sum(waits) <= 150_000_000
    ensures |waits| > 0 ==> 25_000_000 <= waits[0] <= 50_000_000
    ensures |waits| > 1 ==> 50_000_000 <= waits[1] <= 100_000_000
  {
    assert Pow2(1) == 2 * Pow2(0);
    if |waits| > 0 {
      assert Waited(DEFAULT, 1, waits[0]);
      assert waits[..1] == [waits[0]] && waits[..0] == [] && Sum([waits[0]]) == Sum([waits[0]][..0]) + waits[0];
    }
    if |waits| > 1 {
      assert Waited(DEFAULT, 2, waits[1]);
      assert waits == [waits[0]] + [waits[1]] && Sum(waits) == Sum(waits[..1]) + waits[1];
    }
  }
}
