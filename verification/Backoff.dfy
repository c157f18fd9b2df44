/** Retry delays (src/msgate/queue/backoff.py). Times are real numbers of seconds. */
module Backoff {

  const BASE: real := 5.0
  const MAXIMUM: real := 300.0

  function Pow2(n: nat): nat {
    if n == 0 then 1 else 2 * Pow2(n - 1)
  }

  function Min(a: real, b: real): real {
    if a <= b then a else b
  }

  /** The delay as the code writes it: one power, then the cap. */
  function Seconds(attempts: int, base: real, maximum: real): real {
    var a: nat := if attempts < 1 then 1 else attempts;
    Min(base * (Pow2(a - 1) as real), maximum)
  }

  /** The delay the queue schedules after the given attempt. */
  function Delay(attempts: int): real {
    Seconds(attempts, BASE, MAXIMUM)
  }

  /** The delay as its documentation tells it: start at the base, double each time, never pass the cap. */
  function Doubled(attempts: nat, base: real, maximum: real): real
    requires attempts >= 1
  {
    if attempts == 1 then Min(base, maximum)
    else Min(2.0 * Doubled(attempts - 1, base, maximum), maximum)
  }

  lemma {:induction false} SecondsIsCappedDoubling(attempts: nat, base: real, maximum: real)
    requires attempts >= 1 && base > 0.0 && maximum >= 0.0
    ensures Seconds(attempts, base, maximum) == Doubled(attempts, base, maximum)
  {
    if attempts > 1 {
      SecondsIsCappedDoubling(attempts - 1, base, maximum);
      NextDelay(attempts - 1, base, maximum);
    }
  }

  /** Capping before and after doubling, or only after, makes no difference. */
  lemma CapThenDouble(delay: real, maximum: real)
    requires delay >= 0.0 && maximum >= 0.0
    ensures Min(2.0 * delay, maximum) == Min(2.0 * Min(delay, maximum), maximum)
  {
  }

  lemma NextDelay(n: nat, base: real, maximum: real)
    requires n >= 1 && base > 0.0 && maximum >= 0.0
    ensures Seconds(n + 1, base, maximum) == Min(2.0 * Seconds(n, base, maximum), maximum)
  {
    var delay, twice := base * (Pow2(n - 1) as real), base * (Pow2(n) as real);
    ScaledPositive(base, n - 1);
    Doubles(base, n - 1);
    assert twice == 2.0 * delay;
    CapThenDouble(delay, maximum);
  }

  lemma {:induction false} ScaledPositive(base: real, n: nat)
    requires base > 0.0
    ensures base * (Pow2(n) as real) >= base
  {
    if n > 0 {
      ScaledPositive(base, n - 1);
      assert base * (Pow2(n) as real) == 2.0 * (base * (Pow2(n - 1) as real));
    }
  }

  lemma DelayGrows(n: nat, base: real, maximum: real)
    requires n >= 1 && base > 0.0
    ensures Seconds(n, base, maximum) <= Seconds(n + 1, base, maximum)
  {
    var delay, twice := base * (Pow2(n - 1) as real), base * (Pow2(n) as real);
    ScaledPositive(base, n - 1);
    Doubles(base, n - 1);
    assert 0.0 < delay <= twice;
    assert Min(delay, maximum) <= Min(twice, maximum);
  }

  lemma Doubles(base: real, n: nat)
    ensures base * (Pow2(n + 1) as real) == 2.0 * (base * (Pow2(n) as real))
  {
  }

  /** More attempts never wait less, whatever the cap and whatever attempt numbers are passed. */
  lemma {:induction false} SecondsMonotone(a: int, b: int, base: real, maximum: real)
    requires a <= b && base > 0.0
    ensures Seconds(a, base, maximum) <= Seconds(b, base, maximum)
    decreases b - a
  {
    if a < b {
      SecondsMonotone(a, b - 1, base, maximum);
      if b > 1 {
        DelayGrows(b - 1, base, maximum);
      }
    }
  }

  /** What the delays after attempts 1..n come to together. */
  ghost function LadderTotal(n: nat): real {
    if n == 0 then 0.0 else LadderTotal(n - 1) + Delay(n)
  }

  lemma {:induction false} LadderMonotone(m: nat, n: nat)
    requires m <= n
    ensures 0.0 <= LadderTotal(m) <= LadderTotal(n)
  {
    if n > 0 {
      ScaledPositive(BASE, n - 1);
      assert Delay(n) > 0.0;
      if m < n {
        LadderMonotone(m, n - 1);
      } else {
        LadderMonotone(m - 1, n - 1);
      }
    }
  }

  /** The delays after the seven attempts that can be followed by another one. */
  lemma FirstDelays()
    ensures Delay(1) == 5.0 && Delay(2) == 10.0 && Delay(3) == 20.0 && Delay(4) == 40.0
    ensures Delay(5) == 80.0 && Delay(6) == 160.0 && Delay(7) == 300.0
  {
    assert Pow2(1) == 2;
    assert Pow2(2) == 4;
    assert Pow2(3) == 8;
    assert Pow2(4) == 16;
    assert Pow2(5) == 32;
    assert Pow2(6) == 64;
  }

  /** Seven retries are scheduled 5 + 10 + 20 + 40 + 80 + 160 + 300 = 615 seconds apart in all. */
  lemma SevenRetries()
    ensures LadderTotal(7) == 615.0
  {
    FirstDelays();
    assert LadderTotal(1) == 5.0;
    assert LadderTotal(2) == 15.0;
    assert LadderTotal(3) == 35.0;
    assert LadderTotal(4) == 75.0;
    assert LadderTotal(5) == 155.0;
    assert LadderTotal(6) == 315.0;
  }
}
