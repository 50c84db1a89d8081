/** The arithmetic of the PWM time base (peripherals/timer.c): splitting a frequency into
    prescaler and reload, reading the frequency back, and turning a duty into a compare
    value, all in 32-bit words. */
module Timebase {
  import opened Words
  import opened Status

  const TIMER_PRESCALER_MAX: nat := 65535
  const TIMER_RELOAD_MAX: nat := 65535
  const TIMER_DUTY_MAX: nat := 1000
  const TIMER_FREQ_MIN_HZ: nat := 1
  const TIMER_FREQ_MAX_HZ: nat := 1000000
  const TIMER_CLOCK_HZ: nat := 170_000_000

  /** The prescaler and reload chosen for a period of `total` clock ticks. */
  function PrescalerFor(total: nat): nat
    requires total >= 2
  {
    (total - 1) / 0x1_0000
  }

  function ReloadFor(total: nat): int
    requires total >= 2
  {
    total / (PrescalerFor(total) + 1) - 1
  }

  /** Ticks of one period as programmed. */
  function Period(psc: nat, arr: nat): nat { (psc + 1) * (arr + 1) }

  lemma DivBounds(a: nat, b: nat)
    requires b > 0
    ensures b * (a / b) <= a < b * (a / b) + b
  {
    assert a == b * (a / b) + a % b;
  }

  lemma DivLower(a: nat, b: nat, q: nat)
    requires b > 0 && b * q <= a
    ensures q <= a / b
  {
    if a / b < q {
      MulMono(a / b + 1, q, b);
      DivBounds(a, b);
      assert false;
    }
  }

  lemma DivUpper(a: nat, b: nat, q: nat)
    requires b > 0 && a < b * (q + 1)
    ensures a / b <= q
  {
    if a / b > q {
      MulMono(q + 1, a / b, b);
      DivBounds(a, b);
      assert false;
    }
  }

  /** A prescaler of `p` brings `total` ticks within a 16-bit reload. */
  predicate WithinReload(total: nat, p: nat) { total <= 0x1_0000 * (p + 1) }

  /** The split of `total` ticks: both registers fit 16 bits, the reload is not zero, the
      prescaler is the least that brings the period within a 16-bit reload, and the
      programmed period falls short of `total` by less than one prescaler step. */
  lemma SplitProperties(total: uint32)
    requires total >= 2
    ensures var p, r := PrescalerFor(total), ReloadFor(total);
      && p <= TIMER_PRESCALER_MAX
      && 1 <= r <= TIMER_RELOAD_MAX
      && WithinReload(total, p)
      && (forall q: nat :: WithinReload(total, q) ==> p <= q)
      && total - p <= Period(p, r) <= total
  {
    var p, r := PrescalerFor(total), ReloadFor(total);
    DivBounds(total - 1, 0x1_0000);
    DivBounds(total, p + 1);
    assert Period(p, r) == (p + 1) * (total / (p + 1));
    assert (p + 1) * 2 <= total;
    DivLower(total, p + 1, 2);
    assert total < (p + 1) * (0x1_0000 + 1);
    DivUpper(total, p + 1, 0x1_0000);
  }

  /** timer_compute_timebase(): succeeds exactly when a period has at least two ticks, so
      neither of its later range tests ever fires. */
  method ComputeTimebase(clkHz: uint32, frequencyHz: uint32) returns (status: Status, psc: nat, arr: nat)
    requires frequencyHz > 0
    ensures status == if clkHz / frequencyHz >= 2 then Ok else InvalidArg
    ensures status == Ok ==> psc == PrescalerFor(clkHz / frequencyHz) && arr == ReloadFor(clkHz / frequencyHz)
    ensures status == Ok ==> psc <= TIMER_PRESCALER_MAX && 1 <= arr <= TIMER_RELOAD_MAX
    ensures status == Ok ==> Period(psc, arr) < 0x1_0000_0000
  {
    psc, arr := 0, 0;
    var total := clkHz / frequencyHz;
    if total < 2 {
      return InvalidArg, psc, arr;
    }
    TotalFits(clkHz, frequencyHz);
    SplitProperties(total);
    var prescaler := (total - 1) / (TIMER_RELOAD_MAX + 1);
    if prescaler > TIMER_PRESCALER_MAX {
      return InvalidArg, psc, arr;
    }
    var reload := total / (prescaler + 1) - 1;
    if reload == 0 || reload > TIMER_RELOAD_MAX {
      return InvalidArg, psc, arr;
    }
    return Ok, prescaler, reload;
  }

  // ----- read-back

  /** The frequency timer_get_frequency() reports: a 32-bit product and a division. */
  function ReadBack(clkHz: uint32, psc: nat, arr: nat): nat {
    var period := Period(psc, arr) % 0x1_0000_0000;
    if period == 0 then 0 else clkHz / period
  }

  /** The computation itself; no time base in use makes the product zero. */
  method ComputeReadBack(clkHz: uint32, psc: uint32, arr: uint32) returns (frequencyHz: nat)
    requires Period(psc, arr) < 0x1_0000_0000
    ensures frequencyHz == ReadBack(clkHz, psc, arr)
  {
    PeriodPositive(psc, arr);
    var period := (psc + 1) * (arr + 1) % 0x1_0000_0000;
    return clkHz / period;
  }

  lemma PeriodPositive(psc: nat, arr: nat)
    requires Period(psc, arr) < 0x1_0000_0000
    ensures 0 < Period(psc, arr) == Period(psc, arr) % 0x1_0000_0000
  {
    MulMono(1, psc + 1, arr + 1);
  }

  /** The 32-bit product neither wraps nor is zero, and the reported frequency is never
      below the requested one. */
  lemma ReadBackNotBelow(clkHz: uint32, f: uint32)
    requires f > 0 && clkHz / f >= 2
    ensures var p, r := PrescalerFor(clkHz / f), ReloadFor(clkHz / f);
      && r >= 0
      && 0 < Period(p, r) < 0x1_0000_0000
      && Period(p, r) % 0x1_0000_0000 == Period(p, r)
      && f <= ReadBack(clkHz, p, r)
  {
    var total := clkHz / f;
    DivBounds(clkHz, f);
    TotalFits(clkHz, f);
    SplitProperties(total);
    var n := Period(PrescalerFor(total), ReloadFor(total));
    MulMono(n, total, f);
    assert n * f == f * n;
    DivLower(clkHz, n, f);
  }

  lemma TotalFits(clkHz: nat, f: nat)
    requires f > 0
    ensures clkHz / f <= clkHz
  {
    DivBounds(clkHz, f);
    MulMono(1, f, clkHz / f);
  }

  /** Whenever a period has at least 170 ticks the reported frequency exceeds the requested
      one by less than one part in 170. */
  lemma ReadBackNotMuchAbove(clkHz: uint32, f: uint32)
    requires f > 0 && clkHz / f >= 170
    ensures var p, r := PrescalerFor(clkHz / f), ReloadFor(clkHz / f);
      r >= 0 && 0 < Period(p, r) < 0x1_0000_0000 && 170 * ReadBack(clkHz, p, r) < 171 * f
  {
    var total := clkHz / f;
    var n := Period(PrescalerFor(total), ReloadFor(total));
    ReadBackNotBelow(clkHz, f);
    TotalFits(clkHz, f);
    SplitProperties(total);
    LongPeriod(total, n);
    DivBounds(clkHz, n);
    TotalBound(clkHz, f);
    OvershootBounded(n, clkHz / n, f, total + 1, clkHz);
  }

  lemma TotalBound(clkHz: nat, f: nat)
    requires f > 0
    ensures clkHz < f * (clkHz / f + 1)
  {
    DivBounds(clkHz, f);
  }

  lemma LongPeriod(total: nat, n: nat)
    requires total >= 170 && total - PrescalerFor(total) <= n
    ensures 170 * (total + 1) <= 171 * n
  {
    DivBounds(total - 1, 0x1_0000);
  }

  lemma OvershootBounded(n: nat, g: nat, f: nat, t: nat, clk: nat)
    requires n * g <= clk < f * t && 170 * t <= 171 * n
    ensures 170 * g < 171 * f
  {
    if 170 * g >= 171 * f {
      CrossMultiply(n, g, f, t);
      assert false;
    }
  }

  lemma CrossMultiply(n: nat, g: nat, f: nat, t: nat)
    requires 170 * g >= 171 * f && 170 * t <= 171 * n
    ensures n * g >= f * t
  {
    MulMono(171 * f, 170 * g, n);
    MulMono(170 * t, 171 * n, f);
    assert 170 * (n * g) == (170 * g) * n;
    assert (171 * f) * n == (171 * n) * f;
    assert (170 * t) * f == 170 * (f * t);
  }

  /** At the 170 MHz timer clock every frequency the driver admits is reachable, and the
      achieved frequency g satisfies f <= g < f * 171/170. */
  lemma AchievedFrequency(f: nat)
    requires TIMER_FREQ_MIN_HZ <= f <= TIMER_FREQ_MAX_HZ
    ensures TIMER_CLOCK_HZ / f >= 2
    ensures var p, r := PrescalerFor(TIMER_CLOCK_HZ / f), ReloadFor(TIMER_CLOCK_HZ / f);
      && r >= 0 && 0 < Period(p, r) < 0x1_0000_0000
      && f <= ReadBack(TIMER_CLOCK_HZ, p, r)
      && 170 * ReadBack(TIMER_CLOCK_HZ, p, r) < 171 * f
  {
    DivLower(TIMER_CLOCK_HZ, f, 170);
    ReadBackNotBelow(TIMER_CLOCK_HZ, f);
    ReadBackNotMuchAbove(TIMER_CLOCK_HZ, f);
  }

  // ----- duty

  /** The compare value for a duty in tenths of a percent. */
  function Compare(arr: nat, duty: nat): nat { (arr + 1) * duty / TIMER_DUTY_MAX }

  lemma ProductFits(arr: nat, duty: nat)
    requires arr <= TIMER_RELOAD_MAX && duty <= TIMER_DUTY_MAX
    ensures (arr + 1) * duty % 0x1_0000_0000 == (arr + 1) * duty
  {
    MulMono(arr + 1, 0x1_0000, duty);
  }

  /** timer_duty_to_compare(), in wrapping 32-bit arithmetic. */
  method DutyToCompare(arr: uint32, dutyPermille: uint16) returns (compare: uint32)
    ensures arr <= TIMER_RELOAD_MAX && dutyPermille <= TIMER_DUTY_MAX ==> compare == Compare(arr, dutyPermille)
  {
    var period := (arr + 1) % 0x1_0000_0000;
    if dutyPermille >= TIMER_DUTY_MAX {
      return period;
    }
    var product := period * dutyPermille;
    if arr <= TIMER_RELOAD_MAX { ProductFits(arr, dutyPermille); }
    return product % 0x1_0000_0000 / TIMER_DUTY_MAX;
  }

  /** A compare value stays within the period, is monotone in the duty, reaches the period
      exactly at 100 % and is off by less than one tick from the exact ratio. */
  lemma CompareBounds(arr: nat, duty: nat)
    requires duty <= TIMER_DUTY_MAX
    ensures Compare(arr, duty) <= arr + 1
    ensures Compare(arr, TIMER_DUTY_MAX) == arr + 1
    ensures 1000 * Compare(arr, duty) <= (arr + 1) * duty < 1000 * Compare(arr, duty) + 1000
  {
    DivBounds((arr + 1) * duty, TIMER_DUTY_MAX);
    MulMono(duty, TIMER_DUTY_MAX, arr + 1);
    assert (arr + 1) * duty <= (arr + 1) * TIMER_DUTY_MAX;
  }

  /** A reload of 65535 takes a period of exactly 65536 k ticks. */
  lemma FullReloadPeriod(total: nat)
    requires total >= 2 && ReloadFor(total) == 65535 && WithinReload(total, PrescalerFor(total))
    ensures total == 0x1_0000 * (PrescalerFor(total) + 1)
  {
    DivBounds(total, PrescalerFor(total) + 1);
  }

  /** 170 MHz is not within n of a multiple 65536 n below it. */
  lemma ClockIsBetween(n: nat, f: nat)
    requires f <= n && 0x1_0000 * n <= TIMER_CLOCK_HZ
    ensures 0x1_0000 * n + f <= TIMER_CLOCK_HZ
  {
    assert n <= 2593;
  }

  lemma NoMultipleOfFullPeriod(f: nat, k: nat)
    requires f > 0 && k > 0
    ensures TIMER_CLOCK_HZ / f != 0x1_0000 * k
  {
    if TIMER_CLOCK_HZ / f == 0x1_0000 * k {
      DivBounds(TIMER_CLOCK_HZ, f);
      assert f * (0x1_0000 * k) == (0x1_0000 * k) * f == 0x1_0000 * (k * f);
      MulMono(1, k, f);
      ClockIsBetween(k * f, f);
      assert false;
    }
  }

  /** No admitted frequency gives a reload of 65535 at 170 MHz, so even the 100 % compare
      value, one above the reload, fits a 16-bit compare register. */
  lemma FullDutyFits(f: nat, duty: nat)
    requires TIMER_FREQ_MIN_HZ <= f <= TIMER_FREQ_MAX_HZ && duty <= TIMER_DUTY_MAX
    ensures TIMER_CLOCK_HZ / f >= 2
    ensures 1 <= ReloadFor(TIMER_CLOCK_HZ / f) <= 65534
    ensures Compare(ReloadFor(TIMER_CLOCK_HZ / f), duty) <= 65535
  {
    var total := TIMER_CLOCK_HZ / f;
    DivLower(TIMER_CLOCK_HZ, f, 170);
    TotalFits(TIMER_CLOCK_HZ, f);
    SplitProperties(total);
    if ReloadFor(total) == 65535 {
      FullReloadPeriod(total);
      NoMultipleOfFullPeriod(f, PrescalerFor(total) + 1);
      assert false;
    }
    CompareBounds(ReloadFor(total), duty);
  }
}
