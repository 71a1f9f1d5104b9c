/**
 * The loading screen: the generation countdown with its optional simulated
 * progress bar, and the bar the mock-test builder sets from finished tasks.
 */
module Progress {

  /** The countdown's "m:ss": whole minutes and the seconds below a minute. */
  function RemainingDisplay(remaining: nat): (r: (nat, nat))
    ensures 60 * r.0 + r.1 == remaining && r.1 < 60
  {
    (remaining / 60, remaining % 60)
  }

  /**
   * The simulated bar: the elapsed share of the estimate as a percentage,
   * capped at 95 so that it never looks finished before the data arrives.
   */
  function SimulatedPercent(total: nat, remaining: int): (p: real)
    requires total > 0
    ensures var share := 100.0 * (total - remaining) as real / total as real;
      && p <= 95.0
      && (share <= 95.0 ==> p == share)
      && (share >= 95.0 ==> p == 95.0)
  {
    var share := 100.0 * (total - remaining) as real / total as real;
    if share < 95.0 then share else 95.0
  }

  /** Less time remaining never lowers the simulated bar. */
  lemma SimulatedMonotone(total: nat, remaining: int, remaining': int)
    requires total > 0 && remaining' <= remaining
    ensures SimulatedPercent(total, remaining) <= SimulatedPercent(total, remaining')
  {
    var t := total as real;
    assert 100.0 * (total - remaining) as real / t <= 100.0 * (total - remaining') as real / t by {
      assert (total - remaining) as real <= (total - remaining') as real;
    }
  }

  /** The fifteen-second estimate of a topic-wise test, ten seconds in: two thirds. */
  lemma SimulatedExample()
    ensures SimulatedPercent(15, 5) == 200.0 / 3.0
  {
  }

  /** The width the bar is set to at expiry when it is simulated. */
  const FinalizingPercent: real := 98.0

  /**
   * The single generation countdown (`generationTimerInterval`) and the
   * width of the loading bar it drives.
   */
  class GenerationCountdown {
    var total: int
    var remaining: int
    var simulate: bool
    var running: bool
    var finalizing: bool
    /** Width of the loading bar, in percent. */
    var bar: real

    /**
     * While a simulating countdown runs, the bar shows the simulated share of
     * the time elapsed; once it has expired the bar shows 98.
     */
    ghost predicate Valid()
      reads this
    {
      && (running ==> !finalizing && 0 <= remaining <= total)
      && (simulate && running ==> total > 0 && bar == SimulatedPercent(total, remaining))
      && (simulate && finalizing ==> bar == FinalizingPercent)
    }

    /** No countdown yet; the bar is empty. */
    constructor ()
      ensures Valid() && !running && !finalizing && !simulate && bar == 0.0
    {
      total, remaining := 0, 0;
      simulate, running, finalizing := false, false, false;
      bar := 0.0;
    }

    /**
     * `startGenerationCountdown`: replaces any running countdown, resets the
     * bar when simulating and shows the first frame. A simulated bar needs a
     * positive estimate (its share divides by it).
     */
    method Start(seconds: nat, simulateProgress: bool)
      requires simulateProgress ==> seconds > 0
      modifies this
      ensures Valid() && running && !finalizing
      ensures total == seconds && remaining == seconds && simulate == simulateProgress
      ensures simulateProgress ==> bar == 0.0
      ensures !simulateProgress ==> bar == old(bar)
    {
      total, remaining := seconds, seconds;
      simulate := simulateProgress;
      finalizing := false;
      running := true;
      if simulate {
        bar := SimulatedPercent(total, remaining);
      }
    }

    /**
     * One second of the countdown: shows the new remaining time while it is
     * not negative; otherwise shows "Finalizing", sets a simulated bar to 98
     * and clears the interval.
     */
    method Tick()
      requires Valid() && running
      modifies this`remaining, this`bar, this`running, this`finalizing
      ensures Valid()
      ensures remaining == old(remaining) - 1
      ensures old(remaining) > 0 ==> running && !finalizing
      ensures old(remaining) == 0 ==> !running && finalizing
      ensures simulate ==> old(bar) <= bar
      ensures !simulate ==> bar == old(bar)
      ensures simulate && running ==> bar <= 95.0
    {
      remaining := remaining - 1;
      if remaining >= 0 {
        if simulate {
          SimulatedMonotone(total, remaining + 1, remaining);
          bar := SimulatedPercent(total, remaining);
        }
      } else {
        finalizing := true;
        if simulate {
          bar := FinalizingPercent;
        }
        running := false;
      }
    }

    /** `stopGenerationCountdown`: clears the interval; the bar is untouched. */
    method Stop()
      requires Valid()
      modifies this`running
      ensures Valid() && !running && bar == old(bar)
    {
      running := false;
    }

    /** A topic-wise test arrived: the bar fills to 100 and the countdown stops. */
    method Complete()
      requires Valid()
      modifies this`running, this`bar, this`simulate
      ensures Valid() && !running && bar == 100.0
    {
      bar := 100.0;
      simulate := false;
      running := false;
    }
  }

  /**
   * The mock builder's bar before task `completed` of `count`:
   * `Math.round(completed / count * 100)`, rounding halves up, over exact
   * rationals: floor(100 * completed / count + 1/2).
   */
  function ManualBar(completed: nat, count: nat): (p: nat)
    requires count > 0
  {
    (200 * completed + count) / (2 * count)
  }

  /** The manual bar is the nearest whole percentage (halves rounded up). */
  lemma ManualBarRounds(completed: nat, count: nat)
    requires count > 0
    ensures 2 * count * ManualBar(completed, count) <= 200 * completed + count
    ensures 200 * completed + count < 2 * count * (ManualBar(completed, count) + 1)
  {
  }

  /** The manual bar starts at 0 and reaches 100 when every task is done. */
  lemma ManualBarEnds(count: nat)
    requires count > 0
    ensures ManualBar(0, count) == 0 && ManualBar(count, count) == 100
  {
    DivUnique(count, 2 * count, 0);
    DivUnique(200 * count + count, 2 * count, 100);
  }

  /** The manual bar never goes back and never passes 100. */
  lemma ManualBarMonotone(c: nat, c': nat, count: nat)
    requires count > 0 && c <= c' <= count
    ensures ManualBar(c, count) <= ManualBar(c', count) <= 100
  {
    ManualBarEnds(count);
    DivMonotone(200 * c + count, 200 * c' + count, 2 * count);
    DivMonotone(200 * c' + count, 200 * count + count, 2 * count);
  }

  /** The quotient is the one multiple of `d` below `a` that the next one passes. */
  lemma DivUnique(a: int, d: int, q: int)
    requires d > 0 && d * q <= a < d * q + d
    ensures a / d == q
  {
    var r := a / d;
    assert d * r <= a < d * r + d;
    if r > q {
      MulMonotone(d, q + 1, r);
      assert false;
    } else if r < q {
      MulMonotone(d, r + 1, q);
      assert false;
    }
  }

  lemma MulMonotone(d: int, x: int, y: int)
    requires d > 0 && x <= y
    ensures d * x <= d * y
  {
    assert d * y - d * x == d * (y - x);
  }

  lemma DivMonotone(a: nat, b: nat, d: nat)
    requires a <= b && d > 0
    ensures a / d <= b / d
  {
    var qa, qb := a / d, b / d;
    assert d * qa <= a && b < d * qb + d;
    if qa > qb {
      MulMonotone(d, qb + 1, qa);
      assert false;
    }
  }
}
