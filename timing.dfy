/**
 * Time arithmetic of the test session: the results screen's "Xm Ys", the
 * countdown's h:mm:ss, and the sum of the pause intervals.
 */
module Timing {

  /**
   * JavaScript's `%` on integers: the remainder takes the sign of the
   * dividend (it truncates toward zero, unlike Dafny's Euclidean `%`).
   * It differs from the dividend by a multiple of the divisor and is the
   * one such value strictly within a divisor of zero on the dividend's side.
   */
  function JsRem(a: int, b: int): (r: int)
    requires b > 0
    ensures (a - r) % b == 0
    ensures a >= 0 ==> 0 <= r < b
    ensures a < 0 ==> -b < r <= 0
  {
    RemaindersDivide(a, b);
    if a >= 0 then a % b else -((-a) % b)
  }

  /** Taking away a remainder, or adding the remainder of the negation, leaves a multiple. */
  lemma RemaindersDivide(a: int, b: int)
    requires b > 0
    ensures (a - a % b) % b == 0
    ensures (a + (-a) % b) % b == 0
  {
    var q, q' := a / b, (-a) / b;
    assert a - a % b == b * q;
    MultipleHasNoRemainder(b, q);
    assert a + (-a) % b == b * -q' by {
      assert -a == b * q' + (-a) % b;
      assert b * -q' == -(b * q');
    }
    MultipleHasNoRemainder(b, -q');
  }

  /** A multiple of `b` leaves no remainder. */
  lemma MultipleHasNoRemainder(b: int, k: int)
    requires b > 0
    ensures (b * k) % b == 0
  {
    var x := b * k;
    var d := k - x / b;
    assert b * d == x % b;
    if d > 0 {
      assert false;
    } else if d < 0 {
      assert false;
    }
  }

  /**
   * `formatTimeTaken`: whole seconds are `Math.floor(ms / 1000)`, minutes
   * their floor over 60, seconds JavaScript's `%` by 60. For a duration that
   * is not negative this splits the whole seconds into minutes and a
   * remainder below a minute.
   */
  function FormatTimeTaken(ms: int): (r: (int, int))
    ensures ms >= 0 ==> 60 * r.0 + r.1 == ms / 1000 && 0 <= r.1 < 60 && r.0 >= 0
    ensures ms >= 0 ==> 60000 * r.0 + 1000 * r.1 <= ms < 60000 * r.0 + 1000 * r.1 + 1000
  {
    var totalSeconds := ms / 1000;
    (totalSeconds / 60, JsRem(totalSeconds, 60))
  }

  /**
   * The countdown's display of `timer` seconds: hours, then minutes and
   * seconds below an hour (the `parseInt` truncations of the source, which
   * are floors on a counter that is never negative when shown).
   */
  function CountdownDisplay(timer: nat): (r: (nat, nat, nat))
    ensures 3600 * r.0 + 60 * r.1 + r.2 == timer
    ensures r.1 < 60 && r.2 < 60
  {
    (timer / 3600, (timer % 3600) / 60, timer % 60)
  }

  /** A closed pause: from the pause click to the resume click (or submit). */
  datatype Interval = Interval(from: int, to: int)

  /** Sum of the lengths of all pause intervals. */
  function SumPauses(pauses: seq<Interval>): int
  {
    if |pauses| == 0 then 0
    else SumPauses(pauses[..|pauses| - 1]) + (pauses[|pauses| - 1].to - pauses[|pauses| - 1].from)
  }

  /**
   * The pauses follow one another inside the window [start, end]: each ends
   * no earlier than it starts and no later than the next one starts.
   */
  predicate Chained(pauses: seq<Interval>, start: int, end: int)
  {
    if |pauses| == 0 then start <= end
    else
      var last := pauses[|pauses| - 1];
      Chained(pauses[..|pauses| - 1], start, last.from) && last.from <= last.to <= end
  }

  /** The window of chained pauses can be widened to the right. */
  lemma ChainedWithin(pauses: seq<Interval>, start: int, end: int, end': int)
    requires Chained(pauses, start, end) && end <= end'
    ensures Chained(pauses, start, end')
  {
  }

  /** Chained pauses can be extended by one that starts after the window. */
  lemma ChainedExtend(pauses: seq<Interval>, start: int, end: int, p: Interval, end': int)
    requires Chained(pauses, start, end) && end <= p.from <= p.to <= end'
    ensures Chained(pauses + [p], start, end')
  {
    assert (pauses + [p])[..|pauses|] == pauses;
  }

  /**
   * Pauses that follow one another inside [start, end] add up to no more
   * than the window, so the time taken `end - start - SumPauses` is never
   * negative and never more than the wall-clock time.
   */
  lemma {:induction false} PausesFitWindow(pauses: seq<Interval>, start: int, end: int)
    requires Chained(pauses, start, end)
    ensures 0 <= SumPauses(pauses) <= end - start
  {
    if |pauses| > 0 {
      var last := pauses[|pauses| - 1];
      PausesFitWindow(pauses[..|pauses| - 1], start, last.from);
    }
  }
}
