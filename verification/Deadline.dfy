/**
 Fixed-rate deadlines: the division of components/pm_telemetry/pm_telemetry.c against the repeated addition of
 components/pm_network/pm_network.c that it replaces.
 */
module Deadline {
  import opened Esp

  const I64_MAX: int := 0x7FFF_FFFF_FFFF_FFFF

  type I64 = x: int | -I64_MAX - 1 <= x <= I64_MAX

  /** The points a periodic task runs at. */
  function Grid(start: int, period: int, k: int): int { start + k * period }

  /** `r` is the first point of the grid after `now`, the start itself aside. */
  ghost predicate FirstAfter(start: int, now: int, period: int, r: int) {
    r > now && (exists k :: k >= 1 && r == Grid(start, period, k)) &&
    forall k :: k >= 1 && Grid(start, period, k) > now ==> r <= Grid(start, period, k)
  }

  /** `pm_telemetry_next_fixed_deadline`; `None` stands for signed overflow, which C leaves undefined. */
  function NextFixedDeadline(previous: I64, now: I64, period: I64): Option<I64> {
    if previous < 0 || now < 0 || period <= 0 then Some(now)
    else if previous > now then Some(previous)
    else
      var elapsed := now - previous;
      if elapsed / period + 1 > I64_MAX then None
      else
        var periods := elapsed / period + 1;
        if periods > (I64_MAX - previous) / period then Some(I64_MAX)
        else Fits(previous, period, periods); Some(previous + periods * period)
  }

  /** The guard before the multiplication is exact. */
  lemma Fits(previous: int, period: int, periods: int)
    requires 0 <= previous <= I64_MAX && period > 0 && periods >= 0
    ensures periods <= (I64_MAX - previous) / period <==> previous + periods * period <= I64_MAX
  {
    var room := I64_MAX - previous;
    var q := room / period;
    assert room == q * period + room % period;
    if periods <= q { Scales(periods, q, period); }
    else { Scales(q + 1, periods, period); assert (q + 1) * period == q * period + period; }
  }

  lemma Scales(a: int, b: int, p: int)
    requires a <= b && p > 0
    ensures a * p <= b * p
  {
    assert b * p - a * p == (b - a) * p;
  }

  lemma FirstAfterIs(start: int, now: int, period: int, k: int)
    requires period > 0 && k >= 1 && Grid(start, period, k - 1) <= now < Grid(start, period, k)
    ensures FirstAfter(start, now, period, Grid(start, period, k))
  {
    forall h | h >= 1 && Grid(start, period, h) > now ensures Grid(start, period, k) <= Grid(start, period, h) {
      if h < k { Scales(h, k - 1, period); assert false; }
      Scales(k, h, period);
    }
  }

  lemma FirstAfterIsUnique(start: int, now: int, period: int, r: int, s: int)
    requires FirstAfter(start, now, period, r) && FirstAfter(start, now, period, s)
    ensures r == s
  {
  }

  /** The division counts the periods that have passed. */
  lemma DivisionFindsIt(start: int, now: int, period: int)
    requires start <= now && period > 0
    ensures FirstAfter(start, now, period, Grid(start, period, (now - start) / period + 1))
  {
    var k := (now - start) / period + 1;
    assert now - start == (k - 1) * period + (now - start) % period;
    assert k * period == (k - 1) * period + period;
    FirstAfterIs(start, now, period, k);
  }

  /** The do-while loop of `pm_network_heartbeat_complete`, without a limit on the numbers. */
  method RepeatedAddition(next: int, now: int, period: int) returns (r: int)
    requires period > 0
    ensures next <= now ==> FirstAfter(next, now, period, r)
    ensures next > now ==> r == next + period
  {
    r := next + period;
    ghost var k := 1;
    while r <= now
      invariant k >= 1 && r == Grid(next, period, k) && (k > 1 ==> r - period <= now)
      decreases now - r
    {
      r := r + period;
      k := k + 1;
      assert Grid(next, period, k) == Grid(next, period, k - 1) + period;
    }
    if next <= now { FirstAfterIs(next, now, period, k); }
  }

  /**
   The closed form is the loop: for every `0 <= previous <= now` and every period, it is the first grid point after
   now if that point fits in 64 bits, and otherwise the largest 64-bit number, unless the count of periods overflows.
   */
  lemma ClosedFormIsTheLoop(previous: I64, now: I64, period: I64, point: int)
    requires 0 <= previous <= now && period > 0 && FirstAfter(previous, now, period, point)
    requires period >= 2 || now - previous < I64_MAX
    ensures NextFixedDeadline(previous, now, period) == Some(if point <= I64_MAX then point else I64_MAX)
  {
    var periods := (now - previous) / period + 1;
    DivisionFindsIt(previous, now, period);
    FirstAfterIsUnique(previous, now, period, point, Grid(previous, period, periods));
    Fits(previous, period, periods);
    CountFits(previous, now, period);
  }

  lemma CountFits(previous: I64, now: I64, period: I64)
    requires 0 <= previous <= now && period > 0
    ensures (now - previous) / period + 1 > I64_MAX <==> period == 1 && now - previous == I64_MAX
  {
    var e := now - previous;
    if period >= 2 {
      assert e == (e / period) * period + e % period;
      if e / period >= I64_MAX { Scales(I64_MAX, e / period, period); Scales(2, period, I64_MAX); assert false; }
    }
  }

  /** Exactly one argument triple of the guarded region makes the count of periods overflow. */
  lemma OverflowExactly(previous: I64, now: I64, period: I64)
    ensures NextFixedDeadline(previous, now, period).None? <==> previous == 0 && now == I64_MAX && period == 1
  {
    if 0 <= previous <= now && period > 0 { CountFits(previous, now, period); }
  }

  /* ---- Runs ---- */

  /** How a request completes: with success, or with a failure and the back-off delay that follows it. */
  datatype Completion = Succeeded(now: I64) | Failed(now: I64, delayMs: U32)

  /** `pm_network_telemetry_complete`: a failure starts a new grid at the end of its delay. */
  function Rescheduled(start: I64, period: I64, completions: seq<Completion>): Option<I64>
    requires forall i :: 0 <= i < |completions| ==> Timely(period, completions[i])
  {
    if completions == [] then Some(start)
    else
      var c := completions[|completions| - 1];
      assert Timely(period, c);
      match c
      case Failed(now, delay) => (var point: I64 := now + delay * 1000; Some(point))
      case Succeeded(now) =>
        var before := Rescheduled(start, period, completions[..|completions| - 1]);
        if before.None? then None else NextFixedDeadline(before.value, now, period)
  }

  /** No completion is so late that the next point would not fit. */
  predicate Timely(period: I64, c: Completion) {
    0 <= c.now && c.now + (if c.Failed? then c.delayMs * 1000 else period) <= I64_MAX
  }

  /** Where the grid in force starts: at the end of the last failure's delay, or at the first deadline. */
  function Anchor(start: I64, completions: seq<Completion>): int {
    if completions == [] then start
    else
      var c := completions[|completions| - 1];
      if c.Failed? then c.now + c.delayMs * 1000 else Anchor(start, completions[..|completions| - 1])
  }

  /**
   A fixed rate does not drift: however late requests complete, every deadline is a point of the grid in force, not
   before the last completion, and after it if that one succeeded. Only a failure leaves the grid.
   */
  lemma {:induction false} NoDrift(start: I64, period: I64, completions: seq<Completion>) returns (k: nat)
    requires 0 <= start && period > 0 && forall i :: 0 <= i < |completions| ==> Timely(period, completions[i])
    ensures Rescheduled(start, period, completions).Some?
    ensures Rescheduled(start, period, completions).value == Grid(Anchor(start, completions), period, k) >= 0
    ensures completions != [] ==>
              var last, next := completions[|completions| - 1], Rescheduled(start, period, completions).value;
              next >= last.now && (last.Succeeded? ==> next > last.now)
    decreases |completions|
  {
    k := 0;
    if completions != [] && completions[|completions| - 1].Succeeded? {
      var init, now := completions[..|completions| - 1], completions[|completions| - 1].now;
      k := NoDrift(start, period, init);
      var before := Rescheduled(start, period, init).value;
      if before <= now {
        var n := NextPoint(before, now, period);
        assert k * period + n * period == (k + n) * period;
        k := k + n;
      }
    }
  }

  /** The next deadline of a success that is late but fits. */
  lemma NextPoint(before: I64, now: I64, period: I64) returns (n: nat)
    requires 0 <= before <= now && period > 0 && now + period <= I64_MAX
    ensures NextFixedDeadline(before, now, period) == Some(before + n * period) && before + n * period > now
  {
    n := (now - before) / period + 1;
    DivisionFindsIt(before, now, period);
    assert now - before == (n - 1) * period + (now - before) % period;
    assert n * period == (n - 1) * period + period;
    ClosedFormIsTheLoop(before, now, period, Grid(before, period, n));
  }
}
