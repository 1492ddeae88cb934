/** The exponential and the equal-jitter backoffs, on 64-bit durations that wrap around. Random draws
    are parameters; a draw from an empty range panics. */
module Backoffs {
  const TWO61 := 0x2000_0000_0000_0000
  const TWO62 := 0x4000_0000_0000_0000
  const TWO63 := 0x8000_0000_0000_0000
  const TWO64 := 0x1_0000_0000_0000_0000

  predicate Int64(x: int) { -TWO63 <= x < TWO63 }

  /** Two's complement. */
  function Wrap(x: int): (r: int)
    ensures Int64(r)
    ensures Int64(x) ==> r == x
  {
    (x + TWO63) % TWO64 - TWO63
  }

  /** Division by two, toward zero. */
  function Half(x: int): int { if x >= 0 then x / 2 else -(-x / 2) }

  /** Doubling with the cap of both backoffs. */
  function Doubled(d: int, max: int): int {
    var twice := Wrap(2 * d);
    if twice > max then max else twice
  }

  lemma DoubledPositive(d: int, max: int)
    requires 0 <= d < TWO62
    ensures Doubled(d, max) == Min(2 * d, max)
  {}

  lemma DoubledOverflows(d: int, max: int)
    requires TWO62 <= d < TWO63 && 0 <= max < TWO63
    ensures Doubled(d, max) < 0
  {
    assert Wrap(2 * d) == 2 * d - TWO64;
  }

  function Min(a: int, b: int): int { if a < b then a else b }

  /** a doubled k times. */
  function Times2(a: int, k: nat): int {
    if k == 0 then a else 2 * Times2(a, k - 1)
  }

  lemma {:induction false} Times2Grows(a: int, k: nat)
    requires a > 0
    ensures Times2(a, k) >= a + k
  {
    if k > 0 { Times2Grows(a, k - 1); }
  }

  // ---------- Equal jitter ----------

  /** The duration after k waits since the last reset. */
  function JitterDuration(init: int, max: int, k: nat): int {
    if k == 0 then Wrap(2 * init) else Doubled(JitterDuration(init, max, k - 1), max)
  }

  /** What it is meant to be. */
  function IdealDuration(init: int, max: int, k: nat): int {
    if k == 0 then 2 * init else Min(Times2(2 * init, k), max)
  }

  predicate Sound(init: int, max: int) { 0 < init < TWO61 && 0 < max < TWO62 }

  /** The duration doubles up to the cap. */
  lemma {:induction false} JitterDoubles(init: int, max: int, k: nat)
    requires Sound(init, max)
    ensures JitterDuration(init, max, k) == IdealDuration(init, max, k)
    ensures 0 < JitterDuration(init, max, k) < TWO62 && (k > 0 ==> JitterDuration(init, max, k) <= max)
  {
    if k > 0 {
      JitterDoubles(init, max, k - 1);
      var before := JitterDuration(init, max, k - 1);
      DoubledPositive(before, max);
      Times2Grows(2 * init, k);
    } else {
      assert Wrap(2 * init) == 2 * init;
    }
  }

  /** While it stays below 2^62 the duration at least doubles, so it does not stay there. */
  lemma {:induction false} JitterReaches(init: int, max: int, k: nat)
    requires 0 < init < TWO61 && TWO62 <= max < TWO63
    requires forall i: nat | i <= k :: JitterDuration(init, max, i) < TWO62
    ensures JitterDuration(init, max, k) >= Times2(2 * init, k)
  {
    if k > 0 {
      JitterReaches(init, max, k - 1);
      Times2Grows(2 * init, k - 1);
      DoubledPositive(JitterDuration(init, max, k - 1), max);
    }
  }

  /** The duration that a wait draws from is positive after every number of waits: there is never a panic. */
  ghost predicate NeverPanics(init: int, max: int) {
    init > 0 && forall k: nat :: JitterDuration(init, max, k) > 0
  }

  lemma JitterOverflows(init: int, max: int) returns (k: nat)
    requires 0 < init < TWO61 && TWO62 <= max < TWO63
    ensures JitterDuration(init, max, k) < 0
  {
    if i: nat :| JitterDuration(init, max, i) >= TWO62 {
      JitterBelowMax(init, max, i);
      DoubledOverflows(JitterDuration(init, max, i), max);
      k := i + 1;
    } else {
      JitterReaches(init, max, TWO62);
      Times2Grows(2 * init, TWO62);
      assert false;
    }
  }

  lemma {:induction false} JitterBelowMax(init: int, max: int, k: nat)
    requires 0 < init < TWO61 && TWO62 <= max < TWO63
    ensures JitterDuration(init, max, k) <= max
  {
    if k == 0 { assert Wrap(2 * init) == 2 * init; }
  }

  /** Exactly when the configured durations leave room for the doublings. */
  lemma NeverPanicsIff(init: int, max: int)
    requires Int64(init) && Int64(max)
    ensures NeverPanics(init, max) <==> Sound(init, max)
  {
    if Sound(init, max) {
      forall k: nat ensures JitterDuration(init, max, k) > 0 { JitterDoubles(init, max, k); }
    } else if init > 0 {
      var k := PanicAt(init, max);
    }
  }

  lemma PanicAt(init: int, max: int) returns (k: nat)
    requires 0 < init < TWO63 && Int64(max) && !Sound(init, max)
    ensures JitterDuration(init, max, k) <= 0
  {
    if init >= TWO62 {
      k := 0;
      assert Wrap(2 * init) == 2 * init - TWO64;
    } else {
      assert Wrap(2 * init) == 2 * init;
      assert JitterDuration(init, max, 1) == Doubled(JitterDuration(init, max, 0), max);
      if max <= 0 {
        k := 1;
      } else if init >= TWO61 {
        k := 1;
        DoubledOverflows(2 * init, max);
      } else {
        k := JitterOverflows(init, max);
      }
    }
  }

  /** The range the k-th wait draws its jitter from. */
  function JitterRange(init: int, max: int, k: nat): int {
    if k == 0 then init else JitterDuration(init, max, k - 1)
  }

  /** The wait number k, counted from zero, with a given draw. */
  function JitterWait(init: int, max: int, k: nat, draw: int): int {
    Wrap(Half(JitterDuration(init, max, k)) + draw)
  }

  /** A wait is at least half the duration, and the sum does not overflow. */
  lemma JitterWaitBounds(init: int, max: int, k: nat, draw: int)
    requires Sound(init, max) && 0 <= draw < JitterRange(init, max, k)
    ensures var d := IdealDuration(init, max, k);
            JitterWait(init, max, k, draw) == d / 2 + draw
                && d / 2 <= JitterWait(init, max, k, draw) < d / 2 + JitterRange(init, max, k)
  {
    JitterDoubles(init, max, k);
    if k > 0 { JitterDoubles(init, max, k - 1); }
  }

  /** The cap on the waits holds for all waits and draws exactly when the first duration is below the maximum. */
  lemma JitterCapIff(init: int, max: int)
    requires Sound(init, max)
    ensures (forall k: nat, draw | 0 <= draw < JitterRange(init, max, k) ::
            JitterWait(init, max, k, draw) < max / 2 + max)
            <==> 2 * init <= max
  {
    if 2 * init <= max {
      forall k: nat, draw | 0 <= draw < JitterRange(init, max, k)
          ensures JitterWait(init, max, k, draw) < max / 2 + max {
        JitterWaitBounds(init, max, k, draw);
        JitterDoubles(init, max, k);
        if k > 0 { JitterDoubles(init, max, k - 1); }
      }
    } else {
      JitterDoubles(init, max, 0);
      JitterDoubles(init, max, 1);
      assert IdealDuration(init, max, 1) == max;
      JitterWaitBounds(init, max, 1, 2 * init - 1);
      assert JitterWait(init, max, 1, 2 * init - 1) >= max / 2 + max;
    }
  }

  datatype Outcome = Panicked | Stopped | Waited(backoff: int)

  class EqualJitterBackoff {
    const init: int
    const max: int
    var duration: int
    var nextRand: int
    /** Waits since the last reset. */
    ghost var waits: nat

    ghost predicate Valid()
      reads this
    {
      0 < init && Int64(init) && Int64(max) && duration == JitterDuration(init, max, waits)
          && 0 <= nextRand < JitterRange(init, max, waits)
    }

    /** Construction ends in a reset; it panics when there is nothing to draw from. */
    constructor (init: int, max: int, draw: int)
      requires Int64(init) && Int64(max) && 0 <= draw < init
      ensures this.init == init && this.max == max && Valid() && waits == 0
    {
      this.init, this.max := init, max;
      duration, nextRand, waits := Wrap(2 * init), draw, 0;
    }

    method Reset(draw: int)
      requires Valid() && 0 <= draw < init
      modifies this
      ensures Valid() && waits == 0 && nextRand == draw
    {
      duration := Wrap(init * 2);
      nextRand := draw;
      waits := 0;
    }

    method NextWait() returns (wait: int)
      requires Valid()
      ensures wait == JitterWait(init, max, waits, nextRand)
    {
      var temp := Half(duration);
      wait := Wrap(temp + nextRand);
    }

    /** Wait: the draw is used only when its range is not empty. */
    method Wait(draw: int, done: bool) returns (r: Outcome)
      requires Valid() && (duration > 0 ==> 0 <= draw < duration)
      modifies this
      ensures r.Panicked? <==> old(duration) <= 0
      ensures r.Panicked? ==> unchanged(this)
      ensures !r.Panicked? ==> Valid() && waits == old(waits) + 1 && nextRand == draw
      ensures !r.Panicked? ==> r == if done then Stopped else Waited(JitterWait(init, max, old(waits), old(nextRand)))
    {
      var backoff := NextWait();
      if duration <= 0 { return Panicked; }
      nextRand := draw;
      duration := Wrap(duration * 2);
      if duration > max {
        duration := max;
      }
      waits := waits + 1;
      r := if done then Stopped else Waited(backoff);
    }
  }

  // ---------- Exponential ----------

  /** The duration after k waits. */
  function ExpDuration(init: int, max: int, k: nat): int {
    if k == 0 then init else Doubled(ExpDuration(init, max, k - 1), max)
  }

  lemma {:induction false} ExpDoubles(init: int, max: int, k: nat)
    requires 0 < init < TWO62 && 0 < max < TWO62
    ensures k > 0 ==> ExpDuration(init, max, k) == Min(Times2(init, k), max)
    ensures 0 < ExpDuration(init, max, k) < TWO62
  {
    if k > 0 {
      ExpDoubles(init, max, k - 1);
      DoubledPositive(ExpDuration(init, max, k - 1), max);
      Times2Grows(init, k);
    }
  }

  lemma {:induction false} ExpReaches(init: int, max: int, k: nat)
    requires 0 < init < TWO62 && TWO62 <= max < TWO63
    requires forall i: nat | i <= k :: ExpDuration(init, max, i) < TWO62
    ensures ExpDuration(init, max, k) >= Times2(init, k)
  {
    if k > 0 {
      ExpReaches(init, max, k - 1);
      Times2Grows(init, k - 1);
      DoubledPositive(ExpDuration(init, max, k - 1), max);
    }
  }

  lemma {:induction false} ExpBelowMax(init: int, max: int, k: nat)
    requires 0 < init < TWO62 && TWO62 <= max < TWO63
    ensures ExpDuration(init, max, k) <= max
  {
    if k > 0 { ExpBelowMax(init, max, k - 1); }
  }

  lemma ExpOverflows(init: int, max: int) returns (k: nat)
    requires 0 < init < TWO63 && 0 < max < TWO63 && (init >= TWO62 || max >= TWO62)
    ensures k > 0 && ExpDuration(init, max, k) < 0
  {
    if init >= TWO62 {
      DoubledOverflows(init, max);
      k := 1;
      assert ExpDuration(init, max, 0) == init;
    } else if i: nat :| ExpDuration(init, max, i) >= TWO62 {
      ExpBelowMax(init, max, i);
      DoubledOverflows(ExpDuration(init, max, i), max);
      k := i + 1;
    } else {
      ExpReaches(init, max, TWO62);
      Times2Grows(init, TWO62);
      assert false;
    }
  }

  /** The k-th wait is the k-th doubling, capped, for every k, exactly when nothing can overflow. */
  lemma ExpExactIff(init: int, max: int)
    requires 0 < init < TWO63 && 0 < max < TWO63
    ensures (forall k: nat | k > 0 :: ExpDuration(init, max, k) == Min(Times2(init, k), max)) <==>
              init < TWO62 && max < TWO62
  {
    if init < TWO62 && max < TWO62 {
      forall k: nat | k > 0 ensures ExpDuration(init, max, k) == Min(Times2(init, k), max) { ExpDoubles(init, max, k); }
    } else {
      var k := ExpOverflows(init, max);
      Times2Grows(init, k);
      assert ExpDuration(init, max, k) != Min(Times2(init, k), max);
    }
  }

  class ExpBackoff {
    const init: int
    const max: int
    var duration: int
    ghost var waits: nat

    ghost predicate Valid()
      reads this
    {
      Int64(init) && Int64(max) && duration == ExpDuration(init, max, waits)
    }

    constructor (init: int, max: int)
      requires Int64(init) && Int64(max)
      ensures this.init == init && this.max == max && Valid() && waits == 0
    {
      this.init, this.max := init, max;
      duration, waits := init, 0;
    }

    method Reset()
      requires Valid()
      modifies this
      ensures Valid() && waits == 0
    {
      duration := init;
      waits := 0;
    }

    method NextWait() returns (wait: int)
      requires Valid()
      ensures wait == ExpDuration(init, max, waits + 1)
    {
      wait := duration;
      wait := Wrap(wait * 2);
      if wait > max {
        wait := max;
      }
    }

    /** The announced wait is the one waited. */
    method Wait(done: bool) returns (r: Outcome)
      requires Valid()
      modifies this
      ensures Valid() && waits == old(waits) + 1
      ensures r == if done then Stopped else Waited(ExpDuration(init, max, waits))
    {
      duration := NextWait();
      waits := waits + 1;
      r := if done then Stopped else Waited(duration);
    }
  }
}
