/**
 The adaptive flush delay: three split plans in a row shorten it, three clean plans in a row win back
 half of the remaining headroom. Durations are whole milliseconds.
 */
module AdaptiveDelay {
  import opened Numeric

  datatype Config = Config(enabled: bool, floor: nat, max: nat)

  /** The bounds that the effective configuration guarantees. */
  predicate ValidConfig(c: Config) {
    1 <= c.floor <= c.max
  }

  datatype State = State(delay: nat, splits: u64, cleans: u64)

  datatype Outcome = Outcome(splitCount: u64, successful: bool)

  const REQUIRED: nat := 3

  function CeilDiv(a: nat, b: nat): (r: nat)
    requires b > 0
    ensures a > 0 ==> r > 0
  {
    if a == 0 then 0 else (a - 1) / b + 1
  }

  function Clamp(x: nat, lo: nat, hi: nat): nat
    requires lo <= hi
  {
    if x < lo then lo else if x > hi then hi else x
  }

  /** A quarter of the way, rounded up, to the delay that would have avoided the split. */
  function Shortened(c: Config, delay: nat, splitCount: u64): nat
    requires ValidConfig(c)
  {
    var target := Clamp(CeilDiv(delay, SatAdd(splitCount, 1)), c.floor, c.max);
    var reduction := CeilDiv(if delay > target then delay - target else 0, 4);
    var shorter := if delay > reduction then delay - reduction else 0;
    if shorter < c.floor then c.floor else shorter
  }

  function Lengthened(c: Config, delay: nat): nat {
    var remaining := if c.max > delay then c.max - delay else 0;
    var longer := delay + CeilDiv(remaining, 2);
    if longer > c.max then c.max else longer
  }

  function Step(c: Config, s: State, o: Outcome): State
    requires ValidConfig(c)
  {
    if !c.enabled then
      State(c.max, 0, 0)
    else if o.splitCount > 0 then
      var splits := SatAdd(s.splits, 1);
      var delay := if splits < REQUIRED then s.delay else Shortened(c, s.delay, o.splitCount);
      if delay != s.delay then State(delay, 0, 0) else State(delay, splits, 0)
    else if o.successful then
      var cleans := SatAdd(s.cleans, 1);
      var delay := if cleans < REQUIRED then s.delay else Lengthened(c, s.delay);
      if delay != s.delay then State(delay, 0, 0) else State(delay, 0, cleans)
    else
      State(s.delay, 0, 0)
  }

  function Reconfigured(old_: Config, c: Config, s: State): State
    requires ValidConfig(c)
  {
    State(if !c.enabled || !old_.enabled then c.max else Clamp(s.delay, c.floor, c.max), 0, 0)
  }

  class AdaptiveFlushDelay {
    var config: Config
    var state: State

    ghost predicate Valid()
      reads this
    {
      ValidConfig(config) && config.floor <= state.delay <= config.max && (!config.enabled ==> state.delay == config.max)
    }

    constructor (config: Config)
      requires ValidConfig(config)
      ensures Valid() && this.config == config && state == State(config.max, 0, 0)
    {
      this.config := config;
      state := State(config.max, 0, 0);
    }

    method Reconfigure(next: Config)
      requires Valid() && ValidConfig(next)
      modifies this
      ensures Valid() && config == next && state == Reconfigured(old(config), next, old(state))
      ensures state.splits == 0 && state.cleans == 0
      ensures !next.enabled || !old(config.enabled) ==> state.delay == next.max
      ensures next.enabled && old(config.enabled) ==>
                && (old(state.delay) < next.floor ==> state.delay == next.floor)
                && (old(state.delay) > next.max ==> state.delay == next.max)
                && (next.floor <= old(state.delay) <= next.max ==> state.delay == old(state.delay))
    {
      var wasEnabled := config.enabled;
      config := next;
      state := state.(splits := 0, cleans := 0);
      if !next.enabled || !wasEnabled {
        state := state.(delay := next.max);
        return;
      }
      state := state.(delay := Clamp(state.delay, next.floor, next.max));
    }

    method RecordFlushResult(splitCount: u64, successful: bool) returns (changed: bool)
      requires Valid()
      modifies this`state
      ensures Valid() && state == Step(config, old(state), Outcome(splitCount, successful))
      ensures changed == (state.delay != old(state.delay))
    {
      var previous := state.delay;
      if !config.enabled {
        state := State(config.max, 0, 0);
        return state.delay != previous;
      }
      if splitCount > 0 {
        state := state.(splits := SatAdd(state.splits, 1), cleans := 0);
        if state.splits < REQUIRED {
          return false;
        }
        var target := Clamp(CeilDiv(state.delay, SatAdd(splitCount, 1)), config.floor, config.max);
        var reduction := CeilDiv(if state.delay > target then state.delay - target else 0, 4);
        var shorter := if state.delay > reduction then state.delay - reduction else 0;
        state := state.(delay := if shorter < config.floor then config.floor else shorter);
        if state.delay != previous {
          state := state.(splits := 0, cleans := 0);
        }
      } else if successful {
        state := state.(cleans := SatAdd(state.cleans, 1), splits := 0);
        if state.cleans < REQUIRED {
          return false;
        }
        state := state.(delay := Lengthened(config, state.delay));
        if state.delay != previous {
          state := state.(splits := 0, cleans := 0);
        }
      } else {
        state := state.(splits := 0, cleans := 0);
      }
      changed := state.delay != previous;
    }
  }

  // ---------------------------------------------------------------------------------------------
  // What one plan does
  // ---------------------------------------------------------------------------------------------

  /** The least number whose multiple by `b` reaches `a`. */
  predicate IsCeiling(r: nat, a: nat, b: nat) {
    r * b >= a && (r > 0 ==> (r - 1) * b < a)
  }

  lemma CeilDivIs(a: nat, b: nat)
    requires b > 0
    ensures IsCeiling(CeilDiv(a, b), a, b)
  {
    if a > 0 {
      var q := (a - 1) / b;
      assert a - 1 == q * b + (a - 1) % b;
      assert (q + 1) * b == q * b + b;
    }
  }

  /** A shorter delay goes a quarter of the way, rounded up, to its equal share among the flushes it caused. */
  lemma ShortenedIs(c: Config, delay: nat, splitCount: u64) returns (share: nat)
    requires ValidConfig(c) && c.floor <= delay <= c.max && splitCount < U64_MAX
    ensures IsCeiling(share, delay, splitCount + 1)
    ensures share <= delay && Shortened(c, delay, splitCount) <= delay
    ensures IsCeiling(delay - Shortened(c, delay, splitCount), delay - if share < c.floor then c.floor else share, 4)
  {
    share := CeilDiv(delay, splitCount + 1);
    CeilDivIs(delay, splitCount + 1);
    if share > 0 {
      MulAtLeast(share - 1, splitCount + 1);
    }
    var target := if share < c.floor then c.floor else share;
    CeilDivIs(delay - target, 4);
  }

  lemma MulAtLeast(a: nat, b: nat)
    requires b >= 1
    ensures a * b >= a
  {
  }

  /** A longer delay wins back half, rounded up, of what is left below the maximum. */
  lemma LengthenedIs(c: Config, delay: nat)
    requires delay <= c.max
    ensures Lengthened(c, delay) >= delay && IsCeiling(Lengthened(c, delay) - delay, c.max - delay, 2)
  {
  }

  /** Only the third plan in a row of one kind moves the delay, and a plan of another kind ends the row. */
  lemma StepIs(c: Config, s: State, o: Outcome)
    requires ValidConfig(c) && c.floor <= s.delay <= c.max
    ensures var t := Step(c, s, o);
            && (!c.enabled ==> t == State(c.max, 0, 0))
            && (c.enabled && o.splitCount > 0 ==>
                  && t.cleans == 0 && t.delay == (if s.splits >= 2 then Shortened(c, s.delay, o.splitCount) else s.delay)
                  && (t.delay != s.delay ==> t.splits == 0)
                  && (t.delay == s.delay && s.splits < U64_MAX ==> t.splits == s.splits + 1))
            && (c.enabled && o.splitCount == 0 && o.successful ==>
                  && t.splits == 0 && t.delay == (if s.cleans >= 2 then Lengthened(c, s.delay) else s.delay)
                  && (t.delay != s.delay ==> t.cleans == 0)
                  && (t.delay == s.delay && s.cleans < U64_MAX ==> t.cleans == s.cleans + 1))
            && (c.enabled && o.splitCount == 0 && !o.successful ==> t == State(s.delay, 0, 0))
  {
  }

  // ---------------------------------------------------------------------------------------------
  // Convergence
  // ---------------------------------------------------------------------------------------------

  function Run(c: Config, s: State, outcomes: seq<Outcome>): State
    requires ValidConfig(c)
    decreases |outcomes|
  {
    if outcomes == [] then s else Run(c, Step(c, s, outcomes[0]), outcomes[1..])
  }

  predicate InBounds(c: Config, s: State) {
    c.floor <= s.delay <= c.max
  }

  lemma {:induction false} DelayStaysInBounds(c: Config, s: State, outcomes: seq<Outcome>)
    requires ValidConfig(c) && InBounds(c, s)
    ensures InBounds(c, Run(c, s, outcomes))
    decreases |outcomes|
  {
    if outcomes != [] {
      DelayStaysInBounds(c, Step(c, s, outcomes[0]), outcomes[1..]);
    }
  }

  lemma {:induction false} RunSplits(c: Config, s: State, outcomes: seq<Outcome>, k: nat)
    requires ValidConfig(c) && k <= |outcomes|
    ensures Run(c, s, outcomes) == Run(c, Run(c, s, outcomes[..k]), outcomes[k..])
    decreases |outcomes|
  {
    if k == 0 {
      assert outcomes[0..] == outcomes && outcomes[..0] == [];
    } else {
      RunSplits(c, Step(c, s, outcomes[0]), outcomes[1..], k - 1);
      assert outcomes[..k][1..] == outcomes[1..][..k - 1] && outcomes[1..][k - 1..] == outcomes[k..];
    }
  }

  lemma Three(c: Config, s: State, outcomes: seq<Outcome>)
    requires ValidConfig(c) && |outcomes| >= 3
    ensures Run(c, s, outcomes[..3]) == Step(c, Step(c, Step(c, s, outcomes[0]), outcomes[1]), outcomes[2])
  {
    var x, y, z := outcomes[0], outcomes[1], outcomes[2];
    assert outcomes[..3] == [x, y, z] && [x, y, z][1..] == [y, z] && [y, z][1..] == [z] && [z][1..] == [];
    var s1 := Step(c, s, x);
    var s2 := Step(c, s1, y);
    assert Run(c, s2, [z]) == Run(c, Step(c, s2, z), []);
    assert Run(c, s1, [y, z]) == Run(c, s2, [z]);
  }

  function Power2(k: nat): (r: nat)
    ensures r > 0
  {
    if k == 0 then 1 else 2 * Power2(k - 1)
  }

  predicate IsClean(o: Outcome) {
    o.splitCount == 0 && o.successful
  }

  /** Nested halving. */
  lemma {:induction false} HalveAgain(r: nat, k: nat)
    ensures r / 2 / Power2(k) == r / Power2(k + 1)
  {
    var p := Power2(k);
    var q := r / 2 / p;
    assert r / 2 == q * p + r / 2 % p;
    assert r == 2 * (q * p + r / 2 % p) + r % 2;
    assert 2 * (q * p) == q * (2 * p);
    QuotientIs(r, 2 * p, q);
  }

  lemma MulCancel(x: int, y: int, d: nat)
    requires d > 0 && x * d < y * d
    ensures x < y
  {
  }

  lemma {:induction false} QuotientIs(r: nat, d: nat, q: nat)
    requires d > 0 && q * d <= r < q * d + d
    ensures r / d == q
  {
    var x := r / d;
    assert x * d <= r < x * d + d;
    MulCancel(x, q + 1, d);
    MulCancel(q, x + 1, d);
  }

  /** Three clean plans from cleared streaks win back half of the headroom, rounded up. */
  lemma ThreeClean(c: Config, s: State, outcomes: seq<Outcome>)
    requires ValidConfig(c) && c.enabled && InBounds(c, s) && (s.delay < c.max ==> s.splits == 0 && s.cleans == 0)
    requires |outcomes| >= 3 && IsClean(outcomes[0]) && IsClean(outcomes[1]) && IsClean(outcomes[2])
    ensures var after := Run(c, s, outcomes[..3]);
            && InBounds(c, after) && c.max - after.delay == (c.max - s.delay) / 2
            && (after.delay < c.max ==> after.splits == 0 && after.cleans == 0)
  {
    Three(c, s, outcomes);
  }

  /** From cleared streaks, `3k` clean plans leave exactly `headroom / 2^k` of the headroom. */
  lemma {:induction false} CleanPlansHalveHeadroom(c: Config, s: State, outcomes: seq<Outcome>, k: nat)
    requires ValidConfig(c) && c.enabled && InBounds(c, s) && (s.delay < c.max ==> s.splits == 0 && s.cleans == 0)
    requires |outcomes| == 3 * k && forall o | o in outcomes :: IsClean(o)
    ensures c.max - Run(c, s, outcomes).delay == (c.max - s.delay) / Power2(k)
    decreases k
  {
    if k > 0 {
      var after := Run(c, s, outcomes[..3]);
      assert forall i | 0 <= i < 3 :: outcomes[i] in outcomes;
      ThreeClean(c, s, outcomes);
      RunSplits(c, s, outcomes, 3);
      assert forall o | o in outcomes[3..] :: o in outcomes;
      CleanPlansHalveHeadroom(c, after, outcomes[3..], k - 1);
      HalveAgain(c.max - s.delay, k - 1);
    }
  }

  /** Enough clean plans reach the maximum. */
  lemma CleanPlansReachMaximum(c: Config, s: State, outcomes: seq<Outcome>, k: nat)
    requires ValidConfig(c) && c.enabled && InBounds(c, s) && s.splits == 0 && s.cleans == 0
    requires |outcomes| == 3 * k && (forall o | o in outcomes :: IsClean(o)) && c.max - s.delay < Power2(k)
    ensures Run(c, s, outcomes).delay == c.max
  {
    CleanPlansHalveHeadroom(c, s, outcomes, k);
    QuotientIs(c.max - s.delay, Power2(k), 0);
  }

  lemma {:induction false} ShorteningIsStrict(c: Config, delay: nat, splitCount: u64)
    requires ValidConfig(c) && c.floor <= delay <= c.max && splitCount > 0
    ensures c.floor <= Shortened(c, delay, splitCount) <= delay
    ensures delay > c.floor ==> Shortened(c, delay, splitCount) < delay
  {
    var d := SatAdd(splitCount, 1);
    assert d >= 2;
    if delay >= 2 {
      assert (delay - 1) / d <= (delay - 1) / 2 by {
        DivisorGrows(delay - 1, d);
      }
    }
  }

  lemma MulGrows(x: nat, d: nat)
    requires d >= 2
    ensures 2 * x <= d * x
  {
  }

  lemma {:induction false} DivisorGrows(a: nat, d: nat)
    requires d >= 2
    ensures a / d <= a / 2
  {
    var x := a / d;
    assert a == d * x + a % d;
    MulGrows(x, d);
  }

  /** From cleared streaks, `3 * (delay - floor)` plans that split, however badly, reach the floor exactly. */
  lemma {:induction false} SplitPlansReachFloor(c: Config, s: State, outcomes: seq<Outcome>)
    requires ValidConfig(c) && c.enabled && InBounds(c, s) && (s.delay > c.floor ==> s.splits == 0 && s.cleans == 0)
    requires |outcomes| >= 3 * (s.delay - c.floor) && forall o | o in outcomes :: o.splitCount > 0
    ensures Run(c, s, outcomes).delay == c.floor
    decreases |outcomes|
  {
    if s.delay > c.floor {
      assert forall i | 0 <= i < 3 :: outcomes[i] in outcomes;
      Three(c, s, outcomes);
      RunSplits(c, s, outcomes, 3);
      ShorteningIsStrict(c, s.delay, outcomes[2].splitCount);
      assert forall o | o in outcomes[3..] :: o in outcomes;
      SplitPlansReachFloor(c, Run(c, s, outcomes[..3]), outcomes[3..]);
    } else if outcomes != [] {
      assert outcomes[0] in outcomes;
      ShorteningIsStrict(c, s.delay, outcomes[0].splitCount);
      assert forall o | o in outcomes[1..] :: o in outcomes;
      SplitPlansReachFloor(c, Step(c, s, outcomes[0]), outcomes[1..]);
    }
  }
}
