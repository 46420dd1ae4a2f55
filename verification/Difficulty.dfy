/**
 * The difficulty-adjustment figures of the dashboard. Heights and times are
 * 64-bit words with saturating arithmetic; quotients are exact reals.
 */
module Difficulty {
  import opened Words

  const INTERVAL: nat := 2016
  const SPACING: real := 600.0

  /** The start of the last period that fits into a 64-bit height. */
  const LAST_START: nat := U64_MAX / INTERVAL * INTERVAL

  datatype Adjustment = Adjustment(
    nextHeight: U64,
    blocksRemaining: nat,
    progressPercent: real,
    secondsRemaining: real,
    percentChange: Option<real>,
    projectedDifficulty: Option<real>)

  function NextAdjustment(h: U64): U64 {
    var last := SatAdd64(SatAdd64(h, 1), INTERVAL - 1);
    RoundedDown(last)
  }

  function RoundedDown(h: U64): (r: U64)
    ensures r % INTERVAL == 0 && r <= h < r + INTERVAL
  {
    h / INTERVAL * INTERVAL
  }

  function MinedInPeriod(h: U64): nat {
    h % INTERVAL + 1
  }

  function ElapsedBlocks(h: U64): nat {
    SatSub(h, RoundedDown(h))
  }

  function Clamp(x: real, lo: real, hi: real): real {
    if x < lo then lo else if x > hi then hi else x
  }

  /** Blocks and seconds since the start of the period, if both are positive. */
  function Pace(h: U64, start: U64, now: U64): (pace: Option<(nat, nat)>)
    ensures pace.Some? ==> pace.value.0 > 0 && pace.value.1 > 0
  {
    var blocks, seconds := ElapsedBlocks(h), SatSub(now, start);
    if blocks > 0 && seconds > 0 then Some((blocks, seconds)) else None
  }

  function AverageSeconds(h: U64, start: U64, now: U64): real {
    match Pace(h, start, now)
    case Some(p) => p.1 as real / p.0 as real
    case None => SPACING
  }

  function Multiplier(h: U64, start: U64, now: U64): Option<real> {
    match Pace(h, start, now)
    case Some(p) => Some(Clamp(p.0 as real * SPACING / p.1 as real, 0.25, 4.0))
    case None => None
  }

  function Calculate(h: U64, start: U64, now: U64, difficulty: Option<real>): Adjustment {
    var next := NextAdjustment(h);
    var remaining := SatSub(next, h);
    var multiplier := Multiplier(h, start, now);
    Adjustment(
      next, remaining,
      MinedInPeriod(h) as real / INTERVAL as real * 100.0,
      AverageSeconds(h, start, now) * remaining as real,
      if multiplier.Some? then Some((multiplier.value - 1.0) * 100.0) else None,
      if multiplier.Some? && difficulty.Some? then Some(difficulty.value * multiplier.value) else None)
  }

  // ----- Heights -----

  lemma MultiplesAreApart(a: nat, b: nat)
    requires a % INTERVAL == 0 && b % INTERVAL == 0 && a < b
    ensures a + INTERVAL <= b
  {
  }

  /**
   * The next adjustment height is the least multiple of the interval above the
   * tip, for exactly the tips below the start of the last period; there and
   * above, the saturated sum rounds down to that start.
   */
  lemma NextIsLeastMultipleAbove(h: U64)
    ensures NextAdjustment(h) % INTERVAL == 0
    ensures NextAdjustment(h) > h <==> h < LAST_START
    ensures h < LAST_START ==> forall m: nat :: m % INTERVAL == 0 && m > h ==> NextAdjustment(h) <= m
    ensures h >= LAST_START ==> NextAdjustment(h) == LAST_START
  {
  }

  /** Blocks mined in the period and blocks remaining make up the interval and the tip, which counts as both. */
  lemma RemainingAndMined(h: U64)
    ensures var remaining := Calculate(h, 0, 0, None).blocksRemaining;
            if h < LAST_START then 1 <= remaining <= INTERVAL && remaining + MinedInPeriod(h) == INTERVAL + 1
            else remaining == 0
  {
    NextIsLeastMultipleAbove(h);
    if h < LAST_START {
      var start := RoundedDown(h);
      assert start + INTERVAL > h && (start + INTERVAL) % INTERVAL == 0;
      MultiplesAreApart(start, NextAdjustment(h));
      assert NextAdjustment(h) == start + INTERVAL;
    }
  }

  // ----- The projected change -----

  lemma CalculateBlocks(h: U64, start: U64, now: U64, difficulty: Option<real>)
    ensures Calculate(h, start, now, difficulty).blocksRemaining == Calculate(h, 0, 0, None).blocksRemaining
  {
  }

  /**
   * A projection exists after the first block of the period once time has passed,
   * and stays within a factor of four.
   */
  lemma ChangeIsBounded(h: U64, start: U64, now: U64, difficulty: Option<real>)
    ensures var a := Calculate(h, start, now, difficulty);
            && (a.percentChange.Some? <==> h % INTERVAL != 0 && now > start)
            && (a.percentChange.Some? ==> -75.0 <= a.percentChange.value <= 300.0)
            && (a.projectedDifficulty.Some? <==> a.percentChange.Some? && difficulty.Some?)
            && (a.projectedDifficulty.Some? ==>
                  a.projectedDifficulty.value == difficulty.value + difficulty.value * a.percentChange.value / 100.0)
  {
  }

  lemma QuotientFalls(x: real, s: real, t: real)
    requires x >= 0.0 && 0.0 < s <= t
    ensures x / t <= x / s
  {
    var q := x / s;
    assert q * s == x && q >= 0.0;
    assert q * t >= q * s;
    assert (q - x / t) * t >= 0.0;
  }

  /** At a fixed tip the projected change never rises as time passes. */
  lemma ChangeNeverRises(h: U64, start: U64, now: U64, later: U64, difficulty: Option<real>)
    requires now <= later && Calculate(h, start, now, difficulty).percentChange.Some?
    ensures Calculate(h, start, later, difficulty).percentChange.Some?
    ensures Calculate(h, start, later, difficulty).percentChange.value
            <= Calculate(h, start, now, difficulty).percentChange.value
  {
    QuotientFalls(ElapsedBlocks(h) as real * SPACING, SatSub(now, start) as real, SatSub(later, start) as real);
  }

  lemma QuotientAgainst(x: real, y: real, c: real)
    requires y > 0.0
    ensures x / y < c <==> x < c * y
    ensures x / y > c <==> x > c * y
  {
    var q := x / y;
    assert q * y == x;
    if q < c {
      assert (c - q) * y > 0.0;
    } else if q > c {
      assert (q - c) * y > 0.0;
    }
  }

  /**
   * Difficulty is projected to rise exactly when blocks have come faster than the
   * target spacing, and to fall exactly when slower.
   */
  lemma ChangeHasSignOfPace(h: U64, start: U64, now: U64, difficulty: Option<real>)
    requires Calculate(h, start, now, difficulty).percentChange.Some?
    ensures var change := Calculate(h, start, now, difficulty).percentChange.value;
            && (change > 0.0 <==> AverageSeconds(h, start, now) < SPACING)
            && (change < 0.0 <==> AverageSeconds(h, start, now) > SPACING)
  {
    var blocks, seconds := ElapsedBlocks(h) as real, SatSub(now, start) as real;
    QuotientAgainst(blocks * SPACING, seconds, 1.0);
    QuotientAgainst(seconds, blocks, SPACING);
  }

  /** The change a period of the given length brings about: a factor of four at most, either way. */
  function RetargetPercent(period: real): real
    requires period > 0.0
  {
    (Clamp(INTERVAL as real * SPACING / period, 0.25, 4.0) - 1.0) * 100.0
  }

  lemma SamePace(blocks: real, seconds: real, remaining: real)
    requires blocks > 0.0 && seconds > 0.0 && remaining >= 0.0 && blocks + remaining == INTERVAL as real
    ensures var period := seconds + seconds / blocks * remaining;
            period > 0.0 && INTERVAL as real * SPACING / period == blocks * SPACING / seconds
  {
    var average := seconds / blocks;
    var period := seconds + average * remaining;
    assert average * blocks == seconds && average > 0.0;
    assert average * remaining >= 0.0;
    assert period == average * (blocks + remaining);
    var q := blocks * SPACING / seconds;
    assert q * seconds == blocks * SPACING;
    assert q * period == INTERVAL as real * SPACING;
  }

  lemma SamePercent(blocks: real, seconds: real, remaining: real, left: real, percent: real)
    requires blocks > 0.0 && seconds > 0.0 && remaining >= 0.0 && blocks + remaining == INTERVAL as real
    requires left == seconds / blocks * remaining
    requires percent == (Clamp(blocks * SPACING / seconds, 0.25, 4.0) - 1.0) * 100.0
    ensures seconds + left > 0.0 && percent == RetargetPercent(seconds + left)
  {
    SamePace(blocks, seconds, remaining);
  }

  lemma ElapsedAndRemaining(h: U64, start: U64, now: U64, difficulty: Option<real>)
    requires h < LAST_START
    ensures ElapsedBlocks(h) + Calculate(h, start, now, difficulty).blocksRemaining == INTERVAL
  {
    RemainingAndMined(h);
    CalculateBlocks(h, start, now, difficulty);
  }

  /**
   * The two projections agree: the projected change is the retarget rule
   * applied to the period length that the estimated remaining time implies.
   */
  lemma ChangeFollowsRetargetRule(h: U64, start: U64, now: U64, difficulty: Option<real>)
    requires h < LAST_START && Calculate(h, start, now, difficulty).percentChange.Some?
    ensures var a := Calculate(h, start, now, difficulty);
            var period := SatSub(now, start) as real + a.secondsRemaining;
            period > 0.0 && a.percentChange.value == RetargetPercent(period)
  {
    var a := Calculate(h, start, now, difficulty);
    ElapsedAndRemaining(h, start, now, difficulty);
    SamePercent(ElapsedBlocks(h) as real, SatSub(now, start) as real, a.blocksRemaining as real,
                a.secondsRemaining, a.percentChange.value);
  }

  // ----- All figures against the chain -----

  /** The next height is the end of the period, and the blocks remaining lead up to it. */
  predicate HeightsFit(next: nat, remaining: nat, h: U64) {
    if h < LAST_START then next % INTERVAL == 0 && next == h + remaining && 1 <= remaining <= INTERVAL
    else next == LAST_START && remaining == 0
  }

  /** The share of the period that has been mined. */
  predicate ProgressFits(percent: real, mined: nat) {
    percent * INTERVAL as real == mined as real * 100.0 && 0.0 < percent <= 100.0
  }

  /** The time for the blocks remaining, at the pace so far or at the target spacing while there is none. */
  predicate TimeFits(left: real, remaining: nat, blocks: nat, seconds: nat) {
    if blocks == 0 || seconds == 0 then left == remaining as real * SPACING
    else left * blocks as real == seconds as real * remaining as real
  }

  lemma CalculatedHeights(h: U64, start: U64, now: U64, difficulty: Option<real>)
    ensures var a := Calculate(h, start, now, difficulty);
            HeightsFit(a.nextHeight, a.blocksRemaining, h)
  {
    NextIsLeastMultipleAbove(h);
    RemainingAndMined(h);
    CalculateBlocks(h, start, now, difficulty);
  }

  lemma CalculatedProgress(mined: nat)
    requires 1 <= mined <= INTERVAL
    ensures ProgressFits(mined as real / INTERVAL as real * 100.0, mined)
  {
  }

  lemma ProductOfQuotient(seconds: real, blocks: real, remaining: real)
    requires blocks > 0.0
    ensures seconds / blocks * remaining * blocks == seconds * remaining
  {
    var average := seconds / blocks;
    assert average * blocks == seconds;
    assert average * remaining * blocks == average * blocks * remaining;
  }

  lemma ElapsedIsModulo(h: U64)
    ensures ElapsedBlocks(h) == h % INTERVAL
  {
  }

  lemma CalculatedTime(h: U64, start: U64, now: U64, remaining: nat)
    ensures TimeFits(AverageSeconds(h, start, now) * remaining as real, remaining, h % INTERVAL, SatSub(now, start))
  {
    ElapsedIsModulo(h);
    if h % INTERVAL != 0 && now > start {
      ProductOfQuotient(SatSub(now, start) as real, (h % INTERVAL) as real, remaining as real);
    }
  }

  lemma ProgressOfCalculated(h: U64, start: U64, now: U64, difficulty: Option<real>)
    ensures ProgressFits(Calculate(h, start, now, difficulty).progressPercent, h % INTERVAL + 1)
  {
    CalculatedProgress(h % INTERVAL + 1);
  }

  lemma TimeOfCalculated(h: U64, start: U64, now: U64, difficulty: Option<real>)
    ensures var a := Calculate(h, start, now, difficulty);
            TimeFits(a.secondsRemaining, a.blocksRemaining, h % INTERVAL, SatSub(now, start))
  {
    CalculatedTime(h, start, now, Calculate(h, start, now, difficulty).blocksRemaining);
  }

  // ----- The cached start of the period -----

  /** The time of the block at a height, or nothing if the node does not answer. */
  type BlockTime = U64 -> Option<U64>

  class PeriodStartCache {
    var height: Option<U64>
    var timestamp: Option<U64>

    /** What is cached is the time of that block in the chain. */
    ghost predicate Valid(chain: U64 -> U64)
      reads this
    {
      height.Some? && timestamp.Some? ==> timestamp.value == chain(height.value)
    }

    constructor ()
      ensures height.None? && timestamp.None?
    {
      height, timestamp := None, None;
    }

    /**
     * An answer is always the calculation from the chain, and missing only when
     * nothing is cached and the node fails.
     */
    method Fetch(rpc: BlockTime, h: U64, now: U64, difficulty: Option<real>, ghost chain: U64 -> U64)
      returns (answer: Option<Adjustment>)
      requires Valid(chain) && forall k: U64 :: rpc(k).Some? ==> rpc(k).value == chain(k)
      modifies this
      ensures Valid(chain)
      ensures answer.Some? ==> answer.value == Calculate(h, chain(RoundedDown(h)), now, difficulty)
      ensures answer.Some? ==> HeightsFit(answer.value.nextHeight, answer.value.blocksRemaining, h)
      ensures answer.Some? ==> ProgressFits(answer.value.progressPercent, h % INTERVAL + 1)
      ensures answer.Some? ==> TimeFits(answer.value.secondsRemaining, answer.value.blocksRemaining, h % INTERVAL,
                                        SatSub(now, chain(h - h % INTERVAL)))
      ensures answer.None? <==>
                rpc(RoundedDown(h)).None? && !(old(height) == Some(RoundedDown(h)) && old(timestamp).Some?)
      ensures answer.Some? ==> height == Some(RoundedDown(h)) && timestamp.Some?
      ensures answer.None? ==> height == old(height) && timestamp == old(timestamp)
    {
      var start := RoundedDown(h);
      CalculatedHeights(h, chain(start), now, difficulty);
      ProgressOfCalculated(h, chain(start), now, difficulty);
      TimeOfCalculated(h, chain(start), now, difficulty);
      if height == Some(start) && timestamp.Some? {
        return Some(Calculate(h, timestamp.value, now, difficulty));
      }
      var time := rpc(start);
      if time.None? {
        return None;
      }
      height, timestamp := Some(start), time;
      answer := Some(Calculate(h, time.value, now, difficulty));
    }
  }
}
