/** The vesting arithmetic of `claim_tokens`: the linear release curve, the
    program's checked computation of the vested amount, the outcome of one
    claim on the data of a vesting account, and what successive claims can
    release. */
module Vesting {
  import opened Numeric
  import opened Accounts

  /** The release curve: nothing is held back once `duration` seconds have
      passed since the vesting start; before that the share of `total`
      proportional to the elapsed time, rounded down. */
  function LinearVested(total: nat, elapsed: nat, duration: nat): (r: nat)
    requires duration > 0
    ensures r <= total
    ensures elapsed >= duration ==> r == total
    ensures elapsed < duration ==> r * duration <= total * elapsed < (r + 1) * duration
  {
    if elapsed >= duration then total
    else
      MulLeftMonotone(total, elapsed, duration);
      DivBelowWhenDividendBelow(total * elapsed, total, duration);
      total * elapsed / duration
  }

  /** The vested amount the program computes for schedule `v` at time `now`,
      once the cliff check has passed: the elapsed time is an `i64`
      subtraction (which aborts on overflow); the product with the total is a
      checked `u64` multiplication and the division a checked one; both `i64`
      operands are cast with `as u64`. Written, as in the program, with the
      checked operations of `Numeric`. */
  function Vested(v: VestingData, now: I64): (r: Result<U64>)
    ensures r.Ok? && now - v.startTime >= v.duration ==> r.value == v.totalAmount
  {
    var elapsed := now - v.startTime;
    if !IsI64(elapsed) then Err(ArithmeticPanic)
    else if elapsed >= v.duration then Ok(v.totalAmount)
    else match CheckedMul(v.totalAmount, AsU64(elapsed))
      case None => Err(Program(NumberOverflow))
      case Some(product) =>
        match CheckedDiv(product, AsU64(v.duration))
        case None => Err(Program(NumberOverflow))
        case Some(quotient) => Ok(quotient)
  }

  /** The outcome of `claim_tokens` on schedule `v` at time `now`: the new
      schedule and the amount released to the investor, or the error. */
  function ClaimOutcome(v: VestingData, now: I64): (r: Result<(VestingData, U64)>)
    ensures r.Ok? ==> r.value.0 == v.(claimedAmount := r.value.0.claimedAmount)
    ensures r.Ok? ==> r.value.1 > 0 && r.value.0.claimedAmount == v.claimedAmount + r.value.1
  {
    var cliffEnd := v.startTime + v.cliff;
    if !IsI64(cliffEnd) then Err(ArithmeticPanic)
    else if now < cliffEnd then Err(Program(CliffNotReached))
    else match Vested(v, now)
      case Err(e) => Err(e)
      case Ok(vested) =>
        if vested < v.claimedAmount then Err(Program(NumberOverflow))
        else if vested - v.claimedAmount == 0 then Err(Program(NoTokensToClaim))
        else Ok((v.(claimedAmount := vested), vested - v.claimedAmount))
  }

  // ---------------------------------------------------------------------------
  // Arithmetic helpers

  lemma MulLeftMonotone(a: nat, b: nat, c: nat)
    requires b <= c
    ensures a * b <= a * c
  {
  }

  /** Floor division by `d` keeps a dividend below `bound * d` below `bound`. */
  lemma DivBelowWhenDividendBelow(x: nat, bound: nat, d: nat)
    requires d > 0 && x <= bound * d
    ensures x / d <= bound
  {
  }

  lemma DivMonotone(x: nat, y: nat, d: nat)
    requires d > 0 && x <= y
    ensures x / d <= y / d
  {
    if x / d > y / d {
      calc {
        x;
        >= (x / d) * d;
        >= (y / d + 1) * d;
        == (y / d) * d + d;
        > y;
      }
    }
  }

  // ---------------------------------------------------------------------------
  // The release curve

  /** The vested amount never decreases as time passes. */
  lemma {:induction false} LinearVestedMonotone(total: nat, e1: nat, e2: nat, duration: nat)
    requires duration > 0 && e1 <= e2
    ensures LinearVested(total, e1, duration) <= LinearVested(total, e2, duration)
  {
    if e2 < duration {
      MulLeftMonotone(total, e1, e2);
      DivMonotone(total * e1, total * e2, duration);
    }
  }

  /** For a schedule the program wrote, past the cliff, the computed vested
      amount is the release curve at the elapsed time, except that the checked
      product `total_amount * elapsed` fails with `NumberOverflow` whenever it
      leaves the `u64` range during the linear phase. */
  lemma VestedIsLinear(v: VestingData, now: I64)
    requires ScheduleInvariant(v)
    requires v.startTime + CLIFF <= now && IsI64(now - v.startTime)
    ensures Vested(v, now) ==
      if now - v.startTime < DURATION && v.totalAmount * (now - v.startTime) > U64_MAX
      then Err(Program(NumberOverflow))
      else Ok(LinearVested(v.totalAmount, now - v.startTime, DURATION))
  {
  }

  /** The computed vested amount of a schedule never decreases with time. */
  lemma VestedMonotone(v: VestingData, t1: I64, t2: I64)
    requires ScheduleInvariant(v)
    requires v.startTime + CLIFF <= t1 <= t2
    requires Vested(v, t1).Ok? && Vested(v, t2).Ok?
    ensures Vested(v, t1).value <= Vested(v, t2).value
  {
    VestedIsLinear(v, t1);
    VestedIsLinear(v, t2);
    LinearVestedMonotone(v.totalAmount, t1 - v.startTime, t2 - v.startTime, DURATION);
  }

  // ---------------------------------------------------------------------------
  // One claim

  /** The cliff gate: on a schedule the program wrote (whose cliff end fits in
      an `i64`), a claim fails with `CliffNotReached` exactly when it comes
      before the vesting start plus the cliff. */
  lemma ClaimCliffGate(v: VestingData, now: I64)
    requires ScheduleInvariant(v) && IsI64(v.startTime + CLIFF)
    ensures ClaimOutcome(v, now) == Err(Program(CliffNotReached)) <==> now < v.startTime + CLIFF
  {
  }

  /** A schedule whose start lies within 30 days of the largest `i64` can
      never be claimed: the addition of the cliff aborts. */
  lemma ClaimAbortsNearI64Max(v: VestingData, now: I64)
    requires ScheduleInvariant(v) && v.startTime > I64_MAX - CLIFF
    ensures ClaimOutcome(v, now) == Err(ArithmeticPanic)
  {
  }

  /** A successful claim raises `claimed_amount` to the amount vested at that
      time, never past the total, releases exactly the difference and touches
      nothing else; the schedule invariant is kept. */
  lemma ClaimReleasesVested(v: VestingData, now: I64)
    requires ScheduleInvariant(v) && ClaimOutcome(v, now).Ok?
    ensures var (w, released) := ClaimOutcome(v, now).value;
      Vested(v, now).Ok? && w.claimedAmount == Vested(v, now).value &&
      w.claimedAmount == LinearVested(v.totalAmount, now - v.startTime, DURATION) &&
      v.claimedAmount < w.claimedAmount <= w.totalAmount &&
      released == w.claimedAmount - v.claimedAmount &&
      ScheduleInvariant(w)
  {
    VestedIsLinear(v, now);
  }

  /** `NoTokensToClaim` is returned exactly when, past the cliff, the vested
      amount has all been claimed already. */
  lemma ClaimNothingLeft(v: VestingData, now: I64)
    requires ScheduleInvariant(v) && IsI64(v.startTime + CLIFF)
    ensures ClaimOutcome(v, now) == Err(Program(NoTokensToClaim)) <==>
      now >= v.startTime + CLIFF && Vested(v, now) == Ok(v.claimedAmount)
  {
  }

  /** A second claim at the same timestamp as a successful one fails with
      `NoTokensToClaim` (and so changes nothing). */
  lemma ClaimAgainAtSameTimeFails(v: VestingData, now: I64)
    requires ScheduleInvariant(v) && ClaimOutcome(v, now).Ok?
    ensures ClaimOutcome(ClaimOutcome(v, now).value.0, now) == Err(Program(NoTokensToClaim))
  {
    var w := ClaimOutcome(v, now).value.0;
    ClaimReleasesVested(v, now);
    assert Vested(w, now) == Vested(v, now);
  }

  /** Once the full duration has passed, a claim releases everything not yet
      claimed, or fails with `NoTokensToClaim` if that is nothing. */
  lemma ClaimAfterDurationReleasesRest(v: VestingData, now: I64)
    requires ScheduleInvariant(v) && IsI64(v.startTime + CLIFF)
    requires now >= v.startTime + DURATION && IsI64(now - v.startTime)
    ensures ClaimOutcome(v, now) ==
      if v.claimedAmount == v.totalAmount then Err(Program(NoTokensToClaim))
      else Ok((v.(claimedAmount := v.totalAmount), v.totalAmount - v.claimedAmount))
  {
  }

  /** With a clock that does not run backwards, a later claim never finds
      less vested than was already claimed, so the checked subtraction of
      `claim_tokens` cannot fail after a successful claim. */
  lemma LaterVestedCoversClaimed(v: VestingData, t1: I64, t2: I64)
    requires ScheduleInvariant(v) && ClaimOutcome(v, t1).Ok? && t1 <= t2
    requires Vested(ClaimOutcome(v, t1).value.0, t2).Ok?
    ensures Vested(ClaimOutcome(v, t1).value.0, t2).value >= ClaimOutcome(v, t1).value.0.claimedAmount
  {
    var w := ClaimOutcome(v, t1).value.0;
    ClaimReleasesVested(v, t1);
    assert Vested(w, t1) == Vested(v, t1);
    VestedMonotone(w, t1, t2);
  }

  /** The checked product `total_amount * elapsed` overflows for large
      schedules: a total of 10^13 base units cannot be claimed at the cliff,
      only once the full duration has passed. */
  lemma LargeScheduleOverflowsBeforeFullVesting()
    ensures var v := VestingData(ZeroKey, ZeroKey, 10_000_000_000_000, 0, 0, CLIFF, DURATION);
      ClaimOutcome(v, CLIFF) == Err(Program(NumberOverflow)) &&
      LinearVested(v.totalAmount, CLIFF, DURATION) > 0 &&
      ClaimOutcome(v, DURATION) == Ok((v.(claimedAmount := v.totalAmount), v.totalAmount))
  {
    var v := VestingData(ZeroKey, ZeroKey, 10_000_000_000_000, 0, 0, CLIFF, DURATION);
    assert v.totalAmount * CLIFF > U64_MAX;
  }

  // ---------------------------------------------------------------------------
  // Successive claims

  /** Claims on one schedule at the given timestamps, in order; a failed claim
      leaves the schedule unchanged. Gives the final schedule and the total
      amount released. */
  function ClaimAll(v: VestingData, times: seq<I64>): (VestingData, nat)
    decreases |times|
  {
    if times == [] then (v, 0)
    else
      var first := ClaimOutcome(v, times[0]);
      if first.Err? then ClaimAll(v, times[1..])
      else
        var rest := ClaimAll(first.value.0, times[1..]);
        (rest.0, first.value.1 + rest.1)
  }

  /** Whatever the timestamps (the clock may even run backwards), successive
      claims release in total exactly the growth of `claimed_amount`, which
      never decreases and never exceeds the schedule's total; only
      `claimed_amount` changes. */
  lemma {:induction false} ClaimsNeverExceedTotal(v: VestingData, times: seq<I64>)
    requires ScheduleInvariant(v)
    decreases |times|
    ensures var (u, released) := ClaimAll(v, times);
      ScheduleInvariant(u) && u == v.(claimedAmount := u.claimedAmount) &&
      v.claimedAmount <= u.claimedAmount <= v.totalAmount &&
      u.claimedAmount == v.claimedAmount + released
  {
    if times != [] {
      match ClaimOutcome(v, times[0])
      case Err(_) =>
        ClaimsNeverExceedTotal(v, times[1..]);
      case Ok((w, released)) =>
        ClaimReleasesVested(v, times[0]);
        ClaimsNeverExceedTotal(w, times[1..]);
    }
  }
}
