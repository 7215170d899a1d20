/** The three instructions of the launchpad program. Each instruction is a
    method that updates the accounts in place, step by step as the program
    does, and whose effect is stated by a function on the accounts' data:
    `InvestOutcome` here and `Vesting.ClaimOutcome`. An instruction that fails
    leaves every account as it was (the transaction is rolled back). The clock
    is the parameter `now`; the lamport and token transfers are not modelled. */
module Launchpad {
  import opened Numeric
  import opened Accounts
  import opened Vesting

  /** The vesting schedule `invest` writes: the whole token amount, nothing
      claimed, starting when the pool ends, with the fixed cliff and duration. */
  function NewSchedule(investor: Pubkey, poolKey: Pubkey, tokenAmount: U64, poolEnd: I64): (v: VestingData)
    ensures ScheduleInvariant(v) && v.claimedAmount == 0
  {
    VestingData(investor, poolKey, tokenAmount, 0, poolEnd, CLIFF, DURATION)
  }

  /** The outcome of `invest` of `amount` lamports by `investor` into pool
      `p` (at address `poolKey`) at time `now`: the new pool data and the new
      schedule, or the error. The checks come in the program's order: window
      start, window end, finalization, the token amount, the running total. */
  function InvestOutcome(p: PoolData, poolKey: Pubkey, investor: Pubkey, amount: U64, now: I64)
    : (r: Result<(PoolData, VestingData)>)
    ensures r.Ok? ==> p.startTime <= now <= p.endTime
    ensures r.Ok? ==> !p.finalized && r.value.0.totalInvested == p.totalInvested + amount
    ensures r.Ok? ==> r.value.0 == p.(totalInvested := r.value.0.totalInvested)
    ensures r.Ok? ==> r.value.1.totalAmount == amount * p.tokenPrice && ScheduleInvariant(r.value.1)
    ensures r.Ok? ==> r.value.1.claimedAmount == 0 && r.value.1.startTime == p.endTime
  {
    if now < p.startTime then Err(Program(PoolNotStarted))
    else if now > p.endTime then Err(Program(PoolEnded))
    else if p.finalized then Err(Program(PoolFinalized))
    else if amount * p.tokenPrice > U64_MAX then Err(Program(NumberOverflow))
    else if p.totalInvested + amount > U64_MAX then Err(Program(NumberOverflow))
    else Ok((p.(totalInvested := p.totalInvested + amount),
             NewSchedule(investor, poolKey, amount * p.tokenPrice, p.endTime)))
  }

  // ---------------------------------------------------------------------------
  // The instructions

  /** `initialize_pool`: writes the parameters into a new pool account as
      given, with nothing invested and not finalized. No parameter is
      checked: a soft cap above the hard cap, or a window that ends before it
      starts, is stored all the same. */
  method InitializePool(key: Pubkey, authority: Pubkey, tokenMint: Pubkey,
                        tokenPrice: U64, softCap: U64, hardCap: U64,
                        startTime: I64, endTime: I64)
    returns (pool: Pool)
    ensures fresh(pool) && pool.key == key
    ensures pool.Data() == PoolData(authority, tokenMint, tokenPrice, softCap, hardCap,
                                    startTime, endTime, false, 0)
  {
    pool := new Pool.Zeroed(key);
    pool.authority := authority;
    pool.tokenMint := tokenMint;
    pool.tokenPrice := tokenPrice;
    pool.softCap := softCap;
    pool.hardCap := hardCap;
    pool.startTime := startTime;
    pool.endTime := endTime;
    pool.finalized := false;
    pool.totalInvested := 0;
  }

  /** `invest`: on success returns the new vesting account (at address
      `vestingKey`) and adds `amount` to the pool's running total. */
  method Invest(pool: Pool, vestingKey: Pubkey, investor: Pubkey, amount: U64, now: I64)
    returns (r: Result<VestingSchedule>)
    modifies pool
    ensures var outcome := InvestOutcome(old(pool.Data()), pool.key, investor, amount, now);
      match outcome
      case Err(e) => r == Err(e) && pool.Data() == old(pool.Data())
      case Ok((p, v)) =>
        r.Ok? && fresh(r.value) && r.value.key == vestingKey &&
        pool.Data() == p && r.value.Data() == v && r.value.Valid()
  {
    if !(now >= pool.startTime) {
      return Err(Program(PoolNotStarted));
    }
    if !(now <= pool.endTime) {
      return Err(Program(PoolEnded));
    }
    if pool.finalized {
      return Err(Program(PoolFinalized));
    }

    var tokenAmount := CheckedMul(amount, pool.tokenPrice);
    if tokenAmount.None? {
      return Err(Program(NumberOverflow));
    }

    // The lamport transfer from the investor to the pool happens here.

    var vesting := new VestingSchedule.Zeroed(vestingKey);
    vesting.investor := investor;
    vesting.pool := pool.key;
    vesting.totalAmount := tokenAmount.value;
    vesting.claimedAmount := 0;
    vesting.startTime := pool.endTime;
    vesting.cliff := CLIFF;
    vesting.duration := DURATION;

    // A failure here rolls back the vesting account written above as well.
    var newTotal := CheckedAdd(pool.totalInvested, amount);
    if newTotal.None? {
      return Err(Program(NumberOverflow));
    }
    pool.totalInvested := newTotal.value;
    r := Ok(vesting);
  }

  /** `claim_tokens`: on success returns the amount released to the investor
      and raises the schedule's `claimed_amount` by it. The pool is only the
      authority of the token transfer and is not changed. */
  method ClaimTokens(pool: Pool, vesting: VestingSchedule, now: I64) returns (r: Result<U64>)
    modifies vesting
    ensures unchanged(pool)
    ensures match ClaimOutcome(old(vesting.Data()), now)
      case Err(e) => r == Err(e) && vesting.Data() == old(vesting.Data())
      case Ok((v, released)) => r == Ok(released) && vesting.Data() == v
    ensures old(vesting.Valid()) ==> vesting.Valid()
  {
    var cliffEnd := vesting.startTime + vesting.cliff;
    if !IsI64(cliffEnd) {
      return Err(ArithmeticPanic);
    }
    if !(now >= cliffEnd) {
      return Err(Program(CliffNotReached));
    }

    var elapsed := now - vesting.startTime;
    if !IsI64(elapsed) {
      return Err(ArithmeticPanic);
    }
    var vested: U64;
    if elapsed >= vesting.duration {
      vested := vesting.totalAmount;
    } else {
      var product := CheckedMul(vesting.totalAmount, AsU64(elapsed));
      if product.None? {
        return Err(Program(NumberOverflow));
      }
      var quotient := CheckedDiv(product.value, AsU64(vesting.duration));
      if quotient.None? {
        return Err(Program(NumberOverflow));
      }
      vested := quotient.value;
    }

    var claimable := CheckedSub(vested, vesting.claimedAmount);
    if claimable.None? {
      return Err(Program(NumberOverflow));
    }
    if !(claimable.value > 0) {
      return Err(Program(NoTokensToClaim));
    }

    // The token transfer from the pool's token account happens here.

    // The checked addition cannot overflow: the sum is `vested`.
    vesting.claimedAmount := vesting.claimedAmount + claimable.value;
    r := Ok(claimable.value);
    if old(vesting.Valid()) {
      ClaimReleasesVested(old(vesting.Data()), now);
    }
  }

  // ---------------------------------------------------------------------------
  // Properties of `invest`

  /** The checks fail in the program's order, and the window is inclusive at
      both ends: `PoolNotStarted` strictly before the start, otherwise
      `PoolEnded` strictly after the end, otherwise `PoolFinalized` on a
      finalized pool. */
  lemma InvestWindowChecks(p: PoolData, poolKey: Pubkey, investor: Pubkey, amount: U64, now: I64)
    ensures InvestOutcome(p, poolKey, investor, amount, now) == Err(Program(PoolNotStarted))
      <==> now < p.startTime
    ensures InvestOutcome(p, poolKey, investor, amount, now) == Err(Program(PoolEnded))
      <==> p.startTime <= now && now > p.endTime
    ensures InvestOutcome(p, poolKey, investor, amount, now) == Err(Program(PoolFinalized))
      <==> p.startTime <= now <= p.endTime && p.finalized
  {
  }

  /** Inside the window of an open pool, `invest` fails with `NumberOverflow`
      exactly when the token amount `amount * token_price` or the new total
      `total_invested + amount` does not fit in a `u64`. */
  lemma InvestOverflows(p: PoolData, poolKey: Pubkey, investor: Pubkey, amount: U64, now: I64)
    requires p.startTime <= now <= p.endTime && !p.finalized
    ensures InvestOutcome(p, poolKey, investor, amount, now) == Err(Program(NumberOverflow))
      <==> amount * p.tokenPrice > U64_MAX || p.totalInvested + amount > U64_MAX
  {
  }

  /** A successful `invest` adds exactly `amount` to the pool's total and
      changes nothing else in the pool; the schedule it writes holds the
      token amount `amount * token_price`, nothing claimed, starts at the
      pool's end, and has the 30-day cliff and the 180-day duration. */
  lemma InvestSucceeds(p: PoolData, poolKey: Pubkey, investor: Pubkey, amount: U64, now: I64)
    ensures InvestOutcome(p, poolKey, investor, amount, now).Ok? <==>
      p.startTime <= now <= p.endTime && !p.finalized &&
      amount * p.tokenPrice <= U64_MAX && p.totalInvested + amount <= U64_MAX
    ensures InvestOutcome(p, poolKey, investor, amount, now).Ok? ==>
      var (q, v) := InvestOutcome(p, poolKey, investor, amount, now).value;
      q.totalInvested == p.totalInvested + amount &&
      q == p.(totalInvested := q.totalInvested) &&
      v.investor == investor && v.pool == poolKey &&
      v.totalAmount == amount * p.tokenPrice && v.claimedAmount == 0 &&
      v.startTime == p.endTime && v.cliff == 2_592_000 && v.duration == 15_552_000
  {
  }

  /** There is no hard-cap check: an investment that takes the total past the
      hard cap succeeds. */
  lemma InvestIgnoresHardCap()
    ensures var p := PoolData(ZeroKey, ZeroKey, 1, 10, 100, 0, 10, false, 100);
      var r := InvestOutcome(p, ZeroKey, ZeroKey, 50, 5);
      r.Ok? && r.value.0.totalInvested == 150 > p.hardCap
  {
  }

  /** One investment attempt: who invests, how much, and when. */
  datatype InvestRequest = InvestRequest(investor: Pubkey, amount: U64, now: I64)

  /** Investments into one pool in order, each failed one leaving the pool
      unchanged. Gives the final pool data and the schedules written. */
  function InvestAll(p: PoolData, poolKey: Pubkey, reqs: seq<InvestRequest>): (PoolData, seq<VestingData>)
    decreases |reqs|
  {
    if reqs == [] then (p, [])
    else
      var first := InvestOutcome(p, poolKey, reqs[0].investor, reqs[0].amount, reqs[0].now);
      if first.Err? then InvestAll(p, poolKey, reqs[1..])
      else
        var rest := InvestAll(first.value.0, poolKey, reqs[1..]);
        (rest.0, [first.value.1] + rest.1)
  }

  /** The token amounts the schedules in `vs` promise in all. */
  function SumTotals(vs: seq<VestingData>): nat
  {
    if vs == [] then 0 else vs[0].totalAmount + SumTotals(vs[1..])
  }

  /** After any sequence of investments the pool differs only in its total,
      which has grown by exactly what the written schedules were paid for:
      together they promise `token_price` times the growth. Every schedule
      starts at the pool's end with nothing claimed, and keeps the schedule
      invariant. */
  lemma {:induction false} InvestsAccumulate(p: PoolData, poolKey: Pubkey, reqs: seq<InvestRequest>)
    decreases |reqs|
    ensures var (q, vs) := InvestAll(p, poolKey, reqs);
      q == p.(totalInvested := q.totalInvested) && p.totalInvested <= q.totalInvested &&
      SumTotals(vs) == p.tokenPrice * (q.totalInvested - p.totalInvested) &&
      forall i :: 0 <= i < |vs| ==>
        ScheduleInvariant(vs[i]) && vs[i].claimedAmount == 0 &&
        vs[i].startTime == p.endTime && vs[i].pool == poolKey
  {
    if reqs != [] {
      var first := InvestOutcome(p, poolKey, reqs[0].investor, reqs[0].amount, reqs[0].now);
      if first.Err? {
        InvestsAccumulate(p, poolKey, reqs[1..]);
      } else {
        var (p1, v) := first.value;
        InvestsAccumulate(p1, poolKey, reqs[1..]);
        var (q, vs) := InvestAll(p1, poolKey, reqs[1..]);
        assert InvestAll(p, poolKey, reqs) == (q, [v] + vs);
        assert ([v] + vs)[1..] == vs;
        calc {
          SumTotals([v] + vs);
          v.totalAmount + SumTotals(vs);
          reqs[0].amount * p.tokenPrice + p.tokenPrice * (q.totalInvested - p1.totalInvested);
          { assert p1.totalInvested - p.totalInvested == reqs[0].amount; }
          p.tokenPrice * (q.totalInvested - p.totalInvested);
        }
      }
    }
  }

  // ---------------------------------------------------------------------------
  // The lifecycle of one investment

  /** A 30-day pool opened at time `t`: an investment at the opening
      succeeds, one 31 days later fails with `PoolEnded`, a claim right after
      investing fails with `CliffNotReached`, so does a claim 31 days after
      investing (one day after the pool's end, still before the cliff, which
      ends 30 days after the pool's end), and a claim 31 days after the
      pool's end releases a positive amount. */
  lemma InvestThenClaimScenario(t: I64)
    requires 0 <= t <= 1_000_000_000_000
    ensures var p := PoolData(ZeroKey, ZeroKey, 100, 1_000, 5_000, t, t + 2_592_000, false, 0);
      var r := InvestOutcome(p, ZeroKey, ZeroKey, 500, t);
      r.Ok? &&
      InvestOutcome(r.value.0, ZeroKey, ZeroKey, 500, t + 2_678_400) == Err(Program(PoolEnded)) &&
      ClaimOutcome(r.value.1, t) == Err(Program(CliffNotReached)) &&
      ClaimOutcome(r.value.1, t + 2_678_400) == Err(Program(CliffNotReached)) &&
      ClaimOutcome(r.value.1, t + 2_592_000 + 2_678_400).Ok? &&
      ClaimOutcome(r.value.1, t + 2_592_000 + 2_678_400).value.0.claimedAmount > 0
  {
    var p := PoolData(ZeroKey, ZeroKey, 100, 1_000, 5_000, t, t + 2_592_000, false, 0);
    var v := InvestOutcome(p, ZeroKey, ZeroKey, 500, t).value.1;
    var now := t + 2_592_000 + 2_678_400;
    VestedIsLinear(v, now);
  }
}
