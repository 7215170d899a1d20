# Launchpad program: a Dafny model

This project models the Solana launchpad program of the Multichain-Launchpad
repository (`launchpad.rs`). The program keeps two kinds of accounts:

- a `Pool`: a fundraising window with a token price, a soft and a hard cap,
  and a running total of lamports invested;
- a `VestingSchedule`: one per investment, holding the tokens owed and how many
  have been claimed.

It has three instructions:

- `initialize_pool` writes a pool's parameters.
- `invest` checks the window and the finalized flag. It then computes the
  token amount `amount * token_price` with checked `u64` arithmetic, writes a
  new vesting schedule and adds `amount` to the pool total.
- `claim_tokens` waits for a 30-day cliff after the pool's end. It then releases
  whatever part of a 180-day linear vesting (floor division) has not yet been
  claimed.

Files:

- `numeric.dfy` (module `Numeric`): the `u64`/`i64` ranges as subset types `U64`
  and `I64`, the `as u64` cast, and the `checked_add/sub/mul/div` operations
  returning an `Option`.
- `accounts.dfy` (module `Accounts`): the two accounts as classes `Pool` and
  `VestingSchedule`, whose fields the instructions update in place, and their
  data as the values `PoolData` and `VestingData`. Also `ErrorCode`, the cliff
  and duration constants, and `ScheduleInvariant`, which every schedule the
  program writes satisfies.
- `vesting.dfy` (module `Vesting`): the release curve `LinearVested`, the
  program's checked computation `Vested`, the outcome of one claim
  `ClaimOutcome`, and what one claim and a sequence of claims can release.
- `launchpad.dfy` (module `Launchpad`): the three instructions as methods
  (`InitializePool`, `Invest`, `ClaimTokens`). Each follows the program step
  by step on the account objects. `InvestOutcome` and `ClaimOutcome` state
  each method's effect on the accounts' data. Beside them sit the properties
  of `invest` and of sequences of investments.

Every failure is an `Err` that leaves all accounts as they were, because a
failed Solana transaction is rolled back. The clock (`Clock::get()`) is the
explicit parameter `now`. Failures come in two kinds:

- `Program(code)` is one of the program's `ErrorCode`s;
- `ArithmeticPanic` is the abort raised by an overflowing `i64` addition or
  subtraction (`start_time + cliff`, `now - start_time`). This assumes the
  usual Anchor build setting `overflow-checks = true`.

## Model

| member | source | states |
|---|---|---|
| Launchpad.InitializePool | packages/solana/solana-contracts/programs/solana-contracts/src/launchpad.rs:11-31 | the new pool holds the given authority, mint, price, caps and times unchanged, with `total_invested = 0` and `finalized = false`; no parameter is validated (no requires) |
| Launchpad.Invest | packages/solana/solana-contracts/programs/solana-contracts/src/launchpad.rs:33-81 | the method's effect on the pool and the new vesting account is exactly `InvestOutcome`: on an error the pool is unchanged and no schedule is returned; on success a fresh schedule satisfying the schedule invariant is returned |
| Launchpad.ClaimTokens | packages/solana/solana-contracts/programs/solana-contracts/src/launchpad.rs:83-126 | the method's effect on the schedule and the released amount is exactly `ClaimOutcome`; the pool is unchanged; the schedule invariant is kept |
| Launchpad.NewSchedule | packages/solana/solana-contracts/programs/solana-contracts/src/launchpad.rs:68-75 | the schedule `invest` writes satisfies the schedule invariant (30-day cliff, 180-day duration, claimed ≤ total) with nothing claimed |
| Launchpad.InvestWindowChecks | packages/solana/solana-contracts/programs/solana-contracts/src/launchpad.rs:37-45 | `PoolNotStarted` iff `now < start_time`; `PoolEnded` iff `now >= start_time` and `now > end_time`; `PoolFinalized` iff inside the inclusive window and finalized |
| Launchpad.InvestOverflows | packages/solana/solana-contracts/programs/solana-contracts/src/launchpad.rs:48-78 | inside the window of an open pool, `NumberOverflow` iff `amount * token_price` or `total_invested + amount` exceeds `u64::MAX` |
| Launchpad.InvestSucceeds | packages/solana/solana-contracts/programs/solana-contracts/src/launchpad.rs:68-78 | `invest` succeeds iff all checks pass; on success `total_invested` grows by exactly `amount`, nothing else in the pool changes, and the schedule holds `amount * token_price`, claimed 0, start = pool end, cliff 2 592 000, duration 15 552 000 |
| Launchpad.InvestIgnoresHardCap | packages/solana/solana-contracts/programs/solana-contracts/src/launchpad.rs:77-78 | an investment that takes the total past the hard cap succeeds: there is no hard-cap check |
| Launchpad.InvestsAccumulate | packages/solana/solana-contracts/programs/solana-contracts/src/launchpad.rs:33-81 | over any sequence of investments the pool changes only in its total, which never decreases; the schedules written promise together `token_price` times the total's growth, each starting at the pool's end with nothing claimed |
| Launchpad.InvestOutcome | packages/solana/solana-contracts/programs/solana-contracts/src/launchpad.rs:33-81 | the outcome of `invest`, with the checks in the program's order; its ensures say a success lies inside the inclusive window of an unfinalized pool, changes the pool only by adding `amount` to its total, and writes a schedule of `amount * token_price` with nothing claimed that starts at the pool's end and keeps the schedule invariant; its error cases are the lemmas `InvestWindowChecks`, `InvestOverflows`, `InvestSucceeds` and `InvestsAccumulate` |
| Launchpad.InvestThenClaimScenario | packages/ethereum/test/LaunchpadPool.test.js:90-143 | an investment at the opening of a 30-day pool succeeds; one 31 days later fails with `PoolEnded`; a claim right after investing fails with `CliffNotReached`, and so does a claim 31 days after investing (the timing of the test at :125, which expects success there); a claim 31 days after the pool's end releases a positive amount |
| Vesting.LinearVested | packages/solana/solana-contracts/programs/solana-contracts/src/launchpad.rs:93-102 | the release curve never exceeds the total, equals it once `elapsed >= duration`, and before that is the floor of `total * elapsed / duration` |
| Vesting.LinearVestedMonotone | packages/solana/solana-contracts/programs/solana-contracts/src/launchpad.rs:93-102 | the release curve does not decrease as the elapsed time grows |
| Vesting.Vested | packages/solana/solana-contracts/programs/solana-contracts/src/launchpad.rs:93-102 | whenever the computation succeeds at or after `start_time + duration`, the vested amount is the whole total |
| Vesting.VestedIsLinear | packages/solana/solana-contracts/programs/solana-contracts/src/launchpad.rs:93-102 | for a schedule the program wrote, past the cliff, the checked computation yields the release curve, except for `NumberOverflow` exactly when `total_amount * elapsed` exceeds `u64::MAX` during the linear phase |
| Vesting.VestedMonotone | packages/solana/solana-contracts/programs/solana-contracts/src/launchpad.rs:93-102 | the computed vested amount does not decrease as `now` grows |
| Vesting.ClaimOutcome | packages/solana/solana-contracts/programs/solana-contracts/src/launchpad.rs:83-126 | a successful claim changes only `claimed_amount` and raises it by the released amount, which is positive |
| Vesting.ClaimCliffGate | packages/solana/solana-contracts/programs/solana-contracts/src/launchpad.rs:88-91 | a claim fails with `CliffNotReached` iff `now < start_time + cliff` |
| Vesting.ClaimAbortsNearI64Max | packages/solana/solana-contracts/programs/solana-contracts/src/launchpad.rs:88-91 | a schedule starting less than 30 days before the largest `i64` can never be claimed: `start_time + cliff` aborts |
| Vesting.ClaimReleasesVested | packages/solana/solana-contracts/programs/solana-contracts/src/launchpad.rs:104-123 | after a successful claim `claimed_amount` equals the vested amount at that time (the release curve), strictly larger than before and at most the total; the released amount is the difference; the invariant is kept |
| Vesting.ClaimNothingLeft | packages/solana/solana-contracts/programs/solana-contracts/src/launchpad.rs:104-108 | `NoTokensToClaim` iff past the cliff the vested amount equals `claimed_amount` |
| Vesting.ClaimAgainAtSameTimeFails | packages/solana/solana-contracts/programs/solana-contracts/src/launchpad.rs:104-108 | a second claim at the same timestamp as a successful one fails with `NoTokensToClaim` |
| Vesting.ClaimAfterDurationReleasesRest | packages/solana/solana-contracts/programs/solana-contracts/src/launchpad.rs:93-123 | from `start_time + duration` on, a claim releases all that is unclaimed, or fails with `NoTokensToClaim` if nothing is |
| Vesting.LaterVestedCoversClaimed | packages/solana/solana-contracts/programs/solana-contracts/src/launchpad.rs:104-106 | with a clock that does not run backwards, the checked subtraction `vested - claimed_amount` cannot fail after a successful claim |
| Vesting.LargeScheduleOverflowsBeforeFullVesting | packages/solana/solana-contracts/programs/solana-contracts/src/launchpad.rs:96-99 | a schedule of 10^13 base units fails with `NumberOverflow` at the cliff although its curve value is positive, and releases everything once the full duration has passed |
| Vesting.ClaimsNeverExceedTotal | packages/solana/solana-contracts/programs/solana-contracts/src/launchpad.rs:83-126 | for any sequence of claim times, `claimed_amount` never decreases, never exceeds `total_amount`, grows by exactly the total released, and nothing else in the schedule changes |

## Left out

- The lamport transfer from the investor to the pool (`system_instruction::transfer` and `invoke`, `launchpad.rs:53-65`) and the SPL token transfer to the investor (`token::transfer`, `launchpad.rs:111-120`). These are calls into other programs. A failure there would roll back the instruction; the model assumes they succeed. `ClaimTokens` returns the amount that would be transferred.
- The Anchor account constraints (`#[derive(Accounts)]`, `init`, `payer`, `space`, signers, `declare_id!`, `launchpad.rs:129-165`). A newly `init`ed account is modelled as a zeroed object (`Pool.Zeroed`, `VestingSchedule.Zeroed`). Account keys are opaque `Pubkey` values. Nothing checks that a claimed schedule belongs to the pool passed in, or that it is claimed by its investor, because the program does not check it either.
- `Clock::get()` is the parameter `now`; the model does not assume the clock is monotone, except in `LaterVestedCoversClaimed`, which says so.
- `finalized` is never set to true: the pool account belongs to the program, and its only writer, `initialize_pool`, sets it to false (`launchpad.rs:27`). So the `PoolFinalized` check of `invest` can never fire for this program. The model keeps the check as written.
- The Ethereum test of linear vesting (`packages/ethereum/test/LaunchpadPool.test.js:123-135`) claims 31 days after investing at the opening of a 30-day pool and expects success. The Solana program rejects that claim with `CliffNotReached`, because its cliff ends 30 days after the pool's end (`launchpad.rs:73-74`, `:88-91`); `InvestThenClaimScenario` proves this. The model follows the program.
- The `i64` overflow panic (`ArithmeticPanic`) assumes the build aborts on overflow; a build with wrapping arithmetic would behave differently on timestamps near the ends of the `i64` range.
- The token amount owed is `amount * token_price`, as the program computes it, not the invested amount divided by a price; release is linear after the cliff, not all at once.
- The Ethereum `LaunchpadPool` contract is not part of this model: the repository deploys it (`packages/ethereum/ignition/modules/LaunchpadPool.js`), but its Solidity source is not available to this model, so hard cap enforcement, pool ids, investments by id and governance voting (`createProposal`, `vote`, `getVote`) have no implementation to model.
- `packages/solana/solana-contracts/tests/launchpad.rs` is not used: it calls modules that the program does not have. Its expected values (a schedule total equal to the invested amount, 500 claimed after 31 days) disagree with the program, which multiplies by the price and vests linearly over 180 days.
- The backend gateway, the frontend, and the deployment scripts and configuration are I/O and user interface, not part of this model.
