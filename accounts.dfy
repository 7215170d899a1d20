/** The two account records of the launchpad program, `Pool` and
    `VestingSchedule`, its error codes, and the value views of both accounts
    that the instruction specifications are written against. */
module Accounts {
  import opened Numeric

  /** A Solana account address (32 bytes); the model never looks inside. */
  datatype Pubkey = Pubkey(bytes: seq<bv8>)

  /** The all-zero address a freshly allocated account holds before it is written. */
  const ZeroKey: Pubkey := Pubkey(seq(32, _ => 0 as bv8))

  /** Seconds from the vesting start to the cliff: 30 days. */
  const CLIFF: I64 := 2_592_000

  /** Seconds of linear release from the vesting start: 180 days. */
  const DURATION: I64 := 15_552_000

  /** The program's own `ErrorCode` enumeration. */
  datatype ErrorCode =
    | PoolNotStarted
    | PoolEnded
    | PoolFinalized
    | CliffNotReached
    | NoTokensToClaim
    | NumberOverflow

  /** How an instruction fails: with one of the program's error codes, or by the
      runtime abort that a checked `i64` addition or subtraction raises on
      overflow. Either way the transaction is rolled back. */
  datatype Error = Program(code: ErrorCode) | ArithmeticPanic

  datatype Result<T> = Ok(value: T) | Err(error: Error)

  /** The data of a `Pool` account. */
  datatype PoolData = PoolData(
    authority: Pubkey,
    tokenMint: Pubkey,
    tokenPrice: U64,
    softCap: U64,
    hardCap: U64,
    startTime: I64,
    endTime: I64,
    finalized: bool,
    totalInvested: U64)

  /** The data of a `VestingSchedule` account. */
  datatype VestingData = VestingData(
    investor: Pubkey,
    pool: Pubkey,
    totalAmount: U64,
    claimedAmount: U64,
    startTime: I64,
    cliff: I64,
    duration: I64)

  /** What holds of every vesting account the program has written: it carries
      the program's fixed cliff and duration and has never released more than
      its total. */
  predicate ScheduleInvariant(v: VestingData) {
    v.cliff == CLIFF && v.duration == DURATION && v.claimedAmount <= v.totalAmount
  }

  /** A `Pool` account, updated in place by the instructions. */
  class Pool {
    /** The account's address. */
    const key: Pubkey
    var authority: Pubkey
    var tokenMint: Pubkey
    var tokenPrice: U64
    var softCap: U64
    var hardCap: U64
    var startTime: I64
    var endTime: I64
    var finalized: bool
    var totalInvested: U64

    function Data(): PoolData
      reads this
    {
      PoolData(authority, tokenMint, tokenPrice, softCap, hardCap,
               startTime, endTime, finalized, totalInvested)
    }

    /** A newly allocated account: every byte of its data is zero. */
    constructor Zeroed(key: Pubkey)
      ensures this.key == key
      ensures Data() == PoolData(ZeroKey, ZeroKey, 0, 0, 0, 0, 0, false, 0)
    {
      this.key := key;
      authority, tokenMint := ZeroKey, ZeroKey;
      tokenPrice, softCap, hardCap := 0, 0, 0;
      startTime, endTime := 0, 0;
      finalized := false;
      totalInvested := 0;
    }
  }

  /** A `VestingSchedule` account, one per investment. */
  class VestingSchedule {
    /** The account's address. */
    const key: Pubkey
    var investor: Pubkey
    var pool: Pubkey
    var totalAmount: U64
    var claimedAmount: U64
    var startTime: I64
    var cliff: I64
    var duration: I64

    function Data(): VestingData
      reads this
    {
      VestingData(investor, pool, totalAmount, claimedAmount, startTime, cliff, duration)
    }

    ghost predicate Valid()
      reads this
    {
      ScheduleInvariant(Data())
    }

    /** A newly allocated account: every byte of its data is zero. */
    constructor Zeroed(key: Pubkey)
      ensures this.key == key
      ensures Data() == VestingData(ZeroKey, ZeroKey, 0, 0, 0, 0, 0)
    {
      this.key := key;
      investor, pool := ZeroKey, ZeroKey;
      totalAmount, claimedAmount := 0, 0;
      startTime, cliff, duration := 0, 0, 0;
    }
  }
}
