/** Records, integer widths and error codes of the micro-batch auction market.

    Each account kind of the program becomes an immutable datatype; an
    instruction is a pure function from the accounts it reads to a `Result`
    carrying the accounts it writes. Because an `Err` carries no state, a
    failing instruction leaves every account as it was, which is what the
    runtime's transaction rollback gives the program.
 */
module Types {

  // ---------------------------------------------------------------------
  // Fixed-width unsigned integers of the program, as bounded subsets of int.
  // ---------------------------------------------------------------------

  const U8_MAX: int := 0xFF
  const U16_MAX: int := 0xFFFF
  const U32_MAX: int := 0xFFFF_FFFF
  const U64_MAX: int := 0xFFFF_FFFF_FFFF_FFFF
  const U128_MAX: int := 0xFFFF_FFFF_FFFF_FFFF_FFFF_FFFF_FFFF_FFFF

  /** 2^64: the modulus of an `as u64` truncation. */
  const TWO_POW_64: int := 0x1_0000_0000_0000_0000

  type u8 = x: int | 0 <= x <= 0xFF
  type u16 = x: int | 0 <= x <= 0xFFFF
  type u32 = x: int | 0 <= x <= 0xFFFF_FFFF
  type u64 = x: int | 0 <= x <= 0xFFFF_FFFF_FFFF_FFFF
  type u128 = x: int | 0 <= x <= 0xFFFF_FFFF_FFFF_FFFF_FFFF_FFFF_FFFF_FFFF

  /** Fixed-point scale of prices and amounts (1e6). */
  const PRICE_SCALE: nat := 1_000_000

  /** Basis-points denominator. */
  const BPS_DENOM: nat := 10_000

  // ---------------------------------------------------------------------
  // Identities and enumerations
  // ---------------------------------------------------------------------

  /** An account address or signer identity; only ever compared for equality. */
  datatype Pubkey = Pubkey(raw: nat)

  /** The all-zero key the program uses as "no keeper configured". */
  const DEFAULT_KEY: Pubkey := Pubkey(0)

  datatype Side = Bid | Ask

  /** The program's error codes, plus `ConstraintViolated` for a failed
      account constraint (a signer or market key that does not match the
      account it is checked against), which the framework reports before
      the instruction body runs. */
  datatype Error =
    | MathOverflow
    | InvalidFeeBps
    | MarketPaused
    | InvalidPrice
    | InvalidAmount
    | BatchNotReady
    | Unauthorized
    | TooManyOrdersForUser
    | InvalidUserBatch
    | MaxNotionalPerUserExceeded
    | MaxNotionalPerBatchExceeded
    | MaxOrdersGlobalExceeded
    | DustOrderTooSmall
    | PriceMoveTooLarge
    | KeeperNotAllowed
    | OrderCancelled
    | OrderAlreadySettled
    | BatchAlreadyClosed
    | BatchNotCleared
    | BatchFullySettled
    | BatchMarketMismatch
    | BatchIdMismatch
    | ConstraintViolated

  /** Outcome of an instruction: the new accounts, or the first check that failed. */
  datatype Result<+T> = Ok(value: T) | Err(error: Error) {
    predicate IsFailure() {
      Err?
    }

    function PropagateFailure<U>(): Result<U>
      requires Err?
    {
      Err(error)
    }

    function Extract(): T
      requires Ok?
    {
      value
    }
  }

  // ---------------------------------------------------------------------
  // Accounts
  // ---------------------------------------------------------------------

  /** Configuration and rolling state of one base/quote market. Mint, vault,
      treasury and bump fields are storage plumbing and are not carried. */
  datatype Market = Market(
    key: Pubkey,
    authority: Pubkey,
    batchDurationSlots: u64,
    lastBatchSlot: u64,
    currentBatchId: u64,
    nextOrderId: u64,
    feeBps: u16,
    maxOrdersPerUserPerBatch: u32,
    paused: bool,
    maxNotionalPerBatch: u128,
    maxNotionalPerUserPerBatch: u128,
    batchNotional: u128,
    maxOrdersGlobalPerBatch: u32,
    globalOrdersInBatch: u32,
    maxPriceMoveBps: u16,
    lastClearingPrice: u64,
    keeperFeeBps: u16,
    minSlotsBetweenClears: u64,
    keeperRestricted: bool,
    onlyKeeper: Pubkey,
    referralFeeBps: u16,
    protocolFeeBps: u16,
    protocolFeesAccrued: u128,
    minBaseOrder: u64,
    minQuoteOrder: u64,
    pauseReason: u8)

  /** One resting order. `quoteDeposit` is the quote collateral of a bid and
      0 for an ask (an ask's collateral is its base amount). */
  datatype Order = Order(
    user: Pubkey,
    market: Pubkey,
    side: Side,
    limitPrice: u64,
    amountBase: u64,
    batchId: u64,
    filled: bool,
    cancelled: bool,
    quoteDeposit: u64,
    id: u64)

  /** Per (market, user, batch) admission accumulator. An account whose
      `orderCount` is 0 is treated as fresh. */
  datatype UserBatchStats = UserBatchStats(
    user: Pubkey,
    market: Pubkey,
    batchId: u64,
    orderCount: u32,
    notional: u128)

  /** Clearing outcome of one batch and its remaining settlement budget. */
  datatype BatchState = BatchState(
    market: Pubkey,
    batchId: u64,
    clearingPrice: u64,
    totalBaseTraded: u128,
    totalQuoteTraded: u128,
    createdSlot: u64,
    clearedSlot: u64,
    settled: bool,
    keeper: Pubkey,
    keeperReward: u128,
    remainingBase: u128,
    remainingQuote: u128)

  /** Settlement receipt of one order; `claimed` makes settlement one-shot. */
  datatype OrderFill = OrderFill(
    order: u64,
    batchId: u64,
    filledBase: u128,
    filledQuote: u128,
    refundQuote: u128,
    refundBase: u128,
    claimed: bool)

  /** The receipt account as it exists before the order's first settlement. */
  const FRESH_FILL: OrderFill := OrderFill(0, 0, 0, 0, 0, 0, false)

  // ---------------------------------------------------------------------
  // Domain predicates shared by several instructions
  // ---------------------------------------------------------------------

  /** An order with this side and limit trades at `price`: a bid that is
      willing to pay at least the price, an ask willing to sell at most it. */
  predicate Crosses(side: Side, limit: nat, price: nat) {
    match side
    case Bid => limit >= price
    case Ask => limit <= price
  }

  /** The collateral an order locked at admission, in its own asset:
      quote for a bid, base for an ask. */
  function Collateral(o: Order): nat {
    match o.side
    case Bid => o.quoteDeposit
    case Ask => o.amountBase
  }

  /** The in-batch accumulators are within their caps. */
  predicate CapsRespected(m: Market) {
    && m.batchNotional <= m.maxNotionalPerBatch
    && m.globalOrdersInBatch <= m.maxOrdersGlobalPerBatch
  }

  /** The fee schedule is consistent: total at most 100%, and each share at
      most the total. */
  predicate FeesConsistent(m: Market) {
    && m.feeBps <= BPS_DENOM
    && m.protocolFeeBps <= m.feeBps
    && m.referralFeeBps <= m.feeBps
  }

  /** The market invariant: caps respected and fees consistent. */
  predicate MarketInv(m: Market) {
    CapsRespected(m) && FeesConsistent(m)
  }

  function Min(a: int, b: int): int {
    if a <= b then a else b
  }

  function Max(a: int, b: int): int {
    if a >= b then a else b
  }
}
