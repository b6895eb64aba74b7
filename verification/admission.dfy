/** Order admission (`place_order`): pause, price and amount validation,
    side-specific dust floors, per-user and per-batch caps, order id
    allocation and the collateral the order locks. */
module Admission {
  import opened Types
  import opened FixedPoint

  /** Accounts written by a successful admission. */
  datatype Placed = Placed(market: Market, stats: UserBatchStats, order: Order)

  /** The checks admission performs, in the order it performs them. */
  datatype Check =
    | NotPaused
    | PricePositive
    | AmountPositive
    | AboveDustFloor
    | StatsBelongToBatch
    | UserNotionalFits
    | UserNotionalWithinCap
    | UserCountBelowCap
    | BatchNotionalFits
    | BatchNotionalWithinCap
    | GlobalCountBelowCap
    | OrderIdFits
    | DepositPositive

  const ADMISSION_CHECKS: seq<Check> := [
    NotPaused, PricePositive, AmountPositive, AboveDustFloor, StatsBelongToBatch,
    UserNotionalFits, UserNotionalWithinCap, UserCountBelowCap,
    BatchNotionalFits, BatchNotionalWithinCap, GlobalCountBelowCap,
    OrderIdFits, DepositPositive]

  /** Error reported when a check fails. */
  function CheckError(c: Check): Error {
    match c
    case NotPaused => MarketPaused
    case PricePositive => InvalidPrice
    case AmountPositive => InvalidAmount
    case AboveDustFloor => DustOrderTooSmall
    case StatsBelongToBatch => InvalidUserBatch
    case UserNotionalFits => MathOverflow
    case UserNotionalWithinCap => MaxNotionalPerUserExceeded
    case UserCountBelowCap => TooManyOrdersForUser
    case BatchNotionalFits => MathOverflow
    case BatchNotionalWithinCap => MaxNotionalPerBatchExceeded
    case GlobalCountBelowCap => MaxOrdersGlobalExceeded
    case OrderIdFits => MathOverflow
    case DepositPositive => InvalidAmount
  }

  /** The user's accumulator as admission sees it: an account with no orders
      yet is (re)bound to this user, market and batch with zero notional. */
  function BoundStats(m: Market, stats: UserBatchStats, user: Pubkey): UserBatchStats {
    if stats.orderCount == 0 then UserBatchStats(user, m.key, m.currentBatchId, 0, 0)
    else stats
  }

  /** Quote collateral a bid locks: its notional cast to 64 bits. */
  function BidDeposit(amount: nat, limit: nat): u64 {
    TruncU64(Notional(amount, limit))
  }

  /** Whether check `c` holds for this request, stated on the inputs. */
  predicate Passes(c: Check, m: Market, stats: UserBatchStats, user: Pubkey,
                   side: Side, limit: u64, amount: u64)
  {
    var n := Notional(amount, limit);
    var s := BoundStats(m, stats, user);
    match c
    case NotPaused => !m.paused
    case PricePositive => limit > 0
    case AmountPositive => amount > 0
    case AboveDustFloor =>
      (match side
       case Bid => n >= m.minQuoteOrder
       case Ask => amount >= m.minBaseOrder)
    case StatsBelongToBatch =>
      stats.orderCount == 0
      || (stats.user == user && stats.market == m.key && stats.batchId == m.currentBatchId)
    case UserNotionalFits => s.notional + n <= U128_MAX
    case UserNotionalWithinCap => s.notional + n <= m.maxNotionalPerUserPerBatch
    case UserCountBelowCap => s.orderCount < m.maxOrdersPerUserPerBatch
    case BatchNotionalFits => m.batchNotional + n <= U128_MAX
    case BatchNotionalWithinCap => m.batchNotional + n <= m.maxNotionalPerBatch
    case GlobalCountBelowCap => m.globalOrdersInBatch < m.maxOrdersGlobalPerBatch
    case OrderIdFits => m.nextOrderId < U64_MAX
    case DepositPositive => side == Ask || BidDeposit(amount, limit) > 0
  }

  /** Every admission check holds. */
  predicate AllChecksPass(m: Market, stats: UserBatchStats, user: Pubkey,
                          side: Side, limit: u64, amount: u64)
  {
    && Passes(NotPaused, m, stats, user, side, limit, amount)
    && Passes(PricePositive, m, stats, user, side, limit, amount)
    && Passes(AmountPositive, m, stats, user, side, limit, amount)
    && Passes(AboveDustFloor, m, stats, user, side, limit, amount)
    && Passes(StatsBelongToBatch, m, stats, user, side, limit, amount)
    && Passes(UserNotionalFits, m, stats, user, side, limit, amount)
    && Passes(UserNotionalWithinCap, m, stats, user, side, limit, amount)
    && Passes(UserCountBelowCap, m, stats, user, side, limit, amount)
    && Passes(BatchNotionalFits, m, stats, user, side, limit, amount)
    && Passes(BatchNotionalWithinCap, m, stats, user, side, limit, amount)
    && Passes(GlobalCountBelowCap, m, stats, user, side, limit, amount)
    && Passes(OrderIdFits, m, stats, user, side, limit, amount)
    && Passes(DepositPositive, m, stats, user, side, limit, amount)
  }

  /** Binds or validates the user's accumulator for the current batch. */
  function BindStats(m: Market, stats: UserBatchStats, user: Pubkey): (r: Result<UserBatchStats>)
    ensures r.Ok? <==> Passes(StatsBelongToBatch, m, stats, user, Bid, 0, 0)
    ensures r.Ok? ==> r.value == BoundStats(m, stats, user)
    ensures r.Ok? ==> r.value.user == user && r.value.market == m.key && r.value.batchId == m.currentBatchId
    ensures r.Err? ==> r.error == InvalidUserBatch
  {
    if stats.orderCount == 0 then Ok(UserBatchStats(user, m.key, m.currentBatchId, 0, 0))
    else if stats.user != user || stats.market != m.key || stats.batchId != m.currentBatchId then
      Err(InvalidUserBatch)
    else Ok(stats)
  }

  /** The accumulator checks of `place_order`, run once the user's
      accumulator is bound (so `s` is its own bound form): both notionals
      within 128 bits and their caps, both order counts below their caps, a
      free order id and a nonzero bid deposit. On success the accumulators
      grow by this order and the order is written. */
  function Admit(m: Market, s: UserBatchStats, user: Pubkey,
                 side: Side, limit: u64, amount: u64): (r: Result<Placed>)
    requires BoundStats(m, s, user) == s
    ensures r.Ok? <==>
              && Passes(UserNotionalFits, m, s, user, side, limit, amount)
              && Passes(UserNotionalWithinCap, m, s, user, side, limit, amount)
              && Passes(UserCountBelowCap, m, s, user, side, limit, amount)
              && Passes(BatchNotionalFits, m, s, user, side, limit, amount)
              && Passes(BatchNotionalWithinCap, m, s, user, side, limit, amount)
              && Passes(GlobalCountBelowCap, m, s, user, side, limit, amount)
              && Passes(OrderIdFits, m, s, user, side, limit, amount)
              && Passes(DepositPositive, m, s, user, side, limit, amount)
    ensures r.Ok? ==> r.value.market == m.(batchNotional := m.batchNotional + Notional(amount, limit),
                                           globalOrdersInBatch := m.globalOrdersInBatch + 1,
                                           nextOrderId := m.nextOrderId + 1)
    ensures r.Ok? ==> r.value.stats == s.(notional := s.notional + Notional(amount, limit),
                                          orderCount := s.orderCount + 1)
    ensures r.Ok? ==> r.value.order == Order(user, m.key, side, limit, amount, m.currentBatchId,
                                             false, false, r.value.order.quoteDeposit, m.nextOrderId)
    ensures r.Ok? ==> r.value.order.quoteDeposit == (match side
                                                      case Bid => BidDeposit(amount, limit)
                                                      case Ask => 0)
  {
    var n := Notional(amount, limit);
    var userNotional := s.notional + n;
    if userNotional > U128_MAX then Err(MathOverflow)
    else if userNotional > m.maxNotionalPerUserPerBatch then Err(MaxNotionalPerUserExceeded)
    else if s.orderCount >= m.maxOrdersPerUserPerBatch then Err(TooManyOrdersForUser)
    else
      var batchNotional := m.batchNotional + n;
      if batchNotional > U128_MAX then Err(MathOverflow)
      else if batchNotional > m.maxNotionalPerBatch then Err(MaxNotionalPerBatchExceeded)
      else if m.globalOrdersInBatch >= m.maxOrdersGlobalPerBatch then Err(MaxOrdersGlobalExceeded)
      else if m.nextOrderId >= U64_MAX then Err(MathOverflow)
      else
        var deposit: u64 := match side
                            case Bid => BidDeposit(amount, limit)
                            case Ask => 0;
        if side == Bid && deposit == 0 then Err(InvalidAmount)
        else
          var stats' := s.(notional := userNotional, orderCount := s.orderCount + 1);
          var market' := m.(batchNotional := batchNotional,
                            globalOrdersInBatch := m.globalOrdersInBatch + 1,
                            nextOrderId := m.nextOrderId + 1);
          var order := Order(user, m.key, side, limit, amount, m.currentBatchId,
                             false, false, deposit, m.nextOrderId);
          Ok(Placed(market', stats', order))
  }

  /** `place_order`: admits an order of `amount` base at `limit` into the
      current batch, or reports the first check that fails. */
  function PlaceOrder(m: Market, stats: UserBatchStats, user: Pubkey,
                      side: Side, limit: u64, amount: u64): (r: Result<Placed>)
    ensures r.Ok? <==> AllChecksPass(m, stats, user, side, limit, amount)
    // caps hold after every successful admission
    ensures r.Ok? ==> r.value.market.batchNotional <= m.maxNotionalPerBatch
    ensures r.Ok? ==> r.value.market.globalOrdersInBatch <= m.maxOrdersGlobalPerBatch
    ensures r.Ok? ==> r.value.stats.notional <= m.maxNotionalPerUserPerBatch
    ensures r.Ok? ==> r.value.stats.orderCount <= m.maxOrdersPerUserPerBatch
    // accumulators grow by exactly this order
    ensures r.Ok? ==> r.value.market.batchNotional == m.batchNotional + Notional(amount, limit)
    ensures r.Ok? ==> r.value.market.globalOrdersInBatch == m.globalOrdersInBatch + 1
    ensures r.Ok? ==> r.value.stats.notional == BoundStats(m, stats, user).notional + Notional(amount, limit)
    ensures r.Ok? ==> r.value.stats.orderCount == BoundStats(m, stats, user).orderCount + 1
    // a fresh, monotonic order id; nothing else in the market changes
    ensures r.Ok? ==> r.value.order.id == m.nextOrderId && r.value.market.nextOrderId == m.nextOrderId + 1
    ensures r.Ok? ==> r.value.market == m.(batchNotional := r.value.market.batchNotional,
                                           globalOrdersInBatch := r.value.market.globalOrdersInBatch,
                                           nextOrderId := r.value.market.nextOrderId)
    // the order joins the current batch, open, with the requested terms
    ensures r.Ok? ==> var o := r.value.order;
                      && o.user == user && o.market == m.key && o.side == side
                      && o.limitPrice == limit && o.amountBase == amount
                      && o.batchId == m.currentBatchId && !o.filled && !o.cancelled
    // collateral: a bid locks floor(amount * limit / 1e6) quote (when that fits
    // 64 bits), always more than zero; an ask locks its base amount
    ensures r.Ok? && side == Bid ==> r.value.order.quoteDeposit > 0
    ensures r.Ok? && side == Bid && Notional(amount, limit) <= U64_MAX ==>
              r.value.order.quoteDeposit == Notional(amount, limit)
    ensures r.Ok? && side == Ask ==> r.value.order.quoteDeposit == 0 && Collateral(r.value.order) == amount
    // dust floors
    ensures r.Ok? && side == Bid ==> Notional(amount, limit) >= m.minQuoteOrder
    ensures r.Ok? && side == Ask ==> amount >= m.minBaseOrder
  {
    if m.paused then Err(MarketPaused)
    else if limit == 0 then Err(InvalidPrice)
    else if amount == 0 then Err(InvalidAmount)
    else
      var dustOk := match side
                    case Bid => Notional(amount, limit) >= m.minQuoteOrder
                    case Ask => amount >= m.minBaseOrder;
      if !dustOk then Err(DustOrderTooSmall)
      else
        var s :- BindStats(m, stats, user);
        Admit(m, s, user, side, limit, amount)
  }

  /** A rejected admission reports exactly the first check, in source order,
      that fails. */
  lemma {:induction false} FirstFailingCheckReported(m: Market, stats: UserBatchStats, user: Pubkey,
                                                     side: Side, limit: u64, amount: u64, k: nat)
    requires k < |ADMISSION_CHECKS|
    requires forall j | 0 <= j < k :: Passes(ADMISSION_CHECKS[j], m, stats, user, side, limit, amount)
    requires !Passes(ADMISSION_CHECKS[k], m, stats, user, side, limit, amount)
    ensures PlaceOrder(m, stats, user, side, limit, amount) == Err(CheckError(ADMISSION_CHECKS[k]))
  {
    var C := ADMISSION_CHECKS;
    assert k >= 1 ==> Passes(C[0], m, stats, user, side, limit, amount);
    assert k >= 2 ==> Passes(C[1], m, stats, user, side, limit, amount);
    assert k >= 3 ==> Passes(C[2], m, stats, user, side, limit, amount);
    assert k >= 4 ==> Passes(C[3], m, stats, user, side, limit, amount);
    assert k >= 5 ==> Passes(C[4], m, stats, user, side, limit, amount);
    if k >= 5 {
      var s := BoundStats(m, stats, user);
      assert PlaceOrder(m, stats, user, side, limit, amount) == Admit(m, s, user, side, limit, amount);
      forall j | 5 <= j < k
        ensures Passes(C[j], m, s, user, side, limit, amount)
      {
        assert Passes(C[j], m, stats, user, side, limit, amount);
      }
      AdmitFirstFailing(m, s, user, side, limit, amount, k);
    }
  }

  /** The accumulator stage reports the first of its checks that fails. */
  lemma {:induction false} AdmitFirstFailing(m: Market, s: UserBatchStats, user: Pubkey,
                                             side: Side, limit: u64, amount: u64, k: nat)
    requires BoundStats(m, s, user) == s
    requires 5 <= k < |ADMISSION_CHECKS|
    requires forall j | 5 <= j < k :: Passes(ADMISSION_CHECKS[j], m, s, user, side, limit, amount)
    requires !Passes(ADMISSION_CHECKS[k], m, s, user, side, limit, amount)
    ensures Admit(m, s, user, side, limit, amount) == Err(CheckError(ADMISSION_CHECKS[k]))
  {
    var C := ADMISSION_CHECKS;
    assert k >= 6 ==> Passes(C[5], m, s, user, side, limit, amount);
    assert k >= 7 ==> Passes(C[6], m, s, user, side, limit, amount);
    assert k >= 8 ==> Passes(C[7], m, s, user, side, limit, amount);
    assert k >= 9 ==> Passes(C[8], m, s, user, side, limit, amount);
    assert k >= 10 ==> Passes(C[9], m, s, user, side, limit, amount);
    assert k >= 11 ==> Passes(C[10], m, s, user, side, limit, amount);
    assert k >= 12 ==> Passes(C[11], m, s, user, side, limit, amount);
  }
}
