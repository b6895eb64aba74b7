/** Market lifecycle: `initialize_market` defaults, `cancel_order`,
    `set_paused` and `set_params`. */
module Lifecycle {
  import opened Types
  import opened Settlement

  // ---------------------------------------------------------------------
  // initialize_market
  // ---------------------------------------------------------------------

  /** A fresh market: no batch open yet, every cap at its type maximum, the
      band and keeper fee off, the whole fee routed to the protocol, dust
      floors of one unit. */
  function InitializeMarket(key: Pubkey, authority: Pubkey, batchDurationSlots: u64,
                            feeBps: u16, maxOrdersPerUserPerBatch: u32): (r: Result<Market>)
    ensures r.Ok? <==> feeBps <= BPS_DENOM
    ensures r.Err? ==> r.error == InvalidFeeBps
    ensures r.Ok? ==> && MarketInv(r.value)
                      && r.value.key == key && r.value.authority == authority
                      && r.value.currentBatchId == 0 && r.value.nextOrderId == 0
                      && r.value.lastBatchSlot == 0 && r.value.lastClearingPrice == 0
                      && !r.value.paused
                      && r.value.batchNotional == 0 && r.value.globalOrdersInBatch == 0
                      && r.value.maxNotionalPerBatch == U128_MAX
                      && r.value.maxNotionalPerUserPerBatch == U128_MAX
                      && r.value.maxOrdersGlobalPerBatch == U32_MAX
                      && r.value.minSlotsBetweenClears == batchDurationSlots
                      && r.value.protocolFeeBps == feeBps && r.value.referralFeeBps == 0
                      && r.value.minBaseOrder == 1 && r.value.minQuoteOrder == 1
                      // the arguments are stored as given
                      && r.value.batchDurationSlots == batchDurationSlots
                      && r.value.feeBps == feeBps
                      && r.value.maxOrdersPerUserPerBatch == maxOrdersPerUserPerBatch
                      // band, keeper fee and keeper restriction off; nothing accrued
                      && r.value.maxPriceMoveBps == 0 && r.value.keeperFeeBps == 0
                      && !r.value.keeperRestricted && r.value.onlyKeeper == DEFAULT_KEY
                      && r.value.protocolFeesAccrued == 0 && r.value.pauseReason == 0
  {
    if feeBps > BPS_DENOM then Err(InvalidFeeBps)
    else
      Ok(Market(
        key := key,
        authority := authority,
        batchDurationSlots := batchDurationSlots,
        lastBatchSlot := 0,
        currentBatchId := 0,
        nextOrderId := 0,
        feeBps := feeBps,
        maxOrdersPerUserPerBatch := maxOrdersPerUserPerBatch,
        paused := false,
        maxNotionalPerBatch := U128_MAX,
        maxNotionalPerUserPerBatch := U128_MAX,
        batchNotional := 0,
        maxOrdersGlobalPerBatch := U32_MAX,
        globalOrdersInBatch := 0,
        maxPriceMoveBps := 0,
        lastClearingPrice := 0,
        keeperFeeBps := 0,
        minSlotsBetweenClears := batchDurationSlots,
        keeperRestricted := false,
        onlyKeeper := DEFAULT_KEY,
        referralFeeBps := 0,
        protocolFeeBps := feeBps,
        protocolFeesAccrued := 0,
        minBaseOrder := 1,
        minQuoteOrder := 1,
        pauseReason := 0))
  }

  // ---------------------------------------------------------------------
  // cancel_order
  // ---------------------------------------------------------------------

  /** Accounts written by a successful cancellation, and the refund. */
  datatype Cancelled = Cancelled(order: Order, payout: Payout)

  /** The cancellation window of the market's current batch is still open
      at `slot`. */
  predicate WindowOpen(m: Market, slot: nat) {
    slot < m.lastBatchSlot + m.batchDurationSlots
  }

  /** `cancel_order` of `order`, signed by `caller`, at `slot`. The order's
      own batch id is not consulted: the window is the market's current one. */
  function CancelOrder(m: Market, order: Order, caller: Pubkey, slot: u64): (r: Result<Cancelled>)
    ensures order.user != caller || order.market != m.key ==> r == Err(ConstraintViolated)
    ensures r.Ok? <==> && order.user == caller && order.market == m.key
                       && !m.paused && !order.cancelled && !order.filled
                       && WindowOpen(m, slot)
    ensures r.Err? ==> r.error in {ConstraintViolated, MarketPaused, OrderCancelled,
                                   OrderAlreadySettled, BatchAlreadyClosed}
    ensures (&& order.user == caller && order.market == m.key && !m.paused
             && !order.cancelled && !order.filled && !WindowOpen(m, slot)) ==> r == Err(BatchAlreadyClosed)
    // the whole collateral comes back, in the asset it was locked in
    ensures r.Ok? ==> && r.value.order == order.(cancelled := true)
                      && r.value.payout.base + r.value.payout.quote == Collateral(order)
                      && r.value.payout == (match order.side
                                            case Bid => Payout(0, order.quoteDeposit)
                                            case Ask => Payout(order.amountBase, 0))
  {
    if order.user != caller || order.market != m.key then Err(ConstraintViolated)
    else if m.paused then Err(MarketPaused)
    else if order.cancelled then Err(OrderCancelled)
    else if order.filled then Err(OrderAlreadySettled)
    else if slot >= m.lastBatchSlot + m.batchDurationSlots then Err(BatchAlreadyClosed)
    else
      var payout := match order.side
                    case Bid => Payout(0, order.quoteDeposit)
                    case Ask => Payout(order.amountBase, 0);
      Ok(Cancelled(order.(cancelled := true), payout))
  }

  // ---------------------------------------------------------------------
  // set_paused and set_params
  // ---------------------------------------------------------------------

  /** `set_paused`: the authority switches the pause flag and reason. */
  function SetPaused(m: Market, caller: Pubkey, paused: bool, reason: u8): (r: Result<Market>)
    ensures r.Ok? <==> caller == m.authority
    ensures r.Err? ==> r.error == Unauthorized
    ensures r.Ok? ==> r.value.paused == paused && r.value.pauseReason == reason
    ensures r.Ok? ==> r.value == m.(paused := r.value.paused, pauseReason := r.value.pauseReason)
  {
    if m.authority != caller then Err(Unauthorized)
    else Ok(m.(paused := paused, pauseReason := reason))
  }

  /** The parameters `set_params` writes. */
  datatype Params = Params(
    feeBps: u16,
    maxNotionalPerBatch: u128,
    maxNotionalPerUserPerBatch: u128,
    maxOrdersGlobalPerBatch: u32,
    maxPriceMoveBps: u16,
    keeperFeeBps: u16,
    minBaseOrder: u64,
    minQuoteOrder: u64,
    protocolFeeBps: u16,
    referralFeeBps: u16)

  /** The market's current values of the parameters `set_params` writes. */
  function ParamsOf(m: Market): Params {
    Params(m.feeBps, m.maxNotionalPerBatch, m.maxNotionalPerUserPerBatch,
           m.maxOrdersGlobalPerBatch, m.maxPriceMoveBps, m.keeperFeeBps,
           m.minBaseOrder, m.minQuoteOrder, m.protocolFeeBps, m.referralFeeBps)
  }

  /** The fee validation of `set_params`: the total at most 100%, and each
      share (protocol, referral) separately at most the total. */
  predicate ParamsValid(p: Params) {
    p.feeBps <= BPS_DENOM && p.protocolFeeBps <= p.feeBps && p.referralFeeBps <= p.feeBps
  }

  /** `set_params`: the authority replaces the risk and fee parameters. */
  function SetParams(m: Market, caller: Pubkey, p: Params): (r: Result<Market>)
    ensures caller != m.authority ==> r == Err(Unauthorized)
    ensures r.Ok? <==> caller == m.authority && ParamsValid(p)
    ensures r.Err? ==> r.error in {Unauthorized, InvalidFeeBps}
    ensures r.Ok? ==> ParamsOf(r.value) == p && FeesConsistent(r.value)
    // nothing but the parameters changes: accumulators, batch clock, ids and
    // accrued fees are kept as they are
    ensures r.Ok? ==> r.value.(feeBps := m.feeBps,
                               maxNotionalPerBatch := m.maxNotionalPerBatch,
                               maxNotionalPerUserPerBatch := m.maxNotionalPerUserPerBatch,
                               maxOrdersGlobalPerBatch := m.maxOrdersGlobalPerBatch,
                               maxPriceMoveBps := m.maxPriceMoveBps,
                               keeperFeeBps := m.keeperFeeBps,
                               minBaseOrder := m.minBaseOrder,
                               minQuoteOrder := m.minQuoteOrder,
                               protocolFeeBps := m.protocolFeeBps,
                               referralFeeBps := m.referralFeeBps) == m
  {
    if m.authority != caller then Err(Unauthorized)
    else if p.feeBps > BPS_DENOM then Err(InvalidFeeBps)
    else if p.protocolFeeBps > p.feeBps then Err(InvalidFeeBps)
    else if p.referralFeeBps > p.feeBps then Err(InvalidFeeBps)
    else
      Ok(m.(feeBps := p.feeBps,
            maxNotionalPerBatch := p.maxNotionalPerBatch,
            maxNotionalPerUserPerBatch := p.maxNotionalPerUserPerBatch,
            maxOrdersGlobalPerBatch := p.maxOrdersGlobalPerBatch,
            maxPriceMoveBps := p.maxPriceMoveBps,
            keeperFeeBps := p.keeperFeeBps,
            minBaseOrder := p.minBaseOrder,
            minQuoteOrder := p.minQuoteOrder,
            protocolFeeBps := p.protocolFeeBps,
            referralFeeBps := p.referralFeeBps))
  }
}
