/** Properties that span several instructions: the market invariant over
    the lifecycle, the shared settlement budget, what a batch cleared at
    price 0 leaves behind, the cancellation window, and the one-shot
    settle/cancel exclusivity. */
module Properties {
  import opened Types
  import opened FixedPoint
  import opened Admission
  import opened Discovery
  import opened Clearing
  import opened Settlement
  import opened Lifecycle

  // ---------------------------------------------------------------------
  // The market invariant
  // ---------------------------------------------------------------------

  /** Admission keeps the caps and the fee schedule: it only admits an
      order whose notional and count fit under the batch caps. */
  lemma PlaceOrderKeepsInv(m: Market, stats: UserBatchStats, user: Pubkey,
                           side: Side, limit: u64, amount: u64)
    requires MarketInv(m)
    requires PlaceOrder(m, stats, user, side, limit, amount).Ok?
    ensures MarketInv(PlaceOrder(m, stats, user, side, limit, amount).value.market)
  {
  }

  /** A clear resets the in-batch accumulators and touches no fee, so it
      re-establishes the caps whatever they were. */
  lemma ClearBatchRestoresCaps(m: Market, caller: Pubkey, slot: u64, orders: seq<Order>)
    requires ClearBatch(m, caller, slot, orders).Ok?
    ensures CapsRespected(ClearBatch(m, caller, slot, orders).value.market)
    ensures FeesConsistent(m) ==> FeesConsistent(ClearBatch(m, caller, slot, orders).value.market)
  {
  }

  /** Settlement only accrues protocol fees. */
  lemma SettleOrderKeepsInv(m: Market, batch: BatchState, order: Order, fill: OrderFill, caller: Pubkey)
    requires MarketInv(m)
    requires SettleOrder(m, batch, order, fill, caller).Ok?
    ensures MarketInv(SettleOrder(m, batch, order, fill, caller).value.market)
  {
  }

  lemma SetPausedKeepsInv(m: Market, caller: Pubkey, paused: bool, reason: u8)
    requires MarketInv(m)
    requires SetPaused(m, caller, paused, reason).Ok?
    ensures MarketInv(SetPaused(m, caller, paused, reason).value)
  {
  }

  /** `set_params` validates the fees but not the new caps against the
      current accumulators: lowering a cap below what the open batch has
      already admitted succeeds and leaves the caps violated. */
  lemma SetParamsCanBreakCaps(m: Market, p: Params)
    requires ParamsValid(p)
    requires p.maxNotionalPerBatch < m.batchNotional
    ensures SetParams(m, m.authority, p).Ok?
    ensures !CapsRespected(SetParams(m, m.authority, p).value)
  {
  }

  /** The two fee shares are each checked against the total, not their sum:
      protocol and referral shares of 100% each under a 1% total pass. */
  lemma FeeSharesCheckedSeparately(m: Market)
    ensures var p := ParamsOf(m).(feeBps := 100, protocolFeeBps := 100, referralFeeBps := 100);
            && SetParams(m, m.authority, p).Ok?
            && SetParams(m, m.authority, p).value.protocolFeeBps
               + SetParams(m, m.authority, p).value.referralFeeBps
               > SetParams(m, m.authority, p).value.feeBps
  {
  }

  /** Supplying only ineligible orders (cancelled, empty, or of another
      market or batch) is the same as supplying none: the clear is a bare
      roll to the next batch with nothing to settle. */
  lemma IneligibleOrdersIgnored(m: Market, keeper: Pubkey, slot: u64, orders: seq<Order>)
    requires forall j | 0 <= j < |orders| :: !Eligible(orders[j], m.key, m.currentBatchId)
    ensures ClearBatch(m, keeper, slot, orders) == ClearBatch(m, keeper, slot, [])
    ensures ClearBatch(m, keeper, slot, orders).Ok? <==> GatesPass(m, keeper, slot) && m.currentBatchId < U64_MAX
    ensures ClearBatch(m, keeper, slot, orders).Ok? ==>
              && ClearBatch(m, keeper, slot, orders).value.market.currentBatchId == m.currentBatchId + 1
              && NoTradeRecord(ClearBatch(m, keeper, slot, orders).value.batch)
  {
  }

  /** Settlement conserves each order's collateral: what is filled plus
      what is refunded, in the asset the order locked, is exactly what it
      locked. */
  lemma SettlementConserves(m: Market, b: BatchState, o: Order, f: OrderFill, c: Pubkey)
    requires SettleOrder(m, b, o, f, c).Ok?
    ensures var r := SettleOrder(m, b, o, f, c).value.fill;
            match o.side
            case Ask => r.filledBase + r.refundBase == o.amountBase
            case Bid => r.filledQuote + r.refundQuote == o.quoteDeposit
  {
  }

  // ---------------------------------------------------------------------
  // The shared settlement budget
  // ---------------------------------------------------------------------

  /** Settles `orders` one after another against one batch, each signed by
      its owner with its receipt as yet unwritten, stopping at the first
      failure. Yields the market and batch afterwards and the base filled
      in total, bids and asks together. */
  function SettleInTurn(m: Market, b: BatchState, orders: seq<Order>): Result<(Market, BatchState, nat)>
    decreases |orders|
  {
    if |orders| == 0 then Ok((m, b, 0))
    else
      var s :- SettleOrder(m, b, orders[0], FRESH_FILL, orders[0].user);
      var rest :- SettleInTurn(s.market, s.batch, orders[1..]);
      Ok((rest.0, rest.1, s.fill.filledBase + rest.2))
  }

  /** Every base unit a settlement delivers comes out of the one remaining
      budget, whichever side the order is on. */
  lemma {:induction false} SettledBaseDrawsBudget(m: Market, b: BatchState, orders: seq<Order>)
    requires SettleInTurn(m, b, orders).Ok?
    ensures var r := SettleInTurn(m, b, orders).value;
            r.2 + r.1.remainingBase == b.remainingBase
    decreases |orders|
  {
    if |orders| > 0 {
      var s := SettleOrder(m, b, orders[0], FRESH_FILL, orders[0].user).value;
      BudgetMonotone(m, b, orders[0], FRESH_FILL, orders[0].user);
      SettledBaseDrawsBudget(s.market, s.batch, orders[1..]);
    }
  }

  /** After any clear, the base filled by all settlements of the batch
      together, bids and asks counted alike, is at most the base the walk
      traded. The walk trades that amount on each side, so when every
      traded order has crossed in full, only half of the crossed orders'
      base can ever settle. */
  lemma SettledBaseWithinTraded(m: Market, keeper: Pubkey, slot: u64, orders: seq<Order>,
                                toSettle: seq<Order>)
    requires ClearBatch(m, keeper, slot, orders).Ok?
    requires var c := ClearBatch(m, keeper, slot, orders).value;
             SettleInTurn(c.market, c.batch, toSettle).Ok?
    ensures var c := ClearBatch(m, keeper, slot, orders).value;
            SettleInTurn(c.market, c.batch, toSettle).value.2 <= c.batch.totalBaseTraded
  {
    var c := ClearBatch(m, keeper, slot, orders).value;
    SettledBaseDrawsBudget(c.market, c.batch, toSettle);
  }

  /** Two crossed orders whose amounts together exceed the budget: once
      the first settles, the second is refused, though it crossed. */
  lemma SecondSettlerStarved(m: Market, b: BatchState, o1: Order, f1: OrderFill, c1: Pubkey,
                             o2: Order, f2: OrderFill, c2: Pubkey)
    requires SettleOrder(m, b, o1, f1, c1).Ok?
    requires Crosses(o1.side, o1.limitPrice, b.clearingPrice)
    requires var s := SettleOrder(m, b, o1, f1, c1).value;
             SettleGatesPass(s.market, s.batch, o2, f2, c2)
    requires Crosses(o2.side, o2.limitPrice, b.clearingPrice)
    requires o1.amountBase + o2.amountBase > b.remainingBase
    ensures var s := SettleOrder(m, b, o1, f1, c1).value;
            SettleOrder(s.market, s.batch, o2, f2, c2) == Err(BatchFullySettled)
  {
  }

  /** A crossed clear at which the walk moved nothing (its first trade
      would have carried zero quote) is marked settled with a zero budget:
      every crossed order of it is refused. */
  lemma EmptyBudgetRefusesCrossed(m: Market, b: BatchState, o: Order, f: OrderFill, c: Pubkey)
    requires b.remainingBase == 0
    requires SettleGatesPass(m, b, o, f, c)
    requires Crosses(o.side, o.limitPrice, b.clearingPrice)
    requires o.amountBase > 0
    ensures SettleOrder(m, b, o, f, c) == Err(BatchFullySettled)
  {
  }

  /** A crossed bid whose deposit does not cover its gross at the clearing
      price is refused, though budget remains. Only a deposit truncated at
      admission can be that short (see `CrossedBidCanPay`). */
  lemma UnderfundedBidRefused(m: Market, b: BatchState, o: Order, f: OrderFill, c: Pubkey)
    requires SettleGatesPass(m, b, o, f, c)
    requires o.side == Bid && Crosses(Bid, o.limitPrice, b.clearingPrice)
    requires o.amountBase <= b.remainingBase
    requires o.quoteDeposit < Notional(o.amountBase, b.clearingPrice)
    ensures SettleOrder(m, b, o, f, c) == Err(MathOverflow)
  {
  }

  // ---------------------------------------------------------------------
  // Batches that clear at price 0, and the cancellation window
  // ---------------------------------------------------------------------

  /** A batch that cleared without a price cannot settle anything: its
      orders get their collateral back only through cancellation. */
  lemma NoPriceNoSettlement(m: Market, keeper: Pubkey, slot: u64, orders: seq<Order>,
                            o: Order, f: OrderFill, c: Pubkey)
    requires ClearBatch(m, keeper, slot, orders).Ok?
    requires ClearBatch(m, keeper, slot, orders).value.batch.clearingPrice == 0
    ensures var r := ClearBatch(m, keeper, slot, orders).value;
            SettleOrder(r.market, r.batch, o, f, c).Err?
  {
  }

  /** After a clear at `slot`, an open order of the market (of whatever
      batch) can be cancelled by its owner exactly while `slot2` is within
      one batch duration of the clear. */
  lemma CancelWindowAfterClear(m: Market, keeper: Pubkey, slot: u64, orders: seq<Order>,
                               o: Order, slot2: u64)
    requires ClearBatch(m, keeper, slot, orders).Ok?
    requires o.market == m.key && !o.cancelled && !o.filled
    ensures var r := ClearBatch(m, keeper, slot, orders).value;
            CancelOrder(r.market, o, o.user, slot2).Ok? <==> slot2 < slot + m.batchDurationSlots
  {
  }

  /** With a zero batch duration nothing is ever cancellable once the clock
      has reached the batch start. */
  lemma ZeroDurationNeverCancels(m: Market, o: Order, c: Pubkey, slot: u64)
    requires m.batchDurationSlots == 0 && slot >= m.lastBatchSlot
    ensures CancelOrder(m, o, c, slot).Err?
  {
  }

  /** Cancellation does not depend on the batch the order was placed in. */
  lemma CancelIgnoresOrderBatch(m: Market, o: Order, c: Pubkey, slot: u64, batchId: u64)
    ensures CancelOrder(m, o, c, slot).Ok? <==> CancelOrder(m, o.(batchId := batchId), c, slot).Ok?
  {
  }

  // ---------------------------------------------------------------------
  // Settle and cancel exclude each other
  // ---------------------------------------------------------------------

  /** A cancelled order never settles, against any batch. */
  lemma CancelledNeverSettles(m: Market, o: Order, c: Pubkey, slot: u64,
                              m2: Market, b: BatchState, f: OrderFill, c2: Pubkey)
    requires CancelOrder(m, o, c, slot).Ok?
    ensures SettleOrder(m2, b, CancelOrder(m, o, c, slot).value.order, f, c2).Err?
  {
  }

  /** A settled order is never refunded again by cancellation. */
  lemma SettledNeverCancels(m: Market, b: BatchState, o: Order, f: OrderFill, c: Pubkey,
                            m2: Market, c2: Pubkey, slot: u64)
    requires SettleOrder(m, b, o, f, c).Ok?
    ensures CancelOrder(m2, SettleOrder(m, b, o, f, c).value.order, c2, slot).Err?
  {
  }
}
