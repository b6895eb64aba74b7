/** `settle_order`: the one-shot settlement of one order of a cleared
    batch. A crossed order fills all-or-nothing against the batch's shared
    remaining budget and accrues the protocol fee; an uncrossed order gets
    its whole collateral back. */
module Settlement {
  import opened Types
  import opened FixedPoint

  /** Amounts the vaults pay out to the order's owner. */
  datatype Payout = Payout(base: nat, quote: nat)

  /** Accounts written by a successful settlement, and the payout. */
  datatype Settled = Settled(market: Market, batch: BatchState, order: Order,
                             fill: OrderFill, payout: Payout)

  /** The account constraints of settlement: the signer owns the order, and
      the order and the batch record belong to the market. */
  predicate SettleAccountsMatch(m: Market, batch: BatchState, order: Order, caller: Pubkey) {
    order.user == caller && order.market == m.key && batch.market == m.key
  }

  /** Every precondition before the crossing test holds. */
  predicate SettleGatesPass(m: Market, batch: BatchState, order: Order, fill: OrderFill, caller: Pubkey) {
    && SettleAccountsMatch(m, batch, order, caller)
    && !m.paused
    && batch.batchId == order.batchId
    && batch.clearingPrice > 0
    && !order.cancelled
    && !fill.claimed
  }

  /** The first failing precondition's error, in the order they are checked. */
  function SettleGateError(m: Market, batch: BatchState, order: Order, fill: OrderFill, caller: Pubkey): Error {
    if !SettleAccountsMatch(m, batch, order, caller) then ConstraintViolated
    else if m.paused then MarketPaused
    else if batch.batchId != order.batchId then BatchIdMismatch
    else if batch.clearingPrice == 0 then BatchNotCleared
    else if order.cancelled then OrderCancelled
    else OrderAlreadySettled
  }

  /** `settle_order` for `order` against `batch`, signed by `caller`, with
      `fill` the order's receipt account as it currently is. */
  function SettleOrder(m: Market, batch: BatchState, order: Order, fill: OrderFill, caller: Pubkey): (r: Result<Settled>)
    // preconditions, and the error of the first one that fails
    ensures !SettleGatesPass(m, batch, order, fill, caller) ==> r == Err(SettleGateError(m, batch, order, fill, caller))
    ensures r.Err? ==> r.error in {ConstraintViolated, MarketPaused, BatchIdMismatch, BatchNotCleared,
                                   OrderCancelled, OrderAlreadySettled, BatchFullySettled, MathOverflow}
    // one-shot: the order is marked filled and its receipt claimed
    ensures r.Ok? ==> && r.value.order == order.(filled := true)
                      && r.value.fill.claimed
                      && r.value.fill.order == order.id
                      && r.value.fill.batchId == batch.batchId
    // only the fee accumulator of the market may change, and only upward
    ensures r.Ok? ==> r.value.market == m.(protocolFeesAccrued := r.value.market.protocolFeesAccrued)
    ensures r.Ok? ==> r.value.market.protocolFeesAccrued >= m.protocolFeesAccrued
    // an uncrossed order: full refund of its collateral, no fill, no budget used
    ensures r.Ok? && !Crosses(order.side, order.limitPrice, batch.clearingPrice) ==>
              && r.value.fill.filledBase == 0 && r.value.fill.filledQuote == 0
              && r.value.fill.refundBase + r.value.fill.refundQuote == Collateral(order)
              && r.value.payout == (match order.side
                                    case Bid => Payout(0, order.quoteDeposit)
                                    case Ask => Payout(order.amountBase, 0))
              && r.value.batch == batch
              && r.value.market == m
    // a crossed order: fills its whole amount at the clearing price
    ensures r.Ok? && Crosses(order.side, order.limitPrice, batch.clearingPrice) ==>
              var f := r.value.fill;
              && f.filledBase == order.amountBase
              && f.filledQuote == Notional(order.amountBase, batch.clearingPrice)
              && f.refundBase == 0
              && (order.side == Bid ==> f.filledQuote + f.refundQuote == order.quoteDeposit
                                        && r.value.payout == Payout(order.amountBase, f.refundQuote))
              && (order.side == Ask ==> f.refundQuote == 0 && r.value.payout == Payout(0, f.filledQuote))
              && batch.remainingBase >= f.filledBase
              && batch.remainingQuote >= f.filledQuote
              && r.value.batch == batch.(remainingBase := batch.remainingBase - f.filledBase,
                                         remainingQuote := batch.remainingQuote - f.filledQuote,
                                         settled := batch.settled || batch.remainingBase == f.filledBase)
              && r.value.market.protocolFeesAccrued
                 == m.protocolFeesAccrued + BpsOf(f.filledQuote, m.protocolFeeBps)
    // past the gates an uncrossed order is always refunded, and a crossed
    // one succeeds exactly when the crossed branch does
    ensures (&& SettleGatesPass(m, batch, order, fill, caller)
             && !Crosses(order.side, order.limitPrice, batch.clearingPrice)) ==> r.Ok?
    ensures (&& SettleGatesPass(m, batch, order, fill, caller)
             && Crosses(order.side, order.limitPrice, batch.clearingPrice)) ==> r == SettleCrossed(m, batch, order)
    // why a crossed order that passes the gates can still fail
    ensures (&& SettleGatesPass(m, batch, order, fill, caller)
             && Crosses(order.side, order.limitPrice, batch.clearingPrice)
             && order.amountBase > batch.remainingBase) ==> r == Err(BatchFullySettled)
  {
    if !SettleAccountsMatch(m, batch, order, caller) then Err(ConstraintViolated)
    else if m.paused then Err(MarketPaused)
    // (the body's own market check repeats the account constraint and cannot fail here)
    else if batch.batchId != order.batchId then Err(BatchIdMismatch)
    else if batch.clearingPrice == 0 then Err(BatchNotCleared)
    else if order.cancelled then Err(OrderCancelled)
    else if fill.claimed then Err(OrderAlreadySettled)
    else
      var price := batch.clearingPrice;
      var amount := order.amountBase;
      if Crosses(order.side, order.limitPrice, price) then
        SettleCrossed(m, batch, order)
      else
        var refundBase: nat := if order.side == Ask then amount else 0;
        var refundQuote: nat := if order.side == Bid then order.quoteDeposit else 0;
        Ok(Settled(m, batch, order.(filled := true),
                   OrderFill(order.id, batch.batchId, 0, 0, refundQuote, refundBase, true),
                   Payout(refundBase, refundQuote)))
  }

  /** The crossed branch: the all-or-nothing fill, the budget draw-down and
      the protocol fee. */
  function SettleCrossed(m: Market, batch: BatchState, order: Order): (r: Result<Settled>)
    requires batch.clearingPrice > 0
    ensures order.amountBase > batch.remainingBase ==> r == Err(BatchFullySettled)
    ensures r.Err? ==> r.error in {BatchFullySettled, MathOverflow}
    ensures r.Ok? <==>
              && order.amountBase <= batch.remainingBase
              && (order.side == Bid ==> Notional(order.amountBase, batch.clearingPrice) <= order.quoteDeposit)
              && Notional(order.amountBase, batch.clearingPrice) <= batch.remainingQuote
              && (m.protocolFeeBps > 0 ==>
                    m.protocolFeesAccrued + BpsOf(Notional(order.amountBase, batch.clearingPrice), m.protocolFeeBps)
                    <= U128_MAX)
    ensures r.Ok? ==>
              var gross := Notional(order.amountBase, batch.clearingPrice);
              var refundQuote := if order.side == Bid then order.quoteDeposit - gross else 0;
              && r.value.market == m.(protocolFeesAccrued := m.protocolFeesAccrued + BpsOf(gross, m.protocolFeeBps))
              && r.value.order == order.(filled := true)
              && r.value.fill == OrderFill(order.id, batch.batchId, order.amountBase, gross, refundQuote, 0, true)
              && r.value.batch.remainingBase + order.amountBase == batch.remainingBase
              && r.value.batch.remainingQuote + gross == batch.remainingQuote
              && r.value.batch == batch.(remainingBase := r.value.batch.remainingBase,
                                         remainingQuote := r.value.batch.remainingQuote,
                                         settled := batch.settled || r.value.batch.remainingBase == 0)
              && r.value.payout == (match order.side
                                    case Bid => Payout(order.amountBase, refundQuote)
                                    case Ask => Payout(0, gross))
  {
    var price := batch.clearingPrice;
    var amount := order.amountBase;
    if amount > batch.remainingBase then Err(BatchFullySettled)
    else
      NotionalFitsU128(amount, price);
      var gross := Notional(amount, price);
      if order.side == Bid && gross > order.quoteDeposit then Err(MathOverflow)
      else
        var refundQuote: nat := if order.side == Bid then order.quoteDeposit - gross else 0;
        if gross > batch.remainingQuote then Err(MathOverflow)
        else
          var remBase := batch.remainingBase - amount;
          var batch' := batch.(remainingBase := remBase,
                               remainingQuote := batch.remainingQuote - gross,
                               settled := if remBase == 0 then true else batch.settled);
          var fee := if m.protocolFeeBps > 0 then BpsOf(gross, m.protocolFeeBps) else 0;
          if m.protocolFeesAccrued + fee > U128_MAX then Err(MathOverflow)
          else
            var payout := match order.side
                          case Bid => Payout(amount, refundQuote)
                          case Ask => Payout(0, gross);
            Ok(Settled(m.(protocolFeesAccrued := m.protocolFeesAccrued + fee), batch',
                       order.(filled := true),
                       OrderFill(order.id, batch.batchId, amount, gross, refundQuote, 0, true),
                       payout))
  }

  /** A bid admitted with the collateral floor(amount * limit / 1e6) can
      always pay for its whole amount at any clearing price it crosses: the
      deposit check of the crossed branch never fails for it. */
  lemma {:induction false} CrossedBidCanPay(order: Order, price: nat)
    requires order.side == Bid
    requires order.quoteDeposit == Notional(order.amountBase, order.limitPrice)
    requires Crosses(Bid, order.limitPrice, price)
    ensures Notional(order.amountBase, price) <= order.quoteDeposit
  {
    NotionalMonotone(order.amountBase, price, order.limitPrice);
  }

  /** Settlement is at most once: after a successful settlement, settling
      the same order again with the written receipt fails and writes nothing. */
  lemma SettleAtMostOnce(m: Market, batch: BatchState, order: Order, fill: OrderFill, caller: Pubkey)
    requires SettleOrder(m, batch, order, fill, caller).Ok?
    ensures var s := SettleOrder(m, batch, order, fill, caller).value;
            SettleOrder(s.market, s.batch, s.order, s.fill, caller) == Err(OrderAlreadySettled)
  {
  }

  /** The batch budget never grows and never goes negative across a
      settlement: both remaining amounts only decrease, and by exactly the
      filled amounts. */
  lemma BudgetMonotone(m: Market, batch: BatchState, order: Order, fill: OrderFill, caller: Pubkey)
    requires SettleOrder(m, batch, order, fill, caller).Ok?
    ensures var s := SettleOrder(m, batch, order, fill, caller).value;
            && s.batch.remainingBase + s.fill.filledBase == batch.remainingBase
            && s.batch.remainingQuote + s.fill.filledQuote == batch.remainingQuote
            && (batch.settled ==> s.batch.settled)
  {
  }
}
