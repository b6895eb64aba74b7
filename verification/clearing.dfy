/** `clear_batch`: the pause, keeper and timing gates, the eligibility
    filter, price discovery, the price-band circuit breaker, the matching
    walk, the keeper reward and the roll to the next batch. */
module Clearing {
  import opened Types
  import opened FixedPoint
  import opened Discovery
  import opened Matching

  /** Accounts written by a successful clear. */
  datatype Cleared = Cleared(market: Market, batch: BatchState)

  /** `m'` is `m` rolled to the next batch at `slot`: the batch id advanced
      by one, the in-batch accumulators reset, and nothing else changed but
      (possibly) the last clearing price. */
  predicate RolledFrom(m: Market, m': Market, slot: u64) {
    && m.currentBatchId < U64_MAX
    && m' == m.(lastBatchSlot := slot,
                currentBatchId := m.currentBatchId + 1,
                batchNotional := 0,
                globalOrdersInBatch := 0,
                lastClearingPrice := m'.lastClearingPrice)
  }

  /** The batch record of a clear at which nothing trades: price 0, nothing
      to settle, already settled. */
  predicate NoTradeRecord(b: BatchState) {
    && b.clearingPrice == 0
    && b.totalBaseTraded == 0 && b.totalQuoteTraded == 0
    && b.settled
    && b.keeperReward == 0
    && b.remainingBase == 0 && b.remainingQuote == 0
  }

  /** Identity fields every clear writes into the batch record. */
  predicate RecordsClear(m: Market, caller: Pubkey, slot: nat, b: BatchState) {
    && b.market == m.key
    && b.batchId == m.currentBatchId
    && b.createdSlot == m.lastBatchSlot
    && b.clearedSlot == slot
    && b.keeper == caller
  }

  /** The clear is allowed to run at `slot` by `caller`. */
  predicate GatesPass(m: Market, caller: Pubkey, slot: nat) {
    && !m.paused
    && (!m.keeperRestricted || m.onlyKeeper == caller)
    && slot >= m.lastBatchSlot + m.batchDurationSlots
    && slot >= m.lastBatchSlot + m.minSlotsBetweenClears
  }

  /** The band check's measured move: floor(|p - last| * 1e4 / last),
      taken in 128 bits and then cast to 64 bits. */
  function MoveBps(last: u64, p: u64): u64
    requires last > 0
  {
    var delta := if p >= last then p - last else last - p;
    TruncU64(delta * BPS_DENOM / last)
  }

  /** The circuit breaker trips: a previous price exists, the band is
      enabled, and the (truncated) move exceeds it. */
  predicate BandExceeded(last: u64, p: u64, maxBps: u16) {
    last > 0 && maxBps > 0 && MoveBps(last, p) > maxBps
  }

  /** From a last price of 1e4 (0.01 in quote units) upward the measured
      move never exceeds the price difference itself, so the cast to 64
      bits loses nothing and the band compares the exact move. */
  lemma {:induction false} MoveBpsExact(last: u64, p: u64)
    requires last >= BPS_DENOM
    ensures var delta := if p >= last then p - last else last - p;
            MoveBps(last, p) == delta * BPS_DENOM / last
  {
    var delta := if p >= last then p - last else last - p;
    MulLeft(delta, BPS_DENOM, last);
    DivMonotone(delta * BPS_DENOM, delta * last, last);
    assert (delta + 1) * last == delta * last + last;
    DivBelow(delta * last, last, delta);
  }

  /** Keeper reward: floor(totalQuote * keeperFeeBps / 1e4), failing when
      the product overflows 128 bits; zero when the fee is zero. */
  function KeeperReward(totalQuote: u128, bps: u16): (r: Result<u128>)
    ensures bps == 0 ==> r == Ok(0)
    ensures bps > 0 ==> (r.Ok? <==> totalQuote * bps <= U128_MAX)
    ensures r.Ok? ==> r.value == BpsOf(totalQuote, bps)
    ensures r.Err? ==> r.error == MathOverflow
    // the reward is the largest amount whose value in basis points does not
    // exceed the fee on the traded quote
    ensures r.Ok? ==> r.value * BPS_DENOM <= totalQuote * bps < (r.value + 1) * BPS_DENOM
    // a fee of at most 100% never pays more than the traded quote
    ensures r.Ok? && bps <= BPS_DENOM ==> r.value <= totalQuote
  {
    if bps > 0 then
      if totalQuote * bps > U128_MAX then Err(MathOverflow)
      else
        BpsOfIsFloor(totalQuote, bps);
        Ok(BpsOf(totalQuote, bps))
    else Ok(0)
  }

  /** The roll when nothing trades (no eligible order, or no price at which
      both sides have volume). */
  function CloseWithoutTrade(m: Market, caller: Pubkey, slot: u64): (r: Result<Cleared>)
    ensures r.Ok? <==> m.currentBatchId < U64_MAX
    ensures r.Err? ==> r.error == MathOverflow
    ensures r.Ok? ==> && RolledFrom(m, r.value.market, slot)
                      && r.value.market.lastClearingPrice == m.lastClearingPrice
                      && NoTradeRecord(r.value.batch)
                      && RecordsClear(m, caller, slot, r.value.batch)
  {
    if m.currentBatchId >= U64_MAX then Err(MathOverflow)
    else
      var m' := m.(lastBatchSlot := slot, currentBatchId := m.currentBatchId + 1,
                   batchNotional := 0, globalOrdersInBatch := 0);
      Ok(Cleared(m', BatchState(m.key, m.currentBatchId, 0, 0, 0, m.lastBatchSlot, slot,
                                true, caller, 0, 0, 0)))
  }

  /** The crossed path at clearing price `p`: band check, matching, keeper
      reward, roll. The settlement budget starts at the matched totals. */
  function CloseWithTrade(m: Market, caller: Pubkey, slot: u64, ts: seq<TempOrder>, p: u64): (r: Result<Cleared>)
    requires p > 0
    ensures BandExceeded(m.lastClearingPrice, p, m.maxPriceMoveBps) ==> r == Err(PriceMoveTooLarge)
    ensures r.Err? ==> r.error in {PriceMoveTooLarge, MathOverflow}
    // within the band the clear succeeds exactly when the walk, the keeper
    // reward and the batch id all stay in range
    ensures !BandExceeded(m.lastClearingPrice, p, m.maxPriceMoveBps) ==>
              (r.Ok? <==> && MatchAt(ts, p).Ok?
                          && KeeperReward(MatchAt(ts, p).value.totalQuote, m.keeperFeeBps).Ok?
                          && m.currentBatchId < U64_MAX)
    // in particular it succeeds whenever the crossed volume and its value
    // fit 128 bits, no keeper fee is charged and the batch id can advance
    ensures (&& !BandExceeded(m.lastClearingPrice, p, m.maxPriceMoveBps)
             && WalkFits(ts, p) && m.keeperFeeBps == 0 && m.currentBatchId < U64_MAX) ==> r.Ok?
    ensures r.Ok? ==> var b := r.value.batch;
                      && b.totalBaseTraded == MatchAt(ts, p).value.totalBase
                      && b.totalQuoteTraded == MatchAt(ts, p).value.totalQuote
                      && RolledFrom(m, r.value.market, slot)
                      && r.value.market.lastClearingPrice == p
                      && RecordsClear(m, caller, slot, b)
                      && b.clearingPrice == p
                      && b.totalBaseTraded <= Traded(ts, p)
                      && b.remainingBase == b.totalBaseTraded
                      && b.remainingQuote == b.totalQuoteTraded
                      && b.remainingQuote <= Notional(b.remainingBase, p)
                      && b.settled == (b.totalBaseTraded == 0)
                      && b.keeperReward == BpsOf(b.totalQuoteTraded, m.keeperFeeBps)
                      && !BandExceeded(m.lastClearingPrice, p, m.maxPriceMoveBps)
                      && exists w :: && WalkInv(ts, p, w)
                                     && w.totalBase == b.totalBaseTraded
                                     && w.totalQuote == b.totalQuoteTraded
  {
    if BandExceeded(m.lastClearingPrice, p, m.maxPriceMoveBps) then Err(PriceMoveTooLarge)
    else
      var w :- MatchAt(ts, p);
      var reward :- KeeperReward(w.totalQuote, m.keeperFeeBps);
      if m.currentBatchId >= U64_MAX then Err(MathOverflow)
      else
        TradedWithinVolumes(ts, p, w);
        QuoteWithinValue(ts, p, w);
        var m' := m.(lastBatchSlot := slot, currentBatchId := m.currentBatchId + 1,
                     batchNotional := 0, globalOrdersInBatch := 0, lastClearingPrice := p);
        Ok(Cleared(m', BatchState(m.key, m.currentBatchId, p, w.totalBase, w.totalQuote,
                                  m.lastBatchSlot, slot, w.totalBase == 0, caller, reward,
                                  w.totalBase, w.totalQuote)))
  }

  /** `clear_batch` over the supplied orders at `slot`, called by `caller`. */
  function ClearBatch(m: Market, caller: Pubkey, slot: u64, orders: seq<Order>): (r: Result<Cleared>)
    // the gates, each with its own error, and nothing written on failure
    ensures m.paused ==> r == Err(MarketPaused)
    ensures !m.paused && m.keeperRestricted && m.onlyKeeper != caller ==> r == Err(KeeperNotAllowed)
    ensures (&& !m.paused && (!m.keeperRestricted || m.onlyKeeper == caller)
             && (slot < m.lastBatchSlot + m.batchDurationSlots || slot < m.lastBatchSlot + m.minSlotsBetweenClears))
            ==> r == Err(BatchNotReady)
    ensures r.Ok? ==> GatesPass(m, caller, slot)
    ensures r.Err? ==> r.error in {MarketPaused, KeeperNotAllowed, BatchNotReady, PriceMoveTooLarge, MathOverflow}
    // every successful clear rolls the batch and records who cleared it when
    ensures r.Ok? ==> RolledFrom(m, r.value.market, slot) && RecordsClear(m, caller, slot, r.value.batch)
    // nothing crossed: price 0, nothing to settle, last price kept
    ensures r.Ok? && r.value.batch.clearingPrice == 0 ==>
              NoTradeRecord(r.value.batch) && r.value.market.lastClearingPrice == m.lastClearingPrice
    // crossed: an optimal price within the band, settlement budget = traded totals
    ensures r.Ok? && r.value.batch.clearingPrice > 0 ==>
              var b := r.value.batch;
              var ts := CollectEligible(orders, m.key, m.currentBatchId);
              && FindClearingPrice(ts).Ok?
              && FindClearingPrice(ts).value.price == b.clearingPrice
              && FindClearingPrice(ts).value.traded > 0
              && b.totalBaseTraded <= Traded(ts, b.clearingPrice)
              && b.remainingBase == b.totalBaseTraded
              && b.remainingQuote == b.totalQuoteTraded
              // each trade's quote leg is floored: the quote budget is at
              // most the value of the base budget
              && b.remainingQuote <= Notional(b.remainingBase, b.clearingPrice)
              && b.settled == (b.totalBaseTraded == 0)
              && r.value.market.lastClearingPrice == b.clearingPrice
              && !BandExceeded(m.lastClearingPrice, b.clearingPrice, m.maxPriceMoveBps)
    // past the gates the outcome is decided by the orders of the current
    // batch: no eligible order, or no price at which anything trades, rolls
    // the batch without a trade; a crossed book goes through the band check
    // and the matching walk at the discovered price
    ensures GatesPass(m, caller, slot) ==>
              var ts := CollectEligible(orders, m.key, m.currentBatchId);
              var c := FindClearingPrice(ts);
              && (|ts| == 0 ==> r == CloseWithoutTrade(m, caller, slot))
              && (|ts| > 0 && c.Err? ==> r == Err(MathOverflow))
              && (|ts| > 0 && c.Ok? && (c.value.traded == 0 || c.value.price == 0) ==>
                    r == CloseWithoutTrade(m, caller, slot))
              && (|ts| > 0 && c.Ok? && c.value.traded > 0 && c.value.price > 0 ==>
                    && c.value.price <= U64_MAX
                    && r == CloseWithTrade(m, caller, slot, ts, c.value.price as u64)
                    && (BandExceeded(m.lastClearingPrice, c.value.price as u64, m.maxPriceMoveBps) ==>
                          r == Err(PriceMoveTooLarge))
                    && (!BandExceeded(m.lastClearingPrice, c.value.price as u64, m.maxPriceMoveBps) ==>
                          (r.Ok? <==> && MatchAt(ts, c.value.price).Ok?
                                      && KeeperReward(MatchAt(ts, c.value.price).value.totalQuote, m.keeperFeeBps).Ok?
                                      && m.currentBatchId < U64_MAX))
                    && (r.Ok? ==> r.value.batch.clearingPrice == c.value.price))
  {
    if m.paused then Err(MarketPaused)
    else if m.keeperRestricted && m.onlyKeeper != caller then Err(KeeperNotAllowed)
    else if slot < m.lastBatchSlot + m.batchDurationSlots then Err(BatchNotReady)
    else if slot < m.lastBatchSlot + m.minSlotsBetweenClears then Err(BatchNotReady)
    else
      var ts := CollectEligible(orders, m.key, m.currentBatchId);
      if |ts| == 0 then CloseWithoutTrade(m, caller, slot)
      else
        var c :- FindClearingPrice(ts);
        if c.traded == 0 || c.price == 0 then CloseWithoutTrade(m, caller, slot)
        else CloseWithTrade(m, caller, slot, ts, c.price as u64)
  }
}
