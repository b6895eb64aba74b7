/** Whole-lifecycle scenarios on concrete markets, computed end to end:
    admission, clearing, settlement and cancellation of small order books
    that exhibit the behaviours the properties state in general. */
module Scenarios {
  import opened Types
  import opened FixedPoint
  import opened Admission
  import opened Discovery
  import opened Matching
  import opened Clearing
  import opened Settlement
  import opened Lifecycle

  const MARKET: Pubkey := Pubkey(1)
  const ADMIN: Pubkey := Pubkey(2)
  const ALICE: Pubkey := Pubkey(3)
  const BOB: Pubkey := Pubkey(4)
  const KEEPER: Pubkey := Pubkey(5)
  const CAROL: Pubkey := Pubkey(6)

  const FRESH_STATS: UserBatchStats := UserBatchStats(DEFAULT_KEY, DEFAULT_KEY, 0, 0, 0)

  /** Admission of a user's first order of the batch, with every check
      passing, stated on the order's notional `n`. */
  lemma FreshPlacement(m: Market, user: Pubkey, side: Side, limit: u64, amount: u64, n: nat)
    requires Notional(amount, limit) == n
    requires !m.paused && limit > 0 && amount > 0
    requires side == Bid ==> m.minQuoteOrder <= n && 0 < n <= U64_MAX
    requires side == Ask ==> m.minBaseOrder <= amount
    requires n <= m.maxNotionalPerUserPerBatch && 0 < m.maxOrdersPerUserPerBatch
    requires m.batchNotional + n <= m.maxNotionalPerBatch && m.batchNotional + n <= U128_MAX
    requires m.globalOrdersInBatch < m.maxOrdersGlobalPerBatch && m.nextOrderId < U64_MAX
    ensures PlaceOrder(m, FRESH_STATS, user, side, limit, amount)
            == Ok(Placed(m.(batchNotional := m.batchNotional + n,
                            globalOrdersInBatch := m.globalOrdersInBatch + 1,
                            nextOrderId := m.nextOrderId + 1),
                         UserBatchStats(user, m.key, m.currentBatchId, 1, n),
                         Order(user, m.key, side, limit, amount, m.currentBatchId, false, false,
                               if side == Bid then n else 0, m.nextOrderId)))
  {
  }

  /** Settlement of a crossed ask with its receipt as yet unwritten, stated
      on its gross `g` and protocol fee `fee`. */
  lemma CrossedAskSettles(m: Market, b: BatchState, o: Order, g: nat, fee: nat)
    requires SettleGatesPass(m, b, o, FRESH_FILL, o.user)
    requires o.side == Ask && Crosses(Ask, o.limitPrice, b.clearingPrice)
    requires Notional(o.amountBase, b.clearingPrice) == g && BpsOf(g, m.protocolFeeBps) == fee
    requires o.amountBase <= b.remainingBase && g <= b.remainingQuote
    requires m.protocolFeesAccrued + fee <= U128_MAX
    ensures SettleOrder(m, b, o, FRESH_FILL, o.user)
            == Ok(Settled(m.(protocolFeesAccrued := m.protocolFeesAccrued + fee),
                          b.(remainingBase := b.remainingBase - o.amountBase,
                             remainingQuote := b.remainingQuote - g,
                             settled := b.settled || b.remainingBase == o.amountBase),
                          o.(filled := true), OrderFill(o.id, b.batchId, o.amountBase, g, 0, 0, true),
                          Payout(0, g)))
  {
  }

  /** A market opened with 10-slot batches, a 30 bps fee, two orders per user. */
  function Genesis(): Market {
    Market(MARKET, ADMIN, 10, 0, 0, 0, 30, 2, false, U128_MAX, U128_MAX, 0, U32_MAX, 0,
           0, 0, 0, 10, false, DEFAULT_KEY, 0, 30, 0, 1, 1, 0)
  }

  lemma GenesisIsInitial()
    ensures InitializeMarket(MARKET, ADMIN, 10, 30, 2) == Ok(Genesis())
  {
  }

  lemma PlaceBid()
    ensures PlaceOrder(Genesis(), FRESH_STATS, ALICE, Bid, 100_000_000, 10_000_000)
            == Ok(Placed(Genesis().(batchNotional := 1_000_000_000, globalOrdersInBatch := 1, nextOrderId := 1),
                         UserBatchStats(ALICE, MARKET, 0, 1, 1_000_000_000),
                         Order(ALICE, MARKET, Bid, 100_000_000, 10_000_000, 0, false, false, 1_000_000_000, 0)))
  {
    FreshPlacement(Genesis(), ALICE, Bid, 100_000_000, 10_000_000, 1_000_000_000);
  }

  function AfterBid(): Market {
    Genesis().(batchNotional := 1_000_000_000, globalOrdersInBatch := 1, nextOrderId := 1)
  }
  function BidA(): Order { Order(ALICE, MARKET, Bid, 100_000_000, 10_000_000, 0, false, false, 1_000_000_000, 0) }
  function AskA(): Order { Order(BOB, MARKET, Ask, 90_000_000, 10_000_000, 0, false, false, 0, 1) }
  function AfterAsk(): Market {
    Genesis().(batchNotional := 1_900_000_000, globalOrdersInBatch := 2, nextOrderId := 2)
  }

  lemma PlaceAsk()
    ensures PlaceOrder(AfterBid(), FRESH_STATS, BOB, Ask, 90_000_000, 10_000_000)
            == Ok(Placed(AfterAsk(), UserBatchStats(BOB, MARKET, 0, 1, 900_000_000), AskA()))
  {
    FreshPlacement(AfterBid(), BOB, Ask, 90_000_000, 10_000_000, 900_000_000);
  }

  function TsA(): seq<TempOrder> { [ToTemp(BidA(), 0), ToTemp(AskA(), 1)] }

  lemma CollectA() ensures CollectEligible([BidA(), AskA()], MARKET, 0) == TsA() {}

  lemma PriceA() ensures FindClearingPrice(TsA()) == Ok(Choice(100_000_000, 10_000_000)) {
    assert Candidates(TsA()) == [100_000_000, 90_000_000];
  }

  lemma OrderA() ensures MatchingOrder(TsA(), Bid) == [0] && MatchingOrder(TsA(), Ask) == [1] {}

  function Walk1A(): Walk {
    Walk([0, 0], 10_000_000, 1_000_000_000, [Trade(0, 1, 10_000_000, 1_000_000_000)])
  }

  lemma FirstTradeA()
    ensures StartWalk(TsA()).rem == [10_000_000, 10_000_000]
    ensures Step(StartWalk(TsA()), 0, 1, 10_000_000, 1_000_000_000) == Walk1A()
    ensures Affordable(1_000_000_000, 100_000_000) == 10_000_000
    ensures Notional(10_000_000, 100_000_000) == 1_000_000_000
  {
  }

  /** The walk of batch A: one trade fills both orders. */
  lemma OneTradeA(ts: seq<TempOrder>, w: Walk)
    requires ts == TsA()
    requires WalkInv(ts, 100_000_000, w)
    requires w.rem == [10_000_000, 10_000_000] && w.totalBase == 0 && w.totalQuote == 0
    ensures MatchFrom(ts, 100_000_000, [0], [1], 0, 0, w) == Ok(Step(w, 0, 1, 10_000_000, 1_000_000_000))
  {
    assert ts[0].limitPrice == 100_000_000 && ts[1].limitPrice == 90_000_000;
    assert ts[0].quoteDeposit == 1_000_000_000;
    assert ts[0].side == Bid && ts[1].side == Ask;
    assert Affordable(1_000_000_000, 100_000_000) == 10_000_000;
    assert Notional(10_000_000, 100_000_000) == 1_000_000_000;
    StepKeepsInv(ts, 100_000_000, w, 0, 1, 10_000_000, 1_000_000_000);
    var w1 := Step(w, 0, 1, 10_000_000, 1_000_000_000);
    assert w1.rem == [0, 0];
    assert MatchFrom(ts, 100_000_000, [0], [1], 1, 1, w1) == Ok(w1);
  }

  lemma WalkA()
    ensures MatchAt(TsA(), 100_000_000) == Ok(Walk1A())
  {
    OrderA();
    FirstTradeA();
    StartWalkInv(TsA(), 100_000_000);
    OneTradeA(TsA(), StartWalk(TsA()));
  }

  function ClearedA(): Market {
    AfterAsk().(lastBatchSlot := 10, currentBatchId := 1, batchNotional := 0,
                globalOrdersInBatch := 0, lastClearingPrice := 100_000_000)
  }
  function BatchA(): BatchState {
    BatchState(MARKET, 0, 100_000_000, 10_000_000, 1_000_000_000, 0, 10, false, KEEPER, 0,
               10_000_000, 1_000_000_000)
  }

  lemma ClearA()
    ensures ClearBatch(AfterAsk(), KEEPER, 10, [BidA(), AskA()]) == Ok(Cleared(ClearedA(), BatchA()))
  {
    CollectA(); PriceA(); WalkA();
  }

  function SettledBatchA(): BatchState {
    BatchA().(remainingBase := 0, remainingQuote := 0, settled := true)
  }

  lemma BidSettlesA()
    ensures SettleOrder(ClearedA(), BatchA(), BidA(), FRESH_FILL, ALICE)
            == Ok(Settled(ClearedA().(protocolFeesAccrued := 3_000_000), SettledBatchA(),
                          BidA().(filled := true),
                          OrderFill(0, 0, 10_000_000, 1_000_000_000, 0, 0, true),
                          Payout(10_000_000, 0)))
  {
  }

  lemma AskThenRefusedA()
    ensures SettleOrder(ClearedA().(protocolFeesAccrued := 3_000_000), SettledBatchA(), AskA(), FRESH_FILL, BOB)
            == Err(BatchFullySettled)
  {
  }

  lemma AskSettlesFirstA()
    ensures SettleOrder(ClearedA(), BatchA(), AskA(), FRESH_FILL, BOB)
            == Ok(Settled(ClearedA().(protocolFeesAccrued := 3_000_000), SettledBatchA(),
                          AskA().(filled := true),
                          OrderFill(1, 0, 10_000_000, 1_000_000_000, 0, 0, true),
                          Payout(0, 1_000_000_000)))
  {
  }

  lemma BidThenRefusedA()
    ensures SettleOrder(ClearedA().(protocolFeesAccrued := 3_000_000), SettledBatchA(), BidA(), FRESH_FILL, ALICE)
            == Err(BatchFullySettled)
  {
  }

  /** An ask of batch 0 above the clearing price, left out of the clear by
      the keeper: settling it returns its whole base and leaves the budget
      and the market as they were. */
  function HighAskA(): Order { Order(CAROL, MARKET, Ask, 120_000_000, 3_000_000, 0, false, false, 0, 2) }

  lemma UncrossedRefundA()
    ensures SettleOrder(ClearedA(), BatchA(), HighAskA(), FRESH_FILL, CAROL)
            == Ok(Settled(ClearedA(), BatchA(), HighAskA().(filled := true),
                          OrderFill(2, 0, 0, 0, 0, 3_000_000, true),
                          Payout(3_000_000, 0)))
  {
  }

  // ---------------------------------------------------------------------
  // B: no cross
  // ---------------------------------------------------------------------

  function BidB(): Order { Order(ALICE, MARKET, Bid, 50_000_000, 5_000_000, 0, false, false, 250_000_000, 0) }
  function AskB(): Order { Order(BOB, MARKET, Ask, 60_000_000, 5_000_000, 0, false, false, 0, 1) }
  function AfterBidB(): Market {
    Genesis().(batchNotional := 250_000_000, globalOrdersInBatch := 1, nextOrderId := 1)
  }
  function AfterAskB(): Market {
    Genesis().(batchNotional := 550_000_000, globalOrdersInBatch := 2, nextOrderId := 2)
  }

  lemma PlaceB()
    ensures PlaceOrder(Genesis(), FRESH_STATS, ALICE, Bid, 50_000_000, 5_000_000)
            == Ok(Placed(AfterBidB(), UserBatchStats(ALICE, MARKET, 0, 1, 250_000_000), BidB()))
    ensures PlaceOrder(AfterBidB(), FRESH_STATS, BOB, Ask, 60_000_000, 5_000_000)
            == Ok(Placed(AfterAskB(), UserBatchStats(BOB, MARKET, 0, 1, 300_000_000), AskB()))
  {
    FreshPlacement(Genesis(), ALICE, Bid, 50_000_000, 5_000_000, 250_000_000);
    FreshPlacement(AfterBidB(), BOB, Ask, 60_000_000, 5_000_000, 300_000_000);
  }

  function TsB(): seq<TempOrder> { [ToTemp(BidB(), 0), ToTemp(AskB(), 1)] }

  lemma CollectB() ensures CollectEligible([BidB(), AskB()], MARKET, 0) == TsB() {}

  lemma PriceB()
    ensures FindClearingPrice(TsB()) == Ok(Choice(0, 0))
  {
    assert Candidates(TsB()) == [50_000_000, 60_000_000];
    assert Traded(TsB(), 50_000_000) == 0;
    assert Traded(TsB(), 60_000_000) == 0;
  }

  function ClearedB(): Market {
    AfterAskB().(lastBatchSlot := 10, currentBatchId := 1, batchNotional := 0, globalOrdersInBatch := 0)
  }
  function BatchB(): BatchState {
    BatchState(MARKET, 0, 0, 0, 0, 0, 10, true, KEEPER, 0, 0, 0)
  }

  lemma ClearB()
    ensures ClearBatch(AfterAskB(), KEEPER, 10, [BidB(), AskB()]) == Ok(Cleared(ClearedB(), BatchB()))
  {
    CollectB(); PriceB();
  }

  lemma NoSettlementB()
    ensures SettleOrder(ClearedB(), BatchB(), BidB(), FRESH_FILL, ALICE) == Err(BatchNotCleared)
    ensures SettleOrder(ClearedB(), BatchB(), AskB(), FRESH_FILL, BOB) == Err(BatchNotCleared)
  {
  }

  lemma CancelWindowB()
    ensures CancelOrder(ClearedB(), BidB(), ALICE, 19)
            == Ok(Cancelled(BidB().(cancelled := true), Payout(0, 250_000_000)))
    ensures CancelOrder(ClearedB(), AskB(), BOB, 19)
            == Ok(Cancelled(AskB().(cancelled := true), Payout(5_000_000, 0)))
    ensures CancelOrder(ClearedB(), BidB(), ALICE, 20) == Err(BatchAlreadyClosed)
  {
  }

  /** The window is the market's current one, not the order's batch's: it
      closes at slot 20, and an empty clear at slot 30 reopens it for the
      same order of batch 0 until slot 40. */
  function ReclearedB(): Market {
    ClearedB().(lastBatchSlot := 30, currentBatchId := 2)
  }

  lemma CancelReopensB()
    ensures CancelOrder(ClearedB(), BidB(), ALICE, 25) == Err(BatchAlreadyClosed)
    ensures ClearBatch(ClearedB(), KEEPER, 30, [])
            == Ok(Cleared(ReclearedB(), BatchState(MARKET, 1, 0, 0, 0, 10, 30, true, KEEPER, 0, 0, 0)))
    ensures CancelOrder(ReclearedB(), BidB(), ALICE, 31)
            == Ok(Cancelled(BidB().(cancelled := true), Payout(0, 250_000_000)))
  {
  }

  // ---------------------------------------------------------------------
  // C: dust
  // ---------------------------------------------------------------------

  lemma DustC()
    ensures PlaceOrder(Genesis().(minQuoteOrder := 100), FRESH_STATS, ALICE, Bid, 1_000_000, 50)
            == Err(DustOrderTooSmall)
  {
  }

  // ---------------------------------------------------------------------
  // D: the quote budget falls short of a bid's gross
  // ---------------------------------------------------------------------

  function BidD(): Order { Order(ALICE, MARKET, Bid, 1_500_000, 2, 0, false, false, 3, 0) }
  function Ask1D(): Order { Order(BOB, MARKET, Ask, 1_500_000, 1, 0, false, false, 0, 1) }
  function Ask2D(): Order { Order(CAROL, MARKET, Ask, 1_500_000, 1, 0, false, false, 0, 2) }
  function PlacedD(n: nat): Market
    requires n <= 3
  {
    Genesis().(batchNotional := [0, 3, 4, 5][n], globalOrdersInBatch := n, nextOrderId := n)
  }

  lemma PlaceD()
    ensures PlaceOrder(PlacedD(0), FRESH_STATS, ALICE, Bid, 1_500_000, 2)
            == Ok(Placed(PlacedD(1), UserBatchStats(ALICE, MARKET, 0, 1, 3), BidD()))
    ensures PlaceOrder(PlacedD(1), FRESH_STATS, BOB, Ask, 1_500_000, 1)
            == Ok(Placed(PlacedD(2), UserBatchStats(BOB, MARKET, 0, 1, 1), Ask1D()))
    ensures PlaceOrder(PlacedD(2), FRESH_STATS, CAROL, Ask, 1_500_000, 1)
            == Ok(Placed(PlacedD(3), UserBatchStats(CAROL, MARKET, 0, 1, 1), Ask2D()))
  {
    FreshPlacement(PlacedD(0), ALICE, Bid, 1_500_000, 2, 3);
    FreshPlacement(PlacedD(1), BOB, Ask, 1_500_000, 1, 1);
    FreshPlacement(PlacedD(2), CAROL, Ask, 1_500_000, 1, 1);
  }

  function TsD(): seq<TempOrder> { [ToTemp(BidD(), 0), ToTemp(Ask1D(), 1), ToTemp(Ask2D(), 2)] }

  lemma CollectD() ensures CollectEligible([BidD(), Ask1D(), Ask2D()], MARKET, 0) == TsD() {}

  lemma PriceD()
    ensures FindClearingPrice(TsD()) == Ok(Choice(1_500_000, 2))
  {
    assert Candidates(TsD()) == [1_500_000];
    assert Traded(TsD(), 1_500_000) == 2;
  }

  lemma AskIndicesD()
    ensures SideIndicesFrom(TsD(), Ask, 0) == [1, 2]
  {
    assert SideIndicesFrom(TsD(), Ask, 2) == [2];
  }

  lemma OrderD() ensures MatchingOrder(TsD(), Bid) == [0] && MatchingOrder(TsD(), Ask) == [1, 2] {
    AskIndicesD();
    assert Sort(TsD(), Ask, [2]) == [2];
    assert Precedes(TsD(), Ask, 1, 2);
  }

  function WalkD(): Walk {
    Walk([0, 0, 0], 2, 2, [Trade(0, 1, 1, 1), Trade(0, 2, 1, 1)])
  }

  function Walk0D(): Walk { Walk([2, 1, 1], 0, 0, []) }
  function Walk1D(): Walk { Walk([1, 0, 1], 1, 1, [Trade(0, 1, 1, 1)]) }

  lemma StartD()
    ensures StartWalk(TsD()) == Walk0D()
  {
    assert Originals(TsD()) == [2, 1, 1];
  }

  lemma Step1D()
    ensures Step(Walk0D(), 0, 1, 1, 1) == Walk1D()
  {
    assert [2, 1, 1][0 := 1][1 := 0] == [1, 0, 1];
  }

  lemma Step2D()
    ensures Step(Walk1D(), 0, 2, 1, 1) == WalkD()
  {
    assert [1, 0, 1][0 := 0][2 := 0] == [0, 0, 0];
    assert [Trade(0, 1, 1, 1)] + [Trade(0, 2, 1, 1)] == [Trade(0, 1, 1, 1), Trade(0, 2, 1, 1)];
  }

  lemma ArithD()
    ensures Affordable(3, 1_500_000) == 2
    ensures Notional(1, 1_500_000) == 1
  {
  }

  /** What the walk of batch D reads of its orders. */
  predicate ShapeD(ts: seq<TempOrder>) {
    && |ts| == 3
    && ts[0].side == Bid && ts[0].limitPrice == 1_500_000 && ts[0].quoteDeposit == 3
    && ts[1].side == Ask && ts[1].limitPrice == 1_500_000
    && ts[2].side == Ask && ts[2].limitPrice == 1_500_000
  }

  lemma ValidD(ts: seq<TempOrder>)
    requires ShapeD(ts)
    ensures ValidTrade(ts, 1_500_000, Trade(0, 1, 1, 1))
    ensures ValidTrade(ts, 1_500_000, Trade(0, 2, 1, 1))
    ensures Affordable(ts[0].quoteDeposit, 1_500_000) == 2
  {
    ArithD();
  }

  /** Second trade: the bid's last unit against the second ask. */
  lemma SecondTradeD(ts: seq<TempOrder>, w: Walk)
    requires ShapeD(ts) && WalkInv(ts, 1_500_000, w)
    requires w.rem == [1, 0, 1] && w.totalBase == 1 && w.totalQuote == 1
    ensures MatchFrom(ts, 1_500_000, [0], [1, 2], 0, 1, w) == Ok(Step(w, 0, 2, 1, 1))
  {
    ValidD(ts);
    StepKeepsInv(ts, 1_500_000, w, 0, 2, 1, 1);
    var w2 := Step(w, 0, 2, 1, 1);
    assert w2.rem[0] == 0 && w2.rem[2] == 0;
    assert MatchFrom(ts, 1_500_000, [0], [1, 2], 1, 2, w2) == Ok(w2);
  }

  /** First trade: one unit against the first ask, which it fills. */
  lemma FirstTradeD(ts: seq<TempOrder>, w: Walk)
    requires ShapeD(ts) && WalkInv(ts, 1_500_000, w)
    requires w.rem == [2, 1, 1] && w.totalBase == 0 && w.totalQuote == 0
    ensures MatchFrom(ts, 1_500_000, [0], [1, 2], 0, 0, w)
            == Ok(Step(Step(w, 0, 1, 1, 1), 0, 2, 1, 1))
  {
    ValidD(ts);
    StepKeepsInv(ts, 1_500_000, w, 0, 1, 1, 1);
    var w1 := Step(w, 0, 1, 1, 1);
    assert w1.rem == [1, 0, 1];
    SecondTradeD(ts, w1);
  }

  /** The walk at `p` starts from the two matching orders computed once. */
  lemma WalkStartsWith(ts: seq<TempOrder>, p: nat, bids: seq<nat>, asks: seq<nat>)
    requires MatchingOrder(ts, Bid) == bids && MatchingOrder(ts, Ask) == asks
    ensures OnSide(ts, bids, Bid) && OnSide(ts, asks, Ask)
    ensures WalkInv(ts, p, StartWalk(ts))
    ensures MatchAt(ts, p) == MatchFrom(ts, p, bids, asks, 0, 0, StartWalk(ts))
  {
    StartWalkInv(ts, p);
  }

  lemma WalkOfD()
    ensures MatchAt(TsD(), 1_500_000) == Ok(WalkD())
  {
    OrderD();
    WalkStartsWith(TsD(), 1_500_000, [0], [1, 2]);
    StartD();
    assert ShapeD(TsD());
    FirstTradeD(TsD(), Walk0D());
    Step1D();
    Step2D();
  }

  function ClearedD(): Market {
    PlacedD(3).(lastBatchSlot := 10, currentBatchId := 1, batchNotional := 0,
                globalOrdersInBatch := 0, lastClearingPrice := 1_500_000)
  }
  function BatchD(): BatchState {
    BatchState(MARKET, 0, 1_500_000, 2, 2, 0, 10, false, KEEPER, 0, 2, 2)
  }

  lemma ClearD()
    ensures ClearBatch(PlacedD(3), KEEPER, 10, [BidD(), Ask1D(), Ask2D()]) == Ok(Cleared(ClearedD(), BatchD()))
  {
    CollectD(); PriceD(); WalkOfD();
  }

  /** The bid crossed and its deposit covers its gross of 3, but the two
      one-unit trades floored to a quote budget of 2. */
  lemma BidRefusedD()
    ensures Notional(2, 1_500_000) == 3
    ensures SettleOrder(ClearedD(), BatchD(), BidD(), FRESH_FILL, ALICE) == Err(MathOverflow)
  {
  }

  lemma FirstAskSettlesD()
    ensures SettleOrder(ClearedD(), BatchD(), Ask1D(), FRESH_FILL, BOB)
            == Ok(Settled(ClearedD(), BatchD().(remainingBase := 1, remainingQuote := 1),
                          Ask1D().(filled := true), OrderFill(1, 0, 1, 1, 0, 0, true), Payout(0, 1)))
  {
    CrossedAskSettles(ClearedD(), BatchD(), Ask1D(), 1, 0);
  }

  lemma SecondAskSettlesD()
    ensures SettleOrder(ClearedD(), BatchD().(remainingBase := 1, remainingQuote := 1), Ask2D(), FRESH_FILL, CAROL)
            == Ok(Settled(ClearedD(), BatchD().(remainingBase := 0, remainingQuote := 0, settled := true),
                          Ask2D().(filled := true), OrderFill(2, 0, 1, 1, 0, 0, true), Payout(0, 1)))
  {
    CrossedAskSettles(ClearedD(), BatchD().(remainingBase := 1, remainingQuote := 1), Ask2D(), 1, 0);
  }

  lemma BidLastRefusedD()
    ensures SettleOrder(ClearedD(), BatchD().(remainingBase := 0, remainingQuote := 0, settled := true),
                        BidD(), FRESH_FILL, ALICE)
            == Err(BatchFullySettled)
  {
  }

  // ---------------------------------------------------------------------
  // E: a crossed price at which the walk cannot move any quote
  // ---------------------------------------------------------------------

  function AskE(): Order { Order(BOB, MARKET, Ask, 1, 1, 0, false, false, 0, 0) }
  function BidE(): Order { Order(ALICE, MARKET, Bid, 1_000_000, 1, 0, false, false, 1, 1) }
  function PlacedE(n: nat): Market
    requires n <= 2
  {
    Genesis().(batchNotional := [0, 0, 1][n], globalOrdersInBatch := n, nextOrderId := n)
  }

  lemma PlaceAskE()
    ensures PlaceOrder(PlacedE(0), FRESH_STATS, BOB, Ask, 1, 1)
            == Ok(Placed(PlacedE(1), UserBatchStats(BOB, MARKET, 0, 1, 0), AskE()))
  {
    FreshPlacement(PlacedE(0), BOB, Ask, 1, 1, 0);
  }

  lemma PlaceBidE()
    ensures PlaceOrder(PlacedE(1), FRESH_STATS, ALICE, Bid, 1_000_000, 1)
            == Ok(Placed(PlacedE(2), UserBatchStats(ALICE, MARKET, 0, 1, 1), BidE()))
  {
    FreshPlacement(PlacedE(1), ALICE, Bid, 1_000_000, 1, 1);
  }

  function TsE(): seq<TempOrder> { [ToTemp(AskE(), 0), ToTemp(BidE(), 1)] }

  lemma CollectE() ensures CollectEligible([AskE(), BidE()], MARKET, 0) == TsE() {}

  lemma PriceE()
    ensures FindClearingPrice(TsE()) == Ok(Choice(1, 1))
  {
    assert Candidates(TsE()) == [1, 1_000_000];
    assert Traded(TsE(), 1) == 1;
    assert Traded(TsE(), 1_000_000) == 1;
  }

  lemma OrderE() ensures MatchingOrder(TsE(), Bid) == [1] && MatchingOrder(TsE(), Ask) == [0] {}

  function Walk0E(): Walk { Walk([1, 1], 0, 0, []) }

  lemma StartE()
    ensures StartWalk(TsE()) == Walk0E()
  {
    assert Originals(TsE()) == [1, 1];
  }

  /** One unit at price 1 is worth floor(1 / 1e6) = 0 quote: the walk stops
      before its first trade. */
  lemma NoTradeE(ts: seq<TempOrder>, w: Walk)
    requires ts == TsE() && w == Walk0E()
    requires WalkInv(ts, 1, w)
    ensures MatchFrom(ts, 1, [1], [0], 0, 0, w) == Ok(w)
  {
    assert ts[1].limitPrice == 1_000_000 && ts[0].limitPrice == 1 && ts[1].quoteDeposit == 1;
    assert Affordable(1, 1) == 1_000_000;
    assert Notional(1, 1) == 0;
  }

  lemma WalkOfE()
    ensures MatchAt(TsE(), 1) == Ok(Walk0E())
  {
    OrderE();
    WalkStartsWith(TsE(), 1, [1], [0]);
    StartE();
    NoTradeE(TsE(), Walk0E());
  }

  function ClearedE(): Market {
    PlacedE(2).(lastBatchSlot := 10, currentBatchId := 1, batchNotional := 0,
                globalOrdersInBatch := 0, lastClearingPrice := 1)
  }
  function BatchE(): BatchState {
    BatchState(MARKET, 0, 1, 0, 0, 0, 10, true, KEEPER, 0, 0, 0)
  }

  lemma ClearE()
    ensures ClearBatch(PlacedE(2), KEEPER, 10, [AskE(), BidE()]) == Ok(Cleared(ClearedE(), BatchE()))
  {
    CollectE(); PriceE(); WalkOfE();
  }

  /** Both orders crossed at price 1, yet neither can settle. */
  lemma BothRefusedE()
    ensures SettleOrder(ClearedE(), BatchE(), AskE(), FRESH_FILL, BOB) == Err(BatchFullySettled)
    ensures SettleOrder(ClearedE(), BatchE(), BidE(), FRESH_FILL, ALICE) == Err(BatchFullySettled)
  {
  }

  // ---------------------------------------------------------------------
  // F: 64-bit casts and an unchecked keeper fee
  // ---------------------------------------------------------------------

  const TWO_POW_63: nat := 0x8000_0000_0000_0000

  /** A bid whose notional is 2^64 + 2 is admitted with a deposit of 2:
      the cast to 64 bits drops the high bits. */
  lemma TruncatedDepositF()
    ensures Notional(2_000_000, TWO_POW_63 + 1) == TWO_POW_64 + 2
    ensures PlaceOrder(Genesis(), FRESH_STATS, ALICE, Bid, TWO_POW_63 + 1, 2_000_000)
            == Ok(Placed(Genesis().(batchNotional := TWO_POW_64 + 2, globalOrdersInBatch := 1, nextOrderId := 1),
                         UserBatchStats(ALICE, MARKET, 0, 1, TWO_POW_64 + 2),
                         Order(ALICE, MARKET, Bid, TWO_POW_63 + 1, 2_000_000, 0, false, false, 2, 0)))
  {
  }

  /** Such a bid owes more than its deposit at every clearing price from 2
      up: settling it crossed always fails. */
  lemma TruncatedBidUnderfundedF(p: nat)
    requires p >= 2
    ensures Notional(2_000_000, p) > 2
  {
    NotionalMonotone(2_000_000, 2, p);
  }

  /** So whenever such a bid passes the settlement gates at a clearing price
      of 2 or more, it is refused: with budget left for its amount because
      the deposit does not cover the gross, otherwise because the budget is
      spent. */
  lemma TruncatedBidRefusedF(m: Market, b: BatchState, f: OrderFill)
    requires var bid := Order(ALICE, MARKET, Bid, TWO_POW_63 + 1, 2_000_000, 0, false, false, 2, 0);
             && SettleGatesPass(m, b, bid, f, ALICE)
             && b.clearingPrice >= 2 && Crosses(Bid, bid.limitPrice, b.clearingPrice)
    ensures var bid := Order(ALICE, MARKET, Bid, TWO_POW_63 + 1, 2_000_000, 0, false, false, 2, 0);
            var r := SettleOrder(m, b, bid, f, ALICE);
            && r.Err?
            && (2_000_000 <= b.remainingBase ==> r.error == MathOverflow)
            && (2_000_000 > b.remainingBase ==> r.error == BatchFullySettled)
  {
    TruncatedBidUnderfundedF(b.clearingPrice);
  }

  /** At a clearing price of 1 the same bid's gross is exactly its deposit
      of 2, so it settles there, receiving its whole base amount. */
  lemma TruncatedBidSettlesAtOneF()
    ensures var bid := Order(ALICE, MARKET, Bid, TWO_POW_63 + 1, 2_000_000, 0, false, false, 2, 0);
            var b := BatchState(MARKET, 0, 1, 2_000_000, 2, 0, 10, false, KEEPER, 0, 2_000_000, 2);
            SettleOrder(Genesis(), b, bid, FRESH_FILL, ALICE)
            == Ok(Settled(Genesis(), b.(remainingBase := 0, remainingQuote := 0, settled := true),
                          bid.(filled := true), OrderFill(0, 0, 2_000_000, 2, 0, 0, true),
                          Payout(2_000_000, 0)))
  {
  }

  /** A move from 1 to 2^60 + 1 measures 2^60 * 1e4 basis points, a
      multiple of 2^64: after the cast it reads 0 and passes a 1 bp band. */
  lemma BandWrapsF()
    ensures 0x1000_0000_0000_0000 * BPS_DENOM % TWO_POW_64 == 0
    ensures MoveBps(1, 0x1000_0000_0000_0001) == 0
    ensures !BandExceeded(1, 0x1000_0000_0000_0001, 1)
  {
  }

  /** The keeper fee is not range-checked by `set_params`: at 65535 bps the
      recorded reward is more than six times the batch's quote volume. */
  lemma KeeperFeeUncheckedF()
    ensures SetParams(Genesis(), ADMIN, ParamsOf(Genesis()).(keeperFeeBps := 65_535)).Ok?
    ensures KeeperReward(10_000, 65_535) == Ok(65_535)
  {
  }
}
