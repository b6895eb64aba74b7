# micro_batch_amm: the batch-auction engine in Dafny

A model of the batch-auction engine in `micro_batch_amm/src/lib.rs`. This is
a Solana program that runs a periodic uniform-price call auction. Orders are
admitted into the open batch. A keeper clears the batch at the price that
maximises matched volume. Each order is then settled individually, or
cancelled while the batch is still open.

The model is functional. Every instruction is a pure function from the
accounts it reads to `Result<accounts it writes>`. An error carries no state,
which is how the program's all-or-nothing transactions behave. The clock slot,
the signer and the `remaining_accounts` orders are parameters. Integers are
unbounded. Each source field's width is a subset type (`u8` … `u128`). Every
checked operation that can fail is an explicit `Err(MathOverflow)`, and every
truncating `as u64` that matters is written out (`FixedPoint.TruncU64`).

Modules, one per part of the program:

| file | module | what it holds |
|---|---|---|
| `types.dfy` | `Types` | constants, `Market`, `Order`, `UserBatchStats`, `BatchState`, `OrderFill`, errors, the market invariant |
| `fixed_point.dfy` | `FixedPoint` | the 1e6-scaled `floor(a * p / 1e6)`, affordability, basis points, the 64-bit cast, monotonicity lemmas |
| `admission.dfy` | `Admission` | `place_order` |
| `discovery.dfy` | `Discovery` | the eligibility filter and clearing-price discovery |
| `matching.dfy` | `Matching` | the stable sorts and the two-cursor matching walk |
| `clearing.dfy` | `Clearing` | `clear_batch`: gates, band, keeper reward, roll |
| `settlement.dfy` | `Settlement` | `settle_order` |
| `lifecycle.dfy` | `Lifecycle` | `initialize_market` defaults, `cancel_order`, `set_paused`, `set_params` |
| `properties.dfy` | `Properties` | cross-instruction properties: invariants, the shared budget, stranded deposits, the cancel window |
| `scenarios.dfy` | `Scenarios` | whole-lifecycle scenarios computed end to end on concrete markets |

## Behaviour of the code that the model keeps

The model follows the code as written. The proofs expose the following
behaviours.

- **Settlement budget.** One budget is shared by both sides: the traded base
  total, counted once. Bids and asks both draw on it. When a batch is fully
  matched, the first crossed settler uses the whole budget, and the crossed
  order on the other side gets `BatchFullySettled`. Its collateral stays in
  the vault (`Scenarios.AskThenRefusedA`, `Properties.SecondSettlerStarved`,
  `Properties.SettledBaseWithinTraded`).
- **Batches that clear at price 0.** They cannot be settled
  (`BatchNotCleared`), so settlement's refund branch for uncrossed orders
  never runs for them. Their orders can be refunded only by `cancel_order`,
  and only while the market's current batch window is open. That window is
  the first `batch_duration_slots` slots after the most recent clear, so it
  opens again after every later clear (`Properties.NoPriceNoSettlement`,
  `Properties.CancelWindowAfterClear`, `Scenarios.CancelWindowB`,
  `Scenarios.CancelReopensB`).
- **Cancellation window.** Cancellation never reads the order's batch id. The
  window it checks is the market's current one
  (`Properties.CancelIgnoresOrderBatch`).
- **Quote budget and flooring.** Each trade's quote leg is floored on its own.
  So the quote budget can fall short of a bid's gross at settlement, and that
  bid is refused with `MathOverflow` (`Scenarios.BidRefusedD`).
- **A crossed clear that trades nothing.** When the first trade would carry
  zero quote, the walk stops. The batch is then recorded at a non-zero price
  with a zero budget, so every crossed order of it is refused
  (`Scenarios.BothRefusedE`).
- **Truncating casts.** A bid's deposit is its notional cast to 64 bits.
  Notionals of 2^64 or more are admitted with a truncated deposit
  (`Scenarios.TruncatedDepositF`). Such a bid is refused at every clearing
  price of 2 or more, because its deposit no longer covers the gross
  (`Scenarios.TruncatedBidUnderfundedF`). At a clearing price of 1 it can
  still settle (`Scenarios.TruncatedBidSettlesAtOneF`). The band's measured move is
  also cast to 64 bits, so for last prices below 1e4 a huge move can read as
  0 (`Scenarios.BandWrapsF`). From a last price of 1e4 up, the move is exact
  (`Clearing.MoveBpsExact`).
- **Unchecked parameters.** `set_params` checks each fee share against the
  total separately, not their sum. It does not range-check the keeper fee. It
  does not compare new caps with the open batch's accumulators
  (`Properties.FeeSharesCheckedSeparately`, `Scenarios.KeeperFeeUncheckedF`,
  `Properties.SetParamsCanBreakCaps`).

## Model

| member | source | states |
|---|---|---|
| Lifecycle.InitializeMarket | micro_batch_amm/src/lib.rs:17-75 | fails with InvalidFeeBps exactly when the fee exceeds 10000 bps; otherwise a market satisfying the invariant that stores the duration, fee and per-user order cap as given, with no batch open, ids and accumulators at 0, caps at their type maxima, the band, keeper fee and keeper restriction off, the protocol share equal to the fee, no fees accrued, pause reason 0 and dust floors of 1 |
| Scenarios.GenesisIsInitial | micro_batch_amm/src/lib.rs:43-75 | the defaults written for a 10-slot, 30 bps market are the scenario's starting market |
| Admission.PlaceOrder | micro_batch_amm/src/lib.rs:96-240 | succeeds iff every admission check passes; afterwards all four caps hold, both accumulators grow by exactly this order's notional and count, the order gets id next_order_id, which advances by one; a bid locks its floored notional (when it fits 64 bits), always > 0, an ask locks its base amount; dust floors per side; nothing else in the market changes |
| Admission.FirstFailingCheckReported | micro_batch_amm/src/lib.rs:103-201 | a rejected admission reports the error of the first failing check in the order the source performs them |
| Admission.AdmitFirstFailing | micro_batch_amm/src/lib.rs:143-201 | the same, for the accumulator, id and deposit checks after the stats account is bound |
| Admission.Admit | micro_batch_amm/src/lib.rs:143-238 | the accumulator stage succeeds iff both notional sums fit 128 bits and their caps, both counts are below their caps, the order id fits and a bid's deposit is nonzero; it writes exactly the grown accumulators and the new open order |
| Admission.BindStats | micro_batch_amm/src/lib.rs:129-141 | an empty stats account is bound to the user, market and current batch with zero notional; a used one must already belong to them, else InvalidUserBatch |
| Properties.PlaceOrderKeepsInv | micro_batch_amm/src/lib.rs:143-182 | admission preserves the market invariant (caps respected, fee shares within the fee) |
| Discovery.CollectEligible | micro_batch_amm/src/lib.rs:319-354 | the collected orders are exactly the eligible supplied ones (this market, this batch, nonzero amount, not cancelled), each copied from a supplied order, in supplied order; none collected iff none eligible |
| Properties.IneligibleOrdersIgnored | micro_batch_amm/src/lib.rs:326-340 | supplying only ineligible orders clears exactly like supplying none: a bare roll with nothing to settle |
| Discovery.Candidates | micro_batch_amm/src/lib.rs:348-350 | the candidate prices are the distinct limit prices of the eligible orders, each listed once, in first-encounter order |
| Discovery.CheckedVolumes | micro_batch_amm/src/lib.rs:398-418 | the per-price pass fails iff a 128-bit volume sum overflows, and otherwise returns the crossed bid and ask volumes |
| Discovery.Discover | micro_batch_amm/src/lib.rs:395-423 | the fold over the candidates fails only on overflow; its result traded volume is at least every candidate's and is either the starting choice or a candidate that strictly beat all before it |
| Discovery.FindClearingPrice | micro_batch_amm/src/lib.rs:391-423 | the chosen traded volume is at least min(bid volume, ask volume) at every order's limit price; a positive winner is an order's limit price with exactly that traded volume; zero traded means price 0 |
| Discovery.WinnerIsEarliest | micro_batch_amm/src/lib.rs:419-422 | every order whose limit price first occurs before the winner's trades strictly less: ties keep the earliest-encountered candidate |
| Matching.MatchingOrder | micro_batch_amm/src/lib.rs:479-498 | the walk visits a permutation of the side's orders, bids best (highest) price first, asks lowest first, equal prices in collection order (a stable sort) |
| Matching.StepKeepsInv | micro_batch_amm/src/lib.rs:549-577 | one trade keeps the walk invariant: every trade valid, totals equal the trades' sums, each order's remaining plus traded equals its original amount, traded plus resting crossed volume equals the crossed volume on each side |
| Matching.MatchFrom | micro_batch_amm/src/lib.rs:506-578 | the two-cursor walk fails only with MathOverflow, when a 128-bit total would overflow, and keeps the walk invariant |
| Matching.MatchFromRemFalls | micro_batch_amm/src/lib.rs:506-578 | the walk only ever lowers the orders' remaining amounts |
| Matching.MatchFromStops | micro_batch_amm/src/lib.rs:506-553 | the walk ends where the loop exits (a side exhausted, the head pair not crossing, or the head pair's trade carrying zero quote), and every order the cursors passed is filled or is a bid that cannot afford one unit |
| Matching.MatchFromFits | micro_batch_amm/src/lib.rs:545-571 | the walk succeeds whenever the crossed volume and its value at the price fit 128 bits: the checked additions cannot fail then |
| Matching.HaltIsWalkEnd | micro_batch_amm/src/lib.rs:479-553 | with the cursors over each side in matching order, the exit leaves every affordable crossing bid used up, or every crossing ask used up, or a crossing pair whose next trade carries zero quote |
| Matching.MatchAt | micro_batch_amm/src/lib.rs:500-578 | the matching phase from full remaining amounts keeps the walk invariant, does not stop early (one side used up or a zero-quote pair), succeeds whenever the crossed volume and its value fit 128 bits, and fails only with MathOverflow |
| Matching.TradedWithinVolumes | micro_batch_amm/src/lib.rs:535-571 | total traded base never exceeds the crossed bid volume or the crossed ask volume at the clearing price |
| Matching.QuoteWithinValue | micro_batch_amm/src/lib.rs:549-571 | the traded quote, a sum of separately floored legs, is at most the floored value of the traded base |
| Clearing.MoveBpsExact | micro_batch_amm/src/lib.rs:462-476 | from a last price of 1e4 upward the 64-bit cast of the measured move loses nothing |
| FixedPoint.BpsOfIsFloor | micro_batch_amm/src/lib.rs:581-585 | a basis-point share floor(x * bps / 1e4) is the largest amount whose value in basis points stays within x * bps, and is at most x for shares up to 10000 bps |
| Clearing.KeeperReward | micro_batch_amm/src/lib.rs:580-588 | zero when the keeper fee is zero; otherwise fails with MathOverflow exactly when quote * bps exceeds 128 bits; a reward r satisfies r * 1e4 <= quote * bps < (r + 1) * 1e4 (the floor of the fee share), and never exceeds the traded quote when the fee is at most 10000 bps |
| Clearing.CloseWithoutTrade | micro_batch_amm/src/lib.rs:356-388 | the empty or uncrossed roll: batch id + 1, accumulators reset, last price kept, a price-0 record with zero totals and budget marked settled; fails only when the batch id cannot advance |
| Clearing.CloseWithTrade | micro_batch_amm/src/lib.rs:461-613 | a band breach fails with PriceMoveTooLarge; within the band it succeeds exactly when the walk, the keeper reward and the batch-id increment all succeed (so always, for fitting volumes, no keeper fee and an id below the maximum); on success the batch rolls to the new last price, and the record's budget equals the walk's totals, bounded by the traded volume, with quote at most the base's value, settled iff nothing traded, with the keeper reward in basis points |
| Clearing.ClearBatch | micro_batch_amm/src/lib.rs:259-625 | paused, wrong keeper and early clears fail with their own errors; a success passed every gate, rolls the batch and records the clear; a price-0 result is a no-trade record; a crossed result is the optimal candidate, within the band, with a budget equal to the traded totals; past the gates, no eligible order or nothing crossed rolls without a trade, a discovery overflow fails with MathOverflow, and a crossed book fails with PriceMoveTooLarge outside the band and otherwise succeeds exactly when the walk, the keeper reward and the batch-id increment do, recording the discovered price |
| Properties.ClearBatchRestoresCaps | micro_batch_amm/src/lib.rs:590-598 | a clear resets the accumulators, so the caps hold afterwards whatever held before, and the fee schedule is untouched |
| Settlement.SettleOrder | micro_batch_amm/src/lib.rs:632-875 | the account, pause, batch-id, price-0, cancelled and claimed gates fail in order with their errors; an uncrossed order gets its whole collateral back and uses no budget; past the gates an uncrossed order always succeeds and a crossed one succeeds exactly when the crossed branch does; a crossed one fills all-or-nothing at floor(amount * price / 1e6), a bid is refunded the rest of its deposit, both budgets fall by the filled amounts, and settled is set when the base budget reaches 0; the fee accrues; the order is marked filled and the receipt claimed |
| Settlement.SettleCrossed | micro_batch_amm/src/lib.rs:686-757 | a crossed settlement succeeds iff the amount fits the base budget, a bid's deposit covers the gross, the gross fits the quote budget and the fee accumulator does not overflow; it writes exactly the drawn-down batch, the fee and the receipt |
| Settlement.CrossedBidCanPay | micro_batch_amm/src/lib.rs:191-201 | a bid holding its untruncated admission deposit can pay its gross at any price it crosses |
| Settlement.SettleAtMostOnce | micro_batch_amm/src/lib.rs:652 | settling again with the written receipt fails with OrderAlreadySettled |
| Settlement.BudgetMonotone | micro_batch_amm/src/lib.rs:720-732 | each settlement lowers both budgets by exactly its filled amounts and never clears the settled flag |
| Properties.SettlementConserves | micro_batch_amm/src/lib.rs:686-821 | filled plus refunded equals the locked collateral: base for an ask, the deposit for a bid |
| Properties.SettleOrderKeepsInv | micro_batch_amm/src/lib.rs:734-745 | settlement keeps the market invariant |
| Properties.SettledBaseDrawsBudget | micro_batch_amm/src/lib.rs:688-724 | over any run of settlements against one batch, base filled on both sides together plus the base budget left equals the base budget at the start |
| Properties.SettledBaseWithinTraded | micro_batch_amm/src/lib.rs:688-724 | after any clear, all settlements together (bids and asks) fill at most the traded base once |
| Properties.SecondSettlerStarved | micro_batch_amm/src/lib.rs:688-691 | two crossed orders whose amounts together exceed the budget: the second to settle gets BatchFullySettled |
| Properties.EmptyBudgetRefusesCrossed | micro_batch_amm/src/lib.rs:688-691 | with an exhausted base budget every crossed order with a positive amount is refused |
| Properties.UnderfundedBidRefused | micro_batch_amm/src/lib.rs:693-701 | a crossed bid whose deposit is below its gross is refused with MathOverflow |
| Properties.NoPriceNoSettlement | micro_batch_amm/src/lib.rs:647-650 | no order of a batch cleared at price 0 can be settled |
| Lifecycle.CancelOrder | micro_batch_amm/src/lib.rs:892-962 | succeeds iff the signer owns the order of this market, the market is not paused, the order is open and the slot is before last_batch_slot + batch_duration_slots; refunds exactly the collateral in its asset and marks the order cancelled |
| Properties.CancelWindowAfterClear | micro_batch_amm/src/lib.rs:902-905 | after a clear at a slot, an open order of the market can be cancelled exactly while the slot is less than one batch duration after the clear |
| Properties.ZeroDurationNeverCancels | micro_batch_amm/src/lib.rs:902-905 | with a zero duration nothing is cancellable once the clock reaches the batch start |
| Properties.CancelIgnoresOrderBatch | micro_batch_amm/src/lib.rs:897-905 | the outcome of a cancellation does not depend on the order's batch id |
| Properties.CancelledNeverSettles | micro_batch_amm/src/lib.rs:651 | a cancelled order never settles |
| Properties.SettledNeverCancels | micro_batch_amm/src/lib.rs:899 | a settled order is never cancelled |
| Lifecycle.SetPaused | micro_batch_amm/src/lib.rs:965-978 | only the authority may switch; it sets the flag and reason and nothing else |
| Properties.SetPausedKeepsInv | micro_batch_amm/src/lib.rs:965-970 | pausing keeps the market invariant |
| Lifecycle.SetParams | micro_batch_amm/src/lib.rs:981-1027 | succeeds iff the authority signs and the total fee is at most 10000 bps with each share at most the total; writes exactly the ten parameters and leaves accumulators, clock, ids and accrued fees as they were |
| Properties.FeeSharesCheckedSeparately | micro_batch_amm/src/lib.rs:997-999 | protocol and referral shares of 100 bps each under a 100 bps total are accepted |
| Properties.SetParamsCanBreakCaps | micro_batch_amm/src/lib.rs:997-1003 | a new batch cap below the open batch's notional is accepted and leaves the caps violated |
| Scenarios.ClearA | micro_batch_amm/src/lib.rs:259-625 | one bid at 100 and one ask at 90, both for 10 base: clears at 100, the first-encountered tied candidate, trading 10 base for 1000 quote |
| Scenarios.BidSettlesA | micro_batch_amm/src/lib.rs:686-757 | the bid settles first, receives 10 base with no refund, the 30 bps fee accrues 3 quote, and the budget is spent |
| Scenarios.AskThenRefusedA | micro_batch_amm/src/lib.rs:688-691 | the ask, crossed, is then refused with BatchFullySettled |
| Scenarios.BidThenRefusedA | micro_batch_amm/src/lib.rs:688-691 | in the other settlement order the bid is the one refused |
| Scenarios.UncrossedRefundA | micro_batch_amm/src/lib.rs:810-857 | an ask at 120 does not cross the clear at 100: settling it refunds its whole base amount and uses no budget |
| Scenarios.ClearB | micro_batch_amm/src/lib.rs:425-457 | a bid at 50 and an ask at 60 do not cross: the batch rolls at price 0 |
| Scenarios.NoSettlementB | micro_batch_amm/src/lib.rs:647-650 | neither order of that batch can settle |
| Scenarios.CancelWindowB | micro_batch_amm/src/lib.rs:902-905 | both can be cancelled for a full refund at slot 19, and not at slot 20 |
| Scenarios.CancelReopensB | micro_batch_amm/src/lib.rs:902-905 | a bid of the price-0 batch cannot be cancelled at slot 25, but after an empty clear at slot 30 it can again, for a full refund |
| Scenarios.DustC | micro_batch_amm/src/lib.rs:113-120 | a bid of notional 50 under a floor of 100 is rejected as dust |
| Scenarios.ClearD | micro_batch_amm/src/lib.rs:500-613 | a bid for 2 at 1.5 against two asks for 1: two trades, each quote leg floored from 1.5 to 1, a budget of 2 base and 2 quote |
| Scenarios.BidRefusedD | micro_batch_amm/src/lib.rs:720-728 | the bid's gross of 3 exceeds the quote budget of 2, so it is refused with MathOverflow |
| Scenarios.ClearE | micro_batch_amm/src/lib.rs:545-553 | an ask at price 1 crossing a bid: the first trade's quote would be 0, so the walk stops and the batch records price 1 with zero budget |
| Scenarios.BothRefusedE | micro_batch_amm/src/lib.rs:688-691 | both crossed orders of that batch are refused |
| Scenarios.TruncatedDepositF | micro_batch_amm/src/lib.rs:196-201 | a bid whose notional is 2^64 + 2 is admitted with a deposit of 2 |
| Scenarios.TruncatedBidUnderfundedF | micro_batch_amm/src/lib.rs:693-701 | at every clearing price of 2 or more that bid's gross exceeds its truncated deposit of 2 |
| Scenarios.TruncatedBidRefusedF | micro_batch_amm/src/lib.rs:686-701 | past the settlement gates, at any clearing price of 2 or more that it crosses, that bid is refused: MathOverflow when the base budget covers its amount, BatchFullySettled otherwise |
| Scenarios.TruncatedBidSettlesAtOneF | micro_batch_amm/src/lib.rs:686-757 | at clearing price 1 the same bid settles: its gross of 2 is exactly its deposit |
| Scenarios.BandWrapsF | micro_batch_amm/src/lib.rs:462-476 | a move from 1 to 2^60 + 1 reads as 0 bp after the cast and passes a 1 bp band |
| Scenarios.KeeperFeeUncheckedF | micro_batch_amm/src/lib.rs:580-588 | a keeper fee of 65535 bps is accepted and pays a reward above six times the quote volume |

## Left out

- Token transfers, vaults and signer seeds: settlement and cancellation return the amounts as a `Payout`. Admission's deposit is the order's `quoteDeposit`, or its base amount for an ask.
- Events (`emit!`) and `view_market`: these are telemetry and write no state.
- Account addressing and storage: PDA derivation, `init_if_needed`, account sizes, the mints and treasuries. Account constraints that compare keys are modelled as `ConstraintViolated`. `place_order`'s `!market.paused` account constraint reports `MarketPaused` in the model; Anchor raises it under its own constraint error code.
- The `remaining_accounts` layout check (`len % 3`) and `Order::try_deserialize`: the supplied orders are a `seq<Order>`.
- `settle_order`'s body check `batch_state.market == market` (`BatchMarketMismatch`): the account constraint `has_one = market` already enforces it, so it can never fail.
- Receipts: `OrderFill.order` holds the order's key in the source. The model records the order's id. The receipt account is derived from the order, so the `fill` argument of `Settlement.SettleOrder` stands for the order's own receipt as it currently is.
- Clearing.ClearBatch: the casts `as u64` of the traded totals into the batch record (lib.rs:605-606) are not modelled. The model stores the untruncated values, which equal the budget fields.
- Settlement.SettleOrder: the casts `as u64` of the transferred amounts (lib.rs:763, 777, 792, 806, 839, 855) are not modelled. The `Payout` carries the untruncated amounts.
- Settlement.SettleOrder: the casts `as u64` of the receipt amounts (lib.rs:866-869) are not modelled. The receipt holds the untruncated values.
- Slot arithmetic: `last_batch_slot + batch_duration_slots` and `+ min_slots_between_clears` are unbounded sums. In the source each is an unchecked u64 addition: a panic on overflow when overflow checks are on, a wrap otherwise.
- Discovery.CheckedVolumes: the source sums the bid and ask volumes in one pass and fails on whichever overflows first. The model returns the same single error (`MathOverflow`), so the order within the pass is not observable.
- Matching.MatchFrom: two branches are not modelled as separate outcomes: the source's `checked_sub` on the remaining amounts, and its `trade_base == 0` break after `min`. Neither can happen once the cursors skip empty orders, and the model proves the invariant instead.
- Lifecycle.CancelOrder: the per-user and per-batch accumulators are not released on cancellation. The source does not release them either.
- Concurrency: instructions are atomic transactions, so the model treats them as a sequence of pure transitions.
