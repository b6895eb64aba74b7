/** Batch membership and clearing-price discovery (first half of
    `clear_batch`): the eligibility filter over the caller-supplied orders,
    the distinct candidate prices in first-encounter order, the crossed
    volumes at a price with their 128-bit overflow checks, and the fold that
    picks the price maximising min(bid volume, ask volume). */
module Discovery {
  import opened Types

  /** In-memory copy of an eligible order used while clearing.
      `accountIndex` is the order's position in the supplied sequence. */
  datatype TempOrder = TempOrder(
    accountIndex: nat,
    side: Side,
    limitPrice: u64,
    originalBase: u64,
    quoteDeposit: u64)

  /** A supplied order takes part in the clearing of batch `batchId` of
      market `market`. */
  predicate Eligible(o: Order, market: Pubkey, batchId: nat) {
    o.market == market && o.batchId == batchId && o.amountBase != 0 && !o.cancelled
  }

  function ToTemp(o: Order, index: nat): TempOrder {
    TempOrder(index, o.side, o.limitPrice, o.amountBase, o.quoteDeposit)
  }

  // ---------------------------------------------------------------------
  // Eligibility filter
  // ---------------------------------------------------------------------

  /** The eligible orders among `orders[i..]`, in supplied order. */
  function CollectFrom(orders: seq<Order>, market: Pubkey, batchId: nat, i: nat): seq<TempOrder>
    requires i <= |orders|
    decreases |orders| - i
  {
    if i == |orders| then []
    else if Eligible(orders[i], market, batchId) then
      [ToTemp(orders[i], i)] + CollectFrom(orders, market, batchId, i + 1)
    else CollectFrom(orders, market, batchId, i + 1)
  }

  /** Every collected entry copies an eligible supplied order at or after `i`. */
  predicate FromSupplied(ts: seq<TempOrder>, orders: seq<Order>, market: Pubkey, batchId: nat, i: nat) {
    forall k | 0 <= k < |ts| ::
      && i <= ts[k].accountIndex < |orders|
      && Eligible(orders[ts[k].accountIndex], market, batchId)
      && ts[k] == ToTemp(orders[ts[k].accountIndex], ts[k].accountIndex)
  }

  /** Collected entries keep the supplied order. */
  predicate InSuppliedOrder(ts: seq<TempOrder>) {
    forall k, l | 0 <= k < l < |ts| :: ts[k].accountIndex < ts[l].accountIndex
  }

  /** Every eligible supplied order at or after `i` was collected. */
  predicate CoversEligible(ts: seq<TempOrder>, orders: seq<Order>, market: Pubkey, batchId: nat, i: nat) {
    forall j | i <= j < |orders| && Eligible(orders[j], market, batchId) ::
      exists k :: 0 <= k < |ts| && ts[k].accountIndex == j
  }

  lemma {:induction false} CollectFromSound(orders: seq<Order>, market: Pubkey, batchId: nat, i: nat)
    requires i <= |orders|
    decreases |orders| - i
    ensures FromSupplied(CollectFrom(orders, market, batchId, i), orders, market, batchId, i)
  {
    if i < |orders| {
      CollectFromSound(orders, market, batchId, i + 1);
    }
  }

  lemma {:induction false} CollectFromOrdered(orders: seq<Order>, market: Pubkey, batchId: nat, i: nat)
    requires i <= |orders|
    decreases |orders| - i
    ensures InSuppliedOrder(CollectFrom(orders, market, batchId, i))
  {
    if i < |orders| {
      CollectFromOrdered(orders, market, batchId, i + 1);
      CollectFromSound(orders, market, batchId, i + 1);
      var rest := CollectFrom(orders, market, batchId, i + 1);
      if Eligible(orders[i], market, batchId) {
        var ts := [ToTemp(orders[i], i)] + rest;
        forall k, l | 0 <= k < l < |ts|
          ensures ts[k].accountIndex < ts[l].accountIndex
        {
          assert ts[l] == rest[l - 1];
          if k > 0 {
            assert ts[k] == rest[k - 1];
          }
        }
      }
    }
  }

  lemma {:induction false} CollectFromComplete(orders: seq<Order>, market: Pubkey, batchId: nat, i: nat)
    requires i <= |orders|
    decreases |orders| - i
    ensures CoversEligible(CollectFrom(orders, market, batchId, i), orders, market, batchId, i)
  {
    if i < |orders| {
      CollectFromComplete(orders, market, batchId, i + 1);
      var rest := CollectFrom(orders, market, batchId, i + 1);
      var ts := CollectFrom(orders, market, batchId, i);
      forall j | i <= j < |orders| && Eligible(orders[j], market, batchId)
        ensures exists k :: 0 <= k < |ts| && ts[k].accountIndex == j
      {
        if Eligible(orders[i], market, batchId) {
          assert ts == [ToTemp(orders[i], i)] + rest;
          if j == i {
            assert ts[0].accountIndex == j;
          } else {
            var k' :| 0 <= k' < |rest| && rest[k'].accountIndex == j;
            assert ts[k' + 1].accountIndex == j;
          }
        } else {
          assert ts == rest;
        }
      }
    }
  }

  /** The orders of the batch being cleared: exactly the eligible supplied
      orders, each once, in supplied order. */
  function CollectEligible(orders: seq<Order>, market: Pubkey, batchId: nat): (ts: seq<TempOrder>)
    ensures FromSupplied(ts, orders, market, batchId, 0)
    ensures InSuppliedOrder(ts)
    ensures CoversEligible(ts, orders, market, batchId, 0)
    ensures |ts| == 0 <==> forall j | 0 <= j < |orders| :: !Eligible(orders[j], market, batchId)
  {
    CollectFromSound(orders, market, batchId, 0);
    CollectFromOrdered(orders, market, batchId, 0);
    CollectFromComplete(orders, market, batchId, 0);
    var ts := CollectFrom(orders, market, batchId, 0);
    assert |ts| > 0 ==> Eligible(orders[ts[0].accountIndex], market, batchId);
    ts
  }

  // ---------------------------------------------------------------------
  // Candidate prices
  // ---------------------------------------------------------------------

  /** Position of the first order limited at `p` (|ts| when there is none). */
  function FirstIndex(ts: seq<TempOrder>, p: nat): (k: nat)
    ensures k <= |ts|
    ensures k < |ts| ==> ts[k].limitPrice == p
    ensures forall j | 0 <= j < k :: ts[j].limitPrice != p
    ensures k == |ts| ==> forall j | 0 <= j < |ts| :: ts[j].limitPrice != p
  {
    if |ts| == 0 then 0
    else if ts[0].limitPrice == p then 0
    else
      var k := 1 + FirstIndex(ts[1..], p);
      assert forall j | 1 <= j < k :: ts[j] == ts[1..][j - 1];
      k
  }

  predicate NoDuplicates(s: seq<nat>) {
    forall a, b | 0 <= a < b < |s| :: s[a] != s[b]
  }

  /** Extends `acc` with the limit prices of `ts[i..]` not seen before. */
  function CandidatesFrom(ts: seq<TempOrder>, i: nat, acc: seq<nat>): seq<nat>
    requires i <= |ts|
    decreases |ts| - i
  {
    if i == |ts| then acc
    else if ts[i].limitPrice in acc then CandidatesFrom(ts, i + 1, acc)
    else CandidatesFrom(ts, i + 1, acc + [ts[i].limitPrice])
  }

  /** Prices of `cs` are listed in the order of their first occurrence in `ts`. */
  predicate InFirstEncounterOrder(ts: seq<TempOrder>, cs: seq<nat>) {
    forall a, b | 0 <= a < b < |cs| :: FirstIndex(ts, cs[a]) < FirstIndex(ts, cs[b])
  }

  /** `p` is the limit price of some order in `ts[i..]`. */
  predicate LimitOccurs(ts: seq<TempOrder>, i: nat, p: nat) {
    exists j :: i <= j < |ts| && ts[j].limitPrice == p
  }

  lemma {:induction false} CandidatesFromDistinct(ts: seq<TempOrder>, i: nat, acc: seq<nat>)
    requires i <= |ts|
    requires NoDuplicates(acc)
    decreases |ts| - i
    ensures NoDuplicates(CandidatesFrom(ts, i, acc))
  {
    if i < |ts| {
      var p := ts[i].limitPrice;
      if p in acc {
        CandidatesFromDistinct(ts, i + 1, acc);
      } else {
        var acc' := acc + [p];
        forall a, b | 0 <= a < b < |acc'|
          ensures acc'[a] != acc'[b]
        {
          if b == |acc| {
            assert acc'[a] == acc[a];
          }
        }
        CandidatesFromDistinct(ts, i + 1, acc');
      }
    }
  }

  lemma {:induction false} CandidatesFromMembers(ts: seq<TempOrder>, i: nat, acc: seq<nat>)
    requires i <= |ts|
    decreases |ts| - i
    ensures forall p :: p in CandidatesFrom(ts, i, acc) <==> p in acc || LimitOccurs(ts, i, p)
  {
    if i < |ts| {
      var q := ts[i].limitPrice;
      var acc' := if q in acc then acc else acc + [q];
      CandidatesFromMembers(ts, i + 1, acc');
      forall p
        ensures p in CandidatesFrom(ts, i, acc) <==> p in acc || LimitOccurs(ts, i, p)
      {
        if LimitOccurs(ts, i, p) && !LimitOccurs(ts, i + 1, p) {
          var j :| i <= j < |ts| && ts[j].limitPrice == p;
          assert j == i;
        }
        if LimitOccurs(ts, i + 1, p) {
          var j :| i + 1 <= j < |ts| && ts[j].limitPrice == p;
          assert LimitOccurs(ts, i, p);
        }
        if p == q {
          assert LimitOccurs(ts, i, p);
        }
      }
    }
  }

  lemma {:induction false} CandidatesFromOrdered(ts: seq<TempOrder>, i: nat, acc: seq<nat>)
    requires i <= |ts|
    requires forall p | p in acc :: FirstIndex(ts, p) < i
    requires forall j | 0 <= j < i :: ts[j].limitPrice in acc
    requires InFirstEncounterOrder(ts, acc)
    decreases |ts| - i
    ensures InFirstEncounterOrder(ts, CandidatesFrom(ts, i, acc))
  {
    if i < |ts| {
      var p := ts[i].limitPrice;
      if p in acc {
        CandidatesFromOrdered(ts, i + 1, acc);
      } else {
        var acc' := acc + [p];
        assert FirstIndex(ts, p) == i;
        forall a, b | 0 <= a < b < |acc'|
          ensures FirstIndex(ts, acc'[a]) < FirstIndex(ts, acc'[b])
        {
          assert acc'[a] == acc[a];
          if b < |acc| {
            assert acc'[b] == acc[b];
          } else {
            assert acc[a] in acc;
          }
        }
        forall q | q in acc'
          ensures FirstIndex(ts, q) < i + 1
        {
          if q != p {
            assert q in acc;
          }
        }
        CandidatesFromOrdered(ts, i + 1, acc');
      }
    }
  }

  /** The distinct limit prices of `ts`, each listed where it first occurs. */
  function Candidates(ts: seq<TempOrder>): (cs: seq<nat>)
    ensures NoDuplicates(cs)
    ensures forall p :: p in cs <==> LimitOccurs(ts, 0, p)
    ensures InFirstEncounterOrder(ts, cs)
  {
    CandidatesFromDistinct(ts, 0, []);
    CandidatesFromMembers(ts, 0, []);
    CandidatesFromOrdered(ts, 0, []);
    CandidatesFrom(ts, 0, [])
  }

  // ---------------------------------------------------------------------
  // Volumes
  // ---------------------------------------------------------------------

  /** Base amount that `o` contributes to the `side` volume at `p`. */
  function Contribution(o: TempOrder, side: Side, p: nat): nat {
    if o.side == side && Crosses(side, o.limitPrice, p) then o.originalBase else 0
  }

  /** Total original base of the `side` orders that cross at `p`. */
  function Volume(ts: seq<TempOrder>, side: Side, p: nat): nat {
    if |ts| == 0 then 0 else Contribution(ts[0], side, p) + Volume(ts[1..], side, p)
  }

  /** Volume that can trade at `p`: min(bid volume, ask volume). */
  function Traded(ts: seq<TempOrder>, p: nat): nat {
    Min(Volume(ts, Bid, p), Volume(ts, Ask, p))
  }

  /** Both volumes at `p` fit the 128-bit accumulators. */
  predicate VolumesFit(ts: seq<TempOrder>, p: nat) {
    Volume(ts, Bid, p) <= U128_MAX && Volume(ts, Ask, p) <= U128_MAX
  }

  /** The single pass over the orders that sums both volumes at `p` with
      checked 128-bit additions, failing on the first addition that overflows. */
  function CheckedVolumes(ts: seq<TempOrder>, p: nat, bidAcc: u128, askAcc: u128): (r: Result<(u128, u128)>)
    ensures r.Ok? <==> bidAcc + Volume(ts, Bid, p) <= U128_MAX && askAcc + Volume(ts, Ask, p) <= U128_MAX
    ensures r.Ok? ==> r.value == (bidAcc + Volume(ts, Bid, p), askAcc + Volume(ts, Ask, p))
    ensures r.Err? ==> r.error == MathOverflow
  {
    if |ts| == 0 then Ok((bidAcc, askAcc))
    else
      var o := ts[0];
      match o.side
      case Bid =>
        if o.limitPrice >= p then
          if bidAcc + o.originalBase > U128_MAX then Err(MathOverflow)
          else CheckedVolumes(ts[1..], p, bidAcc + o.originalBase, askAcc)
        else CheckedVolumes(ts[1..], p, bidAcc, askAcc)
      case Ask =>
        if o.limitPrice <= p then
          if askAcc + o.originalBase > U128_MAX then Err(MathOverflow)
          else CheckedVolumes(ts[1..], p, bidAcc, askAcc + o.originalBase)
        else CheckedVolumes(ts[1..], p, bidAcc, askAcc)
  }

  // ---------------------------------------------------------------------
  // Price discovery
  // ---------------------------------------------------------------------

  /** Best candidate so far and its traded volume. */
  datatype Choice = Choice(price: nat, traded: nat)

  /** The fold over `cs[i..]` keeping the candidate with strictly greatest
      traded volume (so the earliest one on ties). */
  function Discover(ts: seq<TempOrder>, cs: seq<nat>, i: nat, best: Choice): (r: Result<Choice>)
    requires i <= |cs|
    decreases |cs| - i
    ensures r.Ok? <==> forall k | i <= k < |cs| :: VolumesFit(ts, cs[k])
    ensures r.Err? ==> r.error == MathOverflow
    ensures r.Ok? ==> best.traded <= r.value.traded
    ensures r.Ok? ==> forall k | i <= k < |cs| :: Traded(ts, cs[k]) <= r.value.traded
    ensures r.Ok? ==> r.value == best || exists k :: WinsAt(ts, cs, i, best, r.value, k)
  {
    if i == |cs| then Ok(best)
    else
      var p := cs[i];
      var vols :- CheckedVolumes(ts, p, 0, 0);
      var traded := Min(vols.0, vols.1);
      var best' := if traded > best.traded then Choice(p, traded) else best;
      var r := Discover(ts, cs, i + 1, best');
      if r.Ok? && r.value != best && r.value == best' then
        assert WinsAt(ts, cs, i, best, r.value, i);
        r
      else if r.Ok? && r.value != best && r.value != best' then
        var k :| WinsAt(ts, cs, i + 1, best', r.value, k);
        assert WinsAt(ts, cs, i, best, r.value, k);
        r
      else r
  }

  /** `winner` was taken at candidate `k` of `cs[i..]`: it is that candidate
      with its traded volume, which beats the starting best and every
      candidate before it. */
  predicate WinsAt(ts: seq<TempOrder>, cs: seq<nat>, i: nat, best: Choice, winner: Choice, k: nat) {
    && i <= k < |cs|
    && winner == Choice(cs[k], Traded(ts, cs[k]))
    && winner.traded > best.traded
    && forall j | i <= j < k :: Traded(ts, cs[j]) < winner.traded
  }

  /** The clearing-price search over the eligible orders: fails only when a
      volume overflows 128 bits; otherwise returns the earliest candidate of
      greatest traded volume, or price 0 with volume 0 when nothing crosses. */
  function FindClearingPrice(ts: seq<TempOrder>): (r: Result<Choice>)
    ensures var cs := Candidates(ts);
            r.Ok? <==> forall k | 0 <= k < |cs| :: VolumesFit(ts, cs[k])
    ensures r.Err? ==> r.error == MathOverflow
    ensures r.Ok? ==> forall j | 0 <= j < |ts| :: Traded(ts, ts[j].limitPrice) <= r.value.traded
    ensures r.Ok? && r.value.traded == 0 ==> r.value.price == 0
    ensures r.Ok? && r.value.traded > 0 ==>
              && Traded(ts, r.value.price) == r.value.traded
              && (exists j :: 0 <= j < |ts| && ts[j].limitPrice == r.value.price)
              && forall j | 0 <= j < FirstIndex(ts, r.value.price) :: Traded(ts, ts[j].limitPrice) < r.value.traded
  {
    var cs := Candidates(ts);
    var r := Discover(ts, cs, 0, Choice(0, 0));
    if r.Ok? then
      CandidatesCovered(ts, cs, r.value);
      if r.value.traded > 0 then
        WinnerIsEarliest(ts, r.value);
        r
      else r
    else r
  }

  /** A winning candidate is an order's limit price, and every order listed
      before that price's first occurrence trades strictly less. */
  lemma WinnerIsEarliest(ts: seq<TempOrder>, c: Choice)
    requires exists k :: WinsAt(ts, Candidates(ts), 0, Choice(0, 0), c, k)
    ensures Traded(ts, c.price) == c.traded
    ensures exists j :: 0 <= j < |ts| && ts[j].limitPrice == c.price
    ensures forall j | 0 <= j < FirstIndex(ts, c.price) :: Traded(ts, ts[j].limitPrice) < c.traded
  {
    var cs := Candidates(ts);
    var k :| WinsAt(ts, cs, 0, Choice(0, 0), c, k);
    EarlierCandidatesLose(ts, cs, c, k);
  }

  lemma CandidatesCovered(ts: seq<TempOrder>, cs: seq<nat>, c: Choice)
    requires cs == Candidates(ts)
    requires forall k | 0 <= k < |cs| :: Traded(ts, cs[k]) <= c.traded
    ensures forall j | 0 <= j < |ts| :: Traded(ts, ts[j].limitPrice) <= c.traded
  {
    forall j | 0 <= j < |ts|
      ensures Traded(ts, ts[j].limitPrice) <= c.traded
    {
      var p := ts[j].limitPrice;
      assert p in cs;
      var k :| 0 <= k < |cs| && cs[k] == p;
    }
  }

  lemma EarlierCandidatesLose(ts: seq<TempOrder>, cs: seq<nat>, c: Choice, k: nat)
    requires cs == Candidates(ts)
    requires WinsAt(ts, cs, 0, Choice(0, 0), c, k)
    ensures Traded(ts, c.price) == c.traded
    ensures exists j :: 0 <= j < |ts| && ts[j].limitPrice == c.price
    ensures forall j | 0 <= j < FirstIndex(ts, c.price) :: Traded(ts, ts[j].limitPrice) < c.traded
  {
    assert LimitOccurs(ts, 0, cs[k]) by {
      assert cs[k] in cs;
    }
    forall j | 0 <= j < FirstIndex(ts, c.price)
      ensures Traded(ts, ts[j].limitPrice) < c.traded
    {
      EarlierCandidateLoses(ts, cs, c, k, j);
    }
  }

  lemma EarlierCandidateLoses(ts: seq<TempOrder>, cs: seq<nat>, c: Choice, k: nat, j: nat)
    requires cs == Candidates(ts)
    requires WinsAt(ts, cs, 0, Choice(0, 0), c, k)
    requires j < FirstIndex(ts, c.price)
    ensures Traded(ts, ts[j].limitPrice) < c.traded
  {
    var q := ts[j].limitPrice;
    assert LimitOccurs(ts, 0, q);
    assert q in cs;
    var l :| 0 <= l < |cs| && cs[l] == q;
    var fq := FirstIndex(ts, q);
    assert fq <= j;
    var fk := FirstIndex(ts, cs[k]);
    assert j < fk;
    assert l < k by {
      assert InFirstEncounterOrder(ts, cs);
    }
  }
}
