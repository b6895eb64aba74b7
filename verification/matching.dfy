/** Order matching at the clearing price (second half of `clear_batch`):
    bid positions sorted by limit descending and ask positions by limit
    ascending, both stably, then a two-cursor walk that pairs the best
    remaining bid with the best remaining ask while both cross, each trade
    capped by what the bid's deposit can pay for at the price. */
module Matching {
  import opened Types
  import opened FixedPoint
  import opened Discovery

  // ---------------------------------------------------------------------
  // Side indices and their stable sort
  // ---------------------------------------------------------------------

  /** Every entry of `s` is a position of a `side` order of `ts`. */
  predicate OnSide(ts: seq<TempOrder>, s: seq<nat>, side: Side) {
    forall k | 0 <= k < |s| :: s[k] < |ts| && ts[s[k]].side == side
  }

  predicate StrictlyIncreasing(s: seq<nat>) {
    forall a, b | 0 <= a < b < |s| :: s[a] < s[b]
  }

  /** The positions in `ts[k..]` of the `side` orders, in increasing order. */
  function SideIndicesFrom(ts: seq<TempOrder>, side: Side, k: nat): seq<nat>
    requires k <= |ts|
    decreases |ts| - k
  {
    if k == |ts| then []
    else if ts[k].side == side then [k] + SideIndicesFrom(ts, side, k + 1)
    else SideIndicesFrom(ts, side, k + 1)
  }

  lemma {:induction false} SideIndicesFromProps(ts: seq<TempOrder>, side: Side, k: nat)
    requires k <= |ts|
    decreases |ts| - k
    ensures OnSide(ts, SideIndicesFrom(ts, side, k), side)
    ensures StrictlyIncreasing(SideIndicesFrom(ts, side, k))
    ensures forall i :: i in SideIndicesFrom(ts, side, k) <==> k <= i < |ts| && ts[i].side == side
  {
    if k < |ts| {
      SideIndicesFromProps(ts, side, k + 1);
      var rest := SideIndicesFrom(ts, side, k + 1);
      if ts[k].side == side {
        var s := [k] + rest;
        forall a, b | 0 <= a < b < |s|
          ensures s[a] < s[b]
        {
          assert s[b] == rest[b - 1];
          if a > 0 {
            assert s[a] == rest[a - 1];
          } else {
            assert rest[b - 1] in rest;
          }
        }
      }
    }
  }

  /** Order `i` is matched no later than order `j`: a strictly better limit
      (higher for bids, lower for asks), or the same limit and an earlier
      position, which is what a stable sort of increasing positions keeps. */
  predicate Precedes(ts: seq<TempOrder>, side: Side, i: nat, j: nat) {
    && i < |ts| && j < |ts|
    && var x := ts[i].limitPrice;
       var y := ts[j].limitPrice;
       || (match side
           case Bid => x > y
           case Ask => x < y)
       || (x == y && i <= j)
  }

  predicate InRange(ts: seq<TempOrder>, s: seq<nat>) {
    forall k | 0 <= k < |s| :: s[k] < |ts|
  }

  /** `s` is in matching order for `side`. */
  predicate SortedFor(ts: seq<TempOrder>, side: Side, s: seq<nat>) {
    forall a, b | 0 <= a < b < |s| :: Precedes(ts, side, s[a], s[b])
  }

  /** `x` precedes every entry of `s`. */
  predicate PrecedesAll(ts: seq<TempOrder>, side: Side, x: nat, s: seq<nat>) {
    forall y | y in s :: Precedes(ts, side, x, y)
  }

  lemma PrecedesTransitive(ts: seq<TempOrder>, side: Side, i: nat, j: nat, k: nat)
    requires Precedes(ts, side, i, j) && Precedes(ts, side, j, k)
    ensures Precedes(ts, side, i, k)
  {
  }

  lemma {:induction false} SortedCons(ts: seq<TempOrder>, side: Side, x: nat, s: seq<nat>)
    requires SortedFor(ts, side, s) && PrecedesAll(ts, side, x, s)
    ensures SortedFor(ts, side, [x] + s)
  {
    var r := [x] + s;
    forall a, b | 0 <= a < b < |r|
      ensures Precedes(ts, side, r[a], r[b])
    {
      assert r[b] == s[b - 1];
      if a > 0 {
        assert r[a] == s[a - 1];
      } else {
        assert s[b - 1] in s;
      }
    }
  }

  lemma {:induction false} SortedHeadPrecedesTail(ts: seq<TempOrder>, side: Side, s: seq<nat>)
    requires |s| > 0 && SortedFor(ts, side, s)
    ensures PrecedesAll(ts, side, s[0], s[1..])
  {
    forall y | y in s[1..]
      ensures Precedes(ts, side, s[0], y)
    {
      var c :| 0 <= c < |s[1..]| && s[1..][c] == y;
      assert s[c + 1] == y;
    }
  }

  /** Inserts `x` before the first entry it precedes. */
  function Insert(ts: seq<TempOrder>, side: Side, x: nat, s: seq<nat>): (r: seq<nat>)
    ensures multiset(r) == multiset(s) + multiset{x}
  {
    if |s| == 0 then [x]
    else if Precedes(ts, side, x, s[0]) then [x] + s
    else
      assert s == [s[0]] + s[1..];
      [s[0]] + Insert(ts, side, x, s[1..])
  }

  lemma {:induction false} InsertSorted(ts: seq<TempOrder>, side: Side, x: nat, s: seq<nat>)
    requires x < |ts| && InRange(ts, s)
    requires SortedFor(ts, side, s)
    requires x !in s
    ensures SortedFor(ts, side, Insert(ts, side, x, s))
  {
    if |s| > 0 {
      SortedHeadPrecedesTail(ts, side, s);
      if Precedes(ts, side, x, s[0]) {
        forall y | y in s
          ensures Precedes(ts, side, x, y)
        {
          if y != s[0] {
            assert y in s[1..] by {
              assert s == [s[0]] + s[1..];
            }
            PrecedesTransitive(ts, side, x, s[0], y);
          }
        }
        SortedCons(ts, side, x, s);
      } else {
        assert s == [s[0]] + s[1..];
        InsertSorted(ts, side, x, s[1..]);
        var rest := Insert(ts, side, x, s[1..]);
        forall y | y in rest
          ensures Precedes(ts, side, s[0], y)
        {
          assert y in multiset(rest);
          if y != x {
            assert y in multiset(s[1..]);
          }
        }
        SortedCons(ts, side, s[0], rest);
      }
    }
  }

  /** Insertion sort into matching order. */
  function Sort(ts: seq<TempOrder>, side: Side, s: seq<nat>): (r: seq<nat>)
    ensures multiset(r) == multiset(s)
  {
    if |s| == 0 then []
    else
      assert s == [s[0]] + s[1..];
      Insert(ts, side, s[0], Sort(ts, side, s[1..]))
  }

  lemma MultisetInRange(ts: seq<TempOrder>, r: seq<nat>, s: seq<nat>)
    requires multiset(r) == multiset(s) && InRange(ts, s)
    ensures InRange(ts, r)
  {
    forall k | 0 <= k < |r|
      ensures r[k] < |ts|
    {
      assert r[k] in multiset(s);
    }
  }

  lemma {:induction false} SortSorted(ts: seq<TempOrder>, side: Side, s: seq<nat>)
    requires InRange(ts, s)
    requires StrictlyIncreasing(s)
    ensures SortedFor(ts, side, Sort(ts, side, s))
  {
    if |s| > 0 {
      SortSorted(ts, side, s[1..]);
      var rest := Sort(ts, side, s[1..]);
      assert s[0] !in s[1..] by {
        forall c | 0 <= c < |s[1..]|
          ensures s[1..][c] != s[0]
        {
          assert s[1..][c] == s[c + 1];
        }
      }
      assert s[0] !in multiset(rest);
      MultisetInRange(ts, rest, s[1..]);
      InsertSorted(ts, side, s[0], rest);
    }
  }

  /** The positions of the `side` orders of `ts` in the order the walk
      visits them: bids best (highest) limit first, asks lowest first, ties
      in supplied order. */
  function MatchingOrder(ts: seq<TempOrder>, side: Side): (r: seq<nat>)
    ensures multiset(r) == multiset(SideIndicesFrom(ts, side, 0))
    ensures OnSide(ts, r, side)
    ensures SortedFor(ts, side, r)
    ensures forall i :: i in r <==> 0 <= i < |ts| && ts[i].side == side
  {
    var s := SideIndicesFrom(ts, side, 0);
    SideIndicesFromProps(ts, side, 0);
    SortSorted(ts, side, s);
    var r := Sort(ts, side, s);
    MembersOfPermutation(r, s);
    r
  }

  lemma MembersOfPermutation(r: seq<nat>, s: seq<nat>)
    requires multiset(r) == multiset(s)
    ensures forall i :: i in r <==> i in s
    ensures forall k | 0 <= k < |r| :: r[k] in s
  {
    forall i
      ensures i in r <==> i in s
    {
      assert i in r <==> i in multiset(r);
      assert i in s <==> i in multiset(s);
    }
  }

  // ---------------------------------------------------------------------
  // Volumes still resting during the walk
  // ---------------------------------------------------------------------

  /** The starting remaining amounts: each order's full base amount. */
  function Originals(ts: seq<TempOrder>): (rem: seq<nat>)
    ensures |rem| == |ts|
    ensures forall i | 0 <= i < |ts| :: rem[i] == ts[i].originalBase
  {
    seq(|ts|, i requires 0 <= i < |ts| => ts[i].originalBase as nat)
  }

  /** The part of `amount` that counts towards the `side` volume at `p`. */
  function Counted(o: TempOrder, side: Side, p: nat, amount: nat): nat {
    if o.side == side && Crosses(side, o.limitPrice, p) then amount else 0
  }

  /** Remaining base of the `side` orders that cross at `p`. */
  function RemVolume(ts: seq<TempOrder>, rem: seq<nat>, side: Side, p: nat): nat
    requires |rem| == |ts|
  {
    if |ts| == 0 then 0
    else Counted(ts[0], side, p, rem[0]) + RemVolume(ts[1..], rem[1..], side, p)
  }

  lemma {:induction false} RemVolumeOfOriginals(ts: seq<TempOrder>, side: Side, p: nat)
    ensures RemVolume(ts, Originals(ts), side, p) == Volume(ts, side, p)
  {
    if |ts| > 0 {
      assert Originals(ts)[1..] == Originals(ts[1..]);
      RemVolumeOfOriginals(ts[1..], side, p);
    }
  }

  /** Changing one remaining amount changes the resting volume by the
      difference of what that order counts. */
  lemma {:induction false} RemVolumeUpdate(ts: seq<TempOrder>, rem: seq<nat>, i: nat, v: nat, side: Side, p: nat)
    requires |rem| == |ts| && i < |ts|
    ensures RemVolume(ts, rem[i := v], side, p) + Counted(ts[i], side, p, rem[i])
            == RemVolume(ts, rem, side, p) + Counted(ts[i], side, p, v)
  {
    if i == 0 {
      assert rem[i := v][1..] == rem[1..];
    } else {
      assert rem[i := v][1..] == rem[1..][i - 1 := v];
      RemVolumeUpdate(ts[1..], rem[1..], i - 1, v, side, p);
    }
  }

  // ---------------------------------------------------------------------
  // Trades and the walk state
  // ---------------------------------------------------------------------

  /** One fill between the bid at position `bid` and the ask at `ask`. */
  datatype Trade = Trade(bid: nat, ask: nat, base: nat, quote: nat)

  /** The walk's state: remaining base per position, the checked running
      totals, and the trades so far (the source keeps only the totals). */
  datatype Walk = Walk(rem: seq<nat>, totalBase: u128, totalQuote: u128, trades: seq<Trade>)

  /** A trade the walk may make at `p`: a crossing bid against a crossing
      ask, a positive size the bid's deposit can pay for, and a positive
      quote leg floor(base * p / 1e6). */
  predicate ValidTrade(ts: seq<TempOrder>, p: nat, t: Trade) {
    && t.bid < |ts| && t.ask < |ts|
    && ts[t.bid].side == Bid && ts[t.ask].side == Ask
    && ts[t.bid].limitPrice >= p && ts[t.ask].limitPrice <= p
    && 0 < t.base <= Affordable(ts[t.bid].quoteDeposit, p)
    && t.quote == Notional(t.base, p) && t.quote > 0
  }

  function SumBase(trades: seq<Trade>): nat {
    if |trades| == 0 then 0 else SumBase(trades[..|trades| - 1]) + trades[|trades| - 1].base
  }

  function SumQuote(trades: seq<Trade>): nat {
    if |trades| == 0 then 0 else SumQuote(trades[..|trades| - 1]) + trades[|trades| - 1].quote
  }

  /** Base traded so far by the order at position `i`. */
  function TradedBy(trades: seq<Trade>, i: nat): nat {
    if |trades| == 0 then 0
    else
      var t := trades[|trades| - 1];
      TradedBy(trades[..|trades| - 1], i) + (if t.bid == i || t.ask == i then t.base else 0)
  }

  /** What the walk keeps true: every trade is valid, the totals are the sums
      of the trades, every order's remaining plus traded base is its original
      amount, and the traded base plus the still resting crossed base is the
      crossed volume of each side. */
  predicate WalkInv(ts: seq<TempOrder>, p: nat, w: Walk) {
    && |w.rem| == |ts|
    && (forall k | 0 <= k < |w.trades| :: ValidTrade(ts, p, w.trades[k]))
    && w.totalBase == SumBase(w.trades)
    && w.totalQuote == SumQuote(w.trades)
    && (forall i | 0 <= i < |ts| :: w.rem[i] + TradedBy(w.trades, i) == ts[i].originalBase)
    && w.totalBase + RemVolume(ts, w.rem, Bid, p) == Volume(ts, Bid, p)
    && w.totalBase + RemVolume(ts, w.rem, Ask, p) == Volume(ts, Ask, p)
  }

  /** The walk before its first trade. */
  function StartWalk(ts: seq<TempOrder>): Walk {
    Walk(Originals(ts), 0, 0, [])
  }

  lemma StartWalkInv(ts: seq<TempOrder>, p: nat)
    ensures WalkInv(ts, p, StartWalk(ts))
  {
    RemVolumeOfOriginals(ts, Bid, p);
    RemVolumeOfOriginals(ts, Ask, p);
  }

  /** The walk after trading `t` base for `q` quote between `b` and `a`. */
  function Step(w: Walk, b: nat, a: nat, t: nat, q: nat): Walk
    requires b < |w.rem| && a < |w.rem| && t <= w.rem[b] && t <= w.rem[a]
    requires w.totalBase + t <= U128_MAX && w.totalQuote + q <= U128_MAX
  {
    Walk(w.rem[b := w.rem[b] - t][a := w.rem[a] - t], w.totalBase + t, w.totalQuote + q,
         w.trades + [Trade(b, a, t, q)])
  }

  /** A step appends a valid trade and keeps the totals the trades' sums. */
  lemma StepKeepsTrades(ts: seq<TempOrder>, p: nat, w: Walk, b: nat, a: nat, t: nat, q: nat)
    requires |w.rem| == |ts|
    requires forall k | 0 <= k < |w.trades| :: ValidTrade(ts, p, w.trades[k])
    requires w.totalBase == SumBase(w.trades) && w.totalQuote == SumQuote(w.trades)
    requires b < |ts| && a < |ts|
    requires t <= w.rem[b] && t <= w.rem[a]
    requires w.totalBase + t <= U128_MAX && w.totalQuote + q <= U128_MAX
    requires ValidTrade(ts, p, Trade(b, a, t, q))
    ensures var w' := Step(w, b, a, t, q);
            && (forall k | 0 <= k < |w'.trades| :: ValidTrade(ts, p, w'.trades[k]))
            && w'.totalBase == SumBase(w'.trades) && w'.totalQuote == SumQuote(w'.trades)
  {
    var w' := Step(w, b, a, t, q);
    assert w'.trades[..|w.trades|] == w.trades;
    forall k | 0 <= k < |w'.trades|
      ensures ValidTrade(ts, p, w'.trades[k])
    {
      if k < |w.trades| {
        assert w'.trades[k] == w.trades[k];
      }
    }
  }

  /** A step moves `t` base from both traders' remaining to their traded. */
  lemma StepKeepsTraded(ts: seq<TempOrder>, w: Walk, b: nat, a: nat, t: nat, q: nat)
    requires |w.rem| == |ts|
    requires forall i | 0 <= i < |ts| :: w.rem[i] + TradedBy(w.trades, i) == ts[i].originalBase
    requires b < |ts| && a < |ts| && b != a
    requires t <= w.rem[b] && t <= w.rem[a]
    requires w.totalBase + t <= U128_MAX && w.totalQuote + q <= U128_MAX
    ensures var w' := Step(w, b, a, t, q);
            forall i | 0 <= i < |ts| :: w'.rem[i] + TradedBy(w'.trades, i) == ts[i].originalBase
  {
    var w' := Step(w, b, a, t, q);
    assert w'.trades[..|w.trades|] == w.trades;
    forall i | 0 <= i < |ts|
      ensures w'.rem[i] + TradedBy(w'.trades, i) == ts[i].originalBase
    {
      assert TradedBy(w'.trades, i) == TradedBy(w.trades, i) + (if b == i || a == i then t else 0);
    }
  }

  /** A step takes `t` off the resting crossed volume of each side. */
  lemma {:induction false} StepKeepsVolumes(ts: seq<TempOrder>, p: nat, w: Walk, b: nat, a: nat, t: nat, q: nat)
    requires |w.rem| == |ts|
    requires w.totalBase + RemVolume(ts, w.rem, Bid, p) == Volume(ts, Bid, p)
    requires w.totalBase + RemVolume(ts, w.rem, Ask, p) == Volume(ts, Ask, p)
    requires b < |ts| && a < |ts|
    requires t <= w.rem[b] && t <= w.rem[a]
    requires w.totalBase + t <= U128_MAX && w.totalQuote + q <= U128_MAX
    requires ValidTrade(ts, p, Trade(b, a, t, q))
    ensures var w' := Step(w, b, a, t, q);
            && w'.totalBase + RemVolume(ts, w'.rem, Bid, p) == Volume(ts, Bid, p)
            && w'.totalBase + RemVolume(ts, w'.rem, Ask, p) == Volume(ts, Ask, p)
  {
    var mid := w.rem[b := w.rem[b] - t];
    assert Step(w, b, a, t, q).rem == mid[a := w.rem[a] - t];
    RemVolumeUpdate(ts, w.rem, b, w.rem[b] - t, Bid, p);
    RemVolumeUpdate(ts, mid, a, w.rem[a] - t, Bid, p);
    RemVolumeUpdate(ts, w.rem, b, w.rem[b] - t, Ask, p);
    RemVolumeUpdate(ts, mid, a, w.rem[a] - t, Ask, p);
  }

  lemma StepKeepsInv(ts: seq<TempOrder>, p: nat, w: Walk, b: nat, a: nat, t: nat, q: nat)
    requires WalkInv(ts, p, w)
    requires b < |ts| && a < |ts|
    requires t <= w.rem[b] && t <= w.rem[a]
    requires w.totalBase + t <= U128_MAX && w.totalQuote + q <= U128_MAX
    requires ValidTrade(ts, p, Trade(b, a, t, q))
    ensures WalkInv(ts, p, Step(w, b, a, t, q))
  {
    StepKeepsTrades(ts, p, w, b, a, t, q);
    StepKeepsTraded(ts, w, b, a, t, q);
    StepKeepsVolumes(ts, p, w, b, a, t, q);
  }

  // ---------------------------------------------------------------------
  // The two-cursor walk
  // ---------------------------------------------------------------------

  /** `bids` and `asks` hold positions of bids and asks of `ts`, and `rem`
      has one remaining amount per order. */
  predicate Sides(ts: seq<TempOrder>, bids: seq<nat>, asks: seq<nat>, rem: seq<nat>) {
    OnSide(ts, bids, Bid) && OnSide(ts, asks, Ask) && |rem| == |ts|
  }

  /** Cursors `bi` and `ai` lie within `bids` and `asks`. */
  predicate CursorsValid(ts: seq<TempOrder>, bids: seq<nat>, asks: seq<nat>, bi: nat, ai: nat, rem: seq<nat>) {
    Sides(ts, bids, asks, rem) && bi <= |bids| && ai <= |asks|
  }

  /** The resting pair `b`, `a` would trade a positive size whose quote leg
      floors to zero. */
  predicate ZeroQuotePair(ts: seq<TempOrder>, p: nat, rem: seq<nat>, b: nat, a: nat)
    requires |rem| == |ts| && b < |ts| && a < |ts|
  {
    var t := Min(Min(rem[b], rem[a]), Affordable(ts[b].quoteDeposit, p));
    t > 0 && Notional(t, p) == 0
  }

  /** The loop's exit condition at cursors `bi` and `ai`: a side is
      exhausted, the head pair no longer crosses, or the head pair's next
      trade would carry zero quote. */
  predicate Halted(ts: seq<TempOrder>, p: nat, bids: seq<nat>, asks: seq<nat>, bi: nat, ai: nat, rem: seq<nat>)
    requires Sides(ts, bids, asks, rem)
  {
    || bi >= |bids| || ai >= |asks|
    || ts[bids[bi]].limitPrice < p || ts[asks[ai]].limitPrice > p
    || ZeroQuotePair(ts, p, rem, bids[bi], asks[ai])
  }

  /** Every order the cursors pass from `bi` to `bi'` and from `ai` to
      `ai'` is used up: fully traded, or a bid that cannot pay for one unit. */
  predicate UsedUp(ts: seq<TempOrder>, p: nat, bids: seq<nat>, asks: seq<nat>,
                   bi: nat, bi': nat, ai: nat, ai': nat, rem: seq<nat>)
    requires CursorsValid(ts, bids, asks, bi', ai', rem)
  {
    && (forall k | bi <= k < bi' :: rem[bids[k]] == 0 || Affordable(ts[bids[k]].quoteDeposit, p) == 0)
    && (forall k | ai <= k < ai' :: rem[asks[k]] == 0)
  }

  /** From cursors `bi` and `ai` the walk reaches cursors where the loop
      exits, and every order it moves past on the way is used up. */
  predicate StopsFrom(ts: seq<TempOrder>, p: nat, bids: seq<nat>, asks: seq<nat>, bi: nat, ai: nat, rem: seq<nat>)
    requires Sides(ts, bids, asks, rem)
  {
    exists bi2, ai2 ::
      && bi <= bi2 <= |bids| && ai <= ai2 <= |asks|
      && Halted(ts, p, bids, asks, bi2, ai2, rem)
      && UsedUp(ts, p, bids, asks, bi, bi2, ai, ai2, rem)
  }

  /** The running totals fit 128 bits for any walk at `p`: the volume that
      can trade and its value at `p` do. */
  predicate WalkFits(ts: seq<TempOrder>, p: nat) {
    Traded(ts, p) <= U128_MAX && Notional(Traded(ts, p), p) <= U128_MAX
  }

  /** One pass of the matching loop from cursors `bi` (into `bids`) and
      `ai` (into `asks`): stops when either side is exhausted, the current
      pair no longer crosses, or a trade would move zero quote; skips filled
      orders and bids that cannot afford a single unit; otherwise trades
      min(remaining bid, remaining ask, affordable) and advances past the
      orders it fills. Fails only on a 128-bit total overflowing. */
  function MatchFrom(ts: seq<TempOrder>, p: nat, bids: seq<nat>, asks: seq<nat>,
                     bi: nat, ai: nat, w: Walk): (r: Result<Walk>)
    requires CursorsValid(ts, bids, asks, bi, ai, w.rem)
    decreases |bids| - bi + |asks| - ai, if bi < |bids| then w.rem[bids[bi]] else 0
    ensures r.Ok? ==> |r.value.rem| == |ts|
    ensures r.Ok? && WalkInv(ts, p, w) ==> WalkInv(ts, p, r.value)
    ensures r.Err? ==> r.error == MathOverflow
  {
    if bi == |bids| || ai == |asks| then Ok(w)
    else
      var b := bids[bi];
      var a := asks[ai];
      if ts[b].limitPrice < p || ts[a].limitPrice > p then Ok(w)
      else if w.rem[b] == 0 then MatchFrom(ts, p, bids, asks, bi + 1, ai, w)
      else if w.rem[a] == 0 then MatchFrom(ts, p, bids, asks, bi, ai + 1, w)
      else
        var t := Min(Min(w.rem[b], w.rem[a]), Affordable(ts[b].quoteDeposit, p));
        if t == 0 then MatchFrom(ts, p, bids, asks, bi + 1, ai, w)
        else
          var q := Notional(t, p);
          if q == 0 then Ok(w)
          else if w.totalBase + t > U128_MAX || w.totalQuote + q > U128_MAX then Err(MathOverflow)
          else
            var w' := Step(w, b, a, t, q);
            assert WalkInv(ts, p, w) ==> WalkInv(ts, p, w') by {
              if WalkInv(ts, p, w) {
                StepKeepsInv(ts, p, w, b, a, t, q);
              }
            }
            MatchFrom(ts, p, bids, asks,
                      if w'.rem[b] == 0 then bi + 1 else bi,
                      if w'.rem[a] == 0 then ai + 1 else ai, w')
  }

  /** The walk only lowers remaining amounts. */
  lemma {:induction false} MatchFromRemFalls(ts: seq<TempOrder>, p: nat, bids: seq<nat>, asks: seq<nat>,
                                             bi: nat, ai: nat, w: Walk)
    requires CursorsValid(ts, bids, asks, bi, ai, w.rem)
    requires MatchFrom(ts, p, bids, asks, bi, ai, w).Ok?
    decreases |bids| - bi + |asks| - ai, if bi < |bids| then w.rem[bids[bi]] else 0
    ensures var r := MatchFrom(ts, p, bids, asks, bi, ai, w).value;
            forall i | 0 <= i < |ts| :: r.rem[i] <= w.rem[i]
  {
    if bi < |bids| && ai < |asks| {
      var b := bids[bi];
      var a := asks[ai];
      var t := Min(Min(w.rem[b], w.rem[a]), Affordable(ts[b].quoteDeposit, p));
      if ts[b].limitPrice < p || ts[a].limitPrice > p {
      } else if w.rem[b] == 0 || (w.rem[a] > 0 && t == 0) {
        assert MatchFrom(ts, p, bids, asks, bi, ai, w) == MatchFrom(ts, p, bids, asks, bi + 1, ai, w);
        MatchFromRemFalls(ts, p, bids, asks, bi + 1, ai, w);
      } else if w.rem[a] == 0 {
        assert MatchFrom(ts, p, bids, asks, bi, ai, w) == MatchFrom(ts, p, bids, asks, bi, ai + 1, w);
        MatchFromRemFalls(ts, p, bids, asks, bi, ai + 1, w);
      } else if Notional(t, p) > 0 {
        var w' := Step(w, b, a, t, Notional(t, p));
        var bi' := if w'.rem[b] == 0 then bi + 1 else bi;
        var ai' := if w'.rem[a] == 0 then ai + 1 else ai;
        assert MatchFrom(ts, p, bids, asks, bi, ai, w) == MatchFrom(ts, p, bids, asks, bi', ai', w');
        MatchFromRemFalls(ts, p, bids, asks, bi', ai', w');
        assert forall i | 0 <= i < |ts| :: w'.rem[i] <= w.rem[i];
      }
    }
  }

  /** The walk ends at cursors where the loop exits, and every order the
      cursors moved past is used up. */
  lemma {:induction false} MatchFromStops(ts: seq<TempOrder>, p: nat, bids: seq<nat>, asks: seq<nat>,
                                          bi: nat, ai: nat, w: Walk)
    requires CursorsValid(ts, bids, asks, bi, ai, w.rem)
    requires MatchFrom(ts, p, bids, asks, bi, ai, w).Ok?
    decreases |bids| - bi + |asks| - ai, if bi < |bids| then w.rem[bids[bi]] else 0, 1
    ensures StopsFrom(ts, p, bids, asks, bi, ai, MatchFrom(ts, p, bids, asks, bi, ai, w).value.rem)
  {
    if bi == |bids| || ai == |asks| {
      HaltedStops(ts, p, bids, asks, bi, ai, w.rem);
    } else {
      var b := bids[bi];
      var a := asks[ai];
      var t := Min(Min(w.rem[b], w.rem[a]), Affordable(ts[b].quoteDeposit, p));
      if ts[b].limitPrice < p || ts[a].limitPrice > p || (w.rem[b] > 0 && w.rem[a] > 0 && t > 0 && Notional(t, p) == 0) {
        HaltedStops(ts, p, bids, asks, bi, ai, w.rem);
      } else if w.rem[b] == 0 || (w.rem[a] > 0 && t == 0) {
        assert MatchFrom(ts, p, bids, asks, bi, ai, w) == MatchFrom(ts, p, bids, asks, bi + 1, ai, w);
        MovedPastStops(ts, p, bids, asks, bi, ai, bi + 1, ai, w);
      } else if w.rem[a] == 0 {
        assert MatchFrom(ts, p, bids, asks, bi, ai, w) == MatchFrom(ts, p, bids, asks, bi, ai + 1, w);
        MovedPastStops(ts, p, bids, asks, bi, ai, bi, ai + 1, w);
      } else {
        StepStops(ts, p, bids, asks, bi, ai, w);
      }
    }
  }

  /** The step case of `MatchFromStops`: a trade that fills the head bid or
      the head ask moves the cursor past an order it has used up. */
  lemma {:induction false} StepStops(ts: seq<TempOrder>, p: nat, bids: seq<nat>, asks: seq<nat>,
                                     bi: nat, ai: nat, w: Walk)
    requires CursorsValid(ts, bids, asks, bi, ai, w.rem) && bi < |bids| && ai < |asks|
    requires ts[bids[bi]].limitPrice >= p && ts[asks[ai]].limitPrice <= p
    requires w.rem[bids[bi]] > 0 && w.rem[asks[ai]] > 0
    requires var t := Min(Min(w.rem[bids[bi]], w.rem[asks[ai]]), Affordable(ts[bids[bi]].quoteDeposit, p));
             t > 0 && Notional(t, p) > 0
    requires MatchFrom(ts, p, bids, asks, bi, ai, w).Ok?
    decreases |bids| - bi + |asks| - ai, w.rem[bids[bi]], 0
    ensures StopsFrom(ts, p, bids, asks, bi, ai, MatchFrom(ts, p, bids, asks, bi, ai, w).value.rem)
  {
    var b := bids[bi];
    var a := asks[ai];
    var t := Min(Min(w.rem[b], w.rem[a]), Affordable(ts[b].quoteDeposit, p));
    var w' := Step(w, b, a, t, Notional(t, p));
    var bi' := if w'.rem[b] == 0 then bi + 1 else bi;
    var ai' := if w'.rem[a] == 0 then ai + 1 else ai;
    assert MatchFrom(ts, p, bids, asks, bi, ai, w) == MatchFrom(ts, p, bids, asks, bi', ai', w');
    MovedPastStops(ts, p, bids, asks, bi, ai, bi', ai', w');
  }

  /** The walk continued from (`bi'`, `ai'`) with `w'` after moving past
      orders that `w'` has used up: its stop is also a stop from (`bi`, `ai`). */
  lemma {:induction false} MovedPastStops(ts: seq<TempOrder>, p: nat, bids: seq<nat>, asks: seq<nat>,
                                          bi: nat, ai: nat, bi': nat, ai': nat, w': Walk)
    requires CursorsValid(ts, bids, asks, bi', ai', w'.rem) && bi <= bi' && ai <= ai'
    requires MatchFrom(ts, p, bids, asks, bi', ai', w').Ok?
    requires UsedUp(ts, p, bids, asks, bi, bi', ai, ai', w'.rem)
    decreases |bids| - bi' + |asks| - ai', if bi' < |bids| then w'.rem[bids[bi']] else 0, 2
    ensures StopsFrom(ts, p, bids, asks, bi, ai, MatchFrom(ts, p, bids, asks, bi', ai', w').value.rem)
  {
    var r := MatchFrom(ts, p, bids, asks, bi', ai', w').value;
    MatchFromStops(ts, p, bids, asks, bi', ai', w');
    MatchFromRemFalls(ts, p, bids, asks, bi', ai', w');
    StopsBack(ts, p, bids, asks, bi, ai, bi', ai', w'.rem, r.rem);
  }

  lemma HaltedStops(ts: seq<TempOrder>, p: nat, bids: seq<nat>, asks: seq<nat>, bi: nat, ai: nat, rem: seq<nat>)
    requires CursorsValid(ts, bids, asks, bi, ai, rem)
    requires Halted(ts, p, bids, asks, bi, ai, rem)
    ensures StopsFrom(ts, p, bids, asks, bi, ai, rem)
  {
    assert UsedUp(ts, p, bids, asks, bi, bi, ai, ai, rem);
  }

  /** Moving the start back over orders used up in `rem0`, and so in the
      smaller `rem`, keeps the walk's stop. */
  lemma StopsBack(ts: seq<TempOrder>, p: nat, bids: seq<nat>, asks: seq<nat>,
                  bi: nat, ai: nat, bi': nat, ai': nat, rem0: seq<nat>, rem: seq<nat>)
    requires CursorsValid(ts, bids, asks, bi', ai', rem0) && bi <= bi' && ai <= ai'
    requires |rem| == |ts| && forall i | 0 <= i < |ts| :: rem[i] <= rem0[i]
    requires UsedUp(ts, p, bids, asks, bi, bi', ai, ai', rem0)
    requires StopsFrom(ts, p, bids, asks, bi', ai', rem)
    ensures StopsFrom(ts, p, bids, asks, bi, ai, rem)
  {
    var bi2, ai2 :| && bi' <= bi2 <= |bids| && ai' <= ai2 <= |asks|
                    && Halted(ts, p, bids, asks, bi2, ai2, rem)
                    && UsedUp(ts, p, bids, asks, bi', bi2, ai', ai2, rem);
    assert UsedUp(ts, p, bids, asks, bi, bi2, ai, ai2, rem);
  }

  /** What the overflow argument needs of a walk: traded plus resting
      crossed volume is each side's crossed volume, and the quote total is
      at most the value of the base total. */
  predicate Budgeted(ts: seq<TempOrder>, p: nat, w: Walk) {
    && |w.rem| == |ts|
    && w.totalBase + RemVolume(ts, w.rem, Bid, p) == Volume(ts, Bid, p)
    && w.totalBase + RemVolume(ts, w.rem, Ask, p) == Volume(ts, Ask, p)
    && w.totalQuote <= Notional(w.totalBase, p)
  }

  lemma StepKeepsBudgeted(ts: seq<TempOrder>, p: nat, w: Walk, b: nat, a: nat, t: nat, q: nat)
    requires Budgeted(ts, p, w)
    requires b < |ts| && a < |ts|
    requires t <= w.rem[b] && t <= w.rem[a]
    requires w.totalBase + t <= U128_MAX && w.totalQuote + q <= U128_MAX
    requires ValidTrade(ts, p, Trade(b, a, t, q))
    ensures Budgeted(ts, p, Step(w, b, a, t, q))
  {
    StepKeepsVolumes(ts, p, w, b, a, t, q);
    NotionalSuperadditive(w.totalBase, t, p);
  }

  /** The walk fails only when a total outgrows 128 bits: when the volume
      that can trade, or its value, does. */
  lemma {:induction false} MatchFromFits(ts: seq<TempOrder>, p: nat, bids: seq<nat>, asks: seq<nat>,
                                         bi: nat, ai: nat, w: Walk)
    requires CursorsValid(ts, bids, asks, bi, ai, w.rem)
    requires Budgeted(ts, p, w)
    requires WalkFits(ts, p)
    decreases |bids| - bi + |asks| - ai, if bi < |bids| then w.rem[bids[bi]] else 0
    ensures MatchFrom(ts, p, bids, asks, bi, ai, w).Ok?
  {
    if bi < |bids| && ai < |asks| {
      var b := bids[bi];
      var a := asks[ai];
      var t := Min(Min(w.rem[b], w.rem[a]), Affordable(ts[b].quoteDeposit, p));
      if ts[b].limitPrice < p || ts[a].limitPrice > p {
      } else if w.rem[b] == 0 || (w.rem[a] > 0 && t == 0) {
        assert MatchFrom(ts, p, bids, asks, bi, ai, w) == MatchFrom(ts, p, bids, asks, bi + 1, ai, w);
        MatchFromFits(ts, p, bids, asks, bi + 1, ai, w);
      } else if w.rem[a] == 0 {
        assert MatchFrom(ts, p, bids, asks, bi, ai, w) == MatchFrom(ts, p, bids, asks, bi, ai + 1, w);
        MatchFromFits(ts, p, bids, asks, bi, ai + 1, w);
      } else if Notional(t, p) > 0 {
        var q := Notional(t, p);
        TradeFits(ts, p, w, b, a, t);
        StepKeepsBudgeted(ts, p, w, b, a, t, q);
        var w' := Step(w, b, a, t, q);
        var bi' := if w'.rem[b] == 0 then bi + 1 else bi;
        var ai' := if w'.rem[a] == 0 then ai + 1 else ai;
        assert MatchFrom(ts, p, bids, asks, bi, ai, w) == MatchFrom(ts, p, bids, asks, bi', ai', w');
        MatchFromFits(ts, p, bids, asks, bi', ai', w');
      }
    }
  }

  /** A crossing order's remaining amount is part of its side's resting
      crossed volume. */
  lemma {:induction false} RemWithinRemVolume(ts: seq<TempOrder>, rem: seq<nat>, i: nat, side: Side, p: nat)
    requires |rem| == |ts| && i < |ts|
    requires ts[i].side == side && Crosses(side, ts[i].limitPrice, p)
    ensures rem[i] <= RemVolume(ts, rem, side, p)
  {
    if i > 0 {
      RemWithinRemVolume(ts[1..], rem[1..], i - 1, side, p);
    }
  }

  /** A trade of `t` between resting crossing orders keeps the totals
      within the volume that can trade and its value: when those fit 128
      bits, so do the new totals. */
  lemma TradeFits(ts: seq<TempOrder>, p: nat, w: Walk, b: nat, a: nat, t: nat)
    requires Budgeted(ts, p, w)
    requires b < |ts| && a < |ts|
    requires ts[b].side == Bid && ts[b].limitPrice >= p
    requires ts[a].side == Ask && ts[a].limitPrice <= p
    requires t <= w.rem[b] && t <= w.rem[a]
    requires WalkFits(ts, p)
    ensures w.totalBase + t <= U128_MAX && w.totalQuote + Notional(t, p) <= U128_MAX
  {
    RemWithinRemVolume(ts, w.rem, b, Bid, p);
    RemWithinRemVolume(ts, w.rem, a, Ask, p);
    assert w.totalBase + t <= Traded(ts, p);
    NotionalSuperadditive(w.totalBase, t, p);
    NotionalMonotoneInAmount(w.totalBase + t, Traded(ts, p), p);
  }

  /** Where the walk ends: every crossing bid that can pay for one unit is
      used up, or every crossing ask is, or a resting crossing pair's next
      trade would carry zero quote. */
  predicate WalkEnded(ts: seq<TempOrder>, p: nat, rem: seq<nat>)
    requires |rem| == |ts|
  {
    || (forall i | 0 <= i < |ts| && ts[i].side == Bid && ts[i].limitPrice >= p
                   && Affordable(ts[i].quoteDeposit, p) > 0 :: rem[i] == 0)
    || (forall i | 0 <= i < |ts| && ts[i].side == Ask && ts[i].limitPrice <= p :: rem[i] == 0)
    || (exists b, a | && 0 <= b < |ts| && 0 <= a < |ts|
                      && ts[b].side == Bid && ts[b].limitPrice >= p
                      && ts[a].side == Ask && ts[a].limitPrice <= p ::
          ZeroQuotePair(ts, p, rem, b, a))
  }

  /** The matching phase at clearing price `p`. */
  function MatchAt(ts: seq<TempOrder>, p: nat): (r: Result<Walk>)
    ensures r.Ok? ==> WalkInv(ts, p, r.value)
    // the walk does not stop early: one side is used up, or the quote leg
    // of the next trade floors to zero
    ensures r.Ok? ==> WalkEnded(ts, p, r.value.rem)
    ensures WalkFits(ts, p) ==> r.Ok?
    ensures r.Err? ==> r.error == MathOverflow
  {
    StartWalkInv(ts, p);
    var bids := MatchingOrder(ts, Bid);
    var asks := MatchingOrder(ts, Ask);
    var r := MatchFrom(ts, p, bids, asks, 0, 0, StartWalk(ts));
    assert WalkFits(ts, p) ==> r.Ok? by {
      if WalkFits(ts, p) {
        assert Budgeted(ts, p, StartWalk(ts));
        MatchFromFits(ts, p, bids, asks, 0, 0, StartWalk(ts));
      }
    }
    if r.Ok? then
      MatchFromStops(ts, p, bids, asks, 0, 0, StartWalk(ts));
      HaltIsWalkEnd(ts, p, bids, asks, r.value.rem);
      r
    else r
  }

  /** In matching order, every crossing order comes before any order that
      does not cross. */
  lemma CrossingComeFirst(ts: seq<TempOrder>, side: Side, s: seq<nat>, k0: nat, p: nat)
    requires OnSide(ts, s, side) && SortedFor(ts, side, s)
    requires k0 < |s| && !Crosses(side, ts[s[k0]].limitPrice, p)
    ensures forall k | 0 <= k < |s| && Crosses(side, ts[s[k]].limitPrice, p) :: k < k0
  {
    assert forall k | k0 < k < |s| :: Precedes(ts, side, s[k0], s[k]);
  }

  /** The loop left the bid side at `bi2` with every earlier bid used up:
      no crossing bid that can pay for a unit still rests. */
  lemma BidsEnded(ts: seq<TempOrder>, p: nat, bids: seq<nat>, bi2: nat, rem: seq<nat>)
    requires bids == MatchingOrder(ts, Bid) && |rem| == |ts| && bi2 <= |bids|
    requires bi2 == |bids| || ts[bids[bi2]].limitPrice < p
    requires forall k | 0 <= k < bi2 :: rem[bids[k]] == 0 || Affordable(ts[bids[k]].quoteDeposit, p) == 0
    ensures forall i | 0 <= i < |ts| && ts[i].side == Bid && ts[i].limitPrice >= p
                       && Affordable(ts[i].quoteDeposit, p) > 0 :: rem[i] == 0
  {
    if bi2 < |bids| {
      CrossingComeFirst(ts, Bid, bids, bi2, p);
    }
    forall i | 0 <= i < |ts| && ts[i].side == Bid && ts[i].limitPrice >= p
               && Affordable(ts[i].quoteDeposit, p) > 0
      ensures rem[i] == 0
    {
      var k :| 0 <= k < |bids| && bids[k] == i;
    }
  }

  /** The loop left the ask side at `ai2` with every earlier ask used up:
      no crossing ask still rests. */
  lemma AsksEnded(ts: seq<TempOrder>, p: nat, asks: seq<nat>, ai2: nat, rem: seq<nat>)
    requires asks == MatchingOrder(ts, Ask) && |rem| == |ts| && ai2 <= |asks|
    requires ai2 == |asks| || ts[asks[ai2]].limitPrice > p
    requires forall k | 0 <= k < ai2 :: rem[asks[k]] == 0
    ensures forall i | 0 <= i < |ts| && ts[i].side == Ask && ts[i].limitPrice <= p :: rem[i] == 0
  {
    if ai2 < |asks| {
      CrossingComeFirst(ts, Ask, asks, ai2, p);
    }
    forall i | 0 <= i < |ts| && ts[i].side == Ask && ts[i].limitPrice <= p
      ensures rem[i] == 0
    {
      var k :| 0 <= k < |asks| && asks[k] == i;
    }
  }

  /** With the cursors over all orders of each side in matching order, the
      loop's exit leaves one side used up or a zero-quote pair. */
  lemma HaltIsWalkEnd(ts: seq<TempOrder>, p: nat, bids: seq<nat>, asks: seq<nat>, rem: seq<nat>)
    requires bids == MatchingOrder(ts, Bid) && asks == MatchingOrder(ts, Ask)
    requires |rem| == |ts|
    requires StopsFrom(ts, p, bids, asks, 0, 0, rem)
    ensures WalkEnded(ts, p, rem)
  {
    var bi2, ai2 :| && 0 <= bi2 <= |bids| && 0 <= ai2 <= |asks|
                    && Halted(ts, p, bids, asks, bi2, ai2, rem)
                    && UsedUp(ts, p, bids, asks, 0, bi2, 0, ai2, rem);
    if bi2 < |bids| && ai2 < |asks| && ts[bids[bi2]].limitPrice >= p && ts[asks[ai2]].limitPrice <= p {
      assert ZeroQuotePair(ts, p, rem, bids[bi2], asks[ai2]);
    } else if bi2 == |bids| || ts[bids[bi2]].limitPrice < p {
      BidsEnded(ts, p, bids, bi2, rem);
    } else {
      AsksEnded(ts, p, asks, ai2, rem);
    }
  }

  /** The walk never trades more base than crosses on either side. */
  lemma TradedWithinVolumes(ts: seq<TempOrder>, p: nat, w: Walk)
    requires WalkInv(ts, p, w)
    ensures w.totalBase <= Volume(ts, Bid, p)
    ensures w.totalBase <= Volume(ts, Ask, p)
    ensures w.totalBase <= Traded(ts, p)
  {
  }

  /** Each trade's quote leg is floored separately, so the batch's quote
      total is at most the value of its base total at the clearing price:
      the settlement budget can hold less quote than one bid's gross. */
  lemma {:induction false} SumQuoteWithinValue(ts: seq<TempOrder>, p: nat, trades: seq<Trade>)
    requires forall k | 0 <= k < |trades| :: ValidTrade(ts, p, trades[k])
    ensures SumQuote(trades) <= Notional(SumBase(trades), p)
    decreases |trades|
  {
    if |trades| > 0 {
      var init := trades[..|trades| - 1];
      forall k | 0 <= k < |init|
        ensures ValidTrade(ts, p, init[k])
      {
        assert init[k] == trades[k];
      }
      SumQuoteWithinValue(ts, p, init);
      NotionalSuperadditive(SumBase(init), trades[|trades| - 1].base, p);
    }
  }

  lemma QuoteWithinValue(ts: seq<TempOrder>, p: nat, w: Walk)
    requires WalkInv(ts, p, w)
    ensures w.totalQuote <= Notional(w.totalBase, p)
  {
    SumQuoteWithinValue(ts, p, w.trades);
  }
}
