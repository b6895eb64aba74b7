/** Scaled-integer arithmetic: every money value is an integer with a 1e6
    scale, products are taken in 128 bits and divisions floor. */
module FixedPoint {
  import opened Types

  /** Quote value of `amount` base at `price`: floor(amount * price / 1e6). */
  function Notional(amount: nat, price: nat): nat {
    amount * price / PRICE_SCALE
  }

  /** Most base a bid holding `deposit` quote can pay for at `price`:
      floor(deposit * 1e6 / max(price, 1)). */
  function Affordable(deposit: nat, price: nat): nat {
    deposit * PRICE_SCALE / Max(price, 1)
  }

  /** `x as u64`: keeps the low 64 bits. */
  function TruncU64(x: nat): (r: u64)
    ensures x <= U64_MAX ==> r == x
    ensures r < x ==> x > U64_MAX
  {
    x % TWO_POW_64
  }

  /** Basis-point share of a quote amount: floor(x * bps / 1e4). */
  function BpsOf(x: nat, bps: nat): nat {
    x * bps / BPS_DENOM
  }

  lemma MulLeft(a: nat, b: nat, c: nat)
    requires b <= c
    ensures a * b <= a * c
  {}

  lemma DivMonotone(x: nat, y: nat, d: nat)
    requires d > 0 && x <= y
    ensures x / d <= y / d
  {
    if x / d > y / d {
      MulLeft(d, y / d + 1, x / d);
      assert false;
    }
  }

  /** A quotient is at most `k` when the dividend is below (k + 1) * d. */
  /** `BpsOf` is the floor of the share: the largest amount whose value in
      basis points does not exceed `x * bps`, and at most `x` for a share of
      at most 100%. */
  lemma BpsOfIsFloor(x: nat, bps: nat)
    ensures BpsOf(x, bps) * BPS_DENOM <= x * bps < (BpsOf(x, bps) + 1) * BPS_DENOM
    ensures bps <= BPS_DENOM ==> BpsOf(x, bps) <= x
  {
    var q := x * bps;
    assert q == (q / BPS_DENOM) * BPS_DENOM + q % BPS_DENOM;
    if bps <= BPS_DENOM {
      MulLeft(x, bps, BPS_DENOM);
      DivBelow(q, BPS_DENOM, x);
    }
  }

  lemma DivBelow(x: nat, d: nat, k: nat)
    requires d > 0 && x < (k + 1) * d
    ensures x / d <= k
  {
    if x / d > k {
      MulLeft(d, k + 1, x / d);
      assert false;
    }
  }

  /** Two 64-bit factors never overflow a 128-bit product. */
  lemma ProductFitsU128(a: u64, b: u64)
    ensures a * b <= U128_MAX
  {
    MulLeft(a, b, U64_MAX);
    MulLeft(U64_MAX, a, U64_MAX);
  }

  /** The quote value of a 64-bit amount at a 64-bit price fits 128 bits. */
  lemma NotionalFitsU128(amount: u64, price: u64)
    ensures Notional(amount, price) <= U128_MAX
  {
    ProductFitsU128(amount, price);
  }

  /** The quote value of a fixed amount is monotone in the price. */
  lemma {:induction false} NotionalMonotone(amount: nat, p: nat, q: nat)
    requires p <= q
    ensures Notional(amount, p) <= Notional(amount, q)
  {
    MulLeft(amount, p, q);
    DivMonotone(amount * p, amount * q, PRICE_SCALE);
  }

  /** The quote value is monotone in the amount. */
  lemma {:induction false} NotionalMonotoneInAmount(a: nat, b: nat, price: nat)
    requires a <= b
    ensures Notional(a, price) <= Notional(b, price)
  {
    MulLeft(price, a, b);
    DivMonotone(a * price, b * price, PRICE_SCALE);
  }

  /** Flooring each part loses at least as much as flooring the sum. */
  lemma FloorSum(a: nat, b: nat)
    ensures a / PRICE_SCALE + b / PRICE_SCALE <= (a + b) / PRICE_SCALE
  {
    var q1 := a / PRICE_SCALE;
    var q2 := b / PRICE_SCALE;
    assert (q1 + q2) * PRICE_SCALE <= a + b;
    DivMonotone((q1 + q2) * PRICE_SCALE, a + b, PRICE_SCALE);
  }

  /** Pricing two amounts separately is worth at most pricing them together. */
  lemma NotionalSuperadditive(s: nat, t: nat, p: nat)
    ensures Notional(s, p) + Notional(t, p) <= Notional(s + t, p)
  {
    assert (s + t) * p == s * p + t * p;
    FloorSum(s * p, t * p);
  }

  /** Paying for an affordable amount never costs more than the deposit. */
  lemma {:induction false} AffordableIsAffordable(deposit: nat, price: nat, base: nat)
    requires price > 0
    requires base <= Affordable(deposit, price)
    ensures Notional(base, price) <= deposit
  {
    var k := Affordable(deposit, price);
    assert k == deposit * PRICE_SCALE / price;
    assert k * price <= deposit * PRICE_SCALE;
    MulLeft(price, base, k);
    assert base * price <= deposit * PRICE_SCALE;
    assert (base * price) / PRICE_SCALE <= (deposit * PRICE_SCALE) / PRICE_SCALE by {
      DivMonotone(base * price, deposit * PRICE_SCALE, PRICE_SCALE);
    }
  }
}
