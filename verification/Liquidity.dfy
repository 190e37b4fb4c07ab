/** The arithmetic of joining and leaving a pool (x/ammswap/handler.go). Reserves are written
    `base`, `quote`, the supply of pool tokens `supply`. */
module Liquidity {
  import opened FixedPoint

  /** What the depositor must bring on the base side: in proportion, rounded down, but never nothing. */
  function BaseFor(precision: int, quoteIn: int, base: int, quote: int): int
    requires precision > 0 && quote > 0
  {
    var proportional := MulAndQuo(precision, quoteIn, base, quote);
    if proportional == 0 then 1 else proportional
  }

  function SharesFor(precision: int, quoteIn: int, supply: int, quote: int): int
    requires precision > 0 && quote > 0
  {
    MulAndQuo(precision, quoteIn, supply, quote)
  }

  /** What `shares` pool tokens are redeemed for on one side. */
  function Redeem(precision: int, reserve: int, shares: int, supply: int): int
    requires precision > 0 && supply > 0
  {
    MulAndQuo(precision, reserve, shares, supply)
  }

  /** The three inequalities that say how a deposit relates to the pool it joins. */
  lemma DepositBounds(precision: int, quoteIn: int, base: int, quote: int, supply: int)
    requires precision > 0 && quoteIn > 0 && base > 0 && quote > 0 && supply > 0
    ensures var b := BaseFor(precision, quoteIn, base, quote);
            var l := SharesFor(precision, quoteIn, supply, quote);
            && b >= 1 && l >= 0
            && l * quote <= quoteIn * supply
            && base * l < (b + 1) * supply
  {
    MulAndQuoIsFloor(precision, quoteIn, base, quote);
    MulAndQuoIsFloor(precision, quoteIn, supply, quote);
    MulLt(0, quoteIn, base);
    MulLt(0, quoteIn, supply);
    DivBounds(quoteIn * base, quote);
    DivBounds(quoteIn * supply, quote);
    var b := BaseFor(precision, quoteIn, base, quote);
    var l := SharesFor(precision, quoteIn, supply, quote);
    MulLe(quoteIn * base / quote + 1, b + 1, quote);
    assert quoteIn * base < (b + 1) * quote;
    CrossBound(quoteIn, base, quote, supply, b, l);
  }

  lemma CrossBound(q: int, base: int, quote: int, supply: int, b: int, l: int)
    requires base > 0 && quote > 0 && supply > 0
    requires l * quote <= q * supply
    requires q * base < (b + 1) * quote
    ensures base * l < (b + 1) * supply
  {
    MulLe(l * quote, q * supply, base);
    MulLt(q * base, (b + 1) * quote, supply);
    assert (base * l) * quote == (l * quote) * base;
    assert (q * supply) * base == (q * base) * supply;
    assert ((b + 1) * quote) * supply == ((b + 1) * supply) * quote;
    CancelLt(base * l, (b + 1) * supply, quote);
  }

  /** A deposit never dilutes the quote side of existing shares, and takes from all of them together
      less than one unit of the base side. */
  lemma AddDilution(precision: int, quoteIn: int, base: int, quote: int, supply: int)
    requires precision > 0 && quoteIn > 0 && base > 0 && quote > 0 && supply > 0
    ensures var b := BaseFor(precision, quoteIn, base, quote);
            var l := SharesFor(precision, quoteIn, supply, quote);
            && (quote + quoteIn) * supply >= quote * (supply + l)
            && (base + b) * supply > (base - 1) * (supply + l)
  {
    DepositBounds(precision, quoteIn, base, quote, supply);
    var b := BaseFor(precision, quoteIn, base, quote);
    var l := SharesFor(precision, quoteIn, supply, quote);
    DilutionFromBounds(quoteIn, base, quote, supply, b, l);
  }

  lemma DilutionFromBounds(q: int, base: int, quote: int, supply: int, b: int, l: int)
    requires l >= 0
    requires l * quote <= q * supply
    requires base * l < (b + 1) * supply
    ensures (quote + q) * supply >= quote * (supply + l)
    ensures (base + b) * supply > (base - 1) * (supply + l)
  {
    assert (quote + q) * supply == quote * supply + q * supply;
    assert quote * (supply + l) == quote * supply + l * quote;
    assert (base + b) * supply == base * supply + b * supply;
    assert (base - 1) * (supply + l) == base * supply + base * l - supply - l;
    assert (b + 1) * supply == b * supply + supply;
  }

  /** When a deposit costs earlier holders nothing on the base side either, said of its inputs: the base
      it must bring was rounded up to one unit, or rounding cost the depositor at least as much on the
      shares as it cost the pool on the base. */
  predicate BaseKept(quoteIn: int, base: int, quote: int, supply: int)
    requires quote > 0
  {
    || quoteIn * base < quote
    || supply * ((quoteIn * base) % quote) <= base * ((quoteIn * supply) % quote)
  }

  lemma AddKeepsBaseExactly(precision: int, quoteIn: int, base: int, quote: int, supply: int)
    requires precision > 0 && quoteIn > 0 && base > 0 && quote > 0 && supply > 0
    ensures var b := BaseFor(precision, quoteIn, base, quote);
            var l := SharesFor(precision, quoteIn, supply, quote);
            (base + b) * supply >= base * (supply + l) <==> BaseKept(quoteIn, base, quote, supply)
  {
    MulAndQuoIsFloor(precision, quoteIn, base, quote);
    MulAndQuoIsFloor(precision, quoteIn, supply, quote);
    MulLt(0, quoteIn, base);
    MulLt(0, quoteIn, supply);
    var b := BaseFor(precision, quoteIn, base, quote);
    var l := SharesFor(precision, quoteIn, supply, quote);
    PerShareIsCross(base, supply, b, l);
    if quoteIn * base < quote {
      FloorAtMost(quoteIn * base, quote, 0);
      DivBounds(quoteIn * base, quote);
      DivBounds(quoteIn * supply, quote);
      RoundedUpCovers(quoteIn, base, quote, supply, l);
    } else {
      FloorIsGreatest(quoteIn * base, quote, 1);
      RemaindersDecide(quoteIn * base, quoteIn * supply, quote, base, supply);
    }
  }

  lemma PerShareIsCross(base: int, supply: int, b: int, l: int)
    ensures (base + b) * supply >= base * (supply + l) <==> b * supply >= base * l
  {
  }

  lemma RoundedUpCovers(q: int, base: int, quote: int, supply: int, l: int)
    requires q * base < quote && base > 0 && quote > 0 && supply > 0 && l * quote <= q * supply
    ensures 1 * supply >= base * l
  {
    MulLe(l * quote, q * supply, base);
    MulLt(q * base, quote, supply);
    assert (base * l) * quote == (l * quote) * base;
    assert (q * supply) * base == (q * base) * supply;
    assert quote * supply == supply * quote;
    CancelLt(base * l, supply, quote);
  }

  /** Two quotients by the same divisor compare as their remainders do, the other way round, when the
      exact ones are in proportion. */
  lemma RemaindersDecide(m: int, n: int, quote: int, base: int, supply: int)
    requires quote > 0 && supply * m == base * n
    ensures (m / quote) * supply >= base * (n / quote) <==> supply * (m % quote) <= base * (n % quote)
  {
    var x, y := m / quote, n / quote;
    var r, s := m % quote, n % quote;
    assert m == x * quote + r && n == y * quote + s;
    assert supply * m == (x * supply) * quote + supply * r by { assert supply * (x * quote) == (x * supply) * quote; }
    assert base * n == (base * y) * quote + base * s by { assert base * (y * quote) == (base * y) * quote; }
    if x * supply >= base * y {
      MulLe(base * y, x * supply, quote);
    } else {
      MulLt(x * supply, base * y, quote);
    }
  }

  /** A deposit that does cost earlier holders: a pool of 15 to 10 with 10 shares, joined with 1. */
  lemma DepositThatDilutes(precision: int)
    requires precision > 0
    ensures var b := BaseFor(precision, 1, 15, 10);
            var l := SharesFor(precision, 1, 10, 10);
            (15 + b) * 10 < 15 * (10 + l)
  {
    MulAndQuoIsFloor(precision, 1, 15, 10);
    MulAndQuoIsFloor(precision, 1, 10, 10);
  }

  /** Depositing and at once redeeming the minted shares returns no more than went in, on both sides. */
  lemma AddThenRemove(precision: int, quoteIn: int, base: int, quote: int, supply: int)
    requires precision > 0 && quoteIn > 0 && base > 0 && quote > 0 && supply > 0
    ensures var b := BaseFor(precision, quoteIn, base, quote);
            var l := SharesFor(precision, quoteIn, supply, quote);
            && l >= 0 && b > 0
            && Redeem(precision, base + b, l, supply + l) <= b
            && Redeem(precision, quote + quoteIn, l, supply + l) <= quoteIn
  {
    DepositBounds(precision, quoteIn, base, quote, supply);
    var b := BaseFor(precision, quoteIn, base, quote);
    var l := SharesFor(precision, quoteIn, supply, quote);
    MulAndQuoIsFloor(precision, base + b, l, supply + l);
    MulAndQuoIsFloor(precision, quote + quoteIn, l, supply + l);
    RedeemBounds(quoteIn, base, quote, supply, b, l);
    FloorAtMost((base + b) * l, supply + l, b);
    FloorAtMost((quote + quoteIn) * l, supply + l, quoteIn);
  }

  lemma RedeemBounds(q: int, base: int, quote: int, supply: int, b: int, l: int)
    requires l >= 0 && supply > 0
    requires l * quote <= q * supply
    requires base * l < (b + 1) * supply
    ensures (base + b) * l < (b + 1) * (supply + l)
    ensures (quote + q) * l < (q + 1) * (supply + l)
  {
    assert (base + b) * l == base * l + b * l;
    assert (b + 1) * (supply + l) == (b + 1) * supply + b * l + l;
    assert (quote + q) * l == l * quote + q * l;
    assert (q + 1) * (supply + l) == q * supply + q * l + supply + l;
  }

  /** Redeeming takes the proportional part rounded down, and the whole reserve exactly when it burns the
      whole supply. What is left per remaining share never falls. */
  lemma RedeemBound(precision: int, reserve: int, shares: int, supply: int)
    requires precision > 0 && reserve > 0 && 0 < shares <= supply
    ensures var r := Redeem(precision, reserve, shares, supply);
            && 0 <= r <= reserve
            && r * supply <= reserve * shares < (r + 1) * supply
            && (r == reserve <==> shares == supply)
            && (reserve - r) * supply >= reserve * (supply - shares)
  {
    MulAndQuoIsFloor(precision, reserve, shares, supply);
    FloorShare(reserve, shares, supply);
  }

  lemma FloorShare(reserve: int, shares: int, supply: int)
    requires reserve > 0 && 0 < shares <= supply
    ensures var r := (reserve * shares) / supply;
            && 0 <= r <= reserve
            && r * supply <= reserve * shares < (r + 1) * supply
            && (r == reserve <==> shares == supply)
            && (reserve - r) * supply >= reserve * (supply - shares)
  {
    var n := reserve * shares;
    MulLt(0, reserve, shares);
    DivBounds(n, supply);
    var r := n / supply;
    if shares == supply {
      DivCancel(reserve, supply);
    } else {
      MulLt(shares, supply, reserve);
      CancelLt(r, reserve, supply);
    }
    assert (reserve - r) * supply == reserve * supply - r * supply;
    assert reserve * (supply - shares) == reserve * supply - n;
  }
}
