/** Constant-product pricing with a fee, all truncations included (x/ammswap/keeper/keeper.go). */
module Pricing {
  import opened FixedPoint

  /** The fee rates `validateParams` lets through: between nothing and everything. */
  predicate ValidFee(precision: int, feeRate: int) {
    precision > 0 && 0 <= feeRate <= Whole(precision, 1)
  }

  function InputWithFee(precision: int, input: int, feeRate: int): int
    requires precision > 0
  {
    MulTruncate(precision, input, MulTruncate(precision, Whole(precision, 1) - feeRate, Whole(precision, 1000)))
  }

  function GetInputPrice(precision: int, input: int, inputReserve: int, outputReserve: int, feeRate: int): int
    requires ValidFee(precision, feeRate)
    requires input >= 0 && inputReserve > 0
  {
    var withFee := InputWithFee(precision, input, feeRate);
    InputWithFeeBounds(precision, input, feeRate);
    DenominatorIs(precision, inputReserve);
    var denominator := MulTruncate(precision, inputReserve, Whole(precision, 1000)) + withFee;
    MulAndQuo(precision, withFee, outputReserve, denominator)
  }

  lemma DenominatorIs(precision: int, inputReserve: int)
    requires precision > 0
    ensures MulTruncate(precision, inputReserve, Whole(precision, 1000)) == 1000 * inputReserve
  {
    assert inputReserve * (1000 * precision) == (1000 * inputReserve) * precision;
    DivCancel(1000 * inputReserve, precision);
  }

  lemma InputWithFeeIs(precision: int, input: int, feeRate: int)
    requires precision > 0
    ensures InputWithFee(precision, input, feeRate) == (input * ((precision - feeRate) * 1000)) / precision
  {
    assert (precision - feeRate) * (1000 * precision) == ((precision - feeRate) * 1000) * precision;
    DivCancel((precision - feeRate) * 1000, precision);
  }

  lemma InputWithFeeBounds(precision: int, input: int, feeRate: int)
    requires ValidFee(precision, feeRate) && input >= 0
    ensures 0 <= InputWithFee(precision, input, feeRate) <= 1000 * input
  {
    InputWithFeeIs(precision, input, feeRate);
    var k := (precision - feeRate) * 1000;
    TakenIsLess(precision, input, k);
    DivBounds(input * k, precision);
    FloorAtMost(input * k, precision, 1000 * input);
  }

  lemma TakenIsLess(precision: int, input: int, k: int)
    requires 0 <= k <= 1000 * precision && input >= 0
    ensures 0 <= input * k <= (1000 * input) * precision
  {
    MulLe(0, input, k);
    MulLe(k, 1000 * precision, input);
  }

  /** Charging the fee on two sales apart never leaves more input than charging it once on the sum. */
  lemma FeeIsSuperadditive(precision: int, x: int, y: int, feeRate: int)
    requires ValidFee(precision, feeRate) && x >= 0 && y >= 0
    ensures InputWithFee(precision, x, feeRate) + InputWithFee(precision, y, feeRate)
         <= InputWithFee(precision, x + y, feeRate)
  {
    var k := (precision - feeRate) * 1000;
    InputWithFeeIs(precision, x, feeRate);
    InputWithFeeIs(precision, y, feeRate);
    InputWithFeeIs(precision, x + y, feeRate);
    DivBounds(x * k, precision);
    DivBounds(y * k, precision);
    var fx, fy := (x * k) / precision, (y * k) / precision;
    assert (fx + fy) * precision == fx * precision + fy * precision;
    assert (x + y) * k == x * k + y * k;
    FloorIsGreatest((x + y) * k, precision, fx + fy);
  }

  /** The price is one floor, and what stays in the pool is the matching ceiling: rounding always
      favours the pool. The last clause is the form the theorems below use. */
  lemma PriceIsFloor(precision: int, input: int, inputReserve: int, outputReserve: int, feeRate: int)
    requires ValidFee(precision, feeRate)
    requires input >= 0 && inputReserve > 0 && outputReserve >= 0
    ensures var w := InputWithFee(precision, input, feeRate);
            var out := GetInputPrice(precision, input, inputReserve, outputReserve, feeRate);
            && 0 <= w <= 1000 * input
            && out == (w * outputReserve) / (1000 * inputReserve + w)
            && 0 <= out <= outputReserve
            && (outputReserve > 0 ==> out < outputReserve)
            && 1000 * inputReserve * outputReserve <= (outputReserve - out) * (1000 * inputReserve + w)
  {
    var w := InputWithFee(precision, input, feeRate);
    InputWithFeeBounds(precision, input, feeRate);
    DenominatorIs(precision, inputReserve);
    var d := 1000 * inputReserve + w;
    MulAndQuoIsFloor(precision, w, outputReserve, d);
    var n := w * outputReserve;
    MulLe(0, w, outputReserve);
    DivBounds(n, d);
    var out := n / d;
    assert outputReserve * d == 1000 * inputReserve * outputReserve + n;
    assert (outputReserve - out) * d == outputReserve * d - out * d;
    MulLe(0, 1000 * inputReserve, outputReserve);
    CancelLe(out, outputReserve, d);
    if outputReserve > 0 {
      MulLt(0, 1000 * inputReserve, outputReserve);
      CancelLt(0, outputReserve - out, d);
    }
  }

  /** The two sides of one pool. */
  datatype Reserves = Reserves(base: int, quote: int)

  predicate Positive(r: Reserves) {
    r.base > 0 && r.quote > 0
  }

  /** One sale into the pool. `feeRate` is part of the sale because governance may change it between two. */
  datatype Sale = Sale(sellBase: bool, amount: int, feeRate: int)

  predicate ValidSale(precision: int, s: Sale) {
    s.amount >= 0 && ValidFee(precision, s.feeRate)
  }

  function Bought(precision: int, r: Reserves, s: Sale): int
    requires Positive(r) && ValidSale(precision, s)
  {
    if s.sellBase then
      GetInputPrice(precision, s.amount, r.base, r.quote, s.feeRate)
    else
      GetInputPrice(precision, s.amount, r.quote, r.base, s.feeRate)
  }

  function AfterSale(precision: int, r: Reserves, s: Sale): (r': Reserves)
    requires Positive(r) && ValidSale(precision, s)
    ensures Positive(r')
    ensures r'.base * r'.quote >= r.base * r.quote
  {
    ProductGrows(precision, r, s);
    var out := Bought(precision, r, s);
    if s.sellBase then Reserves(r.base + s.amount, r.quote - out) else Reserves(r.base - out, r.quote + s.amount)
  }

  lemma ProductGrowsOneWay(precision: int, amount: int, i: int, o: int, feeRate: int)
    requires ValidFee(precision, feeRate) && amount >= 0 && i > 0 && o > 0
    ensures var out := GetInputPrice(precision, amount, i, o, feeRate);
            0 <= out < o && i * o <= (i + amount) * (o - out)
  {
    PriceIsFloor(precision, amount, i, o, feeRate);
    var w := InputWithFee(precision, amount, feeRate);
    var out := GetInputPrice(precision, amount, i, o, feeRate);
    MulLe(1000 * i + w, 1000 * (i + amount), o - out);
    assert 1000 * (i + amount) * (o - out) == 1000 * ((i + amount) * (o - out));
    assert (o - out) * (1000 * i + w) == (1000 * i + w) * (o - out);
    assert 1000 * i * o == 1000 * (i * o);
  }

  lemma ProductGrows(precision: int, r: Reserves, s: Sale)
    requires Positive(r) && ValidSale(precision, s)
    ensures var out := Bought(precision, r, s);
            if s.sellBase then
              0 <= out < r.quote && r.base * r.quote <= (r.base + s.amount) * (r.quote - out)
            else
              0 <= out < r.base && r.base * r.quote <= (r.base - out) * (r.quote + s.amount)
  {
    if s.sellBase {
      ProductGrowsOneWay(precision, s.amount, r.base, r.quote, s.feeRate);
    } else {
      ProductGrowsOneWay(precision, s.amount, r.quote, r.base, s.feeRate);
    }
  }

  /** A run of sales in either direction, in the order they happen. */
  function AfterRun(precision: int, r: Reserves, sales: seq<Sale>): Reserves
    requires Positive(r) && forall i | 0 <= i < |sales| :: ValidSale(precision, sales[i])
    decreases |sales|
  {
    if sales == [] then r else AfterRun(precision, AfterSale(precision, r, sales[0]), sales[1..])
  }

  lemma {:induction false} ProductNeverShrinks(precision: int, r: Reserves, sales: seq<Sale>)
    requires Positive(r) && forall i | 0 <= i < |sales| :: ValidSale(precision, sales[i])
    ensures var r' := AfterRun(precision, r, sales);
            Positive(r') && r'.base * r'.quote >= r.base * r.quote
    decreases |sales|
  {
    if sales == [] {
    } else {
      ProductNeverShrinks(precision, AfterSale(precision, r, sales[0]), sales[1..]);
    }
  }

  lemma GrownProductOrders(a: int, b: int, a': int, b': int)
    requires a > 0 && b > 0 && a' > 0 && b' > 0 && a' * b' >= a * b
    ensures a' < a ==> b' > b
    ensures b' < b ==> a' > a
    ensures b' == b ==> a' >= a
    ensures a' == a ==> b' >= b
  {
    if a' < a && b' <= b {
      MulLt(a', a, b');
      MulLe(b', b, a);
    }
    if b' < b && a' <= a {
      MulLt(b', b, a');
      MulLe(a', a, b);
    }
  }

  /** Whatever traders do, the pool never loses on one side without gaining on the other: a run that
      restores one reserve cannot have lowered the other. */
  lemma {:induction false} NoFreeWithdrawal(precision: int, r: Reserves, sales: seq<Sale>)
    requires Positive(r) && forall i | 0 <= i < |sales| :: ValidSale(precision, sales[i])
    ensures var r' := AfterRun(precision, r, sales);
            && (r'.base < r.base ==> r'.quote > r.quote)
            && (r'.quote < r.quote ==> r'.base > r.base)
            && (r'.quote == r.quote ==> r'.base >= r.base)
            && (r'.base == r.base ==> r'.quote >= r.quote)
  {
    ProductNeverShrinks(precision, r, sales);
    var r' := AfterRun(precision, r, sales);
    GrownProductOrders(r.base, r.quote, r'.base, r'.quote);
  }

  /** Selling and then selling back everything that was bought returns at most what was put in. */
  lemma ThereAndBack(precision: int, r: Reserves, there: Sale, feeBack: int)
    requires Positive(r) && ValidSale(precision, there) && ValidFee(precision, feeBack)
    ensures ValidSale(precision, Sale(!there.sellBase, Bought(precision, r, there), feeBack))
    ensures Bought(precision, AfterSale(precision, r, there),
                   Sale(!there.sellBase, Bought(precision, r, there), feeBack)) <= there.amount
  {
    ProductGrows(precision, r, there);
    var back := Sale(!there.sellBase, Bought(precision, r, there), feeBack);
    var sales := [there, back];
    assert sales[1..] == [back] && [back][1..] == [];
    NoFreeWithdrawal(precision, r, sales);
    var r1 := AfterSale(precision, r, there);
    assert AfterRun(precision, r1, [back]) == AfterRun(precision, AfterSale(precision, r1, back), []);
  }

  /** Selling the given amounts one after the other, in one direction: what they bring in all. */
  function BoughtInPieces(precision: int, input: int, output: int, amounts: seq<nat>, feeRate: int): int
    requires ValidFee(precision, feeRate) && input > 0
    decreases |amounts|
  {
    if amounts == [] then 0 else
      var out := GetInputPrice(precision, amounts[0], input, output, feeRate);
      out + BoughtInPieces(precision, input + amounts[0], output - out, amounts[1..], feeRate)
  }

  function Total(amounts: seq<nat>): nat {
    if amounts == [] then 0 else amounts[0] + Total(amounts[1..])
  }

  /** One more sale of input worth `w` after fee, on a pool that started at `(d, o)` and has since
      taken `f` in fee-reduced input, keeps what is left above the curve of the starting pool. */
  lemma StaysAboveCurve(d: int, o: int, f: int, w: int, before: int, after: int, input: int)
    requires d > 0 && o >= 0 && f >= 0 && w >= 0
    requires before * (d + f) >= o * d
    requires 0 <= after <= before
    requires input >= d + f
    requires after * (input + w) >= before * input
    ensures after * (d + (f + w)) >= o * d
  {
    var e := d + f;
    MulLe(after, before, input - e);
    assert after * (input + w) == after * (e + w) + after * (input - e);
    assert before * input == before * e + before * (input - e);
  }

  lemma Widen(left: int, x: int, y: int, k: int)
    requires left >= 0 && x <= y && left * x >= k
    ensures left * y >= k
  {
    MulLe(x, y, left);
  }

  lemma {:induction false} PiecesStayAboveCurve(
    precision: int, start: int, o: int, f: int, input: int, output: int, amounts: seq<nat>, feeRate: int)
    requires ValidFee(precision, feeRate) && start > 0 && input > 0 && output >= 0 && o >= 0
    requires f >= 0 && 1000 * input >= 1000 * start + f
    requires output * (1000 * start + f) >= o * (1000 * start)
    ensures 0 <= BoughtInPieces(precision, input, output, amounts, feeRate) <= output
    ensures (output - BoughtInPieces(precision, input, output, amounts, feeRate))
              * (1000 * start + f + InputWithFee(precision, Total(amounts), feeRate)) >= o * (1000 * start)
    decreases |amounts|
  {
    if amounts == [] {
      InputWithFeeBounds(precision, 0, feeRate);
    } else {
      var a, rest := amounts[0], amounts[1..];
      PriceIsFloor(precision, a, input, output, feeRate);
      var w := InputWithFee(precision, a, feeRate);
      var out := GetInputPrice(precision, a, input, output, feeRate);
      StaysAboveCurve(1000 * start, o, f, w, output, output - out, 1000 * input);
      PiecesStayAboveCurve(precision, start, o, f + w, input + a, output - out, rest, feeRate);
      FeeIsSuperadditive(precision, a, Total(rest), feeRate);
      var left := output - BoughtInPieces(precision, input, output, amounts, feeRate);
      InputWithFeeBounds(precision, Total(rest), feeRate);
      Widen(left, 1000 * start + (f + w) + InputWithFee(precision, Total(rest), feeRate),
            1000 * start + f + InputWithFee(precision, Total(amounts), feeRate), o * (1000 * start));
    }
  }

  lemma PieceBound(d: int, o: int, w: int, pieces: int)
    requires d > 0 && w >= 0
    requires (o - pieces) * (d + w) >= o * d
    ensures pieces <= (w * o) / (d + w)
  {
    assert (o - pieces) * (d + w) == o * d + w * o - pieces * (d + w);
    FloorIsGreatest(w * o, d + w, pieces);
  }

  /** Splitting a sale, into any number of pieces of any sizes, never buys more than one sale of the
      total, with every truncation of every piece counted. */
  lemma {:induction false} SplittingNeverPays(precision: int, input: int, output: int, amounts: seq<nat>, feeRate: int)
    requires ValidFee(precision, feeRate) && input > 0 && output >= 0
    ensures BoughtInPieces(precision, input, output, amounts, feeRate)
         <= GetInputPrice(precision, Total(amounts), input, output, feeRate)
  {
    PiecesStayAboveCurve(precision, input, output, 0, input, output, amounts, feeRate);
    var x := Total(amounts);
    PriceIsFloor(precision, x, input, output, feeRate);
    var w := InputWithFee(precision, x, feeRate);
    PieceBound(1000 * input, output, w, BoughtInPieces(precision, input, output, amounts, feeRate));
  }
}
