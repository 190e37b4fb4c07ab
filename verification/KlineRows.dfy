/** Rows of the tables behind the candles, and what the database's queries return on them
    (x/backend/orm/orm.go). A match result, a deal and a candle are all a row with a product, a time, a
    volume, a price range and an open and close price; a deal and a result have one price for all of
    these. */
module KlineRows {
  import opened Options

  datatype Row = Row(product: string, timestamp: int, volume: real, high: real, low: real, open: real, close: real)

  /** What the database returns for one product over one window: sum, maximum and minimum. */
  datatype Bar = Empty | Bar(volume: real, high: real, low: real)

  function BarOf(r: Row): Bar {
    Bar(r.volume, r.high, r.low)
  }

  function Join(a: Bar, b: Bar): Bar {
    if a.Empty? then b
    else if b.Empty? then a
    else Bar(a.volume + b.volume, if a.high < b.high then b.high else a.high, if b.low < a.low then b.low else a.low)
  }

  predicate In(r: Row, p: string, a: int, b: int) {
    r.product == p && a <= r.timestamp < b
  }

  /** Aggregate of the rows of product `p` with `a <= timestamp < b`. */
  function Over(rows: seq<Row>, p: string, a: int, b: int): Bar {
    if rows == [] then Empty
    else
      var n := |rows| - 1;
      Join(Over(rows[..n], p, a, b), if In(rows[n], p, a, b) then BarOf(rows[n]) else Empty)
  }

  lemma JoinAssociates(a: Bar, b: Bar, c: Bar)
    ensures Join(Join(a, b), c) == Join(a, Join(b, c))
  {
  }

  lemma JoinMiddle(a: Bar, b: Bar, c: Bar, d: Bar)
    requires c == Empty || d == Empty
    ensures Join(Join(a, b), Join(c, d)) == Join(Join(a, c), Join(b, d))
  {
  }

  lemma {:induction false} OverConcat(x: seq<Row>, y: seq<Row>, p: string, a: int, b: int)
    ensures Over(x + y, p, a, b) == Join(Over(x, p, a, b), Over(y, p, a, b))
    decreases |y|
  {
    if y == [] {
      assert x + y == x;
    } else {
      var n := |y| - 1;
      assert (x + y)[..|x + y| - 1] == x + y[..n];
      OverConcat(x, y[..n], p, a, b);
      JoinAssociates(Over(x, p, a, b), Over(y[..n], p, a, b), if In(y[n], p, a, b) then BarOf(y[n]) else Empty);
    }
  }

  /** A window is the two windows it is cut into. */
  lemma {:induction false} OverSplit(rows: seq<Row>, p: string, a: int, b: int, c: int)
    requires a <= b <= c
    ensures Over(rows, p, a, c) == Join(Over(rows, p, a, b), Over(rows, p, b, c))
    decreases |rows|
  {
    if rows != [] {
      var n := |rows| - 1;
      OverSplit(rows[..n], p, a, b, c);
      var left := if In(rows[n], p, a, b) then BarOf(rows[n]) else Empty;
      var right := if In(rows[n], p, b, c) then BarOf(rows[n]) else Empty;
      JoinMiddle(Over(rows[..n], p, a, b), Over(rows[..n], p, b, c), left, right);
    }
  }

  lemma {:induction false} OverNone(rows: seq<Row>, p: string, a: int, b: int)
    requires forall i | 0 <= i < |rows| :: !In(rows[i], p, a, b)
    ensures Over(rows, p, a, b) == Empty
    decreases |rows|
  {
    if rows != [] {
      OverNone(rows[..|rows| - 1], p, a, b);
    }
  }

  lemma {:induction false} OverSome(rows: seq<Row>, p: string, a: int, b: int, i: nat)
    requires i < |rows| && In(rows[i], p, a, b)
    ensures Over(rows, p, a, b) != Empty
    decreases |rows|
  {
    if i < |rows| - 1 {
      OverSome(rows[..|rows| - 1], p, a, b, i);
    }
  }

  lemma {:induction false} OverOnly(rows: seq<Row>, p: string, a: int, b: int, i: nat)
    requires i < |rows| && In(rows[i], p, a, b)
    requires forall j | 0 <= j < |rows| && j != i :: !In(rows[j], p, a, b)
    ensures Over(rows, p, a, b) == BarOf(rows[i])
    decreases |rows|
  {
    var n := |rows| - 1;
    if i < n {
      OverOnly(rows[..n], p, a, b, i);
    } else {
      OverNone(rows[..n], p, a, b);
    }
  }

  // ---------------------------------------------------------------- what an aggregate says

  /** The volumes of the rows of a window, added up. */
  function VolumeIn(rows: seq<Row>, p: string, a: int, b: int): real {
    if rows == [] then 0.0
    else
      var n := |rows| - 1;
      VolumeIn(rows[..n], p, a, b) + if In(rows[n], p, a, b) then rows[n].volume else 0.0
  }

  predicate NoRowIn(rows: seq<Row>, p: string, a: int, b: int) {
    forall i | 0 <= i < |rows| :: !In(rows[i], p, a, b)
  }

  /** Some row of the window has this high, and none a greater one. */
  predicate Highest(rows: seq<Row>, p: string, a: int, b: int, high: real) {
    && (exists i | 0 <= i < |rows| :: In(rows[i], p, a, b) && rows[i].high == high)
    && (forall i | 0 <= i < |rows| && In(rows[i], p, a, b) :: rows[i].high <= high)
  }

  predicate Lowest(rows: seq<Row>, p: string, a: int, b: int, low: real) {
    && (exists i | 0 <= i < |rows| :: In(rows[i], p, a, b) && rows[i].low == low)
    && (forall i | 0 <= i < |rows| && In(rows[i], p, a, b) :: low <= rows[i].low)
  }

  /** What a query that adds up volumes and takes the greatest high and the least low answers. */
  predicate Describes(bar: Bar, rows: seq<Row>, p: string, a: int, b: int) {
    match bar
    case Empty => NoRowIn(rows, p, a, b)
    case Bar(volume, high, low) =>
      volume == VolumeIn(rows, p, a, b) && Highest(rows, p, a, b, high) && Lowest(rows, p, a, b, low)
  }

  /** A candle holds the volume, high and low of all rows of its window. */
  predicate Tells(c: Row, rows: seq<Row>, freq: int) {
    Describes(BarOf(c), rows, c.product, c.timestamp, c.timestamp + freq)
  }

  lemma DescribesSnoc(bar: Bar, rows: seq<Row>, r: Row, p: string, a: int, b: int)
    requires Describes(bar, rows, p, a, b)
    ensures Describes(Join(bar, if In(r, p, a, b) then BarOf(r) else Empty), rows + [r], p, a, b)
  {
    var all := rows + [r];
    assert all[..|all| - 1] == rows && all[|rows|] == r;
    assert forall i | 0 <= i < |rows| :: all[i] == rows[i];
    if bar.Empty? {
      if In(r, p, a, b) {
        NoVolume(rows, p, a, b);
        assert Highest(all, p, a, b, r.high) && Lowest(all, p, a, b, r.low);
      }
    } else {
      EndsSnoc(rows, r, p, a, b, bar.high, bar.low);
    }
  }

  lemma EndsSnoc(rows: seq<Row>, r: Row, p: string, a: int, b: int, high: real, low: real)
    requires Highest(rows, p, a, b, high) && Lowest(rows, p, a, b, low)
    ensures Highest(rows + [r], p, a, b, if In(r, p, a, b) && high < r.high then r.high else high)
    ensures Lowest(rows + [r], p, a, b, if In(r, p, a, b) && r.low < low then r.low else low)
  {
    var all := rows + [r];
    var i :| 0 <= i < |rows| && In(rows[i], p, a, b) && rows[i].high == high;
    var j :| 0 <= j < |rows| && In(rows[j], p, a, b) && rows[j].low == low;
    assert all[i] == rows[i] && all[j] == rows[j] && all[|rows|] == r;
    assert forall k | 0 <= k < |rows| :: all[k] == rows[k];
  }

  lemma {:induction false} NoVolume(rows: seq<Row>, p: string, a: int, b: int)
    requires NoRowIn(rows, p, a, b)
    ensures VolumeIn(rows, p, a, b) == 0.0
    decreases |rows|
  {
    if rows != [] { NoVolume(rows[..|rows| - 1], p, a, b); }
  }

  lemma {:induction false} OverDescribes(rows: seq<Row>, p: string, a: int, b: int)
    ensures Describes(Over(rows, p, a, b), rows, p, a, b)
    decreases |rows|
  {
    if rows != [] {
      var n := |rows| - 1;
      OverDescribes(rows[..n], p, a, b);
      DescribesSnoc(Over(rows[..n], p, a, b), rows[..n], rows[n], p, a, b);
      assert rows[..n] + [rows[n]] == rows;
    }
  }

  lemma OneDescription(x: Bar, y: Bar, rows: seq<Row>, p: string, a: int, b: int)
    requires Describes(x, rows, p, a, b) && Describes(y, rows, p, a, b)
    ensures x == y
  {
  }

  /** An aggregate is the one thing its window's rows have for volume, high and low. */
  lemma OverIs(bar: Bar, rows: seq<Row>, p: string, a: int, b: int)
    ensures Describes(bar, rows, p, a, b) <==> bar == Over(rows, p, a, b)
  {
    OverDescribes(rows, p, a, b);
    if Describes(bar, rows, p, a, b) { OneDescription(bar, Over(rows, p, a, b), rows, p, a, b); }
  }

  // ---------------------------------------------------------------- minutes

  function MinuteOf(ts: int): int {
    ts - ts % 60
  }

  function Minute(rows: seq<Row>, p: string, w: int): Bar {
    Over(rows, p, w, w + 60)
  }

  predicate HasRow(rows: seq<Row>, p: string, w: int) {
    exists i | 0 <= i < |rows| :: rows[i].product == p && rows[i].timestamp == w
  }

  predicate SameKey(a: Row, b: Row) {
    a.product == b.product && a.timestamp == b.timestamp
  }

  /** The primary key: product and timestamp. */
  predicate Keyed(rows: seq<Row>) {
    forall i, j | 0 <= i < j < |rows| :: !SameKey(rows[i], rows[j])
  }

  lemma RowStays(before: seq<Row>, after: seq<Row>, p: string, w: int)
    requires |before| <= |after| && after[..|before|] == before && HasRow(before, p, w)
    ensures HasRow(after, p, w)
  {
    var i :| 0 <= i < |before| && before[i].product == p && before[i].timestamp == w;
    assert after[i] == before[i];
  }

  lemma MinuteBounds(ts: int)
    ensures MinuteOf(ts) <= ts < MinuteOf(ts) + 60 && MinuteOf(ts) % 60 == 0
  {
  }

  lemma WholeMinuteBefore(w: int, done: int)
    requires w % 60 == 0 && done % 60 == 0 && w < done
    ensures w + 60 <= done
  {
  }

  lemma OneMinute(a: int, b: int, t: int)
    requires a % 60 == 0 && b % 60 == 0 && a <= t < a + 60 && b <= t < b + 60
    ensures a == b
  {
  }

  // ---------------------------------------------------------------- open and close prices

  predicate Earliest(rows: seq<Row>, p: string, a: int, b: int, i: nat) {
    && i < |rows| && In(rows[i], p, a, b)
    && forall j | 0 <= j < |rows| && In(rows[j], p, a, b) :: rows[i].timestamp <= rows[j].timestamp
  }

  predicate Latest(rows: seq<Row>, p: string, a: int, b: int, i: nat) {
    && i < |rows| && In(rows[i], p, a, b)
    && forall j | 0 <= j < |rows| && In(rows[j], p, a, b) :: rows[j].timestamp <= rows[i].timestamp
  }

  /** A price an earliest row of the window opens with; a price a latest one closes with. Rows of one
      block have one time, and the database may return any of them. */
  predicate Opens(rows: seq<Row>, p: string, a: int, b: int, price: real) {
    exists i: nat | i < |rows| :: Earliest(rows, p, a, b, i) && rows[i].open == price
  }

  predicate Closes(rows: seq<Row>, p: string, a: int, b: int, price: real) {
    exists i: nat | i < |rows| :: Latest(rows, p, a, b, i) && rows[i].close == price
  }

  /** A candle opens and closes with prices of its window. */
  predicate PricedBy(c: Row, quotes: seq<Row>, freq: int) {
    && Opens(quotes, c.product, c.timestamp, c.timestamp + freq, c.open)
    && Closes(quotes, c.product, c.timestamp, c.timestamp + freq, c.close)
  }

  datatype Prices = Prices(open: real, close: real)

  /** `getOpenCloseDeals` and `getOpenCloseKline`: the first row of the window in each order. */
  method OpenClose(quotes: seq<Row>, p: string, a: int, b: int) returns (r: Option<Prices>)
    ensures r.None? <==> forall i | 0 <= i < |quotes| :: !In(quotes[i], p, a, b)
    ensures r.Some? ==> Opens(quotes, p, a, b, r.value.open) && Closes(quotes, p, a, b, r.value.close)
  {
    var first, last: nat := 0, 0;
    var found := false;
    for k := 0 to |quotes|
      invariant !found ==> forall i | 0 <= i < k :: !In(quotes[i], p, a, b)
      invariant found ==> first < k && last < k && In(quotes[first], p, a, b) && In(quotes[last], p, a, b)
      invariant found ==> forall i | 0 <= i < k && In(quotes[i], p, a, b) ::
        quotes[first].timestamp <= quotes[i].timestamp <= quotes[last].timestamp
    {
      if In(quotes[k], p, a, b) {
        if !found || quotes[k].timestamp < quotes[first].timestamp {
          first := k;
        }
        if !found || quotes[k].timestamp > quotes[last].timestamp {
          last := k;
        }
        found := true;
      }
    }
    if !found {
      return None;
    }
    assert Earliest(quotes, p, a, b, first) && Latest(quotes, p, a, b, last);
    return Some(Prices(quotes[first].open, quotes[last].close));
  }

  /** Each row of one table has its key in the other. */
  predicate Matched(r: Row, rows: seq<Row>) {
    HasRow(rows, r.product, r.timestamp)
  }

  predicate AllMatched(some: seq<Row>, rows: seq<Row>) {
    forall i {:trigger Matched(some[i], rows)} | 0 <= i < |some| :: Matched(some[i], rows)
  }

  lemma SelfMatched(rows: seq<Row>)
    ensures AllMatched(rows, rows)
  {
    forall i | 0 <= i < |rows|
      ensures Matched(rows[i], rows)
    {
      assert rows[i].product == rows[i].product;
    }
  }

  /** Two tables have the same rows in a window. */
  predicate SameIn(x: seq<Row>, y: seq<Row>, p: string, a: int, b: int) {
    && (forall i | 0 <= i < |x| && In(x[i], p, a, b) :: x[i] in y)
    && (forall i | 0 <= i < |y| && In(y[i], p, a, b) :: y[i] in x)
  }

  lemma SameOpens(x: seq<Row>, y: seq<Row>, p: string, a: int, b: int, price: real)
    requires SameIn(x, y, p, a, b) && Opens(x, p, a, b, price)
    ensures Opens(y, p, a, b, price)
  {
    var i: nat :| i < |x| && Earliest(x, p, a, b, i) && x[i].open == price;
    var k: nat :| k < |y| && y[k] == x[i];
    forall j | 0 <= j < |y| && In(y[j], p, a, b)
      ensures y[k].timestamp <= y[j].timestamp
    {
      var l :| 0 <= l < |x| && x[l] == y[j];
    }
    assert Earliest(y, p, a, b, k);
  }

  lemma SameCloses(x: seq<Row>, y: seq<Row>, p: string, a: int, b: int, price: real)
    requires SameIn(x, y, p, a, b) && Closes(x, p, a, b, price)
    ensures Closes(y, p, a, b, price)
  {
    var i: nat :| i < |x| && Latest(x, p, a, b, i) && x[i].close == price;
    var k: nat :| k < |y| && y[k] == x[i];
    forall j | 0 <= j < |y| && In(y[j], p, a, b)
      ensures y[j].timestamp <= y[k].timestamp
    {
      var l :| 0 <= l < |x| && x[l] == y[j];
    }
    assert Latest(y, p, a, b, k);
  }

  lemma SamePrices(c: Row, x: seq<Row>, y: seq<Row>, freq: int)
    requires SameIn(x, y, c.product, c.timestamp, c.timestamp + freq) && PricedBy(c, x, freq)
    ensures PricedBy(c, y, freq)
  {
    SameOpens(x, y, c.product, c.timestamp, c.timestamp + freq, c.open);
    SameCloses(x, y, c.product, c.timestamp, c.timestamp + freq, c.close);
  }

  /** Rows outside a window have no say in its prices. */
  lemma PricesStay(c: Row, quotes: seq<Row>, more: seq<Row>, freq: int)
    requires forall k | 0 <= k < |more| :: !In(more[k], c.product, c.timestamp, c.timestamp + freq)
    requires PricedBy(c, quotes, freq)
    ensures PricedBy(c, quotes + more, freq)
  {
    assert forall k | 0 <= k < |quotes| :: (quotes + more)[k] == quotes[k];
    assert SameIn(quotes, quotes + more, c.product, c.timestamp, c.timestamp + freq);
    SamePrices(c, quotes, quotes + more, freq);
  }
}
