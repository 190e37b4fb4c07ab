/** Open and close prices of candles (x/backend/orm/orm.go): a one-minute candle takes them from the
    earliest and latest deal of its minute, a coarse one from the earliest and latest candle of its
    window. */
module KlinePrices {
  import opened KlineRows
  import opened KlineTables

  lemma MinuteInside(ts: int, a: int, b: int)
    requires a % 60 == 0 && b % 60 == 0 && a <= ts < b
    ensures a <= MinuteOf(ts) < b && MinuteOf(ts) + 60 <= b
  {
  }

  lemma MinutesApart(x: int, y: int)
    requires x % 60 == 0 && y % 60 == 0 && x < y
    ensures x + 60 <= y
  {
  }

  /** A deal before `done` has the candle of its minute. */
  lemma CandleOf(s: Service, done: int, p: string, a: int, b: int, k: nat) returns (m: nat)
    requires Good(s, done) && AllMatched(s.deals, s.results) && a % 60 == 0 && b % 60 == 0 && 0 <= a && b <= done
    requires k < |s.deals| && In(s.deals[k], p, a, b)
    ensures m < |s.m1| && In(s.m1[m], p, a, b) && s.m1[m].timestamp == MinuteOf(s.deals[k].timestamp)
  {
    var ts := s.deals[k].timestamp;
    MinuteInside(ts, a, b);
    assert Matched(s.deals[k], s.results);
    var i :| 0 <= i < |s.results| && s.results[i].product == p && s.results[i].timestamp == ts;
    OverSome(s.results, p, MinuteOf(ts), MinuteOf(ts) + 60, i);
    assert Minute(s.results, p, MinuteOf(ts)) != Empty;
    assert HasRow(s.m1, p, MinuteOf(ts));
    m :| m < |s.m1| && s.m1[m].product == p && s.m1[m].timestamp == MinuteOf(ts);
  }

  /** A candle has a deal in its minute. */
  lemma DealOf(c: Row, deals: seq<Row>, a: int, b: int) returns (k: nat)
    requires PricedBy(c, deals, 60) && c.timestamp % 60 == 0 && a % 60 == 0 && b % 60 == 0 && a <= c.timestamp < b
    ensures k < |deals| && In(deals[k], c.product, a, b)
  {
    MinutesApart(c.timestamp, b);
    k :| k < |deals| && Earliest(deals, c.product, c.timestamp, c.timestamp + 60, k);
  }

  /** Over any window of whole minutes that the candles have reached they open and close with an earliest
      and a latest deal of the window, and there is no candle exactly when there is no deal. */
  lemma CoarsePricesAreDeals(s: Service, done: int, p: string, a: int, b: int, open: real, close: real)
    requires Good(s, done) && Quoted(s) && a % 60 == 0 && b % 60 == 0 && 0 <= a && b <= done
    ensures Opens(s.m1, p, a, b, open) ==> Opens(s.deals, p, a, b, open)
    ensures Closes(s.m1, p, a, b, close) ==> Closes(s.deals, p, a, b, close)
    ensures (exists i :: 0 <= i < |s.m1| && In(s.m1[i], p, a, b)) <==> (exists k :: 0 <= k < |s.deals| && In(s.deals[k], p, a, b))
  {
    if Opens(s.m1, p, a, b, open) { OpenIsDeal(s, done, p, a, b, open); }
    if Closes(s.m1, p, a, b, close) { CloseIsDeal(s, done, p, a, b, close); }
    if i :| 0 <= i < |s.m1| && In(s.m1[i], p, a, b) {
      assert PricedBy(s.m1[i], s.deals, 60) && Exact(s.m1[i], s.results);
      var k := DealOf(s.m1[i], s.deals, a, b);
    }
    if k :| 0 <= k < |s.deals| && In(s.deals[k], p, a, b) {
      var m := CandleOf(s, done, p, a, b, k);
    }
  }

  lemma OpenBounds(s: Service, done: int, p: string, a: int, b: int, i: nat, j: nat, k: nat)
    requires Good(s, done) && AllMatched(s.deals, s.results) && a % 60 == 0 && b % 60 == 0 && 0 <= a && b <= done
    requires Earliest(s.m1, p, a, b, i) && Earliest(s.deals, p, s.m1[i].timestamp, s.m1[i].timestamp + 60, j)
    requires k < |s.deals| && In(s.deals[k], p, a, b)
    ensures s.deals[j].timestamp <= s.deals[k].timestamp
  {
    var w := s.m1[i].timestamp;
    assert Exact(s.m1[i], s.results);
    var m := CandleOf(s, done, p, a, b, k);
    MinuteBounds(s.deals[k].timestamp);
    if s.m1[m].timestamp == w {
      assert In(s.deals[k], p, w, w + 60);
    } else {
      MinutesApart(w, s.m1[m].timestamp);
    }
  }

  lemma OpenIsDeal(s: Service, done: int, p: string, a: int, b: int, price: real)
    requires Good(s, done) && Quoted(s) && a % 60 == 0 && b % 60 == 0 && 0 <= a && b <= done && Opens(s.m1, p, a, b, price)
    ensures Opens(s.deals, p, a, b, price)
  {
    var i: nat :| i < |s.m1| && Earliest(s.m1, p, a, b, i) && s.m1[i].open == price;
    var w := s.m1[i].timestamp;
    assert PricedBy(s.m1[i], s.deals, 60) && Exact(s.m1[i], s.results);
    var j: nat :| j < |s.deals| && Earliest(s.deals, p, w, w + 60, j) && s.deals[j].open == price;
    MinutesApart(w, b);
    forall k | 0 <= k < |s.deals| && In(s.deals[k], p, a, b)
      ensures s.deals[j].timestamp <= s.deals[k].timestamp
    {
      OpenBounds(s, done, p, a, b, i, j, k);
    }
    assert In(s.deals[j], p, a, b);
    assert Earliest(s.deals, p, a, b, j);
  }

  lemma CloseBounds(s: Service, done: int, p: string, a: int, b: int, i: nat, j: nat, k: nat)
    requires Good(s, done) && AllMatched(s.deals, s.results) && a % 60 == 0 && b % 60 == 0 && 0 <= a && b <= done
    requires Latest(s.m1, p, a, b, i) && Latest(s.deals, p, s.m1[i].timestamp, s.m1[i].timestamp + 60, j)
    requires k < |s.deals| && In(s.deals[k], p, a, b)
    ensures s.deals[k].timestamp <= s.deals[j].timestamp
  {
    var w := s.m1[i].timestamp;
    assert Exact(s.m1[i], s.results);
    var m := CandleOf(s, done, p, a, b, k);
    MinuteBounds(s.deals[k].timestamp);
    if s.m1[m].timestamp == w {
      assert In(s.deals[k], p, w, w + 60);
    } else {
      MinutesApart(s.m1[m].timestamp, w);
    }
  }

  lemma CloseIsDeal(s: Service, done: int, p: string, a: int, b: int, price: real)
    requires Good(s, done) && Quoted(s) && a % 60 == 0 && b % 60 == 0 && 0 <= a && b <= done && Closes(s.m1, p, a, b, price)
    ensures Closes(s.deals, p, a, b, price)
  {
    var i: nat :| i < |s.m1| && Latest(s.m1, p, a, b, i) && s.m1[i].close == price;
    var w := s.m1[i].timestamp;
    assert PricedBy(s.m1[i], s.deals, 60) && Exact(s.m1[i], s.results);
    var j: nat :| j < |s.deals| && Latest(s.deals, p, w, w + 60, j) && s.deals[j].close == price;
    MinutesApart(w, b);
    forall k | 0 <= k < |s.deals| && In(s.deals[k], p, a, b)
      ensures s.deals[k].timestamp <= s.deals[j].timestamp
    {
      CloseBounds(s, done, p, a, b, i, j, k);
    }
    assert In(s.deals[j], p, a, b);
    assert Latest(s.deals, p, a, b, j);
  }

  /** The end of a window, or where the candles have come before it. */
  function ReachedEnd(done: int, w: int, freq: int): int {
    if w + freq < done then w + freq else done
  }

  lemma WholeEnd(done: int, w: int, freq: int)
    requires done % 60 == 0 && w % 60 == 0 && freq % 60 == 0
    ensures ReachedEnd(done, w, freq) % 60 == 0 && ReachedEnd(done, w, freq) <= done && ReachedEnd(done, w, freq) <= w + freq
  {
  }

  lemma PricedUpTo(rows: seq<Row>, p: string, a: int, b: int, c: int, open: real, close: real)
    requires c <= b && forall i | 0 <= i < |rows| && In(rows[i], p, a, b) :: rows[i].timestamp < c
    requires Opens(rows, p, a, b, open) && Closes(rows, p, a, b, close)
    ensures Opens(rows, p, a, c, open) && Closes(rows, p, a, c, close)
  {
    var i: nat :| i < |rows| && Earliest(rows, p, a, b, i) && rows[i].open == open;
    var j: nat :| j < |rows| && Latest(rows, p, a, b, j) && rows[j].close == close;
    assert Earliest(rows, p, a, c, i) && Latest(rows, p, a, c, j);
  }

  /** A row priced by the candles of its window is priced by the deals, as far as the candles have come. */
  lemma RowPricesAreDeals(s: Service, done: int, r: Row, freq: int)
    requires Good(s, done) && Quoted(s) && freq % 60 == 0 && r.timestamp % 60 == 0 && 0 <= r.timestamp && PricedBy(r, s.m1, freq)
    ensures Opens(s.deals, r.product, r.timestamp, ReachedEnd(done, r.timestamp, freq), r.open)
    ensures Closes(s.deals, r.product, r.timestamp, ReachedEnd(done, r.timestamp, freq), r.close)
  {
    var p, w, b := r.product, r.timestamp, ReachedEnd(done, r.timestamp, freq);
    WholeEnd(done, w, freq);
    assert forall i | 0 <= i < |s.m1| && In(s.m1[i], p, w, w + freq) :: s.m1[i].timestamp < b;
    PricedUpTo(s.m1, p, w, w + freq, b, r.open, r.close);
    CoarsePricesAreDeals(s, done, p, w, b, r.open, r.close);
  }
}
