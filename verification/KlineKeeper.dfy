/** The jobs that write the candle tables (x/backend/orm/orm.go, x/backend/keeper/keeper_channel.go). */
module KlineKeeper {
  import opened KlineRows
  import opened KlineTables
  import KlinePadding
  import FixedPoint

  // ---------------------------------------------------------------- the window loop

  function WindowAt(first: int, freq: int, k: int): int {
    first + k * freq
  }

  ghost predicate OnGrid(first: int, freq: int, w: int) {
    exists k: nat :: w == WindowAt(first, freq, k)
  }

  function WindowBar(rows: seq<Row>, p: string, w: int, freq: int): Bar {
    Over(rows, p, w, w + freq)
  }

  predicate Named(groups: seq<Row>, p: string) {
    exists i | 0 <= i < |groups| :: groups[i].product == p
  }

  /** What `select … group by product` returns for one window: one row for each product that has any. */
  ghost predicate Grouped(rows: seq<Row>, quotes: seq<Row>, a: int, freq: int, groups: seq<Row>) {
    && (forall i | 0 <= i < |groups| :: groups[i].timestamp == a && BarOf(groups[i]) == WindowBar(rows, groups[i].product, a, freq))
    && (forall i {:trigger PricedBy(groups[i], quotes, freq)} | 0 <= i < |groups| :: PricedBy(groups[i], quotes, freq))
    && (forall i, j | 0 <= i < j < |groups| :: groups[i].product != groups[j].product)
    && (forall p: string :: WindowBar(rows, p, a, freq) != Empty ==> Named(groups, p))
  }

  /** The same in the terms of the rows: each candle tells them, and each row's product is named once. */
  predicate GroupsTell(rows: seq<Row>, quotes: seq<Row>, a: int, freq: int, groups: seq<Row>) {
    && (forall i {:trigger Tells(groups[i], rows, freq)} | 0 <= i < |groups| ::
          groups[i].timestamp == a && Tells(groups[i], rows, freq) && PricedBy(groups[i], quotes, freq))
    && (forall i, j | 0 <= i < j < |groups| :: groups[i].product != groups[j].product)
    && (forall k | 0 <= k < |rows| && In(rows[k], rows[k].product, a, a + freq) :: Named(groups, rows[k].product))
  }

  lemma GroupedTells(rows: seq<Row>, quotes: seq<Row>, a: int, freq: int, groups: seq<Row>)
    requires Grouped(rows, quotes, a, freq, groups)
    ensures GroupsTell(rows, quotes, a, freq, groups)
  {
    forall i | 0 <= i < |groups|
      ensures Tells(groups[i], rows, freq) && PricedBy(groups[i], quotes, freq)
    {
      assert PricedBy(groups[i], quotes, freq);
      OverIs(BarOf(groups[i]), rows, groups[i].product, a, a + freq);
    }
    forall k | 0 <= k < |rows| && In(rows[k], rows[k].product, a, a + freq)
      ensures Named(groups, rows[k].product)
    {
      OverSome(rows, rows[k].product, a, a + freq, k);
      assert WindowBar(rows, rows[k].product, a, freq) != Empty;
    }
  }

  /** A row in a window has a quote in it. */
  lemma QuoteInWindow(rows: seq<Row>, quotes: seq<Row>, k: nat, a: int, b: int)
    requires AllMatched(rows, quotes) && k < |rows| && In(rows[k], rows[k].product, a, b)
    ensures exists i :: 0 <= i < |quotes| && In(quotes[i], rows[k].product, a, b)
  {
    assert Matched(rows[k], quotes);
    var i :| 0 <= i < |quotes| && quotes[i].product == rows[k].product && quotes[i].timestamp == rows[k].timestamp;
    assert In(quotes[i], rows[k].product, a, b);
  }

  /** One candle: the aggregate of its window's rows, and the prices of its window's quotes. */
  method MakeCandle(rows: seq<Row>, quotes: seq<Row>, k: nat, a: int, freq: int) returns (c: Row)
    requires AllMatched(rows, quotes) && k < |rows| && In(rows[k], rows[k].product, a, a + freq)
    ensures c.product == rows[k].product && c.timestamp == a && BarOf(c) == WindowBar(rows, c.product, a, freq)
    ensures PricedBy(c, quotes, freq)
  {
    var p := rows[k].product;
    OverSome(rows, p, a, a + freq, k);
    var bar := WindowBar(rows, p, a, freq);
    QuoteInWindow(rows, quotes, k, a, a + freq);
    var prices := OpenClose(quotes, p, a, a + freq);
    c := Row(p, a, bar.volume, bar.high, bar.low, prices.value.open, prices.value.close);
  }

  /** The grouped query and the candles made of its rows. No quote in the window would be a nil
      dereference in the original. */
  method SelectGroups(rows: seq<Row>, quotes: seq<Row>, a: int, freq: int) returns (groups: seq<Row>)
    requires AllMatched(rows, quotes)
    ensures GroupsTell(rows, quotes, a, freq, groups)
    ensures Grouped(rows, quotes, a, freq, groups)
  {
    groups := GroupRows(rows, quotes, a, freq);
    GroupedTells(rows, quotes, a, freq, groups);
  }

  method GroupRows(rows: seq<Row>, quotes: seq<Row>, a: int, freq: int) returns (groups: seq<Row>)
    requires AllMatched(rows, quotes)
    ensures Grouped(rows, quotes, a, freq, groups)
  {
    groups := [];
    for k := 0 to |rows|
      invariant forall i | 0 <= i < |groups| ::
        groups[i].timestamp == a && BarOf(groups[i]) == WindowBar(rows, groups[i].product, a, freq)
      invariant forall i {:trigger PricedBy(groups[i], quotes, freq)} | 0 <= i < |groups| :: PricedBy(groups[i], quotes, freq)
      invariant forall i, j | 0 <= i < j < |groups| :: groups[i].product != groups[j].product
      invariant forall i | 0 <= i < k && In(rows[i], rows[i].product, a, a + freq) :: Named(groups, rows[i].product)
    {
      if In(rows[k], rows[k].product, a, a + freq) && !Named(groups, rows[k].product) {
        var c := MakeCandle(rows, quotes, k, a, freq);
        ghost var before := groups;
        groups := groups + [c];
        assert groups[|before|] == c;
        assert forall i | 0 <= i < |before| :: groups[i] == before[i];
        NamesStay(before, groups);
      }
    }
    forall p: string | WindowBar(rows, p, a, freq) != Empty
      ensures Named(groups, p)
    {
      if forall i | 0 <= i < |rows| :: !In(rows[i], p, a, a + freq) {
        OverNone(rows, p, a, a + freq);
      }
    }
  }

  lemma NamesStay(before: seq<Row>, after: seq<Row>)
    requires |before| <= |after| && after[..|before|] == before
    ensures forall p: string :: Named(before, p) ==> Named(after, p)
  {
    forall p: string | Named(before, p)
      ensures Named(after, p)
    {
      var i :| 0 <= i < |before| && before[i].product == p;
      assert after[i] == before[i];
    }
  }

  /** The candles of `n` windows from `first` on: one for each product and window that has rows. */
  ghost predicate Collected(rows: seq<Row>, quotes: seq<Row>, first: int, freq: int, n: nat, candles: seq<Row>) {
    && (forall i | 0 <= i < |candles| ::
         && first <= candles[i].timestamp < WindowAt(first, freq, n) && OnGrid(first, freq, candles[i].timestamp)
         && BarOf(candles[i]) == WindowBar(rows, candles[i].product, candles[i].timestamp, freq))
    && (forall i {:trigger PricedBy(candles[i], quotes, freq)} | 0 <= i < |candles| :: PricedBy(candles[i], quotes, freq))
    && Keyed(candles)
    && (forall p: string, k: nat {:trigger WindowBar(rows, p, WindowAt(first, freq, k), freq)} | k < n ::
         WindowBar(rows, p, WindowAt(first, freq, k), freq) != Empty ==> HasRow(candles, p, WindowAt(first, freq, k)))
  }

  lemma NextWindow(first: int, freq: int, k: nat)
    requires freq > 0
    ensures WindowAt(first, freq, k + 1) == WindowAt(first, freq, k) + freq && first <= WindowAt(first, freq, k)
  {
  }

  lemma RowsFollow(before: seq<Row>, groups: seq<Row>, p: string, w: int)
    requires Named(groups, p) && forall i | 0 <= i < |groups| :: groups[i].timestamp == w
    ensures HasRow(before + groups, p, w)
  {
    var i :| 0 <= i < |groups| && groups[i].product == p;
    assert (before + groups)[|before| + i] == groups[i];
  }

  lemma KeyedConcat(before: seq<Row>, groups: seq<Row>, w: int)
    requires Keyed(before) && forall i | 0 <= i < |before| :: before[i].timestamp < w
    requires forall i | 0 <= i < |groups| :: groups[i].timestamp == w
    requires forall i, j | 0 <= i < j < |groups| :: groups[i].product != groups[j].product
    ensures Keyed(before + groups)
  {
    var all := before + groups;
    forall i, j | 0 <= i < j < |all|
      ensures !SameKey(all[i], all[j])
    {
      if j < |before| { assert !SameKey(before[i], before[j]); }
    }
  }

  lemma CollectOne(rows: seq<Row>, quotes: seq<Row>, first: int, freq: int, n: nat, candles: seq<Row>, groups: seq<Row>)
    requires freq > 0 && Collected(rows, quotes, first, freq, n, candles)
    requires Grouped(rows, quotes, WindowAt(first, freq, n), freq, groups)
    ensures Collected(rows, quotes, first, freq, n + 1, candles + groups)
  {
    var w := WindowAt(first, freq, n);
    var all := candles + groups;
    NextWindow(first, freq, n);
    KeyedConcat(candles, groups, w);
    forall i | 0 <= i < |all|
      ensures first <= all[i].timestamp < WindowAt(first, freq, n + 1) && OnGrid(first, freq, all[i].timestamp)
      ensures BarOf(all[i]) == WindowBar(rows, all[i].product, all[i].timestamp, freq) && PricedBy(all[i], quotes, freq)
    {
      if i < |candles| {
        assert all[i] == candles[i];
        assert PricedBy(candles[i], quotes, freq);
      } else {
        assert all[i] == groups[i - |candles|];
        assert PricedBy(groups[i - |candles|], quotes, freq);
      }
    }
    forall p: string, k: nat | k < n + 1 && WindowBar(rows, p, WindowAt(first, freq, k), freq) != Empty
      ensures HasRow(all, p, WindowAt(first, freq, k))
    {
      if k < n {
        RowStays(candles, all, p, WindowAt(first, freq, k));
      } else {
        RowsFollow(candles, groups, p, w);
      }
    }
  }

  method CollectWindows(rows: seq<Row>, quotes: seq<Row>, first: int, freq: int, endTS: int)
    returns (candles: seq<Row>, anchor: int, ghost n: nat)
    requires freq > 0 && AllMatched(rows, quotes)
    ensures anchor == WindowAt(first, freq, n) && endTS < anchor + freq && (n > 0 ==> anchor <= endTS)
    ensures Collected(rows, quotes, first, freq, n, candles)
  {
    candles, anchor, n := [], first, 0;
    while anchor + freq <= endTS
      invariant anchor == WindowAt(first, freq, n) && (n > 0 ==> anchor <= endTS)
      invariant Collected(rows, quotes, first, freq, n, candles)
      decreases endTS - anchor
    {
      var groups := SelectGroups(rows, quotes, anchor, freq);
      CollectOne(rows, quotes, first, freq, n, candles, groups);
      NextWindow(first, freq, n);
      candles := candles + groups;
      anchor := anchor + freq;
      n := n + 1;
    }
  }

  // ---------------------------------------------------------------- inserting one-minute candles

  lemma MinuteGrid(first: int, w: int)
    requires first % 60 == 0 && OnGrid(first, 60, w)
    ensures w % 60 == 0
  {
    var k: nat :| w == WindowAt(first, 60, k);
  }

  lemma MinuteIsWindow(first: int, stop: int, w: int, n: nat) returns (k: nat)
    requires first % 60 == 0 && w % 60 == 0 && stop == WindowAt(first, 60, n) && first <= w < stop
    ensures k < n && w == WindowAt(first, 60, k)
  {
    k := (w - first) / 60;
  }

  /** What the insert loop keeps: rows only join at the end, under keys not taken, and each is one of
      the collected candles. */
  ghost predicate Inserted(before: seq<Row>, after: seq<Row>, candles: seq<Row>, k: nat)
    requires k <= |candles|
  {
    && |before| <= |after| && after[..|before|] == before
    && (forall i | |before| <= i < |after| :: after[i] in candles)
    && (forall i, j | 0 <= i < j < |after| && |before| <= j :: !SameKey(after[i], after[j]))
    && (forall i | 0 <= i < k :: HasRow(after, candles[i].product, candles[i].timestamp))
  }

  lemma InsertedNext(before: seq<Row>, after: seq<Row>, candles: seq<Row>, k: nat)
    requires k < |candles| && Inserted(before, after, candles, k)
    requires !HasRow(after, candles[k].product, candles[k].timestamp)
    ensures Inserted(before, after + [candles[k]], candles, k + 1)
  {
    var more := after + [candles[k]];
    assert more[..|before|] == before;
    forall i | 0 <= i < k + 1
      ensures HasRow(more, candles[i].product, candles[i].timestamp)
    {
      if i < k {
        RowStays(after, more, candles[i].product, candles[i].timestamp);
      } else {
        assert more[|after|] == candles[k];
      }
    }
  }

  /** Creating a row under a taken key fails and is only logged. */
  method InsertRows(rows: seq<Row>, candles: seq<Row>) returns (table: seq<Row>)
    ensures Inserted(rows, table, candles, |candles|)
  {
    table := rows;
    for k := 0 to |candles|
      invariant Inserted(rows, table, candles, k)
    {
      if !HasRow(table, candles[k].product, candles[k].timestamp) {
        InsertedNext(rows, table, candles, k);
        table := table + [candles[k]];
      }
    }
  }

  lemma InsertedIsPriced(before: seq<Row>, after: seq<Row>, results: seq<Row>, deals: seq<Row>, candles: seq<Row>, first: int, n: nat)
    requires Collected(results, deals, first, 60, n, candles) && Inserted(before, after, candles, |candles|)
    ensures AddedPriced(before, after, deals)
  {
    forall i | |before| <= i < |after|
      ensures PricedBy(after[i], deals, 60)
    {
      var j :| 0 <= j < |candles| && candles[j] == after[i];
      assert PricedBy(candles[j], deals, 60);
    }
  }

  lemma InsertedIsExtended(before: seq<Row>, after: seq<Row>, results: seq<Row>, deals: seq<Row>, candles: seq<Row>, first: int, n: nat)
    requires first % 60 == 0 && Collected(results, deals, first, 60, n, candles)
    requires Inserted(before, after, candles, |candles|)
    ensures Extended(before, after, results, first, WindowAt(first, 60, n))
  {
    var stop := WindowAt(first, 60, n);
    forall i | |before| <= i < |after|
      ensures first <= after[i].timestamp < stop && Exact(after[i], results)
    {
      var j :| 0 <= j < |candles| && candles[j] == after[i];
      MinuteGrid(first, candles[j].timestamp);
    }
    forall p: string, w: int | first <= w < stop && w % 60 == 0 && Minute(results, p, w) != Empty
      ensures HasRow(after, p, w)
    {
      var k := MinuteIsWindow(first, stop, w, n);
      assert WindowBar(results, p, WindowAt(first, 60, k), 60) != Empty;
      assert HasRow(candles, p, w);
      var i :| 0 <= i < |candles| && candles[i].product == p && candles[i].timestamp == w;
    }
  }

  lemma StopsAtWindow(first: int, endTS: int, anchor: int, n: nat)
    requires first % 60 == 0 && anchor == WindowAt(first, 60, n) && endTS < anchor + 60 && (n > 0 ==> anchor <= endTS)
    ensures StopsAt(first, endTS, anchor)
  {
    assert n == 0 ==> anchor == first;
  }

  // ---------------------------------------------------------------- merging

  /** The latest row not after `ts`, or -1. */
  function LatestUpTo(rows: seq<Row>, ts: int): (m: int)
    ensures m == -1 || exists i | 0 <= i < |rows| :: rows[i].timestamp == m && m <= ts
    ensures (forall i | 0 <= i < |rows| :: rows[i].timestamp >= 0) ==> forall i | 0 <= i < |rows| && rows[i].timestamp <= ts :: rows[i].timestamp <= m
  {
    if rows == [] then -1
    else
      var n := |rows| - 1;
      var m := LatestUpTo(rows[..n], ts);
      if rows[n].timestamp <= ts && (m == -1 || rows[n].timestamp > m) then rows[n].timestamp else m
  }

  function Without(rows: seq<Row>, c: Row): (r: seq<Row>)
    ensures forall x :: x in r <==> x in rows && !SameKey(x, c)
    ensures Keyed(rows) ==> Keyed(r)
  {
    if rows == [] then []
    else
      var n := |rows| - 1;
      assert rows == rows[..n] + [rows[n]];
      if SameKey(rows[n], c) then Without(rows[..n], c)
      else
        var r := Without(rows[..n], c);
        assert forall i | 0 <= i < |r| :: r[i] in rows[..n];
        r + [rows[n]]
  }

  predicate AlignedTo(rows: seq<Row>, freq: int)
    requires freq > 0
  {
    forall i | 0 <= i < |rows| :: rows[i].timestamp % freq == 0
  }

  datatype MergeOutcome = TooFine | BadSpan | NoKlines | MergedTo(anchor: int)

  function MergeFrom(dest: seq<Row>, m1: seq<Row>, startTS: int): int {
    var persisted := LatestUpTo(dest, startTS);
    var ac := if persisted > 0 then persisted else startTS;
    if ac == 0 then MinTimestamp(m1) else ac
  }

  /** The first window: where the table has come, or the window of the start time. */
  function MergeFirst(dest: seq<Row>, m1: seq<Row>, startTS: int, freq: int): int
    requires freq > 0
  {
    if LatestUpTo(dest, startTS) > 0 then MergeFrom(dest, m1, startTS)
    else KlinePadding.AnchorTime(MergeFrom(dest, m1, startTS), freq)
  }

  predicate MergeNeedsKlines(dest: seq<Row>, m1: seq<Row>, startTS: int) {
    LatestUpTo(dest, startTS) <= 0 && startTS == 0 && MinTimestamp(m1) == -1
  }

  ghost predicate InMerge(r: Row, m1: seq<Row>, first: int, freq: int, n: nat) {
    && first <= r.timestamp < WindowAt(first, freq, n) && OnGrid(first, freq, r.timestamp)
    && WindowBar(m1, r.product, r.timestamp, freq) != Empty
  }

  /** The table shows exactly `bar` for a product and a window. */
  ghost predicate Shows(rows: seq<Row>, p: string, w: int, bar: Bar) {
    && HasRow(rows, p, w)
    && forall i | 0 <= i < |rows| && rows[i].product == p && rows[i].timestamp == w :: BarOf(rows[i]) == bar
  }

  /** The specification of one merge: `n` windows are written anew, all other rows stay. */
  ghost predicate Merged(before: seq<Row>, after: seq<Row>, m1: seq<Row>, first: int, freq: int, n: nat) {
    && Keyed(after)
    && (forall p: string, k: nat {:trigger WindowBar(m1, p, WindowAt(first, freq, k), freq)} | k < n ::
         var bar := WindowBar(m1, p, WindowAt(first, freq, k), freq);
         bar != Empty ==> Shows(after, p, WindowAt(first, freq, k), bar))
    && (forall r {:trigger PricedBy(r, m1, freq)} :: r in after && InMerge(r, m1, first, freq, n) ==> PricedBy(r, m1, freq))
    && (forall r :: r in after ==> r in before || InMerge(r, m1, first, freq, n))
    && (forall r :: r in before ==> r in after || InMerge(r, m1, first, freq, n))
  }

  /** What `MergeKlineM1` does to its table; nothing when there is nothing to merge. */
  ghost predicate MergedFrom(freq: int, dest: seq<Row>, m1: seq<Row>, startTS: int, endTS: int, n: nat, after: seq<Row>)
    requires freq > 0
  {
    if MergeNeedsKlines(dest, m1, startTS) then after == dest
    else
      var first := MergeFirst(dest, m1, startTS, freq);
      var anchor := WindowAt(first, freq, n);
      endTS < anchor + freq && (n > 0 ==> anchor <= endTS) && Merged(dest, after, m1, first, freq, n)
  }

  /** A merge in the terms of the candles: of `n` windows from `first` on, each row tells its candles and has
      their prices, each candle has its window's row, and all other rows are as they were. */
  ghost predicate MergeTells(before: seq<Row>, after: seq<Row>, m1: seq<Row>, first: int, freq: int, n: nat) {
    && Keyed(after)
    && (forall r {:trigger Tells(r, m1, freq)} :: r in after && InMerge(r, m1, first, freq, n) ==> Tells(r, m1, freq) && PricedBy(r, m1, freq))
    && (forall i: nat, k: nat {:trigger In(m1[i], m1[i].product, WindowAt(first, freq, k), WindowAt(first, freq, k) + freq)}
          | i < |m1| && k < n && In(m1[i], m1[i].product, WindowAt(first, freq, k), WindowAt(first, freq, k) + freq) ::
          HasRow(after, m1[i].product, WindowAt(first, freq, k)))
    && (forall r :: r in after ==> r in before || InMerge(r, m1, first, freq, n))
    && (forall r :: r in before ==> r in after || InMerge(r, m1, first, freq, n))
  }

  lemma MergedTells(before: seq<Row>, after: seq<Row>, m1: seq<Row>, first: int, freq: int, n: nat)
    requires freq > 0 && Merged(before, after, m1, first, freq, n)
    ensures MergeTells(before, after, m1, first, freq, n)
  {
    forall r | r in after && InMerge(r, m1, first, freq, n)
      ensures Tells(r, m1, freq) && PricedBy(r, m1, freq)
    {
      MergedRowTells(before, after, m1, first, freq, n, r);
    }
    forall i: nat, k: nat | i < |m1| && k < n && In(m1[i], m1[i].product, WindowAt(first, freq, k), WindowAt(first, freq, k) + freq)
      ensures HasRow(after, m1[i].product, WindowAt(first, freq, k))
    {
      OverSome(m1, m1[i].product, WindowAt(first, freq, k), WindowAt(first, freq, k) + freq, i);
      assert WindowBar(m1, m1[i].product, WindowAt(first, freq, k), freq) != Empty;
    }
  }

  lemma MergedRowTells(before: seq<Row>, after: seq<Row>, m1: seq<Row>, first: int, freq: int, n: nat, r: Row)
    requires freq > 0 && Merged(before, after, m1, first, freq, n) && r in after && InMerge(r, m1, first, freq, n)
    ensures Tells(r, m1, freq) && PricedBy(r, m1, freq)
  {
    var k: nat :| r.timestamp == WindowAt(first, freq, k);
    GridBelow(first, freq, k, n);
    assert WindowBar(m1, r.product, WindowAt(first, freq, k), freq) != Empty;
    var j :| 0 <= j < |after| && after[j] == r;
    assert BarOf(after[j]) == WindowBar(m1, r.product, r.timestamp, freq);
    OverIs(BarOf(r), m1, r.product, r.timestamp, r.timestamp + freq);
    assert PricedBy(r, m1, freq);
  }

  /** What the delete-and-create loop keeps. */
  ghost predicate Replaced(before: seq<Row>, after: seq<Row>, candles: seq<Row>, k: nat)
    requires k <= |candles|
  {
    && Keyed(after)
    && (forall i | 0 <= i < k :: candles[i] in after)
    && (forall r :: r in after ==> r in before || r in candles[..k])
    && (forall r :: r in before ==> r in after || exists i | 0 <= i < k :: SameKey(candles[i], r))
  }

  lemma ReplacedNext(before: seq<Row>, after: seq<Row>, candles: seq<Row>, k: nat)
    requires Keyed(candles) && k < |candles| && Replaced(before, after, candles, k)
    ensures Replaced(before, Without(after, candles[k]) + [candles[k]], candles, k + 1)
  {
    var kept := Without(after, candles[k]);
    var next := kept + [candles[k]];
    assert candles[..k + 1] == candles[..k] + [candles[k]];
    forall i | 0 <= i < |kept|
      ensures !SameKey(kept[i], candles[k])
    {
      assert kept[i] in kept;
    }
    forall i | 0 <= i < k + 1
      ensures candles[i] in next
    {
      if i < k {
        assert !SameKey(candles[i], candles[k]);
        assert candles[i] in kept;
      }
    }
    forall r | r in before
      ensures r in next || exists i | 0 <= i < k + 1 :: SameKey(candles[i], r)
    {
      if r in after {
        if SameKey(r, candles[k]) {
          assert SameKey(candles[k], r);
        } else {
          assert r in kept;
        }
      }
    }
  }

  /** Delete and create, one row after the other. */
  method ReplaceRows(dest: seq<Row>, candles: seq<Row>) returns (table: seq<Row>)
    requires Keyed(dest) && Keyed(candles)
    ensures Replaced(dest, table, candles, |candles|)
  {
    table := dest;
    for k := 0 to |candles|
      invariant Replaced(dest, table, candles, k)
    {
      ReplacedNext(dest, table, candles, k);
      table := Without(table, candles[k]) + [candles[k]];
    }
  }

  lemma GridBelow(first: int, freq: int, k: nat, n: nat)
    requires freq > 0 && WindowAt(first, freq, k) < WindowAt(first, freq, n)
    ensures k < n
  {
    FixedPoint.CancelLt(k, n, freq);
  }

  /** The row of a written window is the candle collected for it. */
  lemma WrittenIsCollected(after: seq<Row>, m1: seq<Row>, candles: seq<Row>, first: int, freq: int, n: nat, r: Row)
    requires freq > 0 && Collected(m1, m1, first, freq, n, candles) && Keyed(after)
    requires forall i | 0 <= i < |candles| :: candles[i] in after
    requires r in after && InMerge(r, m1, first, freq, n)
    ensures PricedBy(r, m1, freq)
  {
    var k: nat :| r.timestamp == WindowAt(first, freq, k);
    GridBelow(first, freq, k, n);
    assert WindowBar(m1, r.product, WindowAt(first, freq, k), freq) != Empty;
    assert HasRow(candles, r.product, r.timestamp);
    var i :| 0 <= i < |candles| && candles[i].product == r.product && candles[i].timestamp == r.timestamp;
    assert PricedBy(candles[i], m1, freq);
    var j :| 0 <= j < |after| && after[j] == candles[i];
    var l :| 0 <= l < |after| && after[l] == r;
    OneRowPerKey(after, l, j);
  }

  lemma ReplacedIsMerged(before: seq<Row>, after: seq<Row>, m1: seq<Row>, candles: seq<Row>, first: int, freq: int, n: nat)
    requires freq > 0 && Collected(m1, m1, first, freq, n, candles) && Replaced(before, after, candles, |candles|)
    ensures Merged(before, after, m1, first, freq, n)
  {
    assert candles[..|candles|] == candles;
    forall p: string, k: nat | k < n && WindowBar(m1, p, WindowAt(first, freq, k), freq) != Empty
      ensures Shows(after, p, WindowAt(first, freq, k), WindowBar(m1, p, WindowAt(first, freq, k), freq))
    {
      ShownOnce(after, m1, candles, p, WindowAt(first, freq, k), freq);
    }
    forall r | r in after && InMerge(r, m1, first, freq, n)
      ensures PricedBy(r, m1, freq)
    {
      WrittenIsCollected(after, m1, candles, first, freq, n, r);
    }
    forall r | r in before
      ensures r in after || InMerge(r, m1, first, freq, n)
    {
      if r !in after {
        var i :| 0 <= i < |candles| && SameKey(candles[i], r);
        assert BarOf(candles[i]) == WindowBar(m1, candles[i].product, candles[i].timestamp, freq);
      }
    }
  }

  lemma OneRowPerKey(rows: seq<Row>, i: nat, j: nat)
    requires Keyed(rows) && i < |rows| && j < |rows|
    ensures SameKey(rows[i], rows[j]) ==> i == j
  {
    var low, high := if i < j then i else j, if i < j then j else i;
    assert low < high ==> !SameKey(rows[low], rows[high]);
  }

  lemma ShownOnce(after: seq<Row>, m1: seq<Row>, candles: seq<Row>, p: string, w: int, freq: int)
    requires Keyed(after) && HasRow(candles, p, w)
    requires forall i | 0 <= i < |candles| :: candles[i] in after
    requires forall i | 0 <= i < |candles| :: BarOf(candles[i]) == WindowBar(m1, candles[i].product, candles[i].timestamp, freq)
    ensures Shows(after, p, w, WindowBar(m1, p, w, freq))
  {
    var i :| 0 <= i < |candles| && candles[i].product == p && candles[i].timestamp == w;
    var j :| 0 <= j < |after| && after[j] == candles[i];
    forall l | 0 <= l < |after| && after[l].product == p && after[l].timestamp == w
      ensures l == j
    {
      OneRowPerKey(after, l, j);
    }
  }

  lemma GridAligned(first: int, freq: int, w: int)
    requires freq > 0 && first % freq == 0 && OnGrid(first, freq, w)
    ensures w % freq == 0
  {
    var k: nat :| w == WindowAt(first, freq, k);
    var q := first / freq;
    assert first == q * freq;
    assert w == (q + k) * freq;
    KlinePadding.MultipleHasNoRemainder(q + k, freq);
  }

  lemma WholeMinutes(w: int, freq: int)
    requires freq > 0 && freq % 60 == 0 && w % freq == 0
    ensures w % 60 == 0
  {
    var q, m := w / freq, freq / 60;
    assert w == q * freq;
    assert freq == m * 60;
    assert q * (m * 60) == (q * m) * 60;
  }

  lemma MergedAligned(before: seq<Row>, after: seq<Row>, m1: seq<Row>, first: int, freq: int, n: nat)
    requires freq > 0 && first % freq == 0 && AlignedTo(before, freq) && Merged(before, after, m1, first, freq, n)
    ensures AlignedTo(after, freq)
  {
    forall i | 0 <= i < |after|
      ensures after[i].timestamp % freq == 0
    {
      assert after[i] in after;
      if after[i] !in before {
        GridAligned(first, freq, after[i].timestamp);
      }
    }
  }

  lemma FirstAligned(dest: seq<Row>, m1: seq<Row>, startTS: int, freq: int)
    requires freq > 0 && AlignedTo(dest, freq)
    ensures MergeFirst(dest, m1, startTS, freq) % freq == 0
  {
    if LatestUpTo(dest, startTS) <= 0 {
      KlinePadding.AnchorAligned(MergeFrom(dest, m1, startTS), freq);
    }
  }

  // ---------------------------------------------------------------- the jobs

  class Backend {
    var results: seq<Row>
    var deals: seq<Row>
    var m1: seq<Row>
    var merged: map<int, seq<Row>>
    var maxBlockTimestamp: int    // in memory only: 0 until the process has seen a block
    var anchorNewStartTS: int     // in memory only
    ghost var chainTime: int      // the time of the latest block, whether this process saw it or not
    ghost var done: int           // up to where all results are in candles

    ghost function View(): Service
      reads this
    {
      Service(results, deals, m1, anchorNewStartTS, chainTime)
    }

    ghost predicate Tables()
      reads this
    {
      forall freq | freq in merged :: freq > 0 && Keyed(merged[freq]) && AlignedTo(merged[freq], freq)
    }

    ghost predicate Valid()
      reads this
    {
      Good(View(), done) && Quoted(View()) && (maxBlockTimestamp == 0 || maxBlockTimestamp == chainTime)
    }

    constructor ()
      ensures Valid() && Tables() && View() == Service([], [], [], 0, 0)
    {
      results, deals, m1, merged := [], [], [], map[];
      maxBlockTimestamp, anchorNewStartTS, chainTime, done := 0, 0, 0, 0;
    }

    /** A process that ends loses what it had only in memory. */
    method Restart()
      requires Valid()
      modifies this`maxBlockTimestamp, this`anchorNewStartTS
      ensures Valid() && maxBlockTimestamp == 0 && View() == old(View()).(start := 0)
    {
      maxBlockTimestamp, anchorNewStartTS := 0, 0;
    }

    /** The end of a block announces its time, then stores its results and deals. */
    method StoreDealAndMatchResult(time: int, batch: seq<Row>, trades: seq<Row>)
      requires Valid() && chainTime <= time && 0 < time
      requires AllAt(batch, time) && AllAt(trades, time) && AllMatched(batch, trades) && AllMatched(trades, batch)
      modifies this`maxBlockTimestamp, this`chainTime, this`results, this`deals
      ensures Valid() && maxBlockTimestamp == time
      ensures View() == old(View()).(clock := time, results := old(results) + batch, deals := old(deals) + trades)
    {
      ghost var s := View();
      ghost var t := s.(clock := time);
      ghost var more := NextKeeps(s, NewBlock(time), t, done);
      StoreKeeps(t, batch, trades, done);
      StoreKeepsQuoted(t, done, batch, trades);
      maxBlockTimestamp, chainTime := time, time;
      results := results + batch;
      deals := deals + trades;
    }

    /** Each candle is made of the results of its minute, and of its deals for the prices. */
    method CreateKline1M(startTS: int, endTS: int) returns (out: Outcome)
      requires AllMatched(results, deals)
      modifies this`m1
      ensures Created(results, old(m1), startTS, endTS, m1, out) && AddedPriced(old(m1), m1, deals)
      ensures out.UpTo? ==> AddedTell(old(m1), m1, results, FirstMinute(results, old(m1), startTS), out.anchor)
    {
      if endTS <= startTS {
        return BadRange;
      }
      var acTS := startTS;
      var maxTSPersistent := MaxTimestamp(m1);
      if maxTSPersistent > 0 && maxTSPersistent > startTS {
        acTS := maxTSPersistent + 60;
      }
      if acTS == 0 {
        var minDataSourceTS := MinTimestamp(results);
        if minDataSourceTS == -1 {
          return NoDeals;
        }
        acTS := minDataSourceTS;
      }
      var first := MinuteOf(acTS);
      MinuteBounds(acTS);
      var candles, anchor, n := CollectWindows(results, deals, first, 60, endTS);
      m1 := InsertRows(m1, candles);
      StopsAtWindow(first, endTS, anchor, n);
      InsertedIsExtended(old(m1), m1, results, deals, candles, first, n);
      InsertedIsPriced(old(m1), m1, results, deals, candles, first, n);
      ExtendedTells(old(m1), m1, results, first, anchor);
      out := UpTo(anchor);
    }

    /** The first call of `generateKline1M`, at wall-clock time `now`. By block time it keeps the candles
        good; by the wall clock it does exactly as long as that is not ahead of the chain. */
    method Start(now: int) returns (out: Outcome)
      requires Valid() && 60 < now
      modifies this`m1, this`anchorNewStartTS, this`done
      ensures var endTS := if old(maxBlockTimestamp) > 0 then maxBlockTimestamp else now - 60;
              && Begun(old(View()), endTS, out, View())
              && (MinuteOf(endTS) <= chainTime ==> Valid() && AllCounted(View()))
              && (old(maxBlockTimestamp) > 0 ==> MinuteOf(endTS) <= chainTime)
    {
      var endTS := now - 60;
      if maxBlockTimestamp > 0 {
        endTS := maxBlockTimestamp;
      }
      MinuteBounds(endTS);
      ghost var s := View();
      out := CreateKline1M(0, endTS);
      anchorNewStartTS := match out case UpTo(anchor) => anchor case NoDeals => 0 case BadRange => -1;
      if MinuteOf(endTS) <= chainTime {
        done := NextKeepsAll(s, Begin(endTS, out), View(), done);
      }
    }

    /** One round of `generateKline1M`. */
    method DoWork() returns (out: Outcome)
      requires Valid()
      modifies this`m1, this`anchorNewStartTS, this`done
      ensures Valid() && AllCounted(View())
      ensures old(maxBlockTimestamp) == 0 ==> View() == old(View())
      ensures old(maxBlockTimestamp) > 0 ==> Next(old(View()), Work(maxBlockTimestamp, out), View())
    {
      var current := maxBlockTimestamp;
      if current <= 0 {
        GoodCountsAll(View(), done);
        return NoDeals;
      }
      MinuteBounds(current);
      ghost var s := View();
      out := CreateKline1M(anchorNewStartTS, current);
      ghost var t := s.(m1 := m1, start := if out.UpTo? && out.anchor > s.start then out.anchor else s.start);
      ghost var more := NextKeepsAll(s, Work(current, out), t, done);
      if out.UpTo? && out.anchor > anchorNewStartTS {
        anchorNewStartTS := out.anchor;
      }
      done := more;
      assert View() == t;
    }

    method MergeKlineM1(startTS: int, endTS: int, freq: int) returns (out: MergeOutcome, ghost n: nat)
      requires Tables() && freq in merged
      modifies this`merged
      ensures Tables() && merged.Keys == old(merged).Keys
      ensures forall other | other in merged && other != freq :: merged[other] == old(merged)[other]
      ensures out == TooFine <==> freq <= 60
      ensures out == BadSpan <==> freq > 60 && endTS <= startTS
      ensures out == NoKlines <==> freq > 60 && startTS < endTS && MergeNeedsKlines(old(merged)[freq], m1, startTS)
      ensures !out.MergedTo? ==> merged == old(merged)
      ensures out.MergedTo? ==> out.anchor == WindowAt(MergeFirst(old(merged)[freq], m1, startTS, freq), freq, n)
      ensures out.MergedTo? ==> MergeTells(old(merged)[freq], merged[freq], m1, MergeFirst(old(merged)[freq], m1, startTS, freq), freq, n)
      ensures freq > 60 && startTS < endTS ==> MergedFrom(freq, old(merged)[freq], m1, startTS, endTS, n, merged[freq])
    {
      n := 0;
      if freq <= 60 {
        return TooFine, 0;
      }
      if endTS <= startTS {
        return BadSpan, 0;
      }
      var dest := merged[freq];
      var acTS := startTS;
      var maxTSPersistent := LatestUpTo(dest, startTS);
      if maxTSPersistent > 0 {
        acTS := maxTSPersistent;
      }
      if acTS == 0 {
        var minTS := MinTimestamp(m1);
        if minTS == -1 {
          return NoKlines, 0;
        }
        acTS := minTS;
      }
      var first := if maxTSPersistent > 0 then acTS else KlinePadding.AnchorTime(acTS, freq);
      FirstAligned(dest, m1, startTS, freq);
      SelfMatched(m1);
      var candles, anchor;
      candles, anchor, n := CollectWindows(m1, m1, first, freq, endTS);
      var table := ReplaceRows(dest, candles);
      ReplacedIsMerged(dest, table, m1, candles, first, freq, n);
      MergedAligned(dest, table, m1, first, freq, n);
      MergedTells(dest, table, m1, first, freq, n);
      merged := merged[freq := table];
      out := MergedTo(anchor);
    }
  }
}
