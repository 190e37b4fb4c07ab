/** Deleting old candles (x/backend/keeper/keeper_channel.go, x/backend/orm/orm.go), and what a merge after
    it makes of a window that lost some of its one-minute candles. */
module KlineCleanUp {
  import opened KlineRows
  import opened KlineTables
  import opened KlineKeeper
  import KlinePadding
  import FixedPoint

  /** Frequencies are whole minutes, more than one. */
  predicate Frequency(freq: int) {
    freq > 60 && freq % 60 == 0
  }

  // ---------------------------------------------------------------- windows

  lemma GridFrom(first: int, freq: int, w: int) returns (k: nat)
    requires freq > 0 && first % freq == 0 && w % freq == 0 && first <= w
    ensures w == WindowAt(first, freq, k)
  {
    var x, y := first / freq, w / freq;
    assert first == x * freq && w == y * freq;
    FixedPoint.CancelLe(x, y, freq);
    k := y - x;
    assert w == first + (y - x) * freq;
  }

  lemma AnchorBelow(ts: int, freq: int)
    requires freq > 0 && ts >= 0
    ensures var a := KlinePadding.AnchorTime(ts, freq); 0 <= a <= ts < a + freq && a % freq == 0
    ensures ts >= freq ==> KlinePadding.AnchorTime(ts, freq) >= freq
  {
    KlinePadding.AnchorAligned(ts, freq);
    var a := KlinePadding.AnchorTime(ts, freq);
    assert a == (ts / freq) * freq;
    assert ts / freq >= 0;
    if ts >= freq { assert ts / freq >= 1; }
  }

  lemma WindowEndsBy(w: int, a: int, freq: int)
    requires freq > 0 && w % freq == 0 && a % freq == 0 && w < a
    ensures w + freq <= a
  {
    KlinePadding.DifferenceAligned(w, a, freq);
    KlinePadding.PeriodFits(w, a, freq);
  }

  lemma BarHasRow(rows: seq<Row>, p: string, a: int, b: int) returns (i: nat)
    requires Over(rows, p, a, b) != Empty
    ensures i < |rows| && In(rows[i], p, a, b)
  {
    if forall j | 0 <= j < |rows| :: !In(rows[j], p, a, b) {
      OverNone(rows, p, a, b);
    }
    i :| i < |rows| && In(rows[i], p, a, b);
  }

  // ---------------------------------------------------------------- the rows that are left

  /** `deleteKlinesBefore`. */
  function Kept(rows: seq<Row>, cut: int): (r: seq<Row>)
    ensures forall x :: x in r <==> x in rows && cut <= x.timestamp
    ensures Keyed(rows) ==> Keyed(r)
  {
    if rows == [] then []
    else
      var n := |rows| - 1;
      assert rows == rows[..n] + [rows[n]];
      var r := Kept(rows[..n], cut);
      assert forall i | 0 <= i < |r| :: r[i] in rows[..n];
      if rows[n].timestamp < cut then r else r + [rows[n]]
  }

  lemma KeptIsRow(rows: seq<Row>, cut: int, i: nat) returns (j: nat)
    requires i < |Kept(rows, cut)|
    ensures j < |rows| && rows[j] == Kept(rows, cut)[i] && cut <= rows[j].timestamp
  {
    assert Kept(rows, cut)[i] in Kept(rows, cut);
    j :| j < |rows| && rows[j] == Kept(rows, cut)[i];
  }

  lemma RowIsKept(rows: seq<Row>, cut: int, j: nat) returns (i: nat)
    requires j < |rows| && cut <= rows[j].timestamp
    ensures i < |Kept(rows, cut)| && Kept(rows, cut)[i] == rows[j]
  {
    assert rows[j] in Kept(rows, cut);
    i :| i < |Kept(rows, cut)| && Kept(rows, cut)[i] == rows[j];
  }

  lemma {:induction false} KeptOver(m1: seq<Row>, cut: int, p: string, a: int, b: int)
    ensures Over(Kept(m1, cut), p, a, b) == Over(m1, p, if a < cut then cut else a, b)
    decreases |m1|
  {
    if m1 != [] {
      var n := |m1| - 1;
      KeptOver(m1[..n], cut, p, a, b);
      if m1[n].timestamp >= cut {
        OverConcat(Kept(m1[..n], cut), [m1[n]], p, a, b);
        assert [m1[n]][..0] == [];
      }
    }
  }

  /** For product `p` the time `x` cuts the window in two, with candles on both sides. */
  predicate Split(m1: seq<Row>, x: int, p: string, w: int, freq: int) {
    w < x < w + freq && Over(m1, p, w, x) != Empty && Over(m1, p, x, w + freq) != Empty
  }

  predicate Traded(m1: seq<Row>) {
    forall i | 0 <= i < |m1| :: m1[i].volume > 0.0
  }

  lemma {:induction false} TradedBar(m1: seq<Row>, p: string, a: int, b: int)
    requires Traded(m1) && Over(m1, p, a, b) != Empty
    ensures Over(m1, p, a, b).volume > 0.0
    decreases |m1|
  {
    var n := |m1| - 1;
    if Over(m1[..n], p, a, b) != Empty {
      TradedBar(m1[..n], p, a, b);
    }
  }

  /** Deleting part of a window's candles changes its aggregate: the volume is less. */
  lemma {:induction false} CutWindow(m1: seq<Row>, cut: int, p: string, w: int, freq: int)
    requires Split(m1, cut, p, w, freq) && Traded(m1)
    ensures WindowBar(Kept(m1, cut), p, w, freq) == Over(m1, p, cut, w + freq) != WindowBar(m1, p, w, freq)
  {
    KeptOver(m1, cut, p, w, w + freq);
    OverSplit(m1, p, w, cut, w + freq);
    TradedBar(m1, p, w, cut);
  }

  /** Any other window keeps all its candles, or has none left to be merged from. */
  lemma {:induction false} UncutWindow(m1: seq<Row>, cut: int, p: string, w: int, freq: int)
    requires freq > 0 && !Split(m1, cut, p, w, freq) && WindowBar(Kept(m1, cut), p, w, freq) != Empty
    ensures WindowBar(Kept(m1, cut), p, w, freq) == WindowBar(m1, p, w, freq)
    ensures forall i | 0 <= i < |m1| && In(m1[i], p, w, w + freq) :: cut <= m1[i].timestamp
  {
    KeptOver(m1, cut, p, w, w + freq);
    if w < cut {
      if cut < w + freq {
        NothingLost(m1, cut, p, w, freq);
      } else {
        OverNone(m1, p, cut, w + freq);
      }
    }
  }

  lemma {:induction false} NothingLost(m1: seq<Row>, cut: int, p: string, w: int, freq: int)
    requires w < cut < w + freq && Over(m1, p, w, cut) == Empty
    ensures Over(m1, p, cut, w + freq) == WindowBar(m1, p, w, freq)
    ensures forall i | 0 <= i < |m1| && In(m1[i], p, w, w + freq) :: cut <= m1[i].timestamp
  {
    OverSplit(m1, p, w, cut, w + freq);
    EmptyHasNone(m1, p, w, cut);
    forall i | 0 <= i < |m1| && In(m1[i], p, w, w + freq)
      ensures cut <= m1[i].timestamp
    {
      assert !In(m1[i], p, w, cut);
    }
  }

  lemma {:induction false} EmptyHasNone(rows: seq<Row>, p: string, a: int, b: int)
    requires Over(rows, p, a, b) == Empty
    ensures forall i | 0 <= i < |rows| :: !In(rows[i], p, a, b)
  {
    forall i | 0 <= i < |rows|
      ensures !In(rows[i], p, a, b)
    {
      if In(rows[i], p, a, b) { OverSome(rows, p, a, b, i); }
    }
  }

  lemma KeptSame(m1: seq<Row>, cut: int, p: string, a: int, b: int)
    requires forall i | 0 <= i < |m1| && In(m1[i], p, a, b) :: cut <= m1[i].timestamp
    ensures SameIn(Kept(m1, cut), m1, p, a, b)
  {
    var kept := Kept(m1, cut);
    forall i | 0 <= i < |kept|
      ensures kept[i] in m1
    {
      assert kept[i] in kept;
    }
  }

  /** A candle priced by rows of which none of its window was deleted is priced by all rows. */
  lemma KeptPrices(c: Row, m1: seq<Row>, cut: int, freq: int)
    requires PricedBy(c, Kept(m1, cut), freq)
    requires forall i | 0 <= i < |m1| && In(m1[i], c.product, c.timestamp, c.timestamp + freq) :: cut <= m1[i].timestamp
    ensures PricedBy(c, m1, freq)
  {
    KeptSame(m1, cut, c.product, c.timestamp, c.timestamp + freq);
    SamePrices(c, Kept(m1, cut), m1, freq);
  }

  // ---------------------------------------------------------------- a merge after a deletion

  lemma ShowsStay(before: seq<Row>, after: seq<Row>, p: string, w: int, bar: Bar)
    requires Keyed(after) && Shows(before, p, w, bar)
    requires forall r | r in before && r.product == p && r.timestamp == w :: r in after
    ensures Shows(after, p, w, bar)
  {
    var i :| 0 <= i < |before| && before[i].product == p && before[i].timestamp == w;
    assert before[i] in before;
    var j :| 0 <= j < |after| && after[j] == before[i];
    forall l | 0 <= l < |after| && after[l].product == p && after[l].timestamp == w
      ensures BarOf(after[l]) == bar
    {
      OneRowPerKey(after, l, j);
    }
  }

  lemma ShowsOne(rows: seq<Row>, p: string, w: int, a: Bar, b: Bar)
    requires Shows(rows, p, w, a)
    ensures Shows(rows, p, w, b) <==> a == b
  {
    var i :| 0 <= i < |rows| && rows[i].product == p && rows[i].timestamp == w;
  }

  /** A window with candles that the merge reaches is written from them. */
  lemma Rewritten(before: seq<Row>, after: seq<Row>, m1: seq<Row>, first: int, freq: int, n: nat, p: string, w: int)
    requires freq > 0 && first % freq == 0 && Merged(before, after, m1, first, freq, n)
    requires w % freq == 0 && first <= w < WindowAt(first, freq, n) && WindowBar(m1, p, w, freq) != Empty
    ensures Shows(after, p, w, WindowBar(m1, p, w, freq))
  {
    var k := GridFrom(first, freq, w);
    GridBelow(first, freq, k, n);
    assert WindowBar(m1, p, WindowAt(first, freq, k), freq) != Empty;
  }

  lemma NotRewritten(before: seq<Row>, after: seq<Row>, m1: seq<Row>, first: int, freq: int, n: nat, p: string, w: int, bar: Bar)
    requires Merged(before, after, m1, first, freq, n) && Shows(before, p, w, bar)
    requires WindowBar(m1, p, w, freq) == Empty || !(first <= w < WindowAt(first, freq, n))
    ensures Shows(after, p, w, bar)
  {
    ShowsStay(before, after, p, w, bar);
  }

  /** One-minute candles before `cut` are deleted, and then the table is merged, by the running process or
      by a new one. A window that the table showed in full still shows it in full afterwards if and only
      if the merge does not reach it or the deletion did not split it for that product. */
  lemma CleanUpSpoilsExactlyCutWindows(dest: seq<Row>, after: seq<Row>, m1: seq<Row>, cut: int, startTS: int, freq: int, n: nat, p: string, w: int)
    requires Frequency(freq) && Traded(m1) && AlignedTo(dest, freq) && !MergeNeedsKlines(dest, Kept(m1, cut), startTS)
    requires Merged(dest, after, Kept(m1, cut), MergeFirst(dest, Kept(m1, cut), startTS, freq), freq, n)
    requires w % freq == 0 && Shows(dest, p, w, WindowBar(m1, p, w, freq))
    ensures var first := MergeFirst(dest, Kept(m1, cut), startTS, freq);
            Shows(after, p, w, WindowBar(m1, p, w, freq)) <==>
            !(first <= w < WindowAt(first, freq, n) && Split(m1, cut, p, w, freq))
  {
    var kept := Kept(m1, cut);
    var first := MergeFirst(dest, kept, startTS, freq);
    var whole, part := WindowBar(m1, p, w, freq), WindowBar(kept, p, w, freq);
    FirstAligned(dest, kept, startTS, freq);
    if Split(m1, cut, p, w, freq) {
      CutWindow(m1, cut, p, w, freq);
    } else if part != Empty {
      UncutWindow(m1, cut, p, w, freq);
    }
    if part == Empty || !(first <= w < WindowAt(first, freq, n)) {
      NotRewritten(dest, after, kept, first, freq, n, p, w, whole);
    } else {
      Rewritten(dest, after, kept, first, freq, n, p, w);
      ShowsOne(after, p, w, part, whole);
    }
  }

  // ---------------------------------------------------------------- such windows

  /** Of a window's two candles the first is deleted, and the merge leaves the second as the whole. */
  lemma TwoCandles(freq: int, w: int, x: int) returns (dest: seq<Row>, after: seq<Row>, m1: seq<Row>)
    requires freq > 0 && w < x < w + freq
    ensures m1 == [Row("a", w, 1.0, 1.0, 1.0, 1.0, 1.0), Row("a", x, 2.0, 1.0, 1.0, 1.0, 1.0)]
    ensures dest == [Row("a", w, 3.0, 1.0, 1.0, 1.0, 1.0)] && Kept(m1, x) == [m1[1]]
    ensures Shows(dest, "a", w, WindowBar(m1, "a", w, freq)) && !Shows(after, "a", w, WindowBar(m1, "a", w, freq))
    ensures Merged(dest, after, Kept(m1, x), w, freq, 1)
  {
    var a, b := Row("a", w, 1.0, 1.0, 1.0, 1.0, 1.0), Row("a", x, 2.0, 1.0, 1.0, 1.0, 1.0);
    m1, dest, after := [a, b], [Row("a", w, 3.0, 1.0, 1.0, 1.0, 1.0)], [Row("a", w, 2.0, 1.0, 1.0, 1.0, 1.0)];
    TwoBars(a, b, freq);
    assert HasRow(dest, "a", w) by { assert dest[0].product == "a"; }
    assert HasRow(after, "a", w) by { assert after[0].product == "a"; }
    ShowsOne(dest, "a", w, Bar(3.0, 1.0, 1.0), Bar(3.0, 1.0, 1.0));
    ShowsOne(after, "a", w, Bar(2.0, 1.0, 1.0), Bar(3.0, 1.0, 1.0));
    forall p: string | WindowBar([b], p, w, freq) != Empty
      ensures p == "a"
    {
      var j := BarHasRow([b], p, w, w + freq);
    }
    assert PricedBy(after[0], [b], freq) by {
      assert Earliest([b], "a", w, w + freq, 0) && Latest([b], "a", w, w + freq, 0);
    }
    OneWindowMerges(dest[0], after[0], [b], freq);
  }

  lemma TwoBars(a: Row, b: Row, freq: int)
    requires a.product == "a" == b.product && a.timestamp < b.timestamp < a.timestamp + freq
    ensures WindowBar([a, b], "a", a.timestamp, freq) == Join(BarOf(a), BarOf(b))
    ensures Kept([a, b], b.timestamp) == [b] && WindowBar([b], "a", a.timestamp, freq) == BarOf(b)
  {
    var w := a.timestamp;
    OverOnly([a], "a", w, w + freq, 0);
    OverOnly([b], "a", w, w + freq, 0);
    OverConcat([a], [b], "a", w, w + freq);
    assert [a] + [b] == [a, b];
    assert [a, b][..1] == [a] && [a][..0] == [];
    assert Kept([a], b.timestamp) == [];
  }

  lemma OneWindowMerges(d: Row, x: Row, m1: seq<Row>, freq: int)
    requires freq > 0 && SameKey(d, x) && BarOf(x) == WindowBar(m1, x.product, x.timestamp, freq) && PricedBy(x, m1, freq)
    requires forall p: string :: WindowBar(m1, p, x.timestamp, freq) != Empty ==> p == x.product
    ensures Merged([d], [x], m1, x.timestamp, freq, 1)
  {
    var first := x.timestamp;
    assert WindowAt(first, freq, 0) == first && WindowAt(first, freq, 1) == first + freq;
    assert OnGrid(first, freq, first);
    assert InMerge(d, m1, first, freq, 1) && InMerge(x, m1, first, freq, 1);
    assert HasRow([x], x.product, first) by { assert [x][0] == x; }
    assert Shows([x], x.product, first, BarOf(x));
    forall p: string, k: nat | k < 1 && WindowBar(m1, p, WindowAt(first, freq, k), freq) != Empty
      ensures Shows([x], p, WindowAt(first, freq, k), WindowBar(m1, p, WindowAt(first, freq, k), freq))
    {
      assert k == 0;
    }
  }

  /** In the table of 3 minutes, at the start of a new process. */
  lemma CutWindowLosesVolume() returns (dest: seq<Row>, after: seq<Row>, m1: seq<Row>)
    ensures Shows(dest, "a", 180, WindowBar(m1, "a", 180, 180))
    ensures MergedFrom(180, dest, Kept(m1, 240), 0, 420, 1, after)
    ensures !Shows(after, "a", 180, WindowBar(m1, "a", 180, 180))
  {
    dest, after, m1 := TwoCandles(180, 180, 240);
    assert MinTimestamp([m1[1]]) == 240 by { assert [m1[1]][..0] == []; }
    assert LatestUpTo(dest, 0) == -1 by { assert dest[..0] == []; }
    assert MergeFirst(dest, Kept(m1, 240), 0, 180) == 180;
  }

  /** In the table of 3 days, at the notice of a running process. */
  lemma RunningMergeLosesVolume() returns (dest: seq<Row>, after: seq<Row>, m1: seq<Row>)
    ensures Shows(dest, "a", 259200, WindowBar(m1, "a", 259200, 259200))
    ensures MergedFrom(259200, dest, Kept(m1, 345600), 432000, 691200, 1, after)
    ensures !Shows(after, "a", 259200, WindowBar(m1, "a", 259200, 259200))
  {
    dest, after, m1 := TwoCandles(259200, 259200, 345600);
    assert LatestUpTo(dest, 432000) == 259200 by { assert dest[..0] == []; }
    assert MergeFirst(dest, Kept(m1, 345600), 432000, 259200) == 259200;
  }
}
