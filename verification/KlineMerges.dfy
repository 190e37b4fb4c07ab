/** A coarse candle table: what merges, deletions and new one-minute candles keep of it
    (x/backend/orm/orm.go). */
module KlineMerges {
  import opened KlineRows
  import opened KlineTables
  import opened KlineKeeper
  import opened KlineCleanUp
  import KlinePadding

  /** `cut`: one-minute candles before it have been deleted; `cuts`: every time they were deleted up to.
      `merged`: candles before it have been merged. `low`: rows of the table before it may have been
      deleted. The one-minute candles ever written are kept beside it as `m1`; the one-minute table holds
      those at or after `cut`. */
  datatype Table = Table(rows: seq<Row>, cut: int, cuts: set<int>, merged: int, low: int)

  function Win(c: Row, freq: int): int
    requires freq > 0
  {
    KlinePadding.AnchorTime(c.timestamp, freq)
  }

  /** Some deletion split the window. */
  predicate Spoiled(m1: seq<Row>, cuts: set<int>, p: string, w: int, freq: int) {
    exists x | x in cuts :: Split(m1, x, p, w, freq)
  }

  /** A row holds the aggregate and the prices of all candles of its window. */
  predicate RowExact(r: Row, m1: seq<Row>, freq: int) {
    BarOf(r) == WindowBar(m1, r.product, r.timestamp, freq) && PricedBy(r, m1, freq)
  }

  /** One row for each key, at the start of a window that has one-minute candles. */
  predicate Grounded(rows: seq<Row>, m1: seq<Row>, freq: int)
    requires freq > 0
  {
    && Keyed(rows)
    && forall i | 0 <= i < |rows| ::
         && rows[i].timestamp % freq == 0 && rows[i].timestamp >= freq
         && WindowBar(m1, rows[i].product, rows[i].timestamp, freq) != Empty
  }

  predicate Quiet(m1: seq<Row>, p: string, w: int, freq: int, mark: int) {
    forall i | 0 <= i < |m1| && In(m1[i], p, w, w + freq) :: m1[i].timestamp < mark
  }

  /** No candle can come to the window of this row any more, or none has since the last merge. */
  predicate Settled(t: Table, m1: seq<Row>, r: Row, freq: int) {
    r.timestamp < MaxTimestamp(t.rows) || Quiet(m1, r.product, r.timestamp, freq, t.merged)
  }

  predicate RowGood(t: Table, m1: seq<Row>, r: Row, freq: int) {
    Settled(t, m1, r, freq) && !Spoiled(m1, t.cuts, r.product, r.timestamp, freq) ==> RowExact(r, m1, freq)
  }

  predicate Held(rows: seq<Row>, c: Row, freq: int)
    requires freq > 0
  {
    HasRow(rows, c.product, Win(c, freq))
  }

  predicate CandleGood(t: Table, c: Row, freq: int)
    requires freq > 0
  {
    t.low <= Win(c, freq) && (Win(c, freq) < MaxTimestamp(t.rows) || c.timestamp < t.merged) ==> Held(t.rows, c, freq)
  }

  predicate TableGood(t: Table, m1: seq<Row>, freq: int)
    requires freq > 0
  {
    && Grounded(t.rows, m1, freq) && t.cut in t.cuts && t.cut <= t.merged
    && (forall i {:trigger RowGood(t, m1, t.rows[i], freq)} | 0 <= i < |t.rows| :: RowGood(t, m1, t.rows[i], freq))
    && (forall i {:trigger CandleGood(t, m1[i], freq)} | 0 <= i < |m1| :: CandleGood(t, m1[i], freq))
  }

  predicate AllFrom(m1: seq<Row>, time: int) {
    forall i | 0 <= i < |m1| :: time <= m1[i].timestamp
  }

  // ---------------------------------------------------------------- where a merge starts

  /** Enough for a merge from `startTS` to skip nothing: no candle still to be merged is before it. */
  predicate MayStart(t: Table, m1: seq<Row>, startTS: int) {
    startTS != 0 ==> forall i | 0 <= i < |m1| && t.merged <= m1[i].timestamp :: startTS <= m1[i].timestamp
  }

  lemma FirstIsWindow(rows: seq<Row>, kept: seq<Row>, freq: int, startTS: int)
    requires Frequency(freq) && AllFrom(kept, freq) && AllFrom(rows, freq) && AlignedTo(rows, freq)
    requires (startTS == 0 || startTS >= freq) && !MergeNeedsKlines(rows, kept, startTS)
    ensures var first := MergeFirst(rows, kept, startTS, freq); first % freq == 0 && freq <= first
  {
    FirstAligned(rows, kept, startTS, freq);
    if LatestUpTo(rows, startTS) <= 0 {
      AnchorBelow(MergeFrom(rows, kept, startTS), freq);
    }
  }

  /** A window before the first is before the latest row, or nothing still to be merged is in it. */
  lemma BeforeFirst(rows: seq<Row>, kept: seq<Row>, freq: int, startTS: int, w: int)
    requires Frequency(freq) && AllFrom(kept, freq) && AllFrom(rows, freq) && AlignedTo(rows, freq)
    requires (startTS == 0 || startTS >= freq) && !MergeNeedsKlines(rows, kept, startTS)
    requires w % freq == 0 && w < MergeFirst(rows, kept, startTS, freq)
    ensures || w < MaxTimestamp(rows)
            || (startTS != 0 && w + freq <= startTS && AllFrom(rows, startTS + 1))
            || (startTS == 0 && AllFrom(kept, w + freq))
  {
    var first := MergeFirst(rows, kept, startTS, freq);
    FirstIsWindow(rows, kept, freq, startTS);
    if LatestUpTo(rows, startTS) <= 0 {
      AnchorBelow(MergeFrom(rows, kept, startTS), freq);
      WindowEndsBy(w, first, freq);
    }
  }

  lemma KeptFrom(m1: seq<Row>, cut: int, freq: int)
    requires AllFrom(m1, freq)
    ensures AllFrom(Kept(m1, cut), freq)
  {
    var kept := Kept(m1, cut);
    forall i | 0 <= i < |kept|
      ensures freq <= kept[i].timestamp
    {
      assert kept[i] in kept;
    }
  }

  lemma GroundedRows(rows: seq<Row>, m1: seq<Row>, freq: int)
    requires freq > 0 && Grounded(rows, m1, freq)
    ensures AllFrom(rows, freq) && AlignedTo(rows, freq)
  {
  }

  // ---------------------------------------------------------------- what one merge leaves

  /** What all lemmas about one merge start from. */
  ghost predicate Merge(t: Table, m1: seq<Row>, freq: int, startTS: int, time: int, n: nat, after: seq<Row>) {
    && Frequency(freq) && 0 < time && (startTS == 0 || freq <= startTS)
    && TableGood(t, m1, freq) && AllFrom(m1, freq) && MayStart(t, m1, startTS)
    && (forall i | 0 <= i < |t.rows| :: t.rows[i].timestamp <= time)
    && MergedFrom(freq, t.rows, Kept(m1, t.cut), startTS, time + freq, n, after)
  }

  ghost predicate Writes(t: Table, m1: seq<Row>, freq: int, startTS: int, time: int, n: nat, after: seq<Row>) {
    Merge(t, m1, freq, startTS, time, n, after) && !MergeNeedsKlines(t.rows, Kept(m1, t.cut), startTS)
  }

  /** The merge reaches past `time`, and starts at a window. */
  lemma MergeReaches(t: Table, m1: seq<Row>, freq: int, startTS: int, time: int, n: nat, after: seq<Row>)
    requires Writes(t, m1, freq, startTS, time, n, after)
    ensures var first := MergeFirst(t.rows, Kept(m1, t.cut), startTS, freq);
            && first % freq == 0 && freq <= first && time < WindowAt(first, freq, n)
            && (n > 0 ==> WindowAt(first, freq, n) <= time + freq)
            && Merged(t.rows, after, Kept(m1, t.cut), first, freq, n)
  {
    KeptFrom(m1, t.cut, freq);
    GroundedRows(t.rows, m1, freq);
    FirstIsWindow(t.rows, Kept(m1, t.cut), freq, startTS);
  }

  lemma KeptIsCandle(m1: seq<Row>, cut: int, p: string, w: int, freq: int)
    requires WindowBar(Kept(m1, cut), p, w, freq) != Empty
    ensures WindowBar(m1, p, w, freq) != Empty
  {
    var j := BarHasRow(Kept(m1, cut), p, w, w + freq);
    var i := KeptIsRow(m1, cut, j);
    OverSome(m1, p, w, w + freq, i);
  }

  lemma LastWindow(first: int, freq: int, n: nat, w: int)
    requires freq > 0 && first <= w < WindowAt(first, freq, n)
    ensures n > 0
  {
  }

  /** A written row is at a window that starts by `time` and has candles. */
  lemma WrittenRow(m1: seq<Row>, cut: int, first: int, freq: int, n: nat, time: int, r: Row)
    requires freq > 0 && first % freq == 0 && freq <= first && (n > 0 ==> WindowAt(first, freq, n) <= time + freq)
    requires InMerge(r, Kept(m1, cut), first, freq, n)
    ensures r.timestamp % freq == 0 && freq <= r.timestamp <= time && WindowBar(m1, r.product, r.timestamp, freq) != Empty
  {
    var anchor := WindowAt(first, freq, n);
    GridAligned(first, freq, r.timestamp);
    assert OnGrid(first, freq, anchor);
    GridAligned(first, freq, anchor);
    WindowEndsBy(r.timestamp, anchor, freq);
    LastWindow(first, freq, n, r.timestamp);
    KeptIsCandle(m1, cut, r.product, r.timestamp, freq);
  }

  /** A written row of a window that was not split is exact. */
  lemma WrittenIsExact(before: seq<Row>, after: seq<Row>, m1: seq<Row>, cut: int, first: int, freq: int, n: nat, r: Row)
    requires freq > 0 && first % freq == 0 && Merged(before, after, Kept(m1, cut), first, freq, n)
    requires r in after && InMerge(r, Kept(m1, cut), first, freq, n) && !Split(m1, cut, r.product, r.timestamp, freq)
    ensures RowExact(r, m1, freq)
  {
    GridAligned(first, freq, r.timestamp);
    Rewritten(before, after, Kept(m1, cut), first, freq, n, r.product, r.timestamp);
    UncutWindow(m1, cut, r.product, r.timestamp, freq);
    assert PricedBy(r, Kept(m1, cut), freq);
    KeptPrices(r, m1, cut, freq);
  }

  lemma KeptCandle(m1: seq<Row>, cut: int, i: nat, p: string, w: int, freq: int)
    requires i < |m1| && cut <= m1[i].timestamp && In(m1[i], p, w, w + freq)
    ensures WindowBar(Kept(m1, cut), p, w, freq) != Empty
  {
    var j := RowIsKept(m1, cut, i);
    OverSome(Kept(m1, cut), p, w, w + freq, j);
  }

  lemma NoneLeft(m1: seq<Row>, cut: int, p: string, w: int, freq: int)
    requires WindowBar(Kept(m1, cut), p, w, freq) == Empty
    ensures Quiet(m1, p, w, freq, cut)
  {
    forall i | 0 <= i < |m1| && In(m1[i], p, w, w + freq)
      ensures m1[i].timestamp < cut
    {
      if cut <= m1[i].timestamp {
        KeptCandle(m1, cut, i, p, w, freq);
      }
    }
  }

  /** A row that the merge does not write was settled. */
  lemma UnwrittenIsSettled(t: Table, m1: seq<Row>, freq: int, startTS: int, time: int, n: nat, after: seq<Row>, i: nat)
    requires Writes(t, m1, freq, startTS, time, n, after) && i < |t.rows|
    requires !InMerge(t.rows[i], Kept(m1, t.cut), MergeFirst(t.rows, Kept(m1, t.cut), startTS, freq), freq, n)
    ensures Settled(t, m1, t.rows[i], freq)
  {
    var r, kept := t.rows[i], Kept(m1, t.cut);
    var first := MergeFirst(t.rows, kept, startTS, freq);
    MergeReaches(t, m1, freq, startTS, time, n, after);
    if WindowBar(kept, r.product, r.timestamp, freq) == Empty {
      NoneLeft(m1, t.cut, r.product, r.timestamp, freq);
    } else if r.timestamp < first {
      KeptFrom(m1, t.cut, freq);
      GroundedRows(t.rows, m1, freq);
      RowBeforeFirst(t.rows, kept, freq, startTS, i);
    } else {
      IsInMerge(r, kept, first, freq, n);
    }
  }

  lemma {:induction false} RowBeforeFirst(rows: seq<Row>, kept: seq<Row>, freq: int, startTS: int, i: nat)
    requires Frequency(freq) && AllFrom(kept, freq) && AllFrom(rows, freq) && AlignedTo(rows, freq)
    requires (startTS == 0 || startTS >= freq) && !MergeNeedsKlines(rows, kept, startTS)
    requires i < |rows| && rows[i].timestamp < MergeFirst(rows, kept, startTS, freq)
    requires WindowBar(kept, rows[i].product, rows[i].timestamp, freq) != Empty
    ensures rows[i].timestamp < MaxTimestamp(rows)
  {
    BeforeFirst(rows, kept, freq, startTS, rows[i].timestamp);
    var j := BarHasRow(kept, rows[i].product, rows[i].timestamp, rows[i].timestamp + freq);
  }

  lemma IsInMerge(r: Row, kept: seq<Row>, first: int, freq: int, n: nat)
    requires freq > 0 && first % freq == 0 && r.timestamp % freq == 0 && first <= r.timestamp < WindowAt(first, freq, n)
    requires WindowBar(kept, r.product, r.timestamp, freq) != Empty
    ensures InMerge(r, kept, first, freq, n)
  {
    var k := GridFrom(first, freq, r.timestamp);
  }

  lemma RowsAfterMerge(t: Table, m1: seq<Row>, freq: int, startTS: int, time: int, n: nat, after: seq<Row>, i: nat)
    requires Writes(t, m1, freq, startTS, time, n, after) && i < |after|
    ensures var r := after[i];
            && r.timestamp % freq == 0 && freq <= r.timestamp <= time && WindowBar(m1, r.product, r.timestamp, freq) != Empty
            && (!Spoiled(m1, t.cuts, r.product, r.timestamp, freq) ==> RowExact(r, m1, freq))
  {
    var r, kept := after[i], Kept(m1, t.cut);
    var first := MergeFirst(t.rows, kept, startTS, freq);
    MergeReaches(t, m1, freq, startTS, time, n, after);
    assert r in after;
    if InMerge(r, kept, first, freq, n) {
      WrittenRow(m1, t.cut, first, freq, n, time, r);
      if !Spoiled(m1, t.cuts, r.product, r.timestamp, freq) {
        WrittenIsExact(t.rows, after, m1, t.cut, first, freq, n, r);
      }
    } else {
      var j :| 0 <= j < |t.rows| && t.rows[j] == r;
      UnwrittenIsSettled(t, m1, freq, startTS, time, n, after, j);
      assert RowGood(t, m1, t.rows[j], freq);
    }
  }

  lemma HeldStays(before: seq<Row>, after: seq<Row>, kept: seq<Row>, first: int, freq: int, n: nat, p: string, w: int)
    requires freq > 0 && first % freq == 0 && Merged(before, after, kept, first, freq, n) && HasRow(before, p, w)
    ensures HasRow(after, p, w)
  {
    var i :| 0 <= i < |before| && before[i].product == p && before[i].timestamp == w;
    assert before[i] in before;
    if before[i] in after {
      var j :| 0 <= j < |after| && after[j] == before[i];
    } else {
      GridAligned(first, freq, w);
      Rewritten(before, after, kept, first, freq, n, p, w);
    }
  }

  lemma CandleInWindow(m1: seq<Row>, i: nat, freq: int)
    requires freq > 0 && i < |m1| && 0 <= m1[i].timestamp
    ensures var w := Win(m1[i], freq); w % freq == 0 && 0 <= w && In(m1[i], m1[i].product, w, w + freq)
  {
    AnchorBelow(m1[i].timestamp, freq);
  }

  /** A candle whose window the merge passed over had its row. */
  lemma PassedIsHeld(t: Table, m1: seq<Row>, freq: int, startTS: int, time: int, n: nat, after: seq<Row>, i: nat)
    requires Writes(t, m1, freq, startTS, time, n, after) && i < |m1| && t.low <= Win(m1[i], freq)
    requires m1[i].timestamp < t.cut || Win(m1[i], freq) < MergeFirst(t.rows, Kept(m1, t.cut), startTS, freq)
    ensures Held(t.rows, m1[i], freq)
  {
    assert CandleGood(t, m1[i], freq);
    if t.cut <= m1[i].timestamp {
      CandleInWindow(m1, i, freq);
      KeptFrom(m1, t.cut, freq);
      GroundedRows(t.rows, m1, freq);
      BeforeFirst(t.rows, Kept(m1, t.cut), freq, startTS, Win(m1[i], freq));
      var j := RowIsKept(m1, t.cut, i);
    }
  }

  lemma CandlesAfterMerge(t: Table, m1: seq<Row>, freq: int, startTS: int, time: int, n: nat, after: seq<Row>, i: nat)
    requires Writes(t, m1, freq, startTS, time, n, after) && i < |m1| && t.low <= Win(m1[i], freq) <= time
    ensures Held(after, m1[i], freq)
  {
    var kept, p, w := Kept(m1, t.cut), m1[i].product, Win(m1[i], freq);
    var first := MergeFirst(t.rows, kept, startTS, freq);
    MergeReaches(t, m1, freq, startTS, time, n, after);
    if m1[i].timestamp < t.cut || w < first {
      PassedIsHeld(t, m1, freq, startTS, time, n, after, i);
      HeldStays(t.rows, after, kept, first, freq, n, p, w);
    } else {
      CandleInWindow(m1, i, freq);
      KeptCandle(m1, t.cut, i, p, w, freq);
      Rewritten(t.rows, after, kept, first, freq, n, p, w);
    }
  }

  predicate FinishedRow(t: Table, m1: seq<Row>, freq: int, time: int, r: Row) {
    r.timestamp <= time && (!Spoiled(m1, t.cuts, r.product, r.timestamp, freq) ==> RowExact(r, m1, freq))
  }

  predicate FinishedCandle(t: Table, freq: int, time: int, c: Row)
    requires freq > 0
  {
    t.low <= Win(c, freq) <= time ==> Held(t.rows, c, freq)
  }

  /** After a merge up to `time` each row whose window was not split is exact, and each candle of a window
      that starts by then, and was not deleted from the table, has its row. */
  predicate Finished(t: Table, m1: seq<Row>, freq: int, time: int)
    requires freq > 0
  {
    && Grounded(t.rows, m1, freq)
    && (forall i {:trigger FinishedRow(t, m1, freq, time, t.rows[i])} | 0 <= i < |t.rows| :: FinishedRow(t, m1, freq, time, t.rows[i]))
    && (forall i {:trigger FinishedCandle(t, freq, time, m1[i])} | 0 <= i < |m1| :: FinishedCandle(t, freq, time, m1[i]))
  }

  lemma MergeFinishes(t: Table, m1: seq<Row>, freq: int, startTS: int, time: int, n: nat, after: seq<Row>)
    requires Merge(t, m1, freq, startTS, time, n, after)
    ensures Finished(t.(rows := after), m1, freq, time)
  {
    if MergeNeedsKlines(t.rows, Kept(m1, t.cut), startTS) {
      NothingLeft(t, m1, freq, startTS, time, n, after);
    } else {
      MergeReaches(t, m1, freq, startTS, time, n, after);
      forall i | 0 <= i < |after|
        ensures after[i].timestamp % freq == 0 && freq <= after[i].timestamp
        ensures WindowBar(m1, after[i].product, after[i].timestamp, freq) != Empty
        ensures FinishedRow(t.(rows := after), m1, freq, time, after[i])
      {
        RowsAfterMerge(t, m1, freq, startTS, time, n, after, i);
      }
      forall i | 0 <= i < |m1|
        ensures FinishedCandle(t.(rows := after), freq, time, m1[i])
      {
        if t.low <= Win(m1[i], freq) <= time { CandlesAfterMerge(t, m1, freq, startTS, time, n, after, i); }
      }
    }
  }

  /** With no one-minute candle left a merge from the start writes nothing, and all was merged before. */
  lemma NothingLeft(t: Table, m1: seq<Row>, freq: int, startTS: int, time: int, n: nat, after: seq<Row>)
    requires Merge(t, m1, freq, startTS, time, n, after) && MergeNeedsKlines(t.rows, Kept(m1, t.cut), startTS)
    ensures Finished(t.(rows := after), m1, freq, time)
  {
    assert after == t.rows;
    AllDeleted(m1, t.cut, freq);
    forall i | 0 <= i < |t.rows|
      ensures FinishedRow(t.(rows := after), m1, freq, time, after[i])
    {
      assert RowGood(t, m1, t.rows[i], freq);
    }
    forall i | 0 <= i < |m1|
      ensures FinishedCandle(t.(rows := after), freq, time, m1[i])
    {
      assert CandleGood(t, m1[i], freq);
    }
  }

  lemma AllDeleted(m1: seq<Row>, cut: int, freq: int)
    requires freq > 0 && AllFrom(m1, freq) && MinTimestamp(Kept(m1, cut)) == -1
    ensures forall i | 0 <= i < |m1| :: m1[i].timestamp < cut
  {
    KeptFrom(m1, cut, freq);
    assert Kept(m1, cut) == [];
    forall i | 0 <= i < |m1|
      ensures m1[i].timestamp < cut
    {
      assert m1[i] !in Kept(m1, cut);
    }
  }

  /** A finished table is good, with candles up to `mark` merged. */
  lemma FinishedIsGood(t: Table, m1: seq<Row>, freq: int, time: int, mark: int)
    requires freq > 0 && 0 <= time && AllFrom(m1, freq) && Finished(t, m1, freq, time)
    requires t.cut in t.cuts && t.cut <= t.merged <= mark
    requires forall i | 0 <= i < |m1| && m1[i].timestamp < mark && t.low <= Win(m1[i], freq) :: Held(t.rows, m1[i], freq)
    ensures TableGood(t.(merged := mark), m1, freq)
  {
    var u := t.(merged := mark);
    forall i | 0 <= i < |u.rows|
      ensures RowGood(u, m1, u.rows[i], freq) && u.rows[i].timestamp <= time
    {
      assert FinishedRow(t, m1, freq, time, t.rows[i]);
    }
    forall i | 0 <= i < |m1|
      ensures CandleGood(u, m1[i], freq)
    {
      assert FinishedCandle(t, freq, time, m1[i]);
    }
  }

  // ---------------------------------------------------------------- new candles come late

  predicate Extends(m0: seq<Row>, m1: seq<Row>, late: int) {
    && |m0| <= |m1| && m1[..|m0|] == m0
    && forall i | |m0| <= i < |m1| :: late <= m1[i].timestamp
  }

  lemma BarStays(m0: seq<Row>, m1: seq<Row>, p: string, a: int, b: int)
    requires |m0| <= |m1| && m1[..|m0|] == m0 && Over(m0, p, a, b) != Empty
    ensures Over(m1, p, a, b) != Empty
  {
    var i := BarHasRow(m0, p, a, b);
    assert m1[i] == m0[i];
    OverSome(m1, p, a, b, i);
  }

  lemma SpoiledStays(m0: seq<Row>, m1: seq<Row>, cuts: set<int>, p: string, w: int, freq: int)
    requires |m0| <= |m1| && m1[..|m0|] == m0 && Spoiled(m0, cuts, p, w, freq)
    ensures Spoiled(m1, cuts, p, w, freq)
  {
    var x :| x in cuts && Split(m0, x, p, w, freq);
    BarStays(m0, m1, p, w, x);
    BarStays(m0, m1, p, x, w + freq);
    assert Split(m1, x, p, w, freq);
  }

  lemma ExactStays(r: Row, m0: seq<Row>, m1: seq<Row>, freq: int)
    requires |m0| <= |m1| && m1[..|m0|] == m0 && RowExact(r, m0, freq)
    requires forall i | |m0| <= i < |m1| :: !In(m1[i], r.product, r.timestamp, r.timestamp + freq)
    ensures RowExact(r, m1, freq)
  {
    var added := m1[|m0|..];
    assert m1 == m0 + added;
    forall i | 0 <= i < |added|
      ensures !In(added[i], r.product, r.timestamp, r.timestamp + freq)
    {
      assert added[i] == m1[|m0| + i];
    }
    OverConcat(m0, added, r.product, r.timestamp, r.timestamp + freq);
    OverNone(added, r.product, r.timestamp, r.timestamp + freq);
    PricesStay(r, m0, added, freq);
  }

  lemma RowsBehind(rows: seq<Row>, m1: seq<Row>, freq: int, late: int)
    requires freq > 0 && Grounded(rows, m1, freq) && forall i | 0 <= i < |m1| :: m1[i].timestamp < late
    ensures forall i | 0 <= i < |rows| :: rows[i].timestamp < late
  {
    forall i | 0 <= i < |rows|
      ensures rows[i].timestamp < late
    {
      var j := BarHasRow(m1, rows[i].product, rows[i].timestamp, rows[i].timestamp + freq);
    }
  }

  /** A settled row's window gets no new candle. */
  lemma SettledStays(t: Table, m0: seq<Row>, m1: seq<Row>, freq: int, late: int, i: nat)
    requires freq > 0 && Extends(m0, m1, late) && Grounded(t.rows, m0, freq) && t.merged <= late && i < |t.rows|
    requires (forall j | 0 <= j < |t.rows| :: t.rows[j].timestamp < late) && Settled(t, m1, t.rows[i], freq)
    ensures Settled(t, m0, t.rows[i], freq)
    ensures forall j | |m0| <= j < |m1| :: !In(m1[j], t.rows[i].product, t.rows[i].timestamp, t.rows[i].timestamp + freq)
  {
    if t.rows[i].timestamp < MaxTimestamp(t.rows) {
      var j :| 0 <= j < |t.rows| && t.rows[j].timestamp == MaxTimestamp(t.rows);
      WindowEndsBy(t.rows[i].timestamp, t.rows[j].timestamp, freq);
    } else {
      forall j | 0 <= j < |m0| && In(m0[j], t.rows[i].product, t.rows[i].timestamp, t.rows[i].timestamp + freq)
        ensures m0[j].timestamp < t.merged
      {
        assert m1[j] == m0[j];
      }
    }
  }

  lemma RowStaysGood(t: Table, m0: seq<Row>, m1: seq<Row>, freq: int, late: int, i: nat)
    requires freq > 0 && TableGood(t, m0, freq) && Extends(m0, m1, late) && t.merged <= late && i < |t.rows|
    requires forall j | 0 <= j < |t.rows| :: t.rows[j].timestamp < late
    ensures RowGood(t, m1, t.rows[i], freq)
  {
    var r := t.rows[i];
    if Settled(t, m1, r, freq) && !Spoiled(m1, t.cuts, r.product, r.timestamp, freq) {
      SettledStays(t, m0, m1, freq, late, i);
      if Spoiled(m0, t.cuts, r.product, r.timestamp, freq) { SpoiledStays(m0, m1, t.cuts, r.product, r.timestamp, freq); }
      assert RowGood(t, m0, t.rows[i], freq);
      ExactStays(r, m0, m1, freq);
    }
  }

  lemma LateCandle(t: Table, m1: seq<Row>, freq: int, late: int, i: nat)
    requires freq > 0 && AlignedTo(t.rows, freq) && AllFrom(t.rows, freq) && t.merged <= late
    requires forall j | 0 <= j < |t.rows| :: t.rows[j].timestamp < late
    requires i < |m1| && 0 <= m1[i].timestamp && late <= m1[i].timestamp
    ensures CandleGood(t, m1[i], freq)
  {
    CandleInWindow(m1, i, freq);
    if Win(m1[i], freq) < MaxTimestamp(t.rows) {
      var j :| 0 <= j < |t.rows| && t.rows[j].timestamp == MaxTimestamp(t.rows);
      WindowEndsBy(Win(m1[i], freq), t.rows[j].timestamp, freq);
    }
  }

  /** Candles added later change nothing the table shows as finished. */
  lemma LateCandlesKeep(t: Table, m0: seq<Row>, m1: seq<Row>, freq: int, late: int)
    requires freq > 0 && TableGood(t, m0, freq) && Extends(m0, m1, late) && t.merged <= late && 0 <= late
    requires forall i | 0 <= i < |m0| :: m0[i].timestamp < late
    ensures TableGood(t, m1, freq)
  {
    RowsBehind(t.rows, m0, freq, late);
    GroundedRows(t.rows, m0, freq);
    forall i | 0 <= i < |t.rows|
      ensures RowGood(t, m1, t.rows[i], freq) && WindowBar(m1, t.rows[i].product, t.rows[i].timestamp, freq) != Empty
    {
      RowStaysGood(t, m0, m1, freq, late, i);
      BarStays(m0, m1, t.rows[i].product, t.rows[i].timestamp, t.rows[i].timestamp + freq);
    }
    forall i | 0 <= i < |m1|
      ensures CandleGood(t, m1[i], freq)
    {
      if i < |m0| {
        assert m1[i] == m0[i];
        assert CandleGood(t, m0[i], freq);
      } else {
        LateCandle(t, m1, freq, late, i);
      }
    }
  }

  // ---------------------------------------------------------------- deletions

  function Max(a: int, b: int): int {
    if a < b then b else a
  }

  /** One-minute candles before `upTo` are deleted. */
  function CutBefore(t: Table, upTo: int): Table {
    t.(cut := Max(t.cut, upTo), cuts := t.cuts + {upTo})
  }

  /** Rows of the table before `upTo` are deleted. */
  function DropBefore(t: Table, upTo: int): Table {
    t.(rows := Kept(t.rows, upTo), low := Max(t.low, upTo))
  }

  lemma CutKeeps(t: Table, m1: seq<Row>, freq: int, upTo: int)
    requires freq > 0 && TableGood(t, m1, freq) && upTo <= t.merged
    ensures TableGood(CutBefore(t, upTo), m1, freq)
  {
    var u := CutBefore(t, upTo);
    forall i | 0 <= i < |u.rows|
      ensures RowGood(u, m1, u.rows[i], freq)
    {
      var r := t.rows[i];
      assert RowGood(t, m1, t.rows[i], freq);
      if x :| x in t.cuts && Split(m1, x, r.product, r.timestamp, freq) { assert x in u.cuts; }
    }
    forall i | 0 <= i < |m1|
      ensures CandleGood(u, m1[i], freq)
    {
      assert CandleGood(t, m1[i], freq);
    }
  }

  lemma TopRow(rows: seq<Row>) returns (i: nat)
    requires rows != []
    ensures i < |rows| && rows[i].timestamp == MaxTimestamp(rows) && forall j | 0 <= j < |rows| :: rows[j].timestamp <= rows[i].timestamp
  {
    i :| i < |rows| && rows[i].timestamp == MaxTimestamp(rows);
  }

  lemma {:induction false} KeptMax(rows: seq<Row>, upTo: int)
    requires Kept(rows, upTo) != []
    ensures MaxTimestamp(Kept(rows, upTo)) == MaxTimestamp(rows)
  {
    var i := TopRow(Kept(rows, upTo));
    var k := KeptIsRow(rows, upTo, i);
    var j := TopRow(rows);
    assert rows[k].timestamp <= rows[j].timestamp;
    var l := RowIsKept(rows, upTo, j);
  }

  lemma HeldAfterDrop(t: Table, freq: int, upTo: int, c: Row)
    requires freq > 0 && CandleGood(t, c, freq) && 0 <= Win(c, freq)
    ensures CandleGood(DropBefore(t, upTo), c, freq)
  {
    var u, w := DropBefore(t, upTo), Win(c, freq);
    if Kept(t.rows, upTo) != [] { KeptMax(t.rows, upTo); }
    if u.low <= w && (w < MaxTimestamp(u.rows) || c.timestamp < u.merged) {
      var i :| 0 <= i < |t.rows| && t.rows[i].product == c.product && t.rows[i].timestamp == w;
      var j := RowIsKept(t.rows, upTo, i);
    }
  }

  lemma {:induction false} RowAfterDrop(t: Table, m1: seq<Row>, freq: int, upTo: int, i: nat)
    requires freq > 0 && TableGood(t, m1, freq) && i < |Kept(t.rows, upTo)|
    ensures var r := Kept(t.rows, upTo)[i];
            && r.timestamp % freq == 0 && r.timestamp >= freq && WindowBar(m1, r.product, r.timestamp, freq) != Empty
            && RowGood(DropBefore(t, upTo), m1, r, freq)
  {
    var j := KeptIsRow(t.rows, upTo, i);
    KeptMax(t.rows, upTo);
    assert RowGood(t, m1, t.rows[j], freq);
  }

  lemma {:induction false} DropKeeps(t: Table, m1: seq<Row>, freq: int, upTo: int)
    requires freq > 0 && TableGood(t, m1, freq) && AllFrom(m1, freq)
    ensures TableGood(DropBefore(t, upTo), m1, freq)
  {
    var u := DropBefore(t, upTo);
    forall i | 0 <= i < |u.rows|
      ensures u.rows[i].timestamp % freq == 0 && u.rows[i].timestamp >= freq
      ensures WindowBar(m1, u.rows[i].product, u.rows[i].timestamp, freq) != Empty
      ensures RowGood(u, m1, u.rows[i], freq)
    {
      RowAfterDrop(t, m1, freq, upTo, i);
    }
    forall i | 0 <= i < |m1|
      ensures CandleGood(u, m1[i], freq)
    {
      assert CandleGood(t, m1[i], freq);
      CandleInWindow(m1, i, freq);
      HeldAfterDrop(t, freq, upTo, m1[i]);
    }
  }
}
