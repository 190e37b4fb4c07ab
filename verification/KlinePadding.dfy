/** Filling the gaps in a series of candles (x/backend/types/klines.go). */
module KlinePadding {
  import FixedPoint

  datatype Candle = Candle(
    product: string, timestamp: int, open: real, close: real, high: real, low: real, volume: real)

  /** Go's division truncates toward zero. */
  function TruncDiv(a: int, b: int): int
    requires b > 0
  {
    if a >= 0 then a / b else -((-a) / b)
  }

  function AnchorTime(ts: int, freq: int): int
    requires freq > 0
  {
    TruncDiv(ts, freq) * freq
  }

  /** A candle without trades: all prices at the close of the one before, no volume. */
  function Flat(c: Candle, timestamp: int): Candle {
    Candle(c.product, timestamp, c.close, c.close, c.close, c.close, 0.0)
  }

  /** Flat candles from time `first` on, in steps of `freq`, before time `stop`. */
  function Flats(c: Candle, first: int, stop: int, freq: int): seq<Candle>
    requires freq > 0
    decreases stop - first
  {
    if first >= stop then [] else [Flat(c, first)] + Flats(c, first + freq, stop, freq)
  }

  function Volume(s: seq<Candle>): real {
    if s == [] then 0.0 else s[0].volume + Volume(s[1..])
  }

  // ---------------------------------------------------------------- the reference

  /** Candles in ascending order, whole periods apart. */
  predicate Ascending(s: seq<Candle>, freq: int)
    requires freq > 0
  {
    forall i | 0 <= i < |s| - 1 :: Apart(s[i], s[i + 1], freq)
  }

  predicate Apart(a: Candle, b: Candle, freq: int)
    requires freq > 0
  {
    a.timestamp < b.timestamp && (b.timestamp - a.timestamp) % freq == 0
  }

  /** Each candle followed by flat ones up to the next. */
  function Filled(s: seq<Candle>, freq: int): seq<Candle>
    requires freq > 0
  {
    if |s| <= 1 then s
    else [s[0]] + Flats(s[0], s[0].timestamp + freq, s[1].timestamp, freq) + Filled(s[1..], freq)
  }

  /** An unbroken series: every period once, in order. */
  predicate Unbroken(s: seq<Candle>, freq: int) {
    forall i | 0 <= i < |s| :: StepsFrom(s, i, freq)
  }

  predicate StepsFrom(s: seq<Candle>, i: nat, freq: int)
    requires i < |s|
  {
    s[i].timestamp == s[0].timestamp + i * freq
  }

  lemma {:induction false} FlatsShape(c: Candle, first: int, stop: int, freq: int)
    requires freq > 0 && first <= stop && (stop - first) % freq == 0
    ensures var f := Flats(c, first, stop, freq);
            && first + |f| * freq == stop
            && (forall i | 0 <= i < |f| :: f[i] == Flat(c, first + i * freq))
            && Volume(f) == 0.0
    decreases stop - first
  {
    if first < stop {
      PeriodFits(first, stop, freq);
      FlatsShape(c, first + freq, stop, freq);
      var f, g := Flats(c, first, stop, freq), Flats(c, first + freq, stop, freq);
      assert |f| * freq == |g| * freq + freq;
      assert f[1..] == g;
      forall i | 0 <= i < |f|
        ensures f[i] == Flat(c, first + i * freq)
      {
        if i > 0 {
          assert f[i] == g[i - 1];
          assert first + freq + (i - 1) * freq == first + i * freq;
        }
      }
    }
  }

  /** Two moments whole periods apart are at least one period apart, and what remains is whole too. */
  lemma PeriodFits(first: int, stop: int, freq: int)
    requires freq > 0 && first < stop && (stop - first) % freq == 0
    ensures first + freq <= stop && (stop - (first + freq)) % freq == 0
  {
    var q := (stop - first) / freq;
    assert stop - first == q * freq;
    assert q >= 1;
    assert stop - first - freq == (q - 1) * freq;
    MultipleHasNoRemainder(q - 1, freq);
  }

  lemma MultipleHasNoRemainder(q: int, freq: int)
    requires freq > 0
    ensures (q * freq) % freq == 0
  {
    FixedPoint.DivCancel(q, freq);
  }

  lemma VolumeConcat(a: seq<Candle>, b: seq<Candle>)
    ensures Volume(a + b) == Volume(a) + Volume(b)
    decreases |a|
  {
    if a == [] {
      assert a + b == b;
    } else {
      assert (a + b)[1..] == a[1..] + b;
      VolumeConcat(a[1..], b);
    }
  }

  lemma AscendingTail(s: seq<Candle>, freq: int)
    requires freq > 0 && s != [] && Ascending(s, freq)
    ensures Ascending(s[1..], freq)
    ensures |s| > 1 ==> Apart(s[0], s[1], freq)
  {
    forall i | 0 <= i < |s[1..]| - 1
      ensures Apart(s[1..][i], s[1..][i + 1], freq)
    {
      assert Apart(s[i + 1], s[i + 1 + 1], freq);
    }
    if |s| > 1 { assert Apart(s[0], s[0 + 1], freq); }
  }

  /** The first gap and what follows it. */
  lemma FilledParts(s: seq<Candle>, freq: int) returns (gap: seq<Candle>, rest: seq<Candle>)
    requires freq > 0 && |s| > 1 && Ascending(s, freq)
    ensures Filled(s, freq) == [s[0]] + gap + rest && rest == Filled(s[1..], freq)
    ensures s[0].timestamp + (|gap| + 1) * freq == s[1].timestamp
    ensures forall i | 0 <= i < |gap| :: gap[i] == Flat(s[0], s[0].timestamp + (i + 1) * freq)
    ensures Volume(gap) == 0.0
    ensures Ascending(s[1..], freq)
  {
    AscendingTail(s, freq);
    PeriodFits(s[0].timestamp, s[1].timestamp, freq);
    FlatsShape(s[0], s[0].timestamp + freq, s[1].timestamp, freq);
    gap := Flats(s[0], s[0].timestamp + freq, s[1].timestamp, freq);
    rest := Filled(s[1..], freq);
    assert (|gap| + 1) * freq == |gap| * freq + freq;
    forall i | 0 <= i < |gap|
      ensures gap[i] == Flat(s[0], s[0].timestamp + (i + 1) * freq)
    {
      assert (i + 1) * freq == i * freq + freq;
    }
  }

  /** A candle, the gap after it and an unbroken series after that make an unbroken series. */
  lemma JoinedUnbroken(c: Candle, gap: seq<Candle>, rest: seq<Candle>, freq: int)
    requires rest != [] && Unbroken(rest, freq)
    requires c.timestamp + (|gap| + 1) * freq == rest[0].timestamp
    requires forall i | 0 <= i < |gap| :: gap[i].timestamp == c.timestamp + (i + 1) * freq
    ensures Unbroken([c] + gap + rest, freq)
  {
    var r := [c] + gap + rest;
    forall i | 0 <= i < |r|
      ensures StepsFrom(r, i, freq)
    {
      if i > |gap| {
        var k := i - |gap| - 1;
        assert r[i] == rest[k];
        assert StepsFrom(rest, k, freq);
        Distribute(|gap| + 1, k, freq);
      } else if i > 0 {
        assert r[i] == gap[i - 1];
      }
    }
  }

  /** The filled series runs from the first candle to the last, one period at a time, and has the
      same volume. */
  lemma {:induction false} FilledUnbroken(s: seq<Candle>, freq: int)
    requires freq > 0 && s != [] && Ascending(s, freq)
    ensures var r := Filled(s, freq);
            && r != [] && r[0] == s[0] && r[|r| - 1] == s[|s| - 1]
            && Unbroken(r, freq)
            && Volume(r) == Volume(s)
    decreases |s|
  {
    var r := Filled(s, freq);
    if |s| > 1 {
      var gap, rest := FilledParts(s, freq);
      FilledUnbroken(s[1..], freq);
      JoinedUnbroken(s[0], gap, rest, freq);
      VolumeConcat([s[0]] + gap, rest);
      VolumeConcat([s[0]], gap);
      assert Volume([s[0]]) == s[0].volume by { assert [s[0]][1..] == []; }
    }
  }

  lemma Distribute(a: int, b: int, c: int)
    ensures a * c + b * c == (a + b) * c
  {
  }

  /** Candle `s[j]` is the last one at or before time `t`. */
  predicate LatestAt(s: seq<Candle>, j: nat, t: int) {
    j < |s| && s[j].timestamp <= t && (j + 1 < |s| ==> t < s[j + 1].timestamp)
  }

  /** What a filled series must show at any time: the candle of that time if there is one, and
      otherwise a flat one at the close of the last before. */
  predicate Shows(s: seq<Candle>, j: nat, x: Candle) {
    LatestAt(s, j, x.timestamp) && if s[j].timestamp == x.timestamp then x == s[j] else StandsStill(x, s[j])
  }

  /** Nothing was traded since candle `c`: all four prices are its close, and there is no volume. */
  predicate StandsStill(x: Candle, c: Candle) {
    x.product == c.product && x.open == c.close && x.close == c.close && x.high == c.close && x.low == c.close && x.volume == 0.0
  }

  ghost predicate ShowsSome(s: seq<Candle>, x: Candle) {
    exists j: nat :: Shows(s, j, x)
  }

  lemma {:induction false} FilledShows(s: seq<Candle>, freq: int)
    requires freq > 0 && s != [] && Ascending(s, freq)
    ensures forall i | 0 <= i < |Filled(s, freq)| :: ShowsSome(s, Filled(s, freq)[i])
    decreases |s|
  {
    var r := Filled(s, freq);
    if |s| == 1 {
      assert Shows(s, 0, r[0]);
    } else {
      var gap, rest := FilledParts(s, freq);
      FilledShows(s[1..], freq);
      forall i | 0 <= i < |r|
        ensures ShowsSome(s, r[i])
      {
        if i > |gap| {
          var x := rest[i - |gap| - 1];
          assert r[i] == x && ShowsSome(s[1..], x);
          var j: nat :| Shows(s[1..], j, x);
          assert Shows(s, j + 1, x);
        } else if i > 0 {
          GapBefore(s[0].timestamp, i, |gap| + 1, freq);
          assert r[i] == gap[i - 1];
          assert Shows(s, 0, r[i]);
        } else {
          AscendingTail(s, freq);
          assert Shows(s, 0, r[0]);
        }
      }
    }
  }

  lemma GapBefore(t: int, i: int, n: int, freq: int)
    requires freq > 0 && 0 < i < n
    ensures t < t + i * freq < t + n * freq
  {
    assert (n - i) * freq > 0;
    assert n * freq == i * freq + (n - i) * freq;
  }

  /** Every given candle is still there. */
  lemma {:induction false} FilledKeeps(s: seq<Candle>, freq: int, j: nat)
    requires freq > 0 && j < |s|
    ensures s[j] in Filled(s, freq)
    decreases |s|
  {
    if |s| > 1 {
      var r := Filled(s, freq);
      if j == 0 {
        assert r[0] == s[0];
      } else {
        FilledKeeps(s[1..], freq, j - 1);
        assert s[1..][j - 1] == s[j];
      }
    }
  }

  // ---------------------------------------------------------------- what the code is given and returns

  function Reverse(s: seq<Candle>): seq<Candle> {
    seq(|s|, i requires 0 <= i < |s| => s[|s| - 1 - i])
  }

  /** Candles as a query returns them: latest first, each at the start of its period. */
  predicate LatestFirst(s: seq<Candle>, freq: int)
    requires freq > 0
  {
    && (forall i | 0 <= i < |s| :: s[i].timestamp % freq == 0)
    && (forall i, j | 0 <= i < j < |s| :: s[j].timestamp < s[i].timestamp)
  }

  /** A flat candle for the current period is put in front when the latest one is older. */
  function WithCurrent(origin: seq<Candle>, endTS: int, freq: int): seq<Candle>
    requires freq > 0 && origin != []
  {
    var anchor := AnchorTime(endTS, freq);
    if anchor > origin[0].timestamp then [Flat(origin[0], anchor)] + origin else origin
  }

  lemma AnchorAligned(ts: int, freq: int)
    requires freq > 0
    ensures AnchorTime(ts, freq) % freq == 0
    ensures ts >= 0 ==> AnchorTime(ts, freq) <= ts < AnchorTime(ts, freq) + freq
  {
    MultipleHasNoRemainder(TruncDiv(ts, freq), freq);
    if ts >= 0 { FixedPoint.DivBounds(ts, freq); }
  }

  lemma DifferenceAligned(a: int, b: int, freq: int)
    requires freq > 0 && a % freq == 0 && b % freq == 0
    ensures (b - a) % freq == 0
  {
    var x, y := a / freq, b / freq;
    assert a == x * freq && b == y * freq;
    assert b - a == (y - x) * freq;
    MultipleHasNoRemainder(y - x, freq);
  }

  lemma ReversedAscends(s: seq<Candle>, freq: int)
    requires freq > 0 && LatestFirst(s, freq)
    ensures Ascending(Reverse(s), freq)
  {
    var r := Reverse(s);
    forall i | 0 <= i < |r| - 1
      ensures Apart(r[i], r[i + 1], freq)
    {
      DifferenceAligned(r[i].timestamp, r[i + 1].timestamp, freq);
    }
  }

  lemma WithCurrentLatestFirst(origin: seq<Candle>, endTS: int, freq: int)
    requires freq > 0 && origin != [] && LatestFirst(origin, freq)
    ensures LatestFirst(WithCurrent(origin, endTS, freq), freq)
  {
    AnchorAligned(endTS, freq);
    var w := WithCurrent(origin, endTS, freq);
    if |w| > |origin| {
      assert forall i | 0 < i < |w| :: w[i] == origin[i - 1];
    }
  }

  /** The whole result, as a function of what was queried. */
  function Padded(origin: seq<Candle>, endTS: int, freq: int): seq<Candle>
    requires freq > 0
  {
    if origin == [] then [] else Filled(Reverse(WithCurrent(origin, endTS, freq)), freq)
  }

  lemma PaddedRuns(origin: seq<Candle>, endTS: int, freq: int)
    requires freq > 0 && origin != [] && LatestFirst(origin, freq)
    ensures var r, w := Padded(origin, endTS, freq), WithCurrent(origin, endTS, freq);
            && r != [] && Unbroken(r, freq)
            && r[0] == origin[|origin| - 1] && r[|r| - 1] == w[0]
            && Volume(r) == Volume(Reverse(w))
            && (forall i | 0 <= i < |r| :: ShowsSome(Reverse(w), r[i]))
  {
    var w := WithCurrent(origin, endTS, freq);
    WithCurrentLatestFirst(origin, endTS, freq);
    ReversedAscends(w, freq);
    FilledUnbroken(Reverse(w), freq);
    FilledShows(Reverse(w), freq);
  }

  /** `r` has one candle for each period from the oldest candle to the current period, all candles given
      among them and the others standing still at the last close before. */
  ghost predicate FilledUp(origin: seq<Candle>, anchor: int, freq: int, r: seq<Candle>)
    requires origin != []
  {
    && r != [] && Unbroken(r, freq)
    && r[0] == origin[|origin| - 1]
    && r[|r| - 1].timestamp == (if anchor > origin[0].timestamp then anchor else origin[0].timestamp)
    && Volume(r) == Volume(Reverse(origin))
    && (forall j | 0 <= j < |origin| :: origin[j] in r)
    && (forall i | 0 <= i < |r| :: ShowsSome(Reverse(origin), r[i]))
  }

  /** The padded series runs without a break from the oldest candle to the current period, keeps the
      total volume, contains every candle given, and shows at every other period a flat candle at the
      last close before. */
  lemma PaddedSeries(origin: seq<Candle>, endTS: int, freq: int)
    requires freq > 0 && origin != [] && LatestFirst(origin, freq)
    ensures FilledUp(origin, AnchorTime(endTS, freq), freq, Padded(origin, endTS, freq))
  {
    PaddedRuns(origin, endTS, freq);
    AllKept(origin, endTS, freq);
    var w := WithCurrent(origin, endTS, freq);
    if AnchorTime(endTS, freq) > origin[0].timestamp {
      ReverseCons(w[0], origin);
      CurrentAddsNothing(Reverse(origin), w[0], Padded(origin, endTS, freq));
    }
  }

  lemma ReverseCons(c: Candle, s: seq<Candle>)
    ensures Reverse([c] + s) == Reverse(s) + [c]
    ensures s != [] ==> Reverse(s)[|s| - 1] == s[0]
  {
  }

  lemma AllKept(origin: seq<Candle>, endTS: int, freq: int)
    requires freq > 0
    ensures forall j | 0 <= j < |origin| :: origin[j] in Padded(origin, endTS, freq)
  {
    forall j | 0 <= j < |origin|
      ensures origin[j] in Padded(origin, endTS, freq)
    {
      var s := Reverse(WithCurrent(origin, endTS, freq));
      var k := |origin| - 1 - j;
      assert s[k] == origin[j];
      FilledKeeps(s, freq, k);
    }
  }

  lemma CurrentAddsNothing(o: seq<Candle>, current: Candle, r: seq<Candle>)
    requires o != [] && current == Flat(o[|o| - 1], current.timestamp) && current.timestamp > o[|o| - 1].timestamp
    requires forall i | 0 <= i < |r| :: ShowsSome(o + [current], r[i])
    ensures Volume(o + [current]) == Volume(o)
    ensures forall i | 0 <= i < |r| :: ShowsSome(o, r[i])
  {
    VolumeConcat(o, [current]);
    assert Volume([current]) == 0.0 by { assert [current][1..] == []; }
    forall i | 0 <= i < |r|
      ensures ShowsSome(o, r[i])
    {
      var j: nat :| Shows(o + [current], j, r[i]);
      ShownWithoutCurrent(o, current, j, r[i]);
    }
  }

  /** The candle of the current period is itself flat, so it may be left out of the account. */
  lemma ShownWithoutCurrent(o: seq<Candle>, current: Candle, j: nat, x: Candle)
    requires o != [] && current == Flat(o[|o| - 1], current.timestamp) && current.timestamp > o[|o| - 1].timestamp
    requires Shows(o + [current], j, x)
    ensures ShowsSome(o, x)
  {
    if j == |o| {
      assert Shows(o, |o| - 1, x);
    } else {
      assert Shows(o, j, x);
    }
  }

  // ---------------------------------------------------------------- the code

  /** The flat candles of all gaps, one gap after the other. */
  function Gaps(s: seq<Candle>, freq: int): seq<Candle>
    requires freq > 0
  {
    if |s| <= 1 then [] else Flats(s[0], s[0].timestamp + freq, s[1].timestamp, freq) + Gaps(s[1..], freq)
  }

  lemma {:induction false} FilledIsGapsAndAll(s: seq<Candle>, freq: int)
    requires freq > 0
    ensures multiset(Filled(s, freq)) == multiset(Gaps(s, freq)) + multiset(s)
    decreases |s|
  {
    if |s| > 1 {
      FilledIsGapsAndAll(s[1..], freq);
      var flats := Flats(s[0], s[0].timestamp + freq, s[1].timestamp, freq);
      SameBag(s[0], flats, Filled(s[1..], freq), Gaps(s[1..], freq), s[1..]);
      assert s == [s[0]] + s[1..];
    }
  }

  lemma SameBag(c: Candle, flats: seq<Candle>, filled: seq<Candle>, gaps: seq<Candle>, rest: seq<Candle>)
    requires multiset(filled) == multiset(gaps) + multiset(rest)
    ensures multiset([c] + flats + filled) == multiset(flats + gaps) + multiset([c] + rest)
  {
  }

  predicate Sorted(s: seq<Candle>) {
    forall i, j | 0 <= i < j < |s| :: s[i].timestamp <= s[j].timestamp
  }

  predicate StrictlySorted(s: seq<Candle>) {
    forall i, j | 0 <= i < j < |s| :: s[i].timestamp < s[j].timestamp
  }

  /** The earliest candle comes first in any sorted order. */
  lemma SameFirst(a: seq<Candle>, b: seq<Candle>, i: nat, j: nat)
    requires StrictlySorted(a) && Sorted(b)
    requires i < |a| && j < |b| && a[i] == b[0] && b[j] == a[0]
    ensures a[0] == b[0]
  {
    assert j > 0 ==> b[0].timestamp <= b[j].timestamp;
    assert i > 0 ==> a[0].timestamp < a[i].timestamp;
  }

  lemma SameRest(a: seq<Candle>, b: seq<Candle>)
    requires a != [] && b != [] && a[0] == b[0] && multiset(a) == multiset(b)
    ensures multiset(a[1..]) == multiset(b[1..])
  {
    assert a == [a[0]] + a[1..] && b == [b[0]] + b[1..];
    assert multiset(a) == multiset{a[0]} + multiset(a[1..]);
    assert multiset(b) == multiset{b[0]} + multiset(b[1..]);
    assert multiset(a[1..]) == multiset(a) - multiset{a[0]};
  }

  lemma FirstIsShared(a: seq<Candle>, b: seq<Candle>) returns (i: nat)
    requires b != [] && multiset(a) == multiset(b)
    ensures i < |a| && a[i] == b[0]
  {
    assert b[0] in multiset(b);
    assert b[0] in a;
    i :| i < |a| && a[i] == b[0];
  }

  /** With no two candles at one time there is only one way to sort them. */
  lemma {:induction false} OneSortedOrder(a: seq<Candle>, b: seq<Candle>)
    requires StrictlySorted(a) && Sorted(b) && multiset(a) == multiset(b)
    ensures a == b
    decreases |a|
  {
    assert |multiset(a)| == |a| && |multiset(b)| == |b|;
    if a != [] {
      var i := FirstIsShared(a, b);
      var j := FirstIsShared(b, a);
      SameFirst(a, b, i, j);
      SameRest(a, b);
      SortedTails(a, b);
      OneSortedOrder(a[1..], b[1..]);
      assert a == [a[0]] + a[1..] && b == [b[0]] + b[1..];
    }
  }

  lemma SortedTails(a: seq<Candle>, b: seq<Candle>)
    requires a != [] && b != [] && StrictlySorted(a) && Sorted(b)
    ensures StrictlySorted(a[1..]) && Sorted(b[1..])
  {
    forall i, j | 0 <= i < j < |a[1..]|
      ensures a[1..][i].timestamp < a[1..][j].timestamp
    {
      assert a[i + 1].timestamp < a[j + 1].timestamp;
    }
    forall i, j | 0 <= i < j < |b[1..]|
      ensures b[1..][i].timestamp <= b[1..][j].timestamp
    {
      assert b[i + 1].timestamp <= b[j + 1].timestamp;
    }
  }

  lemma UnbrokenIsStrict(s: seq<Candle>, freq: int)
    requires freq > 0 && Unbroken(s, freq)
    ensures StrictlySorted(s)
  {
    forall i, j | 0 <= i < j < |s|
      ensures s[i].timestamp < s[j].timestamp
    {
      assert StepsFrom(s, i, freq) && StepsFrom(s, j, freq);
      FixedPoint.MulLt(i, j, freq);
    }
  }

  /** The library's sort, by insertion. */
  method SortByTime(s: seq<Candle>) returns (r: seq<Candle>)
    ensures Sorted(r) && multiset(r) == multiset(s)
  {
    r := [];
    for k := 0 to |s|
      invariant Sorted(r) && multiset(r) == multiset(s[..k])
    {
      var i := |r|;
      while i > 0 && s[k].timestamp < r[i - 1].timestamp
        invariant 0 <= i <= |r|
        invariant forall j | i <= j < |r| :: s[k].timestamp < r[j].timestamp
      {
        i := i - 1;
      }
      InsertKeeps(r, i, s[k]);
      InsertAdds(r, i, s[k]);
      assert s[..k + 1] == s[..k] + [s[k]];
      r := r[..i] + [s[k]] + r[i..];
    }
    assert s[..|s|] == s;
  }

  lemma InsertKeeps(r: seq<Candle>, i: nat, x: Candle)
    requires Sorted(r) && i <= |r|
    requires i > 0 ==> r[i - 1].timestamp <= x.timestamp
    requires forall j | i <= j < |r| :: x.timestamp < r[j].timestamp
    ensures Sorted(r[..i] + [x] + r[i..])
  {
    var s := r[..i] + [x] + r[i..];
    forall j, k | 0 <= j < k < |s|
      ensures s[j].timestamp <= s[k].timestamp
    {
      assert s[j] == if j < i then r[j] else if j == i then x else r[j - 1];
      assert s[k] == if k < i then r[k] else if k == i then x else r[k - 1];
    }
  }

  lemma InsertAdds(r: seq<Candle>, i: nat, x: Candle)
    requires i <= |r|
    ensures multiset(r[..i] + [x] + r[i..]) == multiset(r) + multiset{x}
  {
    assert r == r[..i] + r[i..];
  }

  lemma GapsFrom(s: seq<Candle>, m: nat, freq: int)
    requires freq > 0 && m + 1 < |s|
    ensures Gaps(s[m..], freq) == Flats(s[m], s[m].timestamp + freq, s[m + 1].timestamp, freq) + Gaps(s[m + 1..], freq)
  {
    assert s[m..][1..] == s[m + 1..];
  }

  /** The inner loop: flat candles between one candle and the next. */
  method PadGap(current: Candle, next: Candle, freq: int) returns (flats: seq<Candle>)
    requires freq > 0
    ensures flats == Flats(current, current.timestamp + freq, next.timestamp, freq)
  {
    flats := [];
    var expectNextTime := current.timestamp + freq;
    while expectNextTime < next.timestamp
      invariant Flats(current, current.timestamp + freq, next.timestamp, freq)
             == flats + Flats(current, expectNextTime, next.timestamp, freq)
      decreases next.timestamp - expectNextTime
    {
      flats := flats + [Flat(current, expectNextTime)];
      expectNextTime := expectNextTime + freq;
    }
  }

  lemma Reassociate(a: seq<Candle>, b: seq<Candle>, c: seq<Candle>)
    ensures a + (b + c) == (a + b) + c
  {
  }

  /** The outer loop: from the oldest candle to the latest. */
  method PadGaps(klines: seq<Candle>, freq: int) returns (paddings: seq<Candle>)
    requires freq > 0 && klines != []
    ensures paddings == Gaps(Reverse(klines), freq)
  {
    ghost var asc := Reverse(klines);
    paddings := [];
    var i := |klines| - 1;
    assert asc[0..] == asc;
    while i > 0
      invariant 0 <= i < |klines|
      invariant Gaps(asc, freq) == paddings + Gaps(asc[|klines| - 1 - i..], freq)
    {
      ghost var m := |klines| - 1 - i;
      GapsFrom(asc, m, freq);
      var flats := PadGap(klines[i], klines[i - 1], freq);
      Reassociate(paddings, flats, Gaps(asc[m + 1..], freq));
      paddings := paddings + flats;
      i := i - 1;
    }
  }

  /** `ToIKlinesArray` on the candles of one table, latest first. */
  method ToIKlinesArray(origin: seq<Candle>, endTS: int, freq: int, doPadding: bool) returns (r: seq<Candle>)
    requires freq > 0 && LatestFirst(origin, freq)
    ensures doPadding && origin != [] ==> FilledUp(origin, AnchorTime(endTS, freq), freq, r)
    ensures Sorted(r) && (!doPadding || origin == [] ==> multiset(r) == multiset(origin))
    ensures r == if doPadding then Padded(origin, endTS, freq) else Reverse(origin)
  {
    if origin == [] {
      return [];
    }
    if doPadding { PaddedSeries(origin, endTS, freq); } else { ReverseSameCandles(origin); }
    var klines := origin;
    var anchorTS := AnchorTime(endTS, freq);
    if anchorTS > klines[0].timestamp && doPadding {
      klines := [Flat(klines[0], anchorTS)] + klines;
    }
    var paddings: seq<Candle> := [];
    if doPadding {
      paddings := PadGaps(klines, freq);
    }
    r := SortByTime(paddings + klines);
    if doPadding { ResultIsPadded(origin, endTS, freq, r); } else { ResultIsReversed(origin, freq, r); }
  }

  lemma ReverseSameCandles(s: seq<Candle>)
    ensures multiset(Reverse(s)) == multiset(s)
    decreases |s|
  {
    if s != [] {
      var n := |s| - 1;
      ReverseSameCandles(s[..n]);
      assert Reverse(s) == [s[n]] + Reverse(s[..n]);
      assert s == s[..n] + [s[n]];
    }
  }

  lemma ResultIsPadded(origin: seq<Candle>, endTS: int, freq: int, r: seq<Candle>)
    requires freq > 0 && origin != [] && LatestFirst(origin, freq)
    requires var klines := WithCurrent(origin, endTS, freq);
             Sorted(r) && multiset(r) == multiset(Gaps(Reverse(klines), freq) + klines)
    ensures r == Padded(origin, endTS, freq)
  {
    var klines := WithCurrent(origin, endTS, freq);
    ReverseSameCandles(klines);
    FilledIsGapsAndAll(Reverse(klines), freq);
    PaddedRuns(origin, endTS, freq);
    UnbrokenIsStrict(Padded(origin, endTS, freq), freq);
    OneSortedOrder(Padded(origin, endTS, freq), r);
  }

  lemma ResultIsReversed(origin: seq<Candle>, freq: int, r: seq<Candle>)
    requires freq > 0 && LatestFirst(origin, freq) && Sorted(r) && multiset(r) == multiset([] + origin)
    ensures r == Reverse(origin)
  {
    ReverseSameCandles(origin);
    assert [] + origin == origin;
    ReversedIsStrict(origin, freq);
    OneSortedOrder(Reverse(origin), r);
  }

  lemma ReversedIsStrict(s: seq<Candle>, freq: int)
    requires freq > 0 && LatestFirst(s, freq)
    ensures StrictlySorted(Reverse(s))
  {
    var r := Reverse(s);
    forall i, j | 0 <= i < j < |r|
      ensures r[i].timestamp < r[j].timestamp
    {
      assert r[i] == s[|s| - 1 - i] && r[j] == s[|s| - 1 - j];
    }
  }
}
