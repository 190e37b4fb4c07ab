/** One-minute candles and the service that writes them (x/backend/orm/orm.go,
    x/backend/keeper/keeper_channel.go). */
module KlineTables {
  import opened KlineRows

  /** A candle holds the aggregate of the results of its minute. */
  predicate Exact(c: Row, results: seq<Row>) {
    c.timestamp % 60 == 0 && BarOf(c) == Minute(results, c.product, c.timestamp)
  }

  ghost predicate Covers(rows: seq<Row>, results: seq<Row>, first: int, stop: int) {
    forall p: string, w: int {:trigger Minute(results, p, w)} | first <= w < stop && w % 60 == 0 ::
      Minute(results, p, w) != Empty ==> HasRow(rows, p, w)
  }

  /** Rows were added for the minutes from `first` up to `stop`, and nothing else changed. */
  ghost predicate Extended(before: seq<Row>, after: seq<Row>, results: seq<Row>, first: int, stop: int) {
    && |before| <= |after| && after[..|before|] == before
    && (forall i | |before| <= i < |after| :: first <= after[i].timestamp < stop && Exact(after[i], results))
    && (forall i, j | 0 <= i < j < |after| && |before| <= j :: !SameKey(after[i], after[j]))
    && Covers(after, results, first, stop)
  }

  // ---------------------------------------------------------------- where a call starts and stops

  function MaxTimestamp(rows: seq<Row>): (m: int)
    ensures rows == [] ==> m == -1
    ensures forall i | 0 <= i < |rows| :: rows[i].timestamp <= m
    ensures rows != [] ==> exists i | 0 <= i < |rows| :: rows[i].timestamp == m
  {
    if rows == [] then -1
    else
      var n := |rows| - 1;
      var m := MaxTimestamp(rows[..n]);
      if n == 0 || rows[n].timestamp > m then rows[n].timestamp else m
  }

  function MinTimestamp(rows: seq<Row>): (m: int)
    ensures rows == [] ==> m == -1
    ensures forall i | 0 <= i < |rows| :: m <= rows[i].timestamp
    ensures rows != [] ==> exists i | 0 <= i < |rows| :: rows[i].timestamp == m
  {
    if rows == [] then -1
    else
      var n := |rows| - 1;
      var m := MinTimestamp(rows[..n]);
      if n == 0 || rows[n].timestamp < m then rows[n].timestamp else m
  }

  datatype Outcome = BadRange | NoDeals | UpTo(anchor: int)

  function AfterPersisted(m1: seq<Row>, startTS: int): int {
    var m := MaxTimestamp(m1);
    if m > 0 && m > startTS then m + 60 else startTS
  }

  predicate CanStart(results: seq<Row>, m1: seq<Row>, startTS: int) {
    AfterPersisted(m1, startTS) == 0 ==> MinTimestamp(results) != -1
  }

  function FirstMinute(results: seq<Row>, m1: seq<Row>, startTS: int): int {
    var ac := AfterPersisted(m1, startTS);
    MinuteOf(if ac == 0 then MinTimestamp(results) else ac)
  }

  /** The specification of `CreateKline1M`. */
  ghost predicate Created(results: seq<Row>, m1: seq<Row>, startTS: int, endTS: int, after: seq<Row>, out: Outcome) {
    match out
    case BadRange => endTS <= startTS && after == m1
    case NoDeals => startTS < endTS && !CanStart(results, m1, startTS) && after == m1
    case UpTo(anchor) =>
      && startTS < endTS && CanStart(results, m1, startTS)
      && StopsAt(FirstMinute(results, m1, startTS), endTS, anchor)
      && Extended(m1, after, results, FirstMinute(results, m1, startTS), anchor)
  }

  /** The last whole minute that ends by `endTS`, or the start if there is none. */
  predicate StopsAt(first: int, endTS: int, anchor: int) {
    && anchor % 60 == 0 && first <= anchor && endTS < anchor + 60
    && (anchor == first || anchor <= endTS)
  }

  /** New candles open and close with deals of their minute. */
  predicate AddedPriced(before: seq<Row>, after: seq<Row>, deals: seq<Row>) {
    forall i {:trigger PricedBy(after[i], deals, 60)} | |before| <= i < |after| :: PricedBy(after[i], deals, 60)
  }

  /** What `CreateKline1M` adds: candles that tell their minutes' results, one for each result from `first`
      up to `stop`. */
  ghost predicate AddedTell(before: seq<Row>, after: seq<Row>, results: seq<Row>, first: int, stop: int) {
    && |before| <= |after| && after[..|before|] == before
    && (forall i {:trigger Tells(after[i], results, 60)} | |before| <= i < |after| ::
          first <= after[i].timestamp < stop && after[i].timestamp % 60 == 0 && Tells(after[i], results, 60))
    && (forall k {:trigger InMinute(after, results[k])} | 0 <= k < |results| && first <= results[k].timestamp < stop :: InMinute(after, results[k]))
  }

  /** There is the candle of the minute of this row. */
  predicate InMinute(candles: seq<Row>, r: Row) {
    HasRow(candles, r.product, MinuteOf(r.timestamp))
  }

  lemma ExtendedTells(before: seq<Row>, after: seq<Row>, results: seq<Row>, first: int, stop: int)
    requires Extended(before, after, results, first, stop) && first % 60 == 0
    ensures AddedTell(before, after, results, first, stop)
  {
    forall i | |before| <= i < |after|
      ensures Tells(after[i], results, 60)
    {
      assert Exact(after[i], results);
      OverIs(BarOf(after[i]), results, after[i].product, after[i].timestamp, after[i].timestamp + 60);
    }
    forall k | 0 <= k < |results| && first <= results[k].timestamp < stop
      ensures InMinute(after, results[k])
    {
      var p, w := results[k].product, MinuteOf(results[k].timestamp);
      MinuteBounds(results[k].timestamp);
      MinuteNotBefore(results[k].timestamp, first);
      OverSome(results, p, w, w + 60, k);
      assert Minute(results, p, w) != Empty;
    }
  }

  lemma MinuteNotBefore(ts: int, first: int)
    requires first % 60 == 0 && first <= ts
    ensures first <= MinuteOf(ts)
  {
  }

  // ---------------------------------------------------------------- the service as a transition system

  /** `start` is where the next call starts; it is 0 when the process starts. `clock` is the time of
      the latest block. */
  datatype Service = Service(results: seq<Row>, deals: seq<Row>, m1: seq<Row>, start: int, clock: int)

  /** A block announces its time before its results are stored, and a call may use the time of a
      block that is no longer the latest, so these are separate steps. */
  datatype Event =
    | NewBlock(time: int)
    | Store(batch: seq<Row>, trades: seq<Row>)
    | Work(endTS: int, out: Outcome)
    | Begin(endTS: int, begun: Outcome)

  predicate AllAt(batch: seq<Row>, time: int) {
    forall i | 0 <= i < |batch| :: batch[i].timestamp == time
  }

  ghost predicate Next(s: Service, e: Event, t: Service) {
    match e
    case NewBlock(time) => s.clock <= time && 0 < time && t == s.(clock := time)
    case Store(batch, trades) =>
      && AllAt(batch, s.clock) && AllAt(trades, s.clock) && AllMatched(batch, trades) && AllMatched(trades, batch)
      && t == s.(results := s.results + batch, deals := s.deals + trades)
    case Work(endTS, out) =>
      && 0 < endTS && MinuteOf(endTS) <= s.clock
      && Created(s.results, s.m1, s.start, endTS, t.m1, out) && AddedPriced(s.m1, t.m1, s.deals)
      && t == s.(m1 := t.m1, start := if out.UpTo? && out.anchor > s.start then out.anchor else s.start)
    case Begin(endTS, out) =>
      && 0 < endTS && MinuteOf(endTS) <= s.clock
      && Begun(s, endTS, out, t)
  }

  /** The first call of a process: it starts from 0, wherever the process before had come. */
  ghost predicate Begun(s: Service, endTS: int, out: Outcome, t: Service) {
    && Created(s.results, s.m1, 0, endTS, t.m1, out) && AddedPriced(s.m1, t.m1, s.deals)
    && t == s.(m1 := t.m1, start := match out case UpTo(anchor) => anchor case NoDeals => 0 case BadRange => -1)
  }

  /** All results before `done` are in candles, and no later result can come before `done`. */
  ghost predicate Good(s: Service, done: int) {
    && 0 <= done <= s.clock && done % 60 == 0 && 0 <= s.start <= done && s.start % 60 == 0
    && (forall i | 0 <= i < |s.results| :: 0 <= s.results[i].timestamp <= s.clock)
    && (forall i | 0 <= i < |s.m1| :: 0 <= s.m1[i].timestamp < done && Exact(s.m1[i], s.results))
    && Keyed(s.m1)
    && Covers(s.m1, s.results, 0, done)
  }

  lemma NewResultsChangeNothingBefore(results: seq<Row>, batch: seq<Row>, p: string, w: int, time: int)
    requires AllAt(batch, time) && w + 60 <= time
    ensures Minute(results + batch, p, w) == Minute(results, p, w)
  {
    OverConcat(results, batch, p, w, w + 60);
    OverNone(batch, p, w, w + 60);
  }

  lemma StoreKeeps(s: Service, batch: seq<Row>, trades: seq<Row>, done: int)
    requires Good(s, done) && AllAt(batch, s.clock)
    ensures Good(s.(results := s.results + batch, deals := s.deals + trades), done)
  {
    var after := s.results + batch;
    forall i | 0 <= i < |s.m1|
      ensures Exact(s.m1[i], after)
    {
      WholeMinuteBefore(s.m1[i].timestamp, done);
      NewResultsChangeNothingBefore(s.results, batch, s.m1[i].product, s.m1[i].timestamp, s.clock);
    }
    forall p: string, w: int | 0 <= w < done && w % 60 == 0 && Minute(after, p, w) != Empty
      ensures HasRow(s.m1, p, w)
    {
      WholeMinuteBefore(w, done);
      NewResultsChangeNothingBefore(s.results, batch, p, w, s.clock);
    }
  }

  /** Where a call starts, no result before is missed. */
  lemma NothingBeforeFirst(s: Service, done: int, startTS: int, first: int, p: string, w: int)
    requires Good(s, done) && 0 <= startTS <= done
    requires CanStart(s.results, s.m1, startTS) && first == FirstMinute(s.results, s.m1, startTS)
    requires w % 60 == 0 && done <= w < first
    ensures Minute(s.results, p, w) == Empty
    ensures first <= s.clock
  {
    var ac := AfterPersisted(s.m1, startTS);
    if ac != 0 {
      WholeMinuteBefore(MaxTimestamp(s.m1), done);
    }
    assert first == MinuteOf(MinTimestamp(s.results));
    OverNone(s.results, p, w, w + 60);
  }

  lemma FirstIsSeen(s: Service, done: int, startTS: int, first: int)
    requires Good(s, done) && 0 <= startTS <= done
    requires CanStart(s.results, s.m1, startTS) && first == FirstMinute(s.results, s.m1, startTS)
    ensures 0 <= first <= s.clock && first % 60 == 0
  {
    var ac := AfterPersisted(s.m1, startTS);
    if ac == 0 {
      MinuteBounds(MinTimestamp(s.results));
    } else {
      MinuteBounds(ac);
      if ac != startTS {
        var i :| 0 <= i < |s.m1| && s.m1[i].timestamp == MaxTimestamp(s.m1);
        assert Exact(s.m1[i], s.results);
        WholeMinuteBefore(s.m1[i].timestamp, done);
      }
    }
  }

  lemma ExtendedKeeps(s: Service, done: int, startTS: int, first: int, anchor: int, m1: seq<Row>, start: int)
    requires Good(s, done) && 0 <= startTS <= done
    requires CanStart(s.results, s.m1, startTS) && first == FirstMinute(s.results, s.m1, startTS)
    requires first <= anchor <= s.clock && anchor % 60 == 0 && Extended(s.m1, m1, s.results, first, anchor)
    requires (0 <= start <= anchor || 0 <= start <= done) && start % 60 == 0
    ensures Good(s.(m1 := m1, start := start), if anchor > done then anchor else done)
  {
    var d := if anchor > done then anchor else done;
    FirstIsSeen(s, done, startTS, first);
    CoverageGrows(s, done, startTS, first, anchor, m1);
    forall i | 0 <= i < |m1|
      ensures 0 <= m1[i].timestamp < d && Exact(m1[i], s.results)
    {
      if i < |s.m1| { assert m1[i] == s.m1[i]; }
    }
    KeysStay(s.m1, m1);
  }

  lemma CoverageGrows(s: Service, done: int, startTS: int, first: int, anchor: int, m1: seq<Row>)
    requires Good(s, done) && 0 <= startTS <= done
    requires CanStart(s.results, s.m1, startTS) && first == FirstMinute(s.results, s.m1, startTS)
    requires first <= anchor && Extended(s.m1, m1, s.results, first, anchor)
    ensures Covers(m1, s.results, 0, if anchor > done then anchor else done)
  {
    var d := if anchor > done then anchor else done;
    forall p: string, w: int | 0 <= w < d && w % 60 == 0 && Minute(s.results, p, w) != Empty
      ensures HasRow(m1, p, w)
    {
      if w < done {
        assert HasRow(s.m1, p, w);
        RowStays(s.m1, m1, p, w);
      } else if w < first {
        NothingBeforeFirst(s, done, startTS, first, p, w);
      }
    }
  }

  lemma KeysStay(before: seq<Row>, after: seq<Row>)
    requires Keyed(before) && |before| <= |after| && after[..|before|] == before
    requires forall i, j | 0 <= i < j < |after| && |before| <= j :: !SameKey(after[i], after[j])
    ensures Keyed(after)
  {
    forall i, j | 0 <= i < j < |after|
      ensures !SameKey(after[i], after[j])
    {
      if j < |before| { assert after[i] == before[i] && after[j] == before[j]; }
    }
  }

  lemma AnchorIsSeen(first: int, endTS: int, anchor: int, clock: int)
    requires StopsAt(first, endTS, anchor) && first <= clock && MinuteOf(endTS) <= clock
    ensures anchor <= clock
  {
  }

  lemma NextKeeps(s: Service, e: Event, t: Service, done: int) returns (more: int)
    requires Good(s, done) && Next(s, e, t)
    ensures done <= more && Good(t, more)
  {
    more := done;
    match e
    case NewBlock(time) =>
    case Store(batch, trades) => StoreKeeps(s, batch, trades, done);
    case Work(endTS, out) =>
      if out.UpTo? {
        var first := FirstMinute(s.results, s.m1, s.start);
        FirstIsSeen(s, done, s.start, first);
        AnchorIsSeen(first, endTS, out.anchor, s.clock);
        ExtendedKeeps(s, done, s.start, first, out.anchor, t.m1, t.start);
        more := if out.anchor > done then out.anchor else done;
      }
    case Begin(endTS, out) =>
      more := BeginKeeps(s, endTS, out, t, done);
  }

  lemma BeginKeeps(s: Service, endTS: int, out: Outcome, t: Service, done: int) returns (more: int)
    requires Good(s, done) && 0 < endTS && MinuteOf(endTS) <= s.clock && Begun(s, endTS, out, t)
    ensures done <= more && Good(t, more)
  {
    more := done;
    if out.UpTo? {
      var first := FirstMinute(s.results, s.m1, 0);
      FirstIsSeen(s, done, 0, first);
      AnchorIsSeen(first, endTS, out.anchor, s.clock);
      ExtendedKeeps(s, done, 0, first, out.anchor, t.m1, t.start);
      more := if out.anchor > done then out.anchor else done;
    }
  }

  ghost predicate StepAt(states: seq<Service>, events: seq<Event>, i: nat)
    requires i < |events| && |states| == |events| + 1
  {
    Next(states[i], events[i], states[i + 1])
  }

  /** What may happen after a state: blocks, results, jobs and restarts, in any order. */
  ghost predicate Later(t: Service, states: seq<Service>, events: seq<Event>) {
    && |states| == |events| + 1 && states[0] == t
    && forall i | 0 <= i < |events| :: StepAt(states, events, i)
  }

  lemma {:induction false} LaterIsGood(t: Service, done: int, states: seq<Service>, events: seq<Event>, n: nat) returns (more: int)
    requires Good(t, done) && Later(t, states, events) && n < |states|
    ensures Good(states[n], more)
    decreases n
  {
    more := done;
    if n > 0 {
      var before := LaterIsGood(t, done, states, events, n - 1);
      assert StepAt(states, events, n - 1);
      more := NextKeeps(states[n - 1], events[n - 1], states[n], before);
    }
  }

  /** Results and deals come together, and every candle has prices of its minute's deals. */
  predicate Quoted(s: Service) {
    && AllMatched(s.results, s.deals) && AllMatched(s.deals, s.results)
    && AddedPriced([], s.m1, s.deals)
  }

  lemma MatchedJoin(x: seq<Row>, y: seq<Row>, more: seq<Row>, trades: seq<Row>)
    requires AllMatched(x, y) && AllMatched(more, trades)
    ensures AllMatched(x + more, y + trades)
  {
    var all, both := x + more, y + trades;
    forall i | 0 <= i < |all|
      ensures Matched(all[i], both)
    {
      if i < |x| {
        assert Matched(x[i], y);
        RowStays(y, both, x[i].product, x[i].timestamp);
      } else {
        assert Matched(more[i - |x|], trades);
        var j :| 0 <= j < |trades| && trades[j].product == all[i].product && trades[j].timestamp == all[i].timestamp;
        assert both[|y| + j] == trades[j];
      }
    }
  }

  lemma StoreKeepsQuoted(s: Service, done: int, batch: seq<Row>, trades: seq<Row>)
    requires Good(s, done) && Quoted(s) && AllAt(trades, s.clock) && AllMatched(batch, trades) && AllMatched(trades, batch)
    ensures Quoted(s.(results := s.results + batch, deals := s.deals + trades))
  {
    MatchedJoin(s.results, s.deals, batch, trades);
    MatchedJoin(s.deals, s.results, trades, batch);
    forall i | 0 <= i < |s.m1|
      ensures PricedBy(s.m1[i], s.deals + trades, 60)
    {
      assert PricedBy(s.m1[i], s.deals, 60);
      assert Exact(s.m1[i], s.results);
      WholeMinuteBefore(s.m1[i].timestamp, done);
      PricesStay(s.m1[i], s.deals, trades, 60);
    }
  }

  lemma AddedKeepsQuoted(s: Service, t: Service)
    requires Quoted(s) && AddedPriced(s.m1, t.m1, s.deals) && |s.m1| <= |t.m1| && t.m1[..|s.m1|] == s.m1
    requires t.results == s.results && t.deals == s.deals
    ensures Quoted(t)
  {
    forall i | 0 <= i < |t.m1|
      ensures PricedBy(t.m1[i], t.deals, 60)
    {
      if i < |s.m1| {
        assert t.m1[i] == s.m1[i];
        assert PricedBy(s.m1[i], s.deals, 60);
      }
    }
  }

  lemma CreatedExtends(results: seq<Row>, m1: seq<Row>, startTS: int, endTS: int, after: seq<Row>, out: Outcome)
    requires Created(results, m1, startTS, endTS, after, out)
    ensures |m1| <= |after| && after[..|m1|] == m1
  {
  }

  lemma NextKeepsQuoted(s: Service, e: Event, t: Service, done: int)
    requires Good(s, done) && Quoted(s) && Next(s, e, t)
    ensures Quoted(t)
  {
    match e
    case NewBlock(time) =>
    case Store(batch, trades) => StoreKeepsQuoted(s, done, batch, trades);
    case Work(endTS, out) =>
      CreatedExtends(s.results, s.m1, s.start, endTS, t.m1, out);
      AddedKeepsQuoted(s, t);
    case Begin(endTS, out) =>
      CreatedExtends(s.results, s.m1, 0, endTS, t.m1, out);
      AddedKeepsQuoted(s, t);
  }

  ghost predicate Run(states: seq<Service>, events: seq<Event>) {
    Later(Service([], [], [], 0, 0), states, events)
  }

  lemma AlwaysGood(states: seq<Service>, events: seq<Event>, n: nat) returns (done: int)
    requires Run(states, events) && n < |states|
    ensures Good(states[n], done)
  {
    done := LaterIsGood(Service([], [], [], 0, 0), 0, states, events, n);
  }

  lemma {:induction false} AlwaysQuoted(states: seq<Service>, events: seq<Event>, n: nat)
    requires Run(states, events) && n < |states|
    ensures Quoted(states[n])
    decreases n
  {
    if n > 0 {
      AlwaysQuoted(states, events, n - 1);
      var done := AlwaysGood(states, events, n - 1);
      assert StepAt(states, events, n - 1);
      NextKeepsQuoted(states[n - 1], events[n - 1], states[n], done);
    }
  }

  // ---------------------------------------------------------------- what this means for results and windows

  /** Candle `i` is the one that counts result `r`. */
  predicate Counts(c: Row, r: Row) {
    c.product == r.product && c.timestamp <= r.timestamp < c.timestamp + 60
  }

  ghost predicate CountedOnce(m1: seq<Row>, r: Row) {
    && (exists i :: 0 <= i < |m1| && Counts(m1[i], r))
    && (forall i, j | 0 <= i < j < |m1| :: !(Counts(m1[i], r) && Counts(m1[j], r)))
  }

  lemma GoodCountsOnce(s: Service, done: int, k: nat)
    requires Good(s, done) && k < |s.results| && s.results[k].timestamp < done
    ensures CountedOnce(s.m1, s.results[k])
  {
    var r := s.results[k];
    var w := MinuteOf(r.timestamp);
    OverSome(s.results, r.product, w, w + 60, k);
    assert Minute(s.results, r.product, w) != Empty;
    assert HasRow(s.m1, r.product, w);
    var i :| 0 <= i < |s.m1| && s.m1[i].product == r.product && s.m1[i].timestamp == w;
    assert Counts(s.m1[i], r);
    forall i, j | 0 <= i < j < |s.m1|
      ensures !(Counts(s.m1[i], r) && Counts(s.m1[j], r))
    {
      assert Exact(s.m1[i], s.results) && Exact(s.m1[j], s.results);
      assert !SameKey(s.m1[i], s.m1[j]);
      if Counts(s.m1[i], r) && Counts(s.m1[j], r) {
        OneMinute(s.m1[i].timestamp, s.m1[j].timestamp, r.timestamp);
      }
    }
  }

  lemma ExactTells(c: Row, results: seq<Row>)
    requires Exact(c, results)
    ensures Tells(c, results, 60)
  {
    OverIs(BarOf(c), results, c.product, c.timestamp, c.timestamp + 60);
  }

  /** In every reachable state each result before the anchor lies in exactly one candle, and every
      candle holds exactly the volume, high and low of the results of its minute and opens and closes
      with an earliest and a latest deal of it. */
  lemma EveryResultIsCountedOnce(states: seq<Service>, events: seq<Event>, n: nat)
    requires Run(states, events) && n < |states|
    ensures var s := states[n];
            && (forall k | 0 <= k < |s.results| && s.results[k].timestamp < s.start :: CountedOnce(s.m1, s.results[k]))
            && (forall i {:trigger Tells(s.m1[i], s.results, 60)} | 0 <= i < |s.m1| :: s.m1[i].timestamp % 60 == 0 && Tells(s.m1[i], s.results, 60))
            && (forall i {:trigger PricedBy(s.m1[i], s.deals, 60)} | 0 <= i < |s.m1| :: PricedBy(s.m1[i], s.deals, 60))
  {
    AlwaysQuoted(states, events, n);
    var done := AlwaysGood(states, events, n);
    var s := states[n];
    forall i | 0 <= i < |s.m1|
      ensures s.m1[i].timestamp % 60 == 0 && Tells(s.m1[i], s.results, 60)
    {
      assert Exact(s.m1[i], s.results);
      ExactTells(s.m1[i], s.results);
    }
    forall k | 0 <= k < |s.results| && s.results[k].timestamp < s.start
      ensures CountedOnce(s.m1, s.results[k])
    {
      GoodCountsOnce(s, done, k);
    }
  }

  /** One minute of the table is one minute of the results. */
  lemma MinuteMatches(s: Service, done: int, p: string, w: int)
    requires Good(s, done) && w % 60 == 0 && 0 <= w < done
    ensures Minute(s.m1, p, w) == Minute(s.results, p, w)
  {
    if HasRow(s.m1, p, w) {
      var i :| 0 <= i < |s.m1| && s.m1[i].product == p && s.m1[i].timestamp == w;
      assert Exact(s.m1[i], s.results);
      forall j | 0 <= j < |s.m1| && j != i
        ensures !In(s.m1[j], p, w, w + 60)
      {
        assert Exact(s.m1[j], s.results);
        assert !SameKey(s.m1[i], s.m1[j]) by {
          if j < i { assert !SameKey(s.m1[j], s.m1[i]); }
        }
        if In(s.m1[j], p, w, w + 60) { OneMinute(w, s.m1[j].timestamp, s.m1[j].timestamp); }
      }
      OverOnly(s.m1, p, w, w + 60, i);
    } else {
      forall j | 0 <= j < |s.m1|
        ensures !In(s.m1[j], p, w, w + 60)
      {
        assert Exact(s.m1[j], s.results);
        if In(s.m1[j], p, w, w + 60) {
          OneMinute(w, s.m1[j].timestamp, s.m1[j].timestamp);
          assert HasRow(s.m1, p, w);
        }
      }
      OverNone(s.m1, p, w, w + 60);
    }
  }

  lemma {:induction false} MinutesMatch(s: Service, done: int, p: string, a: int, b: int)
    requires Good(s, done) && a % 60 == 0 && b % 60 == 0 && 0 <= a <= b <= done
    ensures Over(s.m1, p, a, b) == Over(s.results, p, a, b)
    decreases b - a
  {
    if a == b {
      OverNone(s.m1, p, a, b);
      OverNone(s.results, p, a, b);
    } else {
      WholeMinuteBefore(a, b);
      MinutesMatch(s, done, p, a + 60, b);
      assert Over(s.m1, p, a, a + 60) == Over(s.results, p, a, a + 60) by { MinuteMatches(s, done, p, a); }
      OverSplit(s.m1, p, a, a + 60, b);
      OverSplit(s.results, p, a, a + 60, b);
    }
  }

  /** Aggregating candles over any window of whole minutes gives what aggregating the results
      directly would give, up to where the candles have come. */
  lemma CandlesAggregate(s: Service, done: int, p: string, a: int, b: int)
    requires Good(s, done) && a % 60 == 0 && b % 60 == 0 && 0 <= a <= b
    ensures Over(s.m1, p, a, b) == Over(s.results, p, a, if b < done then b else if a < done then done else a)
  {
    if b < done {
      MinutesMatch(s, done, p, a, b);
    } else if a < done {
      MinutesMatch(s, done, p, a, done);
      OverSplit(s.m1, p, a, done, b);
      OverNone(s.m1, p, done, b);
    } else {
      OverNone(s.m1, p, a, b);
      OverNone(s.results, p, a, a);
    }
  }

  /** The candles of such a window have the same volume in all, highest high and lowest low as its results. */
  lemma MergingLosesNothing(s: Service, done: int, p: string, a: int, b: int, bar: Bar)
    requires Good(s, done) && a % 60 == 0 && b % 60 == 0 && 0 <= a <= b
    ensures Describes(bar, s.m1, p, a, b) <==> Describes(bar, s.results, p, a, if b < done then b else if a < done then done else a)
  {
    var end := if b < done then b else if a < done then done else a;
    CandlesAggregate(s, done, p, a, b);
    OverIs(bar, s.m1, p, a, b);
    OverIs(bar, s.results, p, a, end);
  }

  lemma NextKeepsAll(s: Service, e: Event, t: Service, done: int) returns (more: int)
    requires Good(s, done) && Quoted(s) && Next(s, e, t)
    ensures done <= more && Good(t, more) && Quoted(t) && AllCounted(t)
  {
    NextKeepsQuoted(s, e, t, done);
    more := NextKeeps(s, e, t, done);
    GoodCountsAll(t, more);
  }

  // ---------------------------------------------------------------- starting from the wall clock

  /** Every result before the start of the next call is in a candle. */
  ghost predicate AllCounted(s: Service) {
    forall k | 0 <= k < |s.results| && s.results[k].timestamp < s.start :: CountedOnce(s.m1, s.results[k])
  }

  /** A product name no candle has. */
  lemma {:induction false} UnusedProduct(m1: seq<Row>) returns (p: string)
    ensures forall i | 0 <= i < |m1| :: |m1[i].product| < |p|
    decreases |m1|
  {
    p := "a";
    if m1 != [] {
      var n := |m1| - 1;
      var q := UnusedProduct(m1[..n]);
      p := q + m1[n].product + "a";
    }
  }

  lemma GoodCountsAll(s: Service, done: int)
    requires Good(s, done)
    ensures AllCounted(s)
  {
    forall k | 0 <= k < |s.results| && s.results[k].timestamp < s.start
      ensures CountedOnce(s.m1, s.results[k])
    {
      GoodCountsOnce(s, done, k);
    }
  }

  /** A result of the latest block, stored after a first call went past that block, is in no candle. */
  lemma LateResultIsLost(s: Service, endTS: int, anchor: int, t: Service) returns (states: seq<Service>, events: seq<Event>)
    requires Begun(s, endTS, UpTo(anchor), t) && s.clock < MinuteOf(endTS)
    ensures Later(t, states, events) && !AllCounted(states[|states| - 1])
  {
    var p := UnusedProduct(t.m1);
    var late := Row(p, s.clock, 1.0, 1.0, 1.0, 1.0, 1.0);
    var u := t.(results := t.results + [late], deals := t.deals + [late]);
    states, events := [t, u], [Store([late], [late])];
    SelfMatched([late]);
    assert StepAt(states, events, 0);
    assert u.results[|t.results|] == late;
    MinuteBounds(endTS);
    AnchorPast(FirstMinute(s.results, s.m1, 0), endTS, anchor, s.clock);
    assert !CountedOnce(u.m1, late);
  }

  /** A process that has seen no block yet ends its first call one minute before the wall clock. Over
      everything that may happen later every result before the anchor is in a candle if and only if
      the call finds nothing to start from, or this moment is not in a minute after the latest block. */
  lemma BeginIsSafeExactlyBehindTheChain(s: Service, done: int, endTS: int, out: Outcome, t: Service)
    requires Good(s, done) && 0 < endTS && Begun(s, endTS, out, t)
    ensures (CanStart(s.results, s.m1, 0) ==> MinuteOf(endTS) <= s.clock) <==>
            forall states: seq<Service>, events: seq<Event> :: Later(t, states, events) ==> AllCounted(states[|states| - 1])
  {
    if out.NoDeals? || MinuteOf(endTS) <= s.clock {
      var more := done;
      if MinuteOf(endTS) <= s.clock { more := BeginKeeps(s, endTS, out, t, done); }
      forall states: seq<Service>, events: seq<Event> | Later(t, states, events)
        ensures AllCounted(states[|states| - 1])
      {
        var last := LaterIsGood(t, more, states, events, |states| - 1);
        GoodCountsAll(states[|states| - 1], last);
      }
    } else {
      var states, events := LateResultIsLost(s, endTS, out.anchor, t);
    }
  }

  /** One such start: the chain stands at second 60, the wall clock at 360. */
  lemma WallClockStartLosesResults() returns (s: Service, t: Service, states: seq<Service>, events: seq<Event>)
    ensures Good(s, 0) && Quoted(s) && s.clock == 60 && Begun(s, 300, UpTo(300), t)
    ensures Later(t, states, events) && !AllCounted(states[|states| - 1])
  {
    var r := Row("a", 60, 1.0, 1.0, 1.0, 1.0, 1.0);
    s := Service([r], [r], [], 0, 60);
    SelfMatched([r]);
    OverOnly([r], "a", 60, 120, 0);
    forall p: string, w: int | 60 <= w < 300 && w % 60 == 0 && Minute([r], p, w) != Empty
      ensures p == "a" && w == 60
    {
      if p != "a" || w != 60 { OverNone([r], p, w, w + 60); }
    }
    t := Service([r], [r], [r], 300, 60);
    assert HasRow([r], "a", 60) by { assert [r][0].product == "a"; }
    assert Extended([], [r], [r], 60, 300);
    assert PricedBy(r, [r], 60) by {
      assert Earliest([r], "a", 60, 120, 0) && Latest([r], "a", 60, 120, 0);
    }
    states, events := LateResultIsLost(s, 300, 300, t);
  }

  lemma AnchorPast(first: int, endTS: int, anchor: int, clock: int)
    requires StopsAt(first, endTS, anchor) && clock < MinuteOf(endTS)
    ensures clock < anchor
  {
  }
}
