/** A coarse candle table over whole runs: blocks, one-minute jobs, the notices they send to the merging
    job, merges, deletions and restarts (x/backend/keeper/keeper_channel.go, x/backend/orm/orm.go). */
module KlineJobs {
  import opened KlineRows
  import opened KlineTables
  import opened KlineKeeper
  import opened KlineCleanUp
  import opened KlineMerges
  import KlinePrices

  // ---------------------------------------------------------------- one-minute calls after deletions

  predicate AllBefore(m1: seq<Row>, time: int) {
    forall i | 0 <= i < |m1| :: m1[i].timestamp < time
  }

  /** A call of `CreateKline1M` on what deletions have left of the one-minute table. */
  ghost predicate Called(s: Service, kept: seq<Row>, startTS: int, endTS: int, out: Outcome, m1: seq<Row>) {
    && |s.m1| <= |m1| && m1[..|s.m1|] == s.m1
    && Created(s.results, kept, startTS, endTS, kept + m1[|s.m1|..], out)
    && AddedPriced(s.m1, m1, s.deals)
  }

  predicate AddedGood(added: seq<Row>, results: seq<Row>, first: int, stop: int) {
    && (forall i | 0 <= i < |added| :: first <= added[i].timestamp < stop && Exact(added[i], results))
    && Keyed(added)
  }

  lemma {:induction false} AddedToSome(kept: seq<Row>, added: seq<Row>, results: seq<Row>, first: int, stop: int)
    requires Extended(kept, kept + added, results, first, stop)
    ensures AddedGood(added, results, first, stop)
  {
    var all := kept + added;
    assert forall i | 0 <= i < |added| :: all[|kept| + i] == added[i];
  }

  lemma {:induction false} AddedToAll(m0: seq<Row>, added: seq<Row>, results: seq<Row>, first: int, stop: int)
    requires AddedGood(added, results, first, stop) && AllBefore(m0, first) && Covers(m0 + added, results, first, stop)
    ensures Extended(m0, m0 + added, results, first, stop)
  {
    var all := m0 + added;
    forall i, j | 0 <= i < j < |all| && |m0| <= j
      ensures !SameKey(all[i], all[j])
    {
      if i < |m0| { assert all[i] == m0[i] && all[j] == added[j - |m0|]; }
    }
  }

  lemma {:induction false} ExtendedOnAll(m0: seq<Row>, kept: seq<Row>, added: seq<Row>, results: seq<Row>, first: int, stop: int)
    requires Extended(kept, kept + added, results, first, stop) && AllBefore(kept, first) && AllBefore(m0, first)
    ensures Extended(m0, m0 + added, results, first, stop)
  {
    AddedToSome(kept, added, results, first, stop);
    forall p: string, w: int | first <= w < stop && w % 60 == 0 && Minute(results, p, w) != Empty
      ensures HasRow(m0 + added, p, w)
    {
      AddedHasRow(m0, kept, added, first, p, w);
    }
    AddedToAll(m0, added, results, first, stop);
  }

  lemma AddedHasRow(m0: seq<Row>, kept: seq<Row>, added: seq<Row>, first: int, p: string, w: int)
    requires AllBefore(kept, first) && first <= w && HasRow(kept + added, p, w)
    ensures HasRow(m0 + added, p, w)
  {
    var all := kept + added;
    var i :| 0 <= i < |all| && all[i].product == p && all[i].timestamp == w;
    assert (m0 + added)[|m0| + i - |kept|] == added[i - |kept|];
  }

  /** A call on part of the candles is one on all of them, if it starts alike and after all of them. */
  lemma {:induction false} CreatedOnAll(results: seq<Row>, m0: seq<Row>, kept: seq<Row>, added: seq<Row>, startTS: int, endTS: int, out: Outcome)
    requires Created(results, kept, startTS, endTS, kept + added, out) && AfterPersisted(kept, startTS) == AfterPersisted(m0, startTS)
    requires CanStart(results, m0, startTS) ==>
               AllBefore(m0, FirstMinute(results, m0, startTS)) && AllBefore(kept, FirstMinute(results, m0, startTS))
    ensures Created(results, m0, startTS, endTS, m0 + added, out)
  {
    if out.UpTo? {
      ExtendedOnAll(m0, kept, added, results, FirstMinute(results, m0, startTS), out.anchor);
    } else {
      assert |kept + added| == |kept| + |added|;
      assert m0 + added == m0;
    }
  }

  lemma KeptBefore(m0: seq<Row>, cut: int, time: int)
    requires AllBefore(m0, time)
    ensures AllBefore(Kept(m0, cut), time)
  {
    forall i | 0 <= i < |Kept(m0, cut)|
      ensures Kept(m0, cut)[i].timestamp < time
    {
      var j := KeptIsRow(m0, cut, i);
    }
  }

  /** Deleted candles make no difference to a call that starts after all candles there ever were. */
  lemma {:induction false} CalledIsCreated(s: Service, kept: seq<Row>, startTS: int, endTS: int, out: Outcome, m1: seq<Row>)
    requires Called(s, kept, startTS, endTS, out, m1) && AfterPersisted(kept, startTS) == AfterPersisted(s.m1, startTS)
    requires CanStart(s.results, s.m1, startTS) ==>
               AllBefore(s.m1, FirstMinute(s.results, s.m1, startTS)) && AllBefore(kept, FirstMinute(s.results, s.m1, startTS))
    ensures Created(s.results, s.m1, startTS, endTS, m1, out)
  {
    var added := m1[|s.m1|..];
    assert m1 == s.m1 + added;
    CreatedOnAll(s.results, s.m1, kept, added, startTS, endTS, out);
  }

  lemma {:induction false} BehindStart(m1: seq<Row>, cut: int, start: int)
    requires 0 <= start && AllBefore(m1, start)
    ensures AfterPersisted(m1, start) == start == AfterPersisted(Kept(m1, cut), start)
  {
    if m1 != [] { var i := TopRow(m1); }
    if Kept(m1, cut) != [] { KeptMax(m1, cut); }
  }

  /** The newest one-minute candle has not been deleted. */
  predicate NewestKept(m1: seq<Row>, cut: int) {
    m1 != [] ==> cut <= MaxTimestamp(m1)
  }

  lemma {:induction false} SameNewest(m1: seq<Row>, cut: int)
    requires NewestKept(m1, cut)
    ensures MaxTimestamp(Kept(m1, cut)) == MaxTimestamp(m1)
  {
    if m1 != [] {
      var j := TopRow(m1);
      var i := RowIsKept(m1, cut, j);
      KeptMax(m1, cut);
    }
  }

  // ---------------------------------------------------------------- the jobs together

  /** A notice carries the anchor before the job; `stamp` is the time of the latest block when the job
      made it. */
  datatype Notice = Notice(start: int, stamp: int)

  /** One coarse table beside the service, whose `m1` is all one-minute candles ever written. `owed`: a
      notice the one-minute job has still to send, before its next round. `notices`: the channel, which
      holds one. `running`: the merging job has made its first merge. `seen`: the time of the latest block
      when it last merged. */
  datatype System = System(
    base: Service, table: Table, owed: seq<Notice>, notices: seq<Notice>, running: bool, seen: int)

  datatype Step =
    | Chain(e: Event)
    | Job(endTS: int, out: Outcome)
    | Notify
    | Restart(end: int, begun: Outcome)
    | FirstMerge(now: int, windows: nat)
    | LaterMerge(time: int, n: nat)
    | CleanUp(upTo: int)
    | DropRows(before: int)

  /** Candles before this have been merged once a merge up to `time` is done. */
  function Mark(merged: int, start: int, time: int): int {
    Max(merged, if time + 1 < start then time + 1 else start)
  }

  /** Restarting forgets the channel, and comes before the newest one-minute candle is deleted. The first
      merge goes by the wall clock, which is not before any candle; a later one by a block time read after
      its notice came. One-minute candles are deleted after they have been merged. */
  ghost predicate Does(freq: int, c: System, step: Step, d: System)
    requires freq > 0
  {
    match step
    case Chain(e) =>
      && (e.NewBlock? || (e.Store? && freq <= c.base.clock))
      && Next(c.base, e, d.base) && d == c.(base := d.base)
    case Job(endTS, out) =>
      && c.owed == [] && 0 < endTS && MinuteOf(endTS) <= c.base.clock
      && Called(c.base, Kept(c.base.m1, c.table.cut), c.base.start, endTS, out, d.base.m1)
      && d == c.(base := Worked(c.base, out, d.base.m1),
                 owed := if out.UpTo? && out.anchor > c.base.start then [Notice(c.base.start, c.base.clock)] else [])
    case Notify => c.owed != [] && c.notices == [] && d == c.(owed := [], notices := c.owed)
    case Restart(endTS, out) =>
      && 0 < endTS && MinuteOf(endTS) <= c.base.clock && NewestKept(c.base.m1, c.table.cut)
      && Called(c.base, Kept(c.base.m1, c.table.cut), 0, endTS, out, d.base.m1)
      && d == c.(base := Started(c.base, out, d.base.m1), owed := [], notices := [], running := false)
    case FirstMerge(now, n) =>
      && !c.running && 0 < now && MaxTimestamp(c.base.m1) <= now
      && MergedFrom(freq, c.table.rows, Kept(c.base.m1, c.table.cut), 0, now + freq, n, d.table.rows)
      && d == c.(table := c.table.(rows := d.table.rows, merged := Mark(c.table.merged, c.base.start, now)),
                 running := true, seen := c.base.clock)
    case LaterMerge(time, n) =>
      && c.running && c.notices != []
      && c.seen <= time <= c.base.clock && c.notices[0].stamp <= time && 0 < time
      && MergedFrom(freq, c.table.rows, Kept(c.base.m1, c.table.cut), c.notices[0].start, time + freq, n, d.table.rows)
      && d == c.(table := c.table.(rows := d.table.rows, merged := Mark(c.table.merged, c.base.start, time)),
                 notices := c.notices[1..], seen := c.base.clock)
    case CleanUp(upTo) => upTo <= c.table.merged && d == c.(table := CutBefore(c.table, upTo))
    case DropRows(upTo) => d == c.(table := DropBefore(c.table, upTo))
  }

  function Worked(s: Service, out: Outcome, m1: seq<Row>): Service {
    s.(m1 := m1, start := if out.UpTo? && out.anchor > s.start then out.anchor else s.start)
  }

  function Started(s: Service, out: Outcome, m1: seq<Row>): Service {
    s.(m1 := m1, start := match out case UpTo(anchor) => anchor case NoDeals => 0 case BadRange => -1)
  }

  function Pending(c: System): seq<Notice> {
    c.notices + c.owed
  }

  /** Times after the first period of 1970, so that 0 stands for no time at all; and the next call starts
      after all candles. */
  predicate Dated(s: Service, freq: int) {
    && (forall i | 0 <= i < |s.results| :: freq <= s.results[i].timestamp)
    && AllFrom(s.m1, freq) && AllBefore(s.m1, s.start)
    && (s.start == 0 || freq <= s.start)
  }

  function TimeAt(rows: seq<Row>, i: nat): int {
    if i < |rows| then rows[i].timestamp else 0
  }

  predicate NoticeGood(x: Notice, freq: int, done: int, clock: int) {
    (x.start == 0 || freq <= x.start) && x.start <= done && x.start <= x.stamp <= clock
  }

  /** Notices follow one another without a gap, and every candle is before the last of them was made. */
  predicate Chained(q: seq<Notice>, s: Service, freq: int, done: int) {
    && |q| <= 2
    && (forall i | 0 <= i < |q| :: NoticeGood(q[i], freq, done, s.clock))
    && (|q| == 2 ==> q[1].start <= q[0].stamp)
    && (q != [] ==> s.start <= q[|q| - 1].stamp && AllBefore(s.m1, q[|q| - 1].stamp))
  }

  /** Every candle that has not been merged is still to be notified. */
  predicate ToCome(q: seq<Notice>, m1: seq<Row>, merged: int) {
    forall i | 0 <= i < |m1| && merged <= m1[i].timestamp :: q != [] && q[0].start <= m1[i].timestamp
  }

  predicate BaseGood(s: Service, freq: int) {
    Quoted(s) && Dated(s, freq)
  }

  predicate TableInv(t: Table, s: Service, seen: int, freq: int, done: int)
    requires freq > 0
  {
    && TableGood(t, s.m1, freq) && t.merged <= done
    && seen <= s.clock && (forall i | 0 <= i < |t.rows| :: t.rows[i].timestamp <= seen)
  }

  predicate QueueInv(c: System, freq: int, done: int) {
    && |c.owed| <= 1 && |c.notices| <= 1 && Chained(Pending(c), c.base, freq, done)
    && (c.running ==> ToCome(Pending(c), c.base.m1, c.table.merged))
  }

  ghost predicate Inv(c: System, freq: int, done: int)
    requires freq > 0
  {
    && Good(c.base, done) && BaseGood(c.base, freq)
    && TableInv(c.table, c.base, c.seen, freq, done) && QueueInv(c, freq, done)
  }

  // ---------------------------------------------------------------- steps of the service

  lemma ChainKeepsBase(freq: int, s: Service, e: Event, t: Service, done: int)
    requires Good(s, done) && BaseGood(s, freq) && Next(s, e, t)
    requires e.NewBlock? || (e.Store? && freq <= s.clock)
    ensures Good(t, done) && BaseGood(t, freq) && t.m1 == s.m1 && t.start == s.start && s.clock <= t.clock
  {
    NextKeepsQuoted(s, e, t, done);
    if e.Store? { StoreKeeps(s, e.batch, e.trades, done); }
  }

  lemma QueueStays(q: seq<Notice>, s: Service, t: Service, freq: int, done: int, more: int)
    requires Chained(q, s, freq, done) && done <= more && s.clock <= t.clock && t.m1 == s.m1 && t.start <= s.start
    ensures Chained(q, t, freq, more)
  {
    forall i | 0 <= i < |q|
      ensures NoticeGood(q[i], freq, more, t.clock)
    {
      assert NoticeGood(q[i], freq, done, s.clock);
    }
  }

  lemma ChainKeeps(freq: int, c: System, e: Event, d: System, done: int)
    requires Frequency(freq) && Inv(c, freq, done) && Does(freq, c, Chain(e), d)
    ensures Inv(d, freq, done)
  {
    ChainKeepsBase(freq, c.base, e, d.base, done);
    assert Pending(d) == Pending(c);
    QueueStays(Pending(c), c.base, d.base, freq, done, done);
  }

  lemma MinuteFromFrequency(ts: int, freq: int)
    requires freq % 60 == 0 && freq <= ts
    ensures freq <= MinuteOf(ts)
  {
  }

  /** Where a one-minute job starts: not before the anchor it starts from. */
  lemma JobStart(s: Service, done: int, freq: int, startTS: int)
    requires Frequency(freq) && Good(s, done) && Dated(s, freq) && CanStart(s.results, s.m1, startTS)
    requires startTS % 60 == 0 && (startTS == 0 || freq <= startTS)
    ensures startTS <= FirstMinute(s.results, s.m1, startTS) && freq <= FirstMinute(s.results, s.m1, startTS)
  {
    var ac := AfterPersisted(s.m1, startTS);
    if ac == 0 {
      var i :| 0 <= i < |s.results| && s.results[i].timestamp == MinTimestamp(s.results);
      MinuteFromFrequency(s.results[i].timestamp, freq);
    } else if ac != startTS {
      var i :| 0 <= i < |s.m1| && s.m1[i].timestamp == MaxTimestamp(s.m1);
      MinuteFromFrequency(ac, freq);
      MinuteBounds(ac);
      assert Exact(s.m1[i], s.results);
    }
  }

  /** It starts after all candles there are: from the anchor, or from the newest candle when it is 0. */
  lemma StartsAfterCandles(s: Service, done: int, freq: int, startTS: int)
    requires Frequency(freq) && Good(s, done) && Dated(s, freq) && CanStart(s.results, s.m1, startTS)
    requires startTS == 0 || startTS == s.start
    ensures AllBefore(s.m1, FirstMinute(s.results, s.m1, startTS))
  {
    if s.m1 != [] {
      var j := TopRow(s.m1);
      assert Exact(s.m1[j], s.results);
      MinuteBounds(s.m1[j].timestamp + 60);
    }
  }

  lemma NewRowsAreLate(s: Service, done: int, m1: seq<Row>, first: int, stop: int, i: nat)
    requires Good(s, done) && 0 <= first && Extended(s.m1, m1, s.results, first, stop) && |s.m1| <= i < |m1|
    ensures done <= m1[i].timestamp
  {
    var c := m1[i];
    assert Exact(c, s.results);
    if c.timestamp < done {
      assert Minute(s.results, c.product, c.timestamp) != Empty;
      assert HasRow(s.m1, c.product, c.timestamp);
      var j :| 0 <= j < |s.m1| && s.m1[j].product == c.product && s.m1[j].timestamp == c.timestamp;
      assert m1[j] == s.m1[j];
      assert SameKey(m1[j], m1[i]);
    }
  }

  /** What a one-minute call adds: candles not before `done`, at or after where it started and before the
      anchor it returns, which the chain has reached and all candles are before. */
  lemma CallAdds(s: Service, done: int, freq: int, startTS: int, endTS: int, m1: seq<Row>, anchor: int)
    requires Frequency(freq) && Good(s, done) && Dated(s, freq) && (startTS == 0 || startTS == s.start)
    requires MinuteOf(endTS) <= s.clock && Created(s.results, s.m1, startTS, endTS, m1, UpTo(anchor))
    ensures Extends(s.m1, m1, done)
    ensures forall i | |s.m1| <= i < |m1| :: startTS <= m1[i].timestamp && freq <= m1[i].timestamp
    ensures startTS <= anchor <= s.clock && freq <= anchor && AllBefore(m1, anchor)
  {
    var first := FirstMinute(s.results, s.m1, startTS);
    JobStart(s, done, freq, startTS);
    FirstIsSeen(s, done, startTS, first);
    StartsAfterCandles(s, done, freq, startTS);
    AnchorIsSeen(first, endTS, anchor, s.clock);
    forall i | 0 <= i < |m1|
      ensures i >= |s.m1| ==> done <= m1[i].timestamp
      ensures m1[i].timestamp < anchor
    {
      if i < |s.m1| { assert m1[i] == s.m1[i]; } else { NewRowsAreLate(s, done, m1, first, anchor, i); }
    }
  }

  lemma StillDated(s: Service, t: Service, freq: int)
    requires Dated(s, freq) && t.results == s.results && |s.m1| <= |t.m1| && t.m1[..|s.m1|] == s.m1
    requires forall i | |s.m1| <= i < |t.m1| :: freq <= t.m1[i].timestamp
    requires (t.start == 0 || freq <= t.start) && AllBefore(t.m1, t.start)
    ensures Dated(t, freq)
  {
    forall i | 0 <= i < |t.m1|
      ensures freq <= t.m1[i].timestamp
    {
      if i < |s.m1| { assert t.m1[i] == s.m1[i]; }
    }
  }

  lemma NoRoom(m0: seq<Row>, m1: seq<Row>, start: int, stop: int)
    requires |m0| <= |m1| && m1[..|m0|] == m0 && stop <= start && AllBefore(m1, stop)
    requires forall i | |m0| <= i < |m1| :: start <= m1[i].timestamp
    ensures m1 == m0
  {
    var t := TimeAt(m1, |m0|);
  }

  lemma JobIsNext(freq: int, c: System, endTS: int, out: Outcome, d: System, done: int)
    requires Frequency(freq) && Inv(c, freq, done) && Does(freq, c, Job(endTS, out), d)
    ensures Next(c.base, Work(endTS, out), d.base)
  {
    var s := c.base;
    BehindStart(s.m1, c.table.cut, s.start);
    if CanStart(s.results, s.m1, s.start) {
      StartsAfterCandles(s, done, freq, s.start);
      KeptBefore(s.m1, c.table.cut, FirstMinute(s.results, s.m1, s.start));
    }
    CalledIsCreated(s, Kept(s.m1, c.table.cut), s.start, endTS, out, d.base.m1);
  }

  /** A job that makes no progress adds no candle. */
  lemma JobAdds(freq: int, s: Service, done: int, endTS: int, out: Outcome, t: Service)
    requires Frequency(freq) && Good(s, done) && BaseGood(s, freq) && Next(s, Work(endTS, out), t)
    ensures Dated(t, freq) && Extends(s.m1, t.m1, done) && t.clock == s.clock
    ensures if out.UpTo? && out.anchor > s.start
            then AllBefore(t.m1, s.clock) && t.start <= s.clock && forall i | |s.m1| <= i < |t.m1| :: s.start <= t.m1[i].timestamp
            else t == s
  {
    if out.UpTo? {
      CallAdds(s, done, freq, s.start, endTS, t.m1, out.anchor);
      if out.anchor <= s.start { NoRoom(s.m1, t.m1, s.start, out.anchor); }
      StillDated(s, t, freq);
    }
  }

  lemma QueueGrows(q: seq<Notice>, s: Service, t: Service, freq: int, done: int, more: int)
    requires |q| <= 1 && Chained(q, s, freq, done) && done <= more
    requires (s.start == 0 || freq <= s.start) && s.start <= done <= s.clock
    requires t.clock == s.clock && t.start <= s.clock && AllBefore(t.m1, s.clock)
    ensures Chained(q + [Notice(s.start, s.clock)], t, freq, more)
  {
    var r := q + [Notice(s.start, s.clock)];
    assert r[|r| - 1] == Notice(s.start, s.clock);
    forall i | 0 <= i < |r|
      ensures NoticeGood(r[i], freq, more, t.clock)
    {
      if i < |q| { assert NoticeGood(q[i], freq, done, s.clock); }
    }
  }

  lemma NewRowsToCome(q: seq<Notice>, start: int, stamp: int, m0: seq<Row>, m1: seq<Row>, done: int, merged: int)
    requires ToCome(q, m0, merged) && (q != [] ==> q[0].start <= done)
    requires Extends(m0, m1, done) && forall i | |m0| <= i < |m1| :: start <= m1[i].timestamp
    ensures ToCome(q + [Notice(start, stamp)], m1, merged)
  {
    var r := q + [Notice(start, stamp)];
    forall i | 0 <= i < |m1| && merged <= m1[i].timestamp
      ensures r[0].start <= m1[i].timestamp
    {
      if i < |m0| { assert m1[i] == m0[i]; }
    }
  }

  lemma JobKeepsQueue(freq: int, c: System, endTS: int, out: Outcome, d: System, done: int, more: int)
    requires Frequency(freq) && Inv(c, freq, done) && Does(freq, c, Job(endTS, out), d) && done <= more
    requires Next(c.base, Work(endTS, out), d.base)
    ensures Chained(Pending(d), d.base, freq, more)
    ensures d.running ==> ToCome(Pending(d), d.base.m1, d.table.merged)
  {
    var q := c.notices;
    assert Pending(c) == q;
    JobAdds(freq, c.base, done, endTS, out, d.base);
    if out.UpTo? && out.anchor > c.base.start {
      QueueGrows(q, c.base, d.base, freq, done, more);
      if c.running {
        assert q != [] ==> NoticeGood(q[0], freq, done, c.base.clock);
        NewRowsToCome(q, c.base.start, c.base.clock, c.base.m1, d.base.m1, done, c.table.merged);
      }
    } else {
      assert Pending(d) == q;
      QueueStays(q, c.base, d.base, freq, done, more);
    }
  }

  lemma JobKeeps(freq: int, c: System, endTS: int, out: Outcome, d: System, done: int) returns (more: int)
    requires Frequency(freq) && Inv(c, freq, done) && Does(freq, c, Job(endTS, out), d)
    ensures done <= more && Inv(d, freq, more)
  {
    JobIsNext(freq, c, endTS, out, d, done);
    more := NextKeepsAll(c.base, Work(endTS, out), d.base, done);
    JobKeepsQueue(freq, c, endTS, out, d, done, more);
    JobAdds(freq, c.base, done, endTS, out, d.base);
    LateCandlesKeep(c.table, c.base.m1, d.base.m1, freq, done);
  }

  lemma NotifyKeeps(freq: int, c: System, d: System, done: int)
    requires Frequency(freq) && Inv(c, freq, done) && Does(freq, c, Notify, d)
    ensures Inv(d, freq, done)
  {
    assert Pending(d) == Pending(c);
  }

  lemma RestartIsNext(freq: int, c: System, endTS: int, out: Outcome, d: System, done: int)
    requires Frequency(freq) && Inv(c, freq, done) && Does(freq, c, Restart(endTS, out), d)
    ensures Next(c.base, Begin(endTS, out), d.base)
  {
    var s := c.base;
    SameNewest(s.m1, c.table.cut);
    if CanStart(s.results, s.m1, 0) {
      StartsAfterCandles(s, done, freq, 0);
      KeptBefore(s.m1, c.table.cut, FirstMinute(s.results, s.m1, 0));
    }
    CalledIsCreated(s, Kept(s.m1, c.table.cut), 0, endTS, out, d.base.m1);
  }

  lemma NothingToStart(s: Service, freq: int)
    requires Frequency(freq) && Dated(s, freq) && !CanStart(s.results, s.m1, 0)
    ensures s.m1 == []
  {
    if s.m1 != [] { var j := TopRow(s.m1); }
  }

  lemma RestartAdds(freq: int, s: Service, done: int, endTS: int, out: Outcome, t: Service)
    requires Frequency(freq) && Good(s, done) && BaseGood(s, freq) && Next(s, Begin(endTS, out), t)
    ensures Dated(t, freq) && Extends(s.m1, t.m1, done) && t.clock == s.clock
  {
    if out.UpTo? {
      CallAdds(s, done, freq, 0, endTS, t.m1, out.anchor);
      StillDated(s, t, freq);
    } else {
      NothingToStart(s, freq);
    }
  }

  lemma RestartKeeps(freq: int, c: System, endTS: int, out: Outcome, d: System, done: int) returns (more: int)
    requires Frequency(freq) && Inv(c, freq, done) && Does(freq, c, Restart(endTS, out), d)
    ensures done <= more && Inv(d, freq, more)
  {
    RestartIsNext(freq, c, endTS, out, d, done);
    more := NextKeepsAll(c.base, Begin(endTS, out), d.base, done);
    RestartAdds(freq, c.base, done, endTS, out, d.base);
    LateCandlesKeep(c.table, c.base.m1, d.base.m1, freq, done);
    assert Pending(d) == [];
  }

  // ---------------------------------------------------------------- merges

  lemma RowsByCandles(rows: seq<Row>, m1: seq<Row>, freq: int, now: int)
    requires freq > 0 && Grounded(rows, m1, freq) && MaxTimestamp(m1) <= now
    ensures forall i | 0 <= i < |rows| :: rows[i].timestamp <= now
  {
    forall i | 0 <= i < |rows|
      ensures rows[i].timestamp <= now
    {
      var j := BarHasRow(m1, rows[i].product, rows[i].timestamp, rows[i].timestamp + freq);
    }
  }

  lemma FirstMergeFinishes(freq: int, c: System, now: int, n: nat, d: System, done: int)
    requires Frequency(freq) && Inv(c, freq, done) && Does(freq, c, FirstMerge(now, n), d)
    ensures Finished(c.table.(rows := d.table.rows), c.base.m1, freq, now)
    ensures Merge(c.table, c.base.m1, freq, 0, now, n, d.table.rows)
  {
    RowsByCandles(c.table.rows, c.base.m1, freq, now);
    MergeFinishes(c.table, c.base.m1, freq, 0, now, n, d.table.rows);
  }

  lemma LaterMergeFinishes(freq: int, c: System, time: int, n: nat, d: System, done: int)
    requires Frequency(freq) && Inv(c, freq, done) && Does(freq, c, LaterMerge(time, n), d)
    ensures Finished(c.table.(rows := d.table.rows), c.base.m1, freq, time)
    ensures Merge(c.table, c.base.m1, freq, c.notices[0].start, time, n, d.table.rows)
  {
    assert Pending(c)[0] == c.notices[0];
    assert NoticeGood(Pending(c)[0], freq, done, c.base.clock);
    MergeFinishes(c.table, c.base.m1, freq, c.notices[0].start, time, n, d.table.rows);
  }

  /** A candle before the new mark has its row: its window starts by `time`, or it had one before. */
  lemma MarkedIsHeld(t: Table, m1: seq<Row>, freq: int, startTS: int, time: int, n: nat, after: seq<Row>, start: int, i: nat)
    requires Merge(t, m1, freq, startTS, time, n, after) && Finished(t.(rows := after), m1, freq, time)
    requires i < |m1| && m1[i].timestamp < Mark(t.merged, start, time) && t.low <= Win(m1[i], freq)
    ensures Held(after, m1[i], freq)
  {
    assert CandleGood(t, m1[i], freq);
    assert FinishedCandle(t.(rows := after), freq, time, m1[i]);
    CandleInWindow(m1, i, freq);
  }

  lemma MergeKeepsTable(t: Table, m1: seq<Row>, freq: int, startTS: int, time: int, n: nat, after: seq<Row>, start: int)
    requires Merge(t, m1, freq, startTS, time, n, after) && Finished(t.(rows := after), m1, freq, time)
    ensures TableGood(t.(rows := after, merged := Mark(t.merged, start, time)), m1, freq)
  {
    forall i | 0 <= i < |m1| && m1[i].timestamp < Mark(t.merged, start, time) && t.low <= Win(m1[i], freq)
      ensures Held(after, m1[i], freq)
    {
      MarkedIsHeld(t, m1, freq, startTS, time, n, after, start, i);
    }
    FinishedIsGood(t.(rows := after), m1, freq, time, Mark(t.merged, start, time));
  }

  lemma MergeKeeps(t: Table, s: Service, done: int, freq: int, startTS: int, time: int, n: nat, after: seq<Row>)
    requires Good(s, done) && t.merged <= done
    requires Merge(t, s.m1, freq, startTS, time, n, after) && Finished(t.(rows := after), s.m1, freq, time)
    ensures TableInv(t.(rows := after, merged := Mark(t.merged, s.start, time)), s, s.clock, freq, done)
  {
    MergeKeepsTable(t, s.m1, freq, startTS, time, n, after, s.start);
    RowsBehind(after, s.m1, freq, done);
  }

  lemma FirstMergeKeeps(freq: int, c: System, now: int, n: nat, d: System, done: int)
    requires Frequency(freq) && Inv(c, freq, done) && Does(freq, c, FirstMerge(now, n), d)
    ensures Inv(d, freq, done)
  {
    FirstMergeFinishes(freq, c, now, n, d, done);
    MergeKeeps(c.table, c.base, done, freq, 0, now, n, d.table.rows);
    assert Pending(d) == Pending(c);
  }

  lemma {:induction false} LaterMergeQueue(freq: int, c: System, time: int, n: nat, d: System, done: int)
    requires freq > 0 && Dated(c.base, freq) && QueueInv(c, freq, done) && Does(freq, c, LaterMerge(time, n), d)
    ensures QueueInv(d, freq, done)
  {
    assert Pending(d) == Pending(c)[1..] && Pending(c)[0] == c.notices[0];
    QueueShrinks(Pending(c), c.base, freq, done);
    RestToCome(Pending(c), c.base, freq, done, c.table.merged, time);
  }

  lemma LaterMergeKeeps(freq: int, c: System, time: int, n: nat, d: System, done: int)
    requires Frequency(freq) && Inv(c, freq, done) && Does(freq, c, LaterMerge(time, n), d)
    ensures Inv(d, freq, done)
  {
    LaterMergeFinishes(freq, c, time, n, d, done);
    MergeKeeps(c.table, c.base, done, freq, c.notices[0].start, time, n, d.table.rows);
    LaterMergeQueue(freq, c, time, n, d, done);
  }

  lemma QueueShrinks(q: seq<Notice>, s: Service, freq: int, done: int)
    requires Chained(q, s, freq, done) && q != []
    ensures Chained(q[1..], s, freq, done)
  {
    var r := q[1..];
    forall i | 0 <= i < |r|
      ensures NoticeGood(r[i], freq, done, s.clock)
    {
      assert NoticeGood(q[i + 1], freq, done, s.clock);
    }
  }

  lemma RestToCome(q: seq<Notice>, s: Service, freq: int, done: int, merged: int, time: int)
    requires Chained(q, s, freq, done) && q != [] && q[0].stamp <= time && AllBefore(s.m1, s.start)
    ensures ToCome(q[1..], s.m1, Mark(merged, s.start, time))
  {
  }

  // ---------------------------------------------------------------- whole runs

  lemma StepKeeps(freq: int, c: System, step: Step, d: System, done: int) returns (more: int)
    requires Frequency(freq) && Inv(c, freq, done) && Does(freq, c, step, d)
    ensures done <= more && Inv(d, freq, more)
  {
    more := done;
    match step
    case Chain(e) => ChainKeeps(freq, c, e, d, done);
    case Job(endTS, out) => more := JobKeeps(freq, c, endTS, out, d, done);
    case Notify => NotifyKeeps(freq, c, d, done);
    case Restart(endTS, out) => more := RestartKeeps(freq, c, endTS, out, d, done);
    case FirstMerge(now, n) => FirstMergeKeeps(freq, c, now, n, d, done);
    case LaterMerge(time, n) => LaterMergeKeeps(freq, c, time, n, d, done);
    case CleanUp(upTo) => CleanUpKeeps(freq, c, upTo, d, done);
    case DropRows(upTo) => DropRowsKeeps(freq, c, upTo, d, done);
  }

  lemma CleanUpKeeps(freq: int, c: System, upTo: int, d: System, done: int)
    requires Frequency(freq) && Inv(c, freq, done) && Does(freq, c, CleanUp(upTo), d)
    ensures Inv(d, freq, done)
  {
    CutKeeps(c.table, c.base.m1, freq, upTo);
    assert Pending(d) == Pending(c);
  }

  lemma DropRowsKeeps(freq: int, c: System, upTo: int, d: System, done: int)
    requires Frequency(freq) && Inv(c, freq, done) && Does(freq, c, DropRows(upTo), d)
    ensures Inv(d, freq, done)
  {
    DropKeeps(c.table, c.base.m1, freq, upTo);
    assert Pending(d) == Pending(c);
    forall i | 0 <= i < |d.table.rows|
      ensures d.table.rows[i].timestamp <= d.seen
    {
      var j := KeptIsRow(c.table.rows, upTo, i);
    }
  }

  ghost predicate DoesAt(freq: int, states: seq<System>, steps: seq<Step>, i: nat)
    requires freq > 0 && |states| == |steps| + 1 && i < |steps|
  {
    Does(freq, states[i], steps[i], states[i + 1])
  }

  function Initial(): System {
    System(Service([], [], [], 0, 0), Table([], 0, {0}, 0, 0), [], [], false, 0)
  }

  ghost predicate Runs(freq: int, states: seq<System>, steps: seq<Step>)
    requires freq > 0
  {
    && |states| == |steps| + 1 && states[0] == Initial()
    && forall i | 0 <= i < |steps| :: DoesAt(freq, states, steps, i)
  }

  lemma {:induction false} AlwaysInv(freq: int, states: seq<System>, steps: seq<Step>, n: nat) returns (done: int)
    requires Frequency(freq) && Runs(freq, states, steps) && n < |states|
    ensures Inv(states[n], freq, done)
    decreases n
  {
    if n == 0 {
      done := 0;
      assert Pending(states[0]) == [];
    } else {
      var before := AlwaysInv(freq, states, steps, n - 1);
      assert DoesAt(freq, states, steps, n - 1);
      done := StepKeeps(freq, states[n - 1], steps[n - 1], states[n], before);
    }
  }

  /** What the match results of a window give, as far as the one-minute candles have come. */
  function RawBar(s: Service, done: int, p: string, w: int, freq: int): Bar {
    Over(s.results, p, w, if w + freq < done then w + freq else if w < done then done else w)
  }

  /** A row holds exactly what the results and deals of its window give, as far as the candles have come:
      volume, high and low, and the price of an earliest and of a latest deal. */
  predicate TrueRow(s: Service, done: int, r: Row, freq: int) {
    var end := KlinePrices.ReachedEnd(done, r.timestamp, freq);
    && Describes(BarOf(r), s.results, r.product, r.timestamp, end)
    && Opens(s.deals, r.product, r.timestamp, end, r.open) && Closes(s.deals, r.product, r.timestamp, end, r.close)
  }

  /** One row for each key; rows of windows no deletion has split are true; and each result before the
      mark whose window starts by `time`, and is not among those deleted from the table, has its row. */
  ghost predicate ShowsResults(s: Service, done: int, rows: seq<Row>, cuts: set<int>, low: int, freq: int, time: int)
    requires freq > 0
  {
    && Keyed(rows)
    && (forall i {:trigger TrueRow(s, done, rows[i], freq)} | 0 <= i < |rows| :: rows[i].timestamp % freq == 0 &&
          (!Spoiled(s.m1, cuts, rows[i].product, rows[i].timestamp, freq) ==> TrueRow(s, done, rows[i], freq)))
    && (forall k {:trigger Held(rows, s.results[k], freq)} | 0 <= k < |s.results| && s.results[k].timestamp < done
          && low <= Win(s.results[k], freq) <= time :: Held(rows, s.results[k], freq))
  }

  lemma CandlesAreResults(s: Service, done: int, freq: int, p: string, w: int)
    requires Frequency(freq) && Good(s, done) && 0 <= w && w % freq == 0
    ensures WindowBar(s.m1, p, w, freq) == RawBar(s, done, p, w, freq)
  {
    WholeMinutes(w, freq);
    CandlesAggregate(s, done, p, w, w + freq);
  }

  lemma ExactIsTrue(s: Service, done: int, r: Row, freq: int)
    requires Frequency(freq) && Good(s, done) && Quoted(s) && freq <= r.timestamp && r.timestamp % freq == 0
    requires RowExact(r, s.m1, freq)
    ensures TrueRow(s, done, r, freq)
  {
    CandlesAreResults(s, done, freq, r.product, r.timestamp);
    var i := BarHasRow(s.m1, r.product, r.timestamp, r.timestamp + freq);
    OverIs(BarOf(r), s.results, r.product, r.timestamp, KlinePrices.ReachedEnd(done, r.timestamp, freq));
    WholeMinutes(r.timestamp, freq);
    KlinePrices.RowPricesAreDeals(s, done, r, freq);
  }

  lemma OneWindow(a: int, b: int, freq: int, ts: int)
    requires freq > 0 && a % freq == 0 && b % freq == 0 && a <= ts < a + freq && b <= ts < b + freq
    ensures a == b
  {
    if a < b { WindowEndsBy(a, b, freq); }
    if b < a { WindowEndsBy(b, a, freq); }
  }

  /** A result before the mark has the row of its window. */
  lemma ResultIsHeld(s: Service, done: int, t: Table, freq: int, time: int, k: nat)
    requires Frequency(freq) && Good(s, done) && Finished(t, s.m1, freq, time)
    requires k < |s.results| && s.results[k].timestamp < done && t.low <= Win(s.results[k], freq) <= time
    ensures Held(t.rows, s.results[k], freq)
  {
    var p, w := s.results[k].product, Win(s.results[k], freq);
    CandleInWindow(s.results, k, freq);
    OverSome(s.results, p, w, if w + freq < done then w + freq else done, k);
    CandlesAreResults(s, done, freq, p, w);
    var i := BarHasRow(s.m1, p, w, w + freq);
    CandleInWindow(s.m1, i, freq);
    OneWindow(w, Win(s.m1[i], freq), freq, s.m1[i].timestamp);
    assert FinishedCandle(t, freq, time, s.m1[i]);
  }

  lemma FinishedShowsResults(s: Service, done: int, t: Table, freq: int, time: int)
    requires Frequency(freq) && Good(s, done) && Quoted(s) && Finished(t, s.m1, freq, time)
    ensures ShowsResults(s, done, t.rows, t.cuts, t.low, freq, time)
  {
    forall i | 0 <= i < |t.rows| && !Spoiled(s.m1, t.cuts, t.rows[i].product, t.rows[i].timestamp, freq)
      ensures TrueRow(s, done, t.rows[i], freq)
    {
      assert FinishedRow(t, s.m1, freq, time, t.rows[i]);
      ExactIsTrue(s, done, t.rows[i], freq);
    }
    forall k | 0 <= k < |s.results| && s.results[k].timestamp < done && t.low <= Win(s.results[k], freq) <= time
      ensures Held(t.rows, s.results[k], freq)
    {
      ResultIsHeld(s, done, t, freq, time, k);
    }
  }

  lemma MergeShowsResults(freq: int, c: System, step: Step, d: System, done: int)
    requires Frequency(freq) && Inv(c, freq, done) && Does(freq, c, step, d) && (step.FirstMerge? || step.LaterMerge?)
    ensures d.base == c.base
    ensures ShowsResults(c.base, done, d.table.rows, d.table.cuts, d.table.low, freq, if step.FirstMerge? then step.now else step.time)
  {
    var t := c.table.(rows := d.table.rows);
    match step
    case FirstMerge(now, n) =>
      FirstMergeFinishes(freq, c, now, n, d, done);
      FinishedShowsResults(c.base, done, t, freq, now);
    case LaterMerge(time, n) =>
      LaterMergeFinishes(freq, c, time, n, d, done);
      FinishedShowsResults(c.base, done, t, freq, time);
  }

  /** In any run of blocks, one-minute jobs, notices, merges, deletions and restarts, right after every
      merge each row of the coarse table whose window no deletion has split is exactly the volume, high
      and low of its window's match results and the prices of its earliest and latest deal, up to the mark
      the one-minute candles have reached; and no window with results that starts by the time merged to is
      missing, unless it was deleted from the table. */
  lemma CoarseTableIsExact(freq: int, states: seq<System>, steps: seq<Step>, i: nat) returns (done: int)
    requires Frequency(freq) && Runs(freq, states, steps) && i < |steps| && (steps[i].FirstMerge? || steps[i].LaterMerge?)
    ensures Good(states[i + 1].base, done)
    ensures var d, time := states[i + 1], if steps[i].FirstMerge? then steps[i].now else steps[i].time;
            ShowsResults(d.base, done, d.table.rows, d.table.cuts, d.table.low, freq, time)
  {
    done := AlwaysInv(freq, states, steps, i);
    assert DoesAt(freq, states, steps, i);
    MergeShowsResults(freq, states[i], steps[i], states[i + 1], done);
  }
}
