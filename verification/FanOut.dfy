/** One round of the coordinator: a runner per undone sink, a buffered channel for their results, and
    a collector that stops when every runner has reported or the timer fires
    (x/stream/coordinator.go, x/stream/task.go). */
module FanOut {
  import opened Options
  import opened StreamTask

  datatype AtomResult = AtomResult(kind: Kind, success: bool)

  // ---------------------------------------------------------------- a runner

  /** What an engine's `Write` may do: come back with a verdict in `success`, or panic, having set
      `success` to anything before. */
  datatype Write = Returns(success: bool) | Panics(setBefore: bool)

  /** `AtomTaskRunner.run` sends exactly one result, and reports success only for a write that
      returned it, or when there was nothing to write. */
  method RunAtomTask(kind: Kind, hasData: bool, write: Write) returns (sent: seq<AtomResult>)
    ensures |sent| == 1 && sent[0].kind == kind
    ensures sent[0].success <==> !hasData || write == Returns(true)
  {
    sent := [];
    var taskSuccess := false;
    var panicked := false;
    if !hasData {
      taskSuccess := true;
    } else {
      match write {
        case Returns(success) => taskSuccess := success;
        case Panics(setBefore) => taskSuccess, panicked := setBefore, true;
      }
    }
    // the deferred send
    if panicked {
      sent := sent + [AtomResult(kind, false)];
    } else {
      sent := sent + [AtomResult(kind, taskSuccess)];
    }
  }

  function Elements(kinds: seq<Kind>): set<Kind> {
    set k | k in kinds
  }

  lemma ElementsSnoc(kinds: seq<Kind>, k: Kind)
    ensures Elements(kinds + [k]) == Elements(kinds) + {k}
  {
  }

  lemma VisitUndone(undone: set<Kind>, rest: set<Kind>, k: Kind)
    requires k in undone && k in rest
    ensures undone - (rest - {k}) == undone - rest + {k} && |undone - (rest - {k})| == |undone - rest| + 1
  {
    assert undone - (rest - {k}) == undone - rest + {k};
  }

  lemma VisitDone(undone: set<Kind>, rest: set<Kind>, k: Kind)
    requires k !in undone
    ensures undone - (rest - {k}) == undone - rest
  {
  }

  /** `prepareAtomTasks`: one runner for each undone sink; a sink no engine serves is a panic. */
  method PrepareAtomTasks(done: DoneMap) returns (runners: Option<seq<Kind>>)
    ensures runners.None? <==> NilKind in Undone(done)
    ensures runners.Some? ==> |runners.value| == |Undone(done)| && Elements(runners.value) == Undone(done)
  {
    var kinds: seq<Kind> := [];
    var rest := done.Keys;
    while rest != {}
      invariant rest <= done.Keys
      invariant Elements(kinds) == Undone(done) - rest
      invariant |kinds| == |Undone(done) - rest|
      invariant NilKind !in kinds
      decreases |rest|
    {
      var k :| k in rest;
      if !done[k] {
        if EngineOf(k) == NilEngine {
          return None;
        }
        VisitUndone(Undone(done), rest, k);
        ElementsSnoc(kinds, k);
        kinds := kinds + [k];
      } else {
        VisitDone(Undone(done), rest, k);
      }
      rest := rest - {k};
    }
    assert Undone(done) - {} == Undone(done);
    runners := Some(kinds);
  }

  /** With the sinks the configuration can name, the panic in `prepareAtomTasks` is out of reach. */
  lemma ConfiguredSinksHaveEngines(engines: set<EngineKind>, broker: Option<Kind>)
    requires broker in {None, Some(Pulsar), Some(Kafka)}
    ensures NilKind !in Sinks(engines, broker)
    ensures forall k | k in Sinks(engines, broker) :: EngineOf(k) in engines
  {
  }

  // ---------------------------------------------------------------- one round, step by step

  /** `waiting`: runners that have not sent yet. `capacity`: the size the channel was made with.
      `notified`: what the collector has counted. */
  datatype Round = Round(
    capacity: nat,
    waiting: set<Kind>,
    channel: seq<AtomResult>,
    notified: nat,
    done: DoneMap,
    ended: bool)

  function Start(done: DoneMap): Round {
    Round(|Undone(done)|, Undone(done), [], 0, done, |Undone(done)| == 0)
  }

  datatype Step = Send(kind: Kind, success: bool) | Receive | Timeout

  /** A runner may send when it has not yet and the channel has room: otherwise it would block. */
  predicate Enabled(r: Round, s: Step) {
    match s
    case Send(kind, _) => kind in r.waiting && |r.channel| < r.capacity
    case Receive => !r.ended && r.channel != []
    case Timeout => !r.ended
  }

  function Take(r: Round, s: Step): Round
    requires Enabled(r, s)
  {
    match s
    case Send(kind, success) =>
      r.(waiting := r.waiting - {kind}, channel := r.channel + [AtomResult(kind, success)])
    case Receive =>
      var result := r.channel[0];
      r.(channel := r.channel[1..], notified := r.notified + 1,
         done := r.done[result.kind := result.success], ended := r.notified + 1 == r.capacity)
    case Timeout =>
      r.(notified := r.capacity, ended := true)
  }

  function KindsOf(results: seq<AtomResult>): set<Kind> {
    set i | 0 <= i < |results| :: results[i].kind
  }

  predicate Distinct(results: seq<AtomResult>) {
    forall i, j | 0 <= i < j < |results| :: results[i].kind != results[j].kind
  }

  /** What every step of a round keeps. `received` counts results taken off the channel. */
  predicate RoundInv(start: DoneMap, r: Round) {
    && r.capacity == |Undone(start)|
    && r.waiting <= Undone(start)
    && |r.waiting| + |r.channel| <= r.capacity
    && (!r.ended ==> |r.waiting| + |r.channel| + r.notified == r.capacity && r.notified < r.capacity)
    && r.notified <= r.capacity
    && Distinct(r.channel)
    && KindsOf(r.channel) <= Undone(start) - r.waiting
    && r.done.Keys == start.Keys
    && (forall k | k in start && start[k] :: r.done[k])
    && (forall k | k in r.waiting + KindsOf(r.channel) :: !r.done[k])
  }

  lemma StartInv(done: DoneMap)
    ensures RoundInv(done, Start(done))
  {
  }

  lemma SendInv(start: DoneMap, r: Round, kind: Kind, success: bool)
    requires RoundInv(start, r) && Enabled(r, Send(kind, success))
    ensures RoundInv(start, Take(r, Send(kind, success)))
  {
    SnocKinds(r.channel, AtomResult(kind, success));
    assert |r.waiting - {kind}| == |r.waiting| - 1;
  }

  lemma ReceiveInv(start: DoneMap, r: Round)
    requires RoundInv(start, r) && Enabled(r, Receive)
    ensures RoundInv(start, Take(r, Receive))
  {
    TailKinds(r.channel);
    var r' := Take(r, Receive);
    var first := r.channel[0];
    assert first.kind in KindsOf(r.channel) && first.kind in Undone(start);
    assert r'.done.Keys == r.done.Keys;
    forall k | k in r'.waiting + KindsOf(r'.channel)
      ensures !r'.done[k]
    {
      assert k != first.kind && k in r.waiting + KindsOf(r.channel);
    }
  }

  lemma StepInv(start: DoneMap, r: Round, s: Step)
    requires RoundInv(start, r) && Enabled(r, s)
    ensures RoundInv(start, Take(r, s))
  {
    match s
    case Send(kind, success) => SendInv(start, r, kind, success);
    case Receive => ReceiveInv(start, r);
    case Timeout =>
  }

  lemma SnocKinds(results: seq<AtomResult>, x: AtomResult)
    requires Distinct(results) && x.kind !in KindsOf(results)
    ensures Distinct(results + [x])
    ensures KindsOf(results + [x]) == KindsOf(results) + {x.kind}
  {
    var all := results + [x];
    forall i | 0 <= i < |results|
      ensures all[i].kind in KindsOf(results) && all[i] == results[i]
    {
    }
    assert all[|results|] == x;
    forall k | k in KindsOf(results)
      ensures k in KindsOf(all)
    {
      var i :| 0 <= i < |results| && results[i].kind == k;
      assert all[i].kind == k;
    }
    assert x.kind in KindsOf(all);
  }

  lemma TailKinds(results: seq<AtomResult>)
    requires Distinct(results) && results != []
    ensures Distinct(results[1..])
    ensures KindsOf(results[1..]) == KindsOf(results) - {results[0].kind}
  {
    var tail := results[1..];
    forall i | 0 <= i < |tail|
      ensures tail[i] == results[i + 1] && tail[i].kind in KindsOf(results)
    {
    }
    forall k | k in KindsOf(results) && k != results[0].kind
      ensures k in KindsOf(tail)
    {
      var i :| 0 <= i < |results| && results[i].kind == k;
      assert tail[i - 1].kind == k;
    }
  }

  // ---------------------------------------------------------------- whole rounds

  predicate Trace(r: Round, steps: seq<Step>)
    decreases |steps|
  {
    steps == [] || (Enabled(r, steps[0]) && Trace(Take(r, steps[0]), steps[1..]))
  }

  function After(r: Round, steps: seq<Step>): Round
    requires Trace(r, steps)
    decreases |steps|
  {
    if steps == [] then r else After(Take(r, steps[0]), steps[1..])
  }

  lemma {:induction false} TraceKeepsInv(start: DoneMap, r: Round, steps: seq<Step>)
    requires RoundInv(start, r) && Trace(r, steps)
    ensures RoundInv(start, After(r, steps))
    decreases |steps|
  {
    if steps != [] {
      StepInv(start, r, steps[0]);
      TraceKeepsInv(start, Take(r, steps[0]), steps[1..]);
    }
  }

  /** However runners, collector and timer interleave, before or after a timeout, a runner that has
      yet to send finds room in the channel: no goroutine is ever left blocked. */
  lemma SendsNeverBlock(done: DoneMap, steps: seq<Step>, kind: Kind, success: bool)
    requires Trace(Start(done), steps)
    requires kind in After(Start(done), steps).waiting
    ensures Enabled(After(Start(done), steps), Send(kind, success))
  {
    StartInv(done);
    TraceKeepsInv(done, Start(done), steps);
    var r := After(Start(done), steps);
    assert |r.waiting - {kind}| == |r.waiting| - 1;
  }

  function Work(r: Round): nat {
    2 * |r.waiting| + |r.channel| + if r.ended then 0 else 1
  }

  lemma {:induction false} TraceIsShort(start: DoneMap, r: Round, steps: seq<Step>)
    requires RoundInv(start, r) && Trace(r, steps)
    ensures |steps| + Work(After(r, steps)) <= Work(r)
    decreases |steps|
  {
    if steps != [] {
      var s, r' := steps[0], Take(r, steps[0]);
      StepInv(start, r, s);
      TraceIsShort(start, r', steps[1..]);
      if s.Send? {
        assert |r'.waiting| == |r.waiting| - 1;
      }
    }
  }

  /** A round of `n` runners makes at most `2n + 1` steps; it cannot be stuck before its end, and it
      ends once all runners have sent and all results are collected, or at the timer. */
  lemma RoundEnds(done: DoneMap, steps: seq<Step>)
    requires Trace(Start(done), steps)
    ensures |steps| <= 2 * |Undone(done)| + 1
    ensures var r := After(Start(done), steps);
            && r.notified <= |Undone(done)|
            && (r.waiting == {} && r.channel == [] ==> r.ended)
            && (!r.ended ==> Enabled(r, Timeout))
  {
    StartInv(done);
    TraceIsShort(done, Start(done), steps);
    TraceKeepsInv(done, Start(done), steps);
  }

  /** A sink is marked done only on the word of its own runner, and none that was done is undone. */
  lemma {:induction false} MarkedOnlyOnSuccess(start: DoneMap, r: Round, steps: seq<Step>, k: Kind)
    requires RoundInv(start, r) && Trace(r, steps)
    requires k in start && !r.done[k]
    requires forall success | AtomResult(k, success) in r.channel :: !success
    requires k in After(r, steps).done && After(r, steps).done[k]
    ensures Send(k, true) in steps
    decreases |steps|
  {
    if steps != [] {
      var s, r' := steps[0], Take(r, steps[0]);
      StepInv(start, r, s);
      if s != Send(k, true) {
        if s.Receive? {
          assert r.channel[0] in r.channel;
          assert r.channel[0] == AtomResult(r.channel[0].kind, r.channel[0].success);
        }
        forall success | AtomResult(k, success) in r'.channel
          ensures !success
        {
          if s.Send? && AtomResult(k, success) !in r.channel {
            assert AtomResult(k, success) == AtomResult(s.kind, s.success);
          }
        }
        MarkedOnlyOnSuccess(start, r', steps[1..], k);
        var i :| 0 <= i < |steps[1..]| && steps[1..][i] == Send(k, true);
        assert steps[i + 1] == Send(k, true);
      }
    }
  }

  // ---------------------------------------------------------------- the collecting loop

  /** What `select` delivers, in the order it does. */
  datatype Signal = Timer | Result(result: AtomResult)

  /** The steps of the round that the collector sees as `signals`. */
  function Seen(signals: seq<Signal>): seq<Step> {
    if signals == [] then []
    else (match signals[0]
          case Timer => [Timeout]
          case Result(x) => [Send(x.kind, x.success), Receive]) + Seen(signals[1..])
  }

  /** Exactly the sinks that were done, or whose runner was heard to succeed, are done now. */
  predicate Marked(done: DoneMap, done': DoneMap, heard: seq<Signal>) {
    done'.Keys == done.Keys && forall k | k in done :: done'[k] <==> done[k] || Result(AtomResult(k, true)) in heard
  }

  lemma MarkedNext(done: DoneMap, done': DoneMap, signals: seq<Signal>, used: nat)
    requires Signals(done, signals) && used < |signals| && Marked(done, done', signals[..used])
    ensures match signals[used]
            case Timer => Marked(done, done', signals[..used + 1]) && Timer in signals[..used + 1]
            case Result(x) => Marked(done, done'[x.kind := x.success], signals[..used + 1]) && (Timer in signals[..used] ==> Timer in signals[..used + 1])
  {
    assert signals[..used + 1] == signals[..used] + [signals[used]];
    if signals[used].Result? { FirstReport(done, signals, used, signals[used].result); }
  }

  /** A runner reports once, for a sink that was not done. */
  lemma FirstReport(done: DoneMap, signals: seq<Signal>, used: nat, x: AtomResult)
    requires Signals(done, signals) && used < |signals| && signals[used] == Result(x)
    ensures x.kind in done && !done[x.kind] && Result(AtomResult(x.kind, true)) !in signals[..used]
  {
    assert x.kind in Undone(done);
  }

  /** The collector's loop: results go into the map in place, and the loop stops at the count of
      runners or at the timer. `signals` must reach that point, as the timer makes sure. */
  method Collect(done: DoneMap, signals: seq<Signal>) returns (done': DoneMap, used: nat)
    requires Undone(done) != {}
    requires Signals(done, signals)
    ensures used <= |signals| && used <= |Undone(done)|
    ensures Trace(Start(done), Seen(signals[..used]))
    ensures var r := After(Start(done), Seen(signals[..used])); r.ended && r.done == done'
    ensures Marked(done, done', signals[..used])
    ensures Timer in signals[..used] || used == |Undone(done)|
  {
    var validTaskCnt := ValidAtomTaskCount(done);
    CollectStarts(done, signals);
    done' := done;
    used := 0;
    var notifyCnt := 0;
    ghost var r := Start(done);
    while notifyCnt != validTaskCnt
      invariant Collecting(done, signals, used, r)
      invariant used <= notifyCnt <= validTaskCnt
      invariant r.done == done' && r.notified == notifyCnt
      invariant Marked(done, done', signals[..used])
      invariant Timer in signals[..used] || used == notifyCnt
      decreases validTaskCnt - notifyCnt
    {
      MoreToCome(done, signals, used, r);
      r := CollectNext(done, signals, used, r);
      MarkedNext(done, done', signals, used);
      match signals[used] {
        case Timer =>
          notifyCnt := validTaskCnt;
        case Result(x) =>
          done' := done'[x.kind := x.success];
          notifyCnt := notifyCnt + 1;
      }
      used := used + 1;
    }
  }

  /** The signals a round can produce: each runner reports once, and the timer fires in the end. */
  predicate Signals(done: DoneMap, signals: seq<Signal>) {
    && (forall i | 0 <= i < |signals| && signals[i].Result? :: signals[i].result.kind in Undone(done))
    && (forall i, j | 0 <= i < j < |signals| && signals[i].Result? && signals[j].Result? ::
          signals[i].result.kind != signals[j].result.kind)
    && (Timer in signals || |signals| >= |Undone(done)|)
  }

  /** After `used` signals the collector is where the round `r` is. */
  ghost predicate Collecting(done: DoneMap, signals: seq<Signal>, used: nat, r: Round) {
    && used <= |signals|
    && Trace(Start(done), Seen(signals[..used])) && After(Start(done), Seen(signals[..used])) == r
    && RoundInv(done, r) && r.channel == []
    && (r.ended <==> r.notified == r.capacity)
    && (!r.ended ==> used == r.notified && r.waiting == Undone(done) - SignalKinds(signals[..used]) && Timer !in signals[..used])
  }

  lemma CollectStarts(done: DoneMap, signals: seq<Signal>)
    requires Undone(done) != {}
    ensures Collecting(done, signals, 0, Start(done))
  {
    StartInv(done);
    assert SignalKinds(signals[..0]) == {};
  }

  lemma MoreToCome(done: DoneMap, signals: seq<Signal>, used: nat, r: Round)
    requires Signals(done, signals) && Collecting(done, signals, used, r) && !r.ended
    ensures used < |signals|
  {
    assert signals[..|signals|] == signals;
  }

  /** The next signal, taken as steps of the round. */
  lemma CollectNext(done: DoneMap, signals: seq<Signal>, used: nat, r: Round) returns (r': Round)
    requires Signals(done, signals) && Collecting(done, signals, used, r) && !r.ended && used < |signals|
    ensures Collecting(done, signals, used + 1, r')
    ensures match signals[used]
            case Timer => r'.done == r.done && r'.notified == r.capacity
            case Result(x) => r'.done == r.done[x.kind := x.success] && r'.notified == r.notified + 1
  {
    match signals[used] {
      case Timer =>
        r' := Take(r, Timeout);
        StepInv(done, r, Timeout);
        assert Trace(r, [Timeout]) && After(r, [Timeout]) == r' by { assert [Timeout][1..] == []; }
        SeenExtends(done, signals, used, r, [Timeout]);
      case Result(x) =>
        FreshKind(signals, used, x);
        r' := ReportAndCollect(done, r, x);
        SeenExtends(done, signals, used, r, [Send(x.kind, x.success), Receive]);
        NoTimerYet(signals, used);
    }
  }

  lemma NoTimerYet(signals: seq<Signal>, used: nat)
    requires used < |signals| && signals[used] != Timer && Timer !in signals[..used]
    ensures Timer !in signals[..used + 1]
  {
  }

  lemma SeenExtends(done: DoneMap, signals: seq<Signal>, used: nat, r: Round, steps: seq<Step>)
    requires used < |signals|
    requires Trace(Start(done), Seen(signals[..used])) && After(Start(done), Seen(signals[..used])) == r
    requires steps == match signals[used] case Timer => [Timeout] case Result(x) => [Send(x.kind, x.success), Receive]
    requires Trace(r, steps)
    ensures Trace(Start(done), Seen(signals[..used + 1])) && After(Start(done), Seen(signals[..used + 1])) == After(r, steps)
  {
    assert signals[..used + 1] == signals[..used] + [signals[used]];
    SeenSnoc(signals[..used], signals[used]);
    AppendTrace(Start(done), Seen(signals[..used]), steps);
  }

  lemma ReportAndCollect(done: DoneMap, r: Round, x: AtomResult) returns (r': Round)
    requires RoundInv(done, r) && !r.ended && r.channel == [] && x.kind in r.waiting
    ensures var steps := [Send(x.kind, x.success), Receive];
            Trace(r, steps) && After(r, steps) == r'
    ensures RoundInv(done, r') && r'.channel == [] && r'.waiting == r.waiting - {x.kind}
    ensures r'.done == r.done[x.kind := x.success] && r'.notified == r.notified + 1
    ensures r'.ended <==> r'.notified == r'.capacity
  {
    var send := Send(x.kind, x.success);
    assert |r.waiting - {x.kind}| == |r.waiting| - 1;
    StepInv(done, r, send);
    var r1 := Take(r, send);
    assert r1.channel == [x];
    StepInv(done, r1, Receive);
    r' := Take(r1, Receive);
    assert [Receive][1..] == [] && [send, Receive][1..] == [Receive];
    assert Trace(r1, [Receive]) && After(r1, [Receive]) == r';
  }

  function SignalKinds(signals: seq<Signal>): set<Kind> {
    set i | 0 <= i < |signals| && signals[i].Result? :: signals[i].result.kind
  }

  lemma FreshKind(signals: seq<Signal>, used: nat, x: AtomResult)
    requires used < |signals| && signals[used] == Result(x)
    requires forall i, j | 0 <= i < j < |signals| && signals[i].Result? && signals[j].Result? ::
      signals[i].result.kind != signals[j].result.kind
    ensures x.kind !in SignalKinds(signals[..used])
    ensures SignalKinds(signals[..used + 1]) == SignalKinds(signals[..used]) + {x.kind}
  {
    var before, after := signals[..used], signals[..used + 1];
    assert after[used] == Result(x);
    forall k | k in SignalKinds(before)
      ensures k in SignalKinds(after)
    {
      var i :| 0 <= i < |before| && before[i].Result? && before[i].result.kind == k;
      assert after[i] == before[i];
    }
    forall k | k in SignalKinds(after)
      ensures k in SignalKinds(before) + {x.kind}
    {
      var i :| 0 <= i < |after| && after[i].Result? && after[i].result.kind == k;
      if i < used { assert before[i] == after[i]; }
    }
  }

  lemma {:induction false} SeenSnoc(signals: seq<Signal>, x: Signal)
    ensures Seen(signals + [x]) == Seen(signals) + Seen([x])
    ensures Seen([x]) == match x case Timer => [Timeout] case Result(y) => [Send(y.kind, y.success), Receive]
    decreases |signals|
  {
    assert [x][1..] == [];
    if signals == [] {
      assert signals + [x] == [x];
    } else {
      assert (signals + [x])[1..] == signals[1..] + [x];
      SeenSnoc(signals[1..], x);
    }
  }

  lemma {:induction false} AppendTrace(r: Round, steps: seq<Step>, more: seq<Step>)
    requires Trace(r, steps) && Trace(After(r, steps), more)
    ensures Trace(r, steps + more) && After(r, steps + more) == After(After(r, steps), more)
    decreases |steps|
  {
    if steps == [] {
      assert steps + more == more;
    } else {
      assert (steps + more)[1..] == steps[1..] + more;
      AppendTrace(Take(r, steps[0]), steps[1..], more);
    }
  }
}
