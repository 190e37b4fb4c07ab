/** A block's fan-out task: which sinks have taken the block's data (x/stream/task.go). */
module StreamTask {
  import opened Options

  /** The sinks, as `x/stream/engine.go` numbers them. */
  datatype Kind = NilKind | Mysql | Redis | Pulsar | WebSocket | Kafka

  datatype EngineKind = NilEngine | Analysis | Notify | Kline | Socket

  function EngineOf(kind: Kind): EngineKind {
    match kind
    case Mysql => Analysis
    case Redis => Notify
    case Pulsar => Kline
    case Kafka => Kline
    case WebSocket => Socket
    case NilKind => NilEngine
  }

  type DoneMap = map<Kind, bool>

  datatype Task = Task(height: int, done: DoneMap)

  /** The sink of each configured engine; the candle engine feeds whichever broker is configured. */
  function SinkOf(engine: EngineKind, broker: Option<Kind>): Option<Kind> {
    match engine
    case Analysis => Some(Mysql)
    case Notify => Some(Redis)
    case Socket => Some(WebSocket)
    case Kline => broker
    case NilEngine => None
  }

  function Sinks(engines: set<EngineKind>, broker: Option<Kind>): set<Kind> {
    set e | e in engines && SinkOf(e, broker).Some? :: SinkOf(e, broker).value
  }

  /** A new task: nothing done yet. */
  function Fresh(height: int, sinks: set<Kind>): Task {
    Task(height, map k | k in sinks :: false)
  }

  function Undone(done: DoneMap): set<Kind> {
    set k | k in done && !done[k]
  }

  predicate AllDone(done: DoneMap) {
    forall k | k in done :: done[k]
  }

  datatype Status = Invalid | Success | Fail | PartialSuccess

  function StatusOf(all: int, undone: int): Status {
    var finished := all - undone;
    if finished == all then Success
    else if 0 < finished < all then PartialSuccess
    else if finished == 0 then Fail
    else Invalid
  }

  /** `validAtomTaskCount`: the map is walked in no particular order. */
  method ValidAtomTaskCount(done: DoneMap) returns (cnt: nat)
    ensures cnt == |Undone(done)|
  {
    cnt := 0;
    var rest := done.Keys;
    while rest != {}
      invariant rest <= done.Keys
      invariant cnt == |Undone(done) - rest|
      decreases |rest|
    {
      var k :| k in rest;
      if !done[k] {
        cnt := cnt + 1;
        assert Undone(done) - (rest - {k}) == (Undone(done) - rest) + {k};
      } else {
        assert Undone(done) - (rest - {k}) == Undone(done) - rest;
      }
      rest := rest - {k};
    }
    assert Undone(done) - {} == Undone(done);
  }

  /** `GetStatus` tells apart all, some and none; its fourth answer never occurs. A task without sinks
      counts as done. */
  method GetStatus(done: DoneMap) returns (status: Status)
    ensures status == Success <==> AllDone(done)
    ensures status == Fail <==> done != map[] && forall k | k in done :: !done[k]
    ensures status == PartialSuccess <==> (exists k :: k in done && done[k]) && (exists k :: k in done && !done[k])
    ensures status != Invalid
  {
    var undone := ValidAtomTaskCount(done);
    CountsTell(done);
    status := StatusOf(|done|, undone);
  }

  lemma CountsTell(done: DoneMap)
    ensures |Undone(done)| <= |done|
    ensures |Undone(done)| == 0 <==> AllDone(done)
    ensures |Undone(done)| == |done| <==> forall k | k in done :: !done[k]
    ensures |Undone(done)| > 0 ==> done != map[]
  {
    var finished := done.Keys - Undone(done);
    assert done.Keys == Undone(done) + finished;
    assert |done.Keys| == |Undone(done)| + |finished|;
    if |Undone(done)| == |done| {
      assert finished == {};
    }
    if forall k | k in done :: !done[k] {
      assert finished == {};
    }
    if AllDone(done) {
      assert Undone(done) == {};
    }
    if |Undone(done)| == 0 {
      assert forall k | k in done :: k !in Undone(done);
    }
    if done == map[] {
      assert Undone(done) == {};
    }
  }

  lemma FreshHasAllUndone(height: int, sinks: set<Kind>)
    ensures Undone(Fresh(height, sinks).done) == sinks
    ensures Fresh(height, sinks).done.Keys == sinks
  {
  }

  /** Marking more sinks done never leaves more undone. */
  lemma FewerUndone(before: DoneMap, after: DoneMap)
    requires before.Keys == after.Keys
    requires forall k | k in before && before[k] :: after[k]
    ensures Undone(after) <= Undone(before)
    ensures |Undone(after)| <= |Undone(before)|
  {
    SubsetSize(Undone(after), Undone(before));
  }

  lemma SubsetSize<T>(a: set<T>, b: set<T>)
    requires a <= b
    ensures |a| <= |b|
  {
    assert b == a + (b - a);
    assert |b| == |a| + |b - a|;
  }
}
