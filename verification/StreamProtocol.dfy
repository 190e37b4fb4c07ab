/** The nodes that share one lock and one stored task, and the steps their protocol is made of
    (x/stream/endblocker.go, x/stream/distrlock/redis_distr_state_lock.go). */
module StreamProtocol {
  import opened Options
  import opened StreamTask
  import FanOut

  // ---------------------------------------------------------------- one node

  /** What `prepareStreamTask` returns. */
  datatype Action = Restart | JumpNextBlock | NewTask | ReturnTask | Unknown

  /** Where a node is in `execute`. */
  datatype Pc =
    | Top                            // about to look at its cached task
    | Fetching                       // asking for the lock
    | Reading                        // has the lock, asking for the stored task
    | Releasing(next: Action)        // asking to release the lock
    | Running(round: FanOut.Round)   // the coordinator is at work
    | Unlocking                      // asking to store its result and release the lock
    | Finished                       // `execute` has returned
    | Panicked

  /** `cached` is the height of the node's `distrLatestTask`; the rest of that task is only ever
      looked at right after it was read. `task` is the task in the node's memory. */
  datatype Node = Node(height: int, cached: Option<int>, task: Task, pc: Pc)

  function Begin(height: int, cached: Option<int>, sinks: set<Kind>): Node {
    Node(height, cached, Fresh(height, sinks), Top)
  }

  /** What the stored task tells a node that works on block `height`. */
  function Decide(height: int, stored: Option<Task>): Action {
    match stored
    case None => NewTask
    case Some(t) =>
      if t.height > height then JumpNextBlock
      else if t.height == height then if AllDone(t.done) then JumpNextBlock else ReturnTask
      else if t.height + 1 == height then NewTask
      else Unknown
  }

  datatype Read = ReadError | ReadState(stored: Option<Task>)

  /** What a node observes: answers from the lock service, and its own coordinator. */
  datatype Obs =
    | CheckCache
    | FetchReply(locked: bool)
    | ReadReply(read: Read)
    | ReleaseReply(released: bool)
    | Coordinate(step: FanOut.Step)
    | Collected
    | UnlockReply(unlocked: bool)
    | NextBlock(sinks: set<Kind>)

  predicate Expected(n: Node, o: Obs) {
    match o
    case CheckCache => n.pc.Top?
    case FetchReply(_) => n.pc.Fetching?
    case ReadReply(_) => n.pc.Reading?
    case ReleaseReply(_) => n.pc.Releasing?
    case Coordinate(s) => n.pc.Running? && FanOut.Enabled(n.pc.round, s)
    case Collected => n.pc.Running? && n.pc.round.ended
    case UnlockReply(_) => n.pc.Unlocking?
    case NextBlock(_) => n.pc.Finished?
  }

  function AfterRead(n: Node, stored: Option<Task>): Node {
    var seen := if stored.Some? then n.(cached := Some(stored.value.height)) else n;
    match Decide(n.height, stored)
    case NewTask => seen.(pc := Running(FanOut.Start(n.task.done)))
    case ReturnTask => seen.(task := stored.value, pc := Running(FanOut.Start(stored.value.done)))
    case a => seen.(pc := Releasing(a))
  }

  function AfterRelease(n: Node): Node
    requires n.pc.Releasing?
  {
    match n.pc.next
    case JumpNextBlock => n.(pc := Finished)
    case Unknown => n.(pc := Panicked)
    case _ => n.(pc := Top)
  }

  function Observe(n: Node, o: Obs): Node
    requires Expected(n, o)
  {
    match o
    case CheckCache =>
      n.(pc := if n.cached.Some? && n.cached.value > n.height then Finished else Fetching)
    case FetchReply(locked) =>
      n.(pc := if locked then Reading else Top)
    case ReadReply(ReadError) =>
      n.(pc := Releasing(Restart))
    case ReadReply(ReadState(stored)) =>
      AfterRead(n, stored)
    case ReleaseReply(released) =>
      if released then AfterRelease(n) else n.(pc := Top)
    case Coordinate(s) =>
      var round := FanOut.Take(n.pc.round, s);
      n.(task := n.task.(done := round.done), pc := Running(round))
    case Collected =>
      n.(pc := Unlocking)
    case UnlockReply(unlocked) =>
      if !unlocked then n.(pc := Top)
      else n.(cached := Some(n.task.height), pc := if AllDone(n.task.done) then Finished else Top)
    case NextBlock(sinks) =>
      Begin(n.height + 1, n.cached, sinks)
  }

  // ---------------------------------------------------------------- all nodes together

  type NodeId = nat

  datatype System = System(lock: Option<NodeId>, store: Option<Task>, nodes: map<NodeId, Node>)

  /** One step of the whole system. A request that reaches the service has its effect at once;
      `effect` without `reply` is an answer lost on the way back, neither is a request that failed. */
  datatype Event =
    | Local(id: NodeId, obs: Obs)
    | Fetch(id: NodeId, effect: bool, reply: bool)
    | ReadStore(id: NodeId, ok: bool)
    | Release(id: NodeId, effect: bool, reply: bool)
    | Unlock(id: NodeId, effect: bool, reply: bool)
    | Expire                // the lock's time is up
    | Crash(id: NodeId)     // a node dies and replays the block it was at

  function Move(s: System, id: NodeId, o: Obs): System
    requires id in s.nodes && Expected(s.nodes[id], o)
  {
    s.(nodes := s.nodes[id := Observe(s.nodes[id], o)])
  }

  predicate LocalObs(o: Obs, sinks: set<Kind>) {
    match o
    case CheckCache => true
    case Coordinate(_) => true
    case Collected => true
    case NextBlock(k) => k == sinks
    case _ => false
  }

  /** The contract of the lock service: the lock is granted only when free, a release or a store
      takes effect only for the holder, and storing releases in the same instant. */
  predicate CanHappen(s: System, e: Event, sinks: set<Kind>) {
    match e
    case Local(id, o) => id in s.nodes && LocalObs(o, sinks) && Expected(s.nodes[id], o)
    case Fetch(id, effect, reply) => id in s.nodes && s.nodes[id].pc.Fetching? && (effect ==> s.lock.None?) && (reply ==> effect)
    case ReadStore(id, ok) => id in s.nodes && s.nodes[id].pc.Reading?
    case Release(id, effect, reply) => id in s.nodes && s.nodes[id].pc.Releasing? && (effect ==> s.lock == Some(id)) && (reply ==> effect)
    case Unlock(id, effect, reply) => id in s.nodes && s.nodes[id].pc.Unlocking? && (effect ==> s.lock == Some(id)) && (reply ==> effect)
    case Expire => true
    case Crash(id) => id in s.nodes
  }

  function Happen(s: System, e: Event, sinks: set<Kind>): System
    requires CanHappen(s, e, sinks)
  {
    match e
    case Local(id, o) => Move(s, id, o)
    case Fetch(id, effect, reply) =>
      Move(s.(lock := if effect then Some(id) else s.lock), id, FetchReply(reply))
    case ReadStore(id, ok) =>
      Move(s, id, ReadReply(if ok then ReadState(s.store) else ReadError))
    case Release(id, effect, reply) =>
      Move(s.(lock := if effect then None else s.lock), id, ReleaseReply(reply))
    case Unlock(id, effect, reply) =>
      var task := s.nodes[id].task;
      Move(if effect then s.(lock := None, store := Some(task)) else s, id, UnlockReply(reply))
    case Expire => s.(lock := None)
    case Crash(id) => s.(nodes := s.nodes[id := Begin(s.nodes[id].height, None, sinks)])
  }

  /** All nodes set out at the same block with the same sinks, and nothing is stored yet. */
  predicate Initially(s: System, sinks: set<Kind>, h0: int) {
    && s.lock.None? && s.store.None?
    && forall id | id in s.nodes :: s.nodes[id] == Begin(h0, None, sinks)
  }

  predicate Behaviour(states: seq<System>, events: seq<Event>, sinks: set<Kind>, h0: int) {
    && |states| == |events| + 1
    && Initially(states[0], sinks, h0)
    && forall i | 0 <= i < |events| :: StepAt(states, events, sinks, i)
  }

  predicate StepAt(states: seq<System>, events: seq<Event>, sinks: set<Kind>, i: nat)
    requires |states| == |events| + 1 && i < |events|
  {
    CanHappen(states[i], events[i], sinks) && states[i + 1] == Happen(states[i], events[i], sinks)
  }

  // ---------------------------------------------------------------- the invariant

  /** The store is at least one block behind a node at most, and if exactly one then it is done. */
  predicate StoreReaches(store: Option<Task>, height: int, h0: int) {
    match store
    case None => height == h0
    case Some(t) => h0 <= t.height && height - 1 <= t.height && (t.height == height - 1 ==> AllDone(t.done))
  }

  /** How a node that works on a task under the lock relates to what is stored. */
  predicate HoldsFor(store: Option<Task>, n: Node) {
    match store
    case None => true
    case Some(t) =>
      || t.height + 1 == n.height
      || (t.height == n.height && forall k | k in t.done && t.done[k] :: k in n.task.done && n.task.done[k])
  }

  predicate Working(pc: Pc) {
    pc.Running? || pc.Unlocking?
  }

  /** A round that some task started. */
  ghost predicate RoundOk(r: FanOut.Round) {
    exists start: DoneMap :: FanOut.RoundInv(start, r)
  }

  ghost predicate GoodNode(n: Node, store: Option<Task>, held: bool, sinks: set<Kind>, h0: int) {
    && h0 <= n.height
    && StoreReaches(store, n.height, h0)
    && n.task.height == n.height && n.task.done.Keys == sinks
    && (n.cached.Some? ==> store.Some? && n.cached.value <= store.value.height)
    && n.pc != Releasing(Unknown) && !n.pc.Panicked?
    && (n.pc == Releasing(JumpNextBlock) || n.pc.Finished? ==> StoreReaches(store, n.height + 1, h0))
    && (n.pc.Running? ==> RoundOk(n.pc.round) && n.pc.round.done == n.task.done)
    && (held && Working(n.pc) ==> HoldsFor(store, n))
  }

  predicate GoodStore(store: Option<Task>, sinks: set<Kind>, h0: int) {
    store.Some? ==> h0 <= store.value.height && store.value.done.Keys == sinks
  }

  ghost predicate Inv(s: System, sinks: set<Kind>, h0: int) {
    && GoodStore(s.store, sinks, h0)
    && forall id | id in s.nodes :: GoodAt(s, id, sinks, h0)
  }

  ghost predicate GoodAt(s: System, id: NodeId, sinks: set<Kind>, h0: int)
    requires id in s.nodes
  {
    GoodNode(s.nodes[id], s.store, s.lock == Some(id), sinks, h0)
  }

  // ---------------------------------------------------------------- steps keep it

  /** A result the coordinator collects is for a sink that was not done: done sinks stay done. */
  lemma CoordinateKeepsDone(r: FanOut.Round, step: FanOut.Step)
    requires RoundOk(r) && FanOut.Enabled(r, step)
    ensures RoundOk(FanOut.Take(r, step))
    ensures FanOut.Take(r, step).done.Keys == r.done.Keys
    ensures forall k | k in r.done && r.done[k] :: FanOut.Take(r, step).done[k]
  {
    var start: DoneMap :| FanOut.RoundInv(start, r);
    FanOut.StepInv(start, r, step);
    if step.Receive? {
      assert r.channel[0].kind in FanOut.KindsOf(r.channel);
      assert r.channel[0].kind in r.waiting + FanOut.KindsOf(r.channel);
    }
  }

  lemma StartOk(done: DoneMap)
    ensures RoundOk(FanOut.Start(done))
  {
    FanOut.StartInv(done);
  }

  /** What a node sees without touching lock or store keeps it good. */
  lemma LocalKeeps(n: Node, o: Obs, store: Option<Task>, held: bool, sinks: set<Kind>, h0: int)
    requires GoodNode(n, store, held, sinks, h0) && GoodStore(store, sinks, h0)
    requires LocalObs(o, sinks) && Expected(n, o)
    ensures GoodNode(Observe(n, o), store, held, sinks, h0)
  {
    match o
    case Coordinate(step) => CoordinateKeepsDone(n.pc.round, step);
    case NextBlock(_) => FreshHasAllUndone(n.height + 1, sinks);
    case CheckCache =>
    case Collected =>
  }

  lemma ReadKeeps(n: Node, store: Option<Task>, ok: bool, held: bool, sinks: set<Kind>, h0: int)
    requires GoodNode(n, store, held, sinks, h0) && GoodStore(store, sinks, h0) && n.pc.Reading?
    ensures GoodNode(Observe(n, ReadReply(if ok then ReadState(store) else ReadError)), store, held, sinks, h0)
  {
    if ok {
      if store.None? {
        StartOk(n.task.done);
      } else if store.value.height == n.height {
        StartOk(store.value.done);
      } else {
        StartOk(n.task.done);
      }
    }
  }

  /** Replacing the store by the holder's task, as the protocol allows it. */
  predicate Advances(store: Option<Task>, task: Task, sinks: set<Kind>, h0: int) {
    && task.done.Keys == sinks
    && match store
       case None => task.height == h0
       case Some(t) =>
         || (t.height + 1 == task.height && AllDone(t.done))
         || (t.height == task.height && forall k | k in t.done && t.done[k] :: k in task.done && task.done[k])
  }

  lemma HolderAdvances(n: Node, store: Option<Task>, sinks: set<Kind>, h0: int)
    requires GoodNode(n, store, true, sinks, h0) && GoodStore(store, sinks, h0) && n.pc.Unlocking?
    ensures Advances(store, n.task, sinks, h0)
  {
  }

  lemma ReachesAfterAdvance(store: Option<Task>, task: Task, height: int, sinks: set<Kind>, h0: int)
    requires GoodStore(store, sinks, h0) && Advances(store, task, sinks, h0)
    requires StoreReaches(store, height, h0) && h0 <= height
    ensures StoreReaches(Some(task), height, h0)
  {
  }

  lemma OthersKeep(n: Node, store: Option<Task>, task: Task, sinks: set<Kind>, h0: int, held: bool)
    requires GoodNode(n, store, held, sinks, h0) && GoodStore(store, sinks, h0) && Advances(store, task, sinks, h0)
    ensures GoodNode(n, Some(task), false, sinks, h0)
  {
    ReachesAfterAdvance(store, task, n.height, sinks, h0);
    if n.pc == Releasing(JumpNextBlock) || n.pc.Finished? {
      ReachesAfterAdvance(store, task, n.height + 1, sinks, h0);
    }
  }

  lemma UnlockKeeps(s: System, id: NodeId, effect: bool, reply: bool, sinks: set<Kind>, h0: int)
    requires Inv(s, sinks, h0) && CanHappen(s, Unlock(id, effect, reply), sinks)
    ensures Inv(Happen(s, Unlock(id, effect, reply), sinks), sinks, h0)
  {
    var s' := Happen(s, Unlock(id, effect, reply), sinks);
    var task := s.nodes[id].task;
    assert GoodAt(s, id, sinks, h0);
    if effect {
      HolderAdvances(s.nodes[id], s.store, sinks, h0);
    }
    forall j | j in s'.nodes
      ensures GoodAt(s', j, sinks, h0)
    {
      assert GoodAt(s, j, sinks, h0);
      if effect {
        OthersKeep(s.nodes[j], s.store, task, sinks, h0, s.lock == Some(j));
      }
    }
  }

  /** Any other event: the store stays, and the lock only ever passes to a node that is not working. */
  lemma NodeKeeps(s: System, e: Event, j: NodeId, sinks: set<Kind>, h0: int)
    requires GoodStore(s.store, sinks, h0) && j in s.nodes && GoodAt(s, j, sinks, h0)
    requires CanHappen(s, e, sinks) && !e.Unlock?
    ensures GoodAt(Happen(s, e, sinks), j, sinks, h0)
  {
    match e {
      case Local(id, o) =>
        if id == j { LocalKeeps(s.nodes[j], o, s.store, s.lock == Some(j), sinks, h0); }
      case Fetch(_, _, _) =>
      case ReadStore(id, ok) =>
        if id == j { ReadKeeps(s.nodes[j], s.store, ok, s.lock == Some(j), sinks, h0); }
      case Release(id, _, reply) =>
        if id == j { ReleaseKeeps(s.nodes[j], reply, s.store, s.lock == Some(j), sinks, h0); }
      case Expire =>
      case Crash(id) =>
        if id == j { FreshHasAllUndone(s.nodes[j].height, sinks); }
    }
  }

  lemma ReleaseKeeps(n: Node, reply: bool, store: Option<Task>, held: bool, sinks: set<Kind>, h0: int)
    requires GoodNode(n, store, held, sinks, h0) && n.pc.Releasing?
    ensures forall held' :: GoodNode(Observe(n, ReleaseReply(reply)), store, held', sinks, h0)
  {
  }

  lemma StepKeeps(s: System, e: Event, sinks: set<Kind>, h0: int)
    requires Inv(s, sinks, h0) && CanHappen(s, e, sinks)
    ensures Inv(Happen(s, e, sinks), sinks, h0)
  {
    var s' := Happen(s, e, sinks);
    if e.Unlock? {
      UnlockKeeps(s, e.id, e.effect, e.reply, sinks, h0);
    } else {
      assert s'.store == s.store;
      forall j | j in s'.nodes
        ensures GoodAt(s', j, sinks, h0)
      {
        assert GoodAt(s, j, sinks, h0);
        NodeKeeps(s, e, j, sinks, h0);
      }
    }
  }

  // ---------------------------------------------------------------- whole behaviours

  lemma {:induction false} AlwaysGood(states: seq<System>, events: seq<Event>, sinks: set<Kind>, h0: int, i: nat)
    requires Behaviour(states, events, sinks, h0) && i < |states|
    ensures Inv(states[i], sinks, h0)
  {
    if i == 0 {
      forall id | id in states[0].nodes
        ensures GoodAt(states[0], id, sinks, h0)
      {
        FreshHasAllUndone(h0, sinks);
      }
    } else {
      AlwaysGood(states, events, sinks, h0, i - 1);
      assert StepAt(states, events, sinks, i - 1);
      StepKeeps(states[i - 1], events[i - 1], sinks, h0);
    }
  }

  /** The branch that panics, because the store fell too far behind, is never reached by any node in
      any interleaving, whatever the lock service loses or expires and whoever crashes. */
  lemma NeverPanics(states: seq<System>, events: seq<Event>, sinks: set<Kind>, h0: int, i: nat, id: NodeId)
    requires Behaviour(states, events, sinks, h0) && i < |states| && id in states[i].nodes
    ensures !states[i].nodes[id].pc.Panicked? && states[i].nodes[id].pc != Releasing(Unknown)
    ensures states[i].nodes[id].pc.Reading? ==> Decide(states[i].nodes[id].height, states[i].store) != Unknown
  {
    AlwaysGood(states, events, sinks, h0, i);
    assert GoodAt(states[i], id, sinks, h0);
  }

  /** One step of any kind leaves the stored task alone, fills in more of the same block, or moves on
      to the next block, and that only from a task with nothing left to do. */
  predicate StoreMoves(a: Option<Task>, b: Option<Task>, h0: int) {
    || a == b
    || (a.None? && b.Some? && b.value.height == h0)
    || (a.Some? && b.Some? && b.value.height == a.value.height + 1 && AllDone(a.value.done))
    || (a.Some? && b.Some? && b.value.height == a.value.height && b.value.done.Keys == a.value.done.Keys
        && forall k | k in a.value.done && a.value.done[k] :: b.value.done[k])
  }

  lemma StoreMovesByOne(states: seq<System>, events: seq<Event>, sinks: set<Kind>, h0: int, i: nat)
    requires Behaviour(states, events, sinks, h0) && i < |events|
    ensures StoreMoves(states[i].store, states[i + 1].store, h0)
  {
    AlwaysGood(states, events, sinks, h0, i);
    assert StepAt(states, events, sinks, i);
    var s, e := states[i], events[i];
    if e.Unlock? && e.effect {
      assert GoodAt(s, e.id, sinks, h0);
      HolderAdvances(s.nodes[e.id], s.store, sinks, h0);
    }
  }

  /** Over any stretch of any behaviour the stored height never falls and passes through every block,
      and what is marked done for a block stays marked: the number of sinks left never grows. */
  lemma {:induction false} StoreIsMonotone(states: seq<System>, events: seq<Event>, sinks: set<Kind>, h0: int, i: nat, j: nat)
    requires Behaviour(states, events, sinks, h0) && i <= j < |states| && states[i].store.Some?
    ensures states[j].store.Some?
    ensures var a, b := states[i].store.value, states[j].store.value;
            && a.height <= b.height
            && (a.height == b.height ==>
                  && b.done.Keys == a.done.Keys
                  && (forall k | k in a.done && a.done[k] :: b.done[k])
                  && |Undone(b.done)| <= |Undone(a.done)|)
    decreases j - i
  {
    if i < j {
      StoreIsMonotone(states, events, sinks, h0, i, j - 1);
      StoreMovesByOne(states, events, sinks, h0, j - 1);
    }
    var a, b := states[i].store.value, states[j].store.value;
    if a.height == b.height {
      FewerUndone(a.done, b.done);
    }
  }

  /** No block is passed over: when the stored height goes beyond `h`, a fully done task for `h` was
      stored first. */
  lemma {:induction false} EveryBlockIsFinished(states: seq<System>, events: seq<Event>, sinks: set<Kind>, h0: int, j: nat, h: int)
    requires Behaviour(states, events, sinks, h0) && j < |states|
    requires states[j].store.Some? && h0 <= h < states[j].store.value.height
    ensures exists i: nat :: i < j && FinishedAt(states, i, h)
  {
    if j > 0 {
      StoreMovesByOne(states, events, sinks, h0, j - 1);
      AlwaysGood(states, events, sinks, h0, j - 1);
      var a := states[j - 1].store;
      if a.Some? && a.value.height > h {
        EveryBlockIsFinished(states, events, sinks, h0, j - 1, h);
        var i: nat :| i < j - 1 && FinishedAt(states, i, h);
        assert i < j && FinishedAt(states, i, h);
      } else {
        assert FinishedAt(states, j - 1, h);
      }
    }
  }

  predicate FinishedAt(states: seq<System>, i: nat, h: int)
    requires i < |states|
  {
    states[i].store.Some? && states[i].store.value.height == h && AllDone(states[i].store.value.done)
  }

  /** The node that holds the lock never runs a sink again that the stored task for its block has. */
  lemma DoneSinksAreNotRunAgain(states: seq<System>, events: seq<Event>, sinks: set<Kind>, h0: int, i: nat, id: NodeId, k: Kind)
    requires Behaviour(states, events, sinks, h0) && i < |states| && id in states[i].nodes
    requires states[i].lock == Some(id) && states[i].nodes[id].pc.Running?
    requires states[i].store.Some? && states[i].store.value.height == states[i].nodes[id].height
    requires k in states[i].store.value.done && states[i].store.value.done[k]
    ensures k !in states[i].nodes[id].pc.round.waiting
  {
    AlwaysGood(states, events, sinks, h0, i);
    assert GoodAt(states[i], id, sinks, h0);
    var round := states[i].nodes[id].pc.round;
    var start: DoneMap :| FanOut.RoundInv(start, round);
    assert forall x | x in round.waiting :: x in round.waiting + FanOut.KindsOf(round.channel) && !round.done[x];
  }

  // ---------------------------------------------------------------- done means reported

  /** Before state `i`, some runner on some node reported success for sink `k` of block `h`. */
  ghost predicate Reported(states: seq<System>, events: seq<Event>, i: nat, h: int, k: Kind)
    requires |states| == |events| + 1
  {
    exists j: nat :: j < i && j < |events| && ReportedAt(states, events, j, h, k)
  }

  predicate ReportedAt(states: seq<System>, events: seq<Event>, j: nat, h: int, k: Kind)
    requires |states| == |events| + 1 && j < |events|
  {
    && events[j].Local? && events[j].obs == Coordinate(FanOut.Send(k, true))
    && events[j].id in states[j].nodes && states[j].nodes[events[j].id].height == h
  }

  ghost predicate TaskReported(states: seq<System>, events: seq<Event>, i: nat, t: Task)
    requires |states| == |events| + 1
  {
    forall k | k in t.done && t.done[k] :: Reported(states, events, i, t.height, k)
  }

  ghost predicate NodeReported(states: seq<System>, events: seq<Event>, i: nat, n: Node)
    requires |states| == |events| + 1
  {
    && TaskReported(states, events, i, n.task)
    && (n.pc.Running? ==>
          forall x | x in n.pc.round.channel && x.success :: Reported(states, events, i, n.height, x.kind))
  }

  ghost predicate AllReported(states: seq<System>, events: seq<Event>, i: nat)
    requires |states| == |events| + 1 && i < |states|
  {
    && (states[i].store.Some? ==> TaskReported(states, events, i, states[i].store.value))
    && forall id | id in states[i].nodes :: NodeReported(states, events, i, states[i].nodes[id])
  }

  lemma ReportedLater(states: seq<System>, events: seq<Event>, i: nat, h: int, k: Kind)
    requires |states| == |events| + 1 && Reported(states, events, i, h, k)
    ensures Reported(states, events, i + 1, h, k)
  {
    var j: nat :| j < i && j < |events| && ReportedAt(states, events, j, h, k);
    assert j < i + 1;
  }

  lemma TaskReportedLater(states: seq<System>, events: seq<Event>, i: nat, t: Task)
    requires |states| == |events| + 1 && TaskReported(states, events, i, t)
    ensures TaskReported(states, events, i + 1, t)
  {
    forall k | k in t.done && t.done[k]
      ensures Reported(states, events, i + 1, t.height, k)
    {
      ReportedLater(states, events, i, t.height, k);
    }
  }

  lemma NodeReportedLater(states: seq<System>, events: seq<Event>, i: nat, n: Node)
    requires |states| == |events| + 1 && NodeReported(states, events, i, n)
    ensures NodeReported(states, events, i + 1, n)
  {
    TaskReportedLater(states, events, i, n.task);
    if n.pc.Running? {
      forall x | x in n.pc.round.channel && x.success
        ensures Reported(states, events, i + 1, n.height, x.kind)
      {
        ReportedLater(states, events, i, n.height, x.kind);
      }
    }
  }

  /** A coordinator step adds a report, or passes one on from the channel to the task. */
  lemma CoordinateReported(states: seq<System>, events: seq<Event>, i: nat, id: NodeId, step: FanOut.Step)
    requires |states| == |events| + 1 && i < |events| && id in states[i].nodes
    requires events[i] == Local(id, Coordinate(step))
    requires Expected(states[i].nodes[id], Coordinate(step))
    requires NodeReported(states, events, i, states[i].nodes[id])
    requires states[i].nodes[id].task.height == states[i].nodes[id].height
    requires states[i].nodes[id].pc.round.done == states[i].nodes[id].task.done
    ensures NodeReported(states, events, i + 1, Observe(states[i].nodes[id], Coordinate(step)))
  {
    var n := states[i].nodes[id];
    NodeReportedLater(states, events, i, n);
    match step {
      case Send(k, success) =>
        if success {
          assert ReportedAt(states, events, i, n.height, k);
          assert Reported(states, events, i + 1, n.height, k);
        }
      case Receive =>
        assert n.pc.round.channel[0] in n.pc.round.channel;
      case Timeout =>
    }
  }

  lemma FreshReported(states: seq<System>, events: seq<Event>, i: nat, height: int, cached: Option<int>, sinks: set<Kind>)
    requires |states| == |events| + 1
    ensures NodeReported(states, events, i, Begin(height, cached, sinks))
  {
  }

  lemma NodeStepReported(states: seq<System>, events: seq<Event>, sinks: set<Kind>, h0: int, i: nat, j: NodeId)
    requires |states| == |events| + 1 && i < |events| && CanHappen(states[i], events[i], sinks)
    requires j in states[i].nodes && GoodAt(states[i], j, sinks, h0)
    requires NodeReported(states, events, i, states[i].nodes[j])
    requires states[i].store.Some? ==> TaskReported(states, events, i + 1, states[i].store.value)
    ensures NodeReported(states, events, i + 1, Happen(states[i], events[i], sinks).nodes[j])
  {
    var s, e := states[i], events[i];
    NodeReportedLater(states, events, i, s.nodes[j]);
    match e {
      case Local(id, o) =>
        if id == j && o.Coordinate? {
          CoordinateReported(states, events, i, j, o.step);
        } else if id == j && o.NextBlock? {
          FreshReported(states, events, i + 1, s.nodes[j].height + 1, s.nodes[j].cached, sinks);
        }
      case Crash(id) => FreshReported(states, events, i + 1, s.nodes[j].height, None, sinks);
      case _ =>
    }
  }

  lemma StepReported(states: seq<System>, events: seq<Event>, sinks: set<Kind>, h0: int, i: nat)
    requires Behaviour(states, events, sinks, h0) && i < |events|
    requires AllReported(states, events, i) && Inv(states[i], sinks, h0)
    ensures AllReported(states, events, i + 1)
  {
    assert StepAt(states, events, sinks, i);
    var s, e, s' := states[i], events[i], states[i + 1];
    if s.store.Some? {
      TaskReportedLater(states, events, i, s.store.value);
    }
    if e.Unlock? {
      assert NodeReported(states, events, i, s.nodes[e.id]);
      TaskReportedLater(states, events, i, s.nodes[e.id].task);
    }
    forall j | j in s'.nodes
      ensures NodeReported(states, events, i + 1, s'.nodes[j])
    {
      assert NodeReported(states, events, i, s.nodes[j]) && GoodAt(s, j, sinks, h0);
      NodeStepReported(states, events, sinks, h0, i, j);
    }
  }

  /** A sink marked done in a stored task was reported done, for that very block, by a runner of some
      node before. */
  lemma {:induction false} DoneWasReported(states: seq<System>, events: seq<Event>, sinks: set<Kind>, h0: int, i: nat)
    requires Behaviour(states, events, sinks, h0) && i < |states|
    ensures AllReported(states, events, i)
  {
    if i == 0 {
      forall id | id in states[0].nodes
        ensures NodeReported(states, events, 0, states[0].nodes[id])
      {
        FreshReported(states, events, 0, h0, None, sinks);
      }
    } else {
      DoneWasReported(states, events, sinks, h0, i - 1);
      AlwaysGood(states, events, sinks, h0, i - 1);
      StepReported(states, events, sinks, h0, i - 1);
    }
  }
}
