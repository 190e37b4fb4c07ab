/** What a stored task means for a node that reads it, and that no node is ever stuck: from every state the
    protocol can reach each node can still finish its block (x/stream/endblocker.go). */
module StreamProgress {
  import opened Options
  import opened StreamTask
  import opened StreamProtocol
  import FanOut

  // ---------------------------------------------------------------- what is stored, for a block

  /** The block is finished: all its sinks have it, or a later block is stored. */
  predicate BlockDone(stored: Option<Task>, height: int) {
    stored.Some? && (stored.value.height > height || (stored.value.height == height && forall k | k in stored.value.done :: stored.value.done[k]))
  }

  /** Somebody worked on the block, and some sink is still without it. */
  predicate InProgress(stored: Option<Task>, height: int) {
    stored.Some? && stored.value.height == height && exists k :: k in stored.value.done && !stored.value.done[k]
  }

  /** Nobody has stored anything for the block, and the one before it is what is stored, if any. */
  predicate NotStarted(stored: Option<Task>, height: int) {
    stored.None? || stored.value.height + 1 == height
  }

  predicate TooFarBehind(stored: Option<Task>, height: int) {
    stored.Some? && stored.value.height + 1 < height
  }

  /** A node that reads the store jumps exactly when its block is finished, goes on with the stored task
      exactly when that is in progress, starts its own exactly when there is none yet, and gives up
      exactly when the store is too far behind. */
  lemma ReadDecides(n: Node, stored: Option<Task>)
    requires n.pc.Reading?
    ensures var n' := Observe(n, ReadReply(ReadState(stored)));
            && n'.height == n.height && n'.cached == (if stored.Some? then Some(stored.value.height) else n.cached)
            && (n'.pc == Releasing(JumpNextBlock) <==> BlockDone(stored, n.height))
            && (n'.pc == Running(FanOut.Start(n'.task.done)) <==> InProgress(stored, n.height) || NotStarted(stored, n.height))
            && (InProgress(stored, n.height) ==> n'.task == stored.value) && (!InProgress(stored, n.height) ==> n'.task == n.task)
            && (n'.pc == Releasing(Unknown) <==> TooFarBehind(stored, n.height))
            && n'.pc != Releasing(Restart)
  {
  }

  // ---------------------------------------------------------------- continuations

  /** The events may happen one after the other from `s` on. */
  predicate Possible(s: System, events: seq<Event>, sinks: set<Kind>)
    decreases |events|
  {
    events == [] || (CanHappen(s, events[0], sinks) && Possible(Happen(s, events[0], sinks), events[1..], sinks))
  }

  function EndOf(s: System, events: seq<Event>, sinks: set<Kind>): System
    requires Possible(s, events, sinks)
    decreases |events|
  {
    if events == [] then s else EndOf(Happen(s, events[0], sinks), events[1..], sinks)
  }

  /** Only this node acts, without dying, and the lock may run out. */
  predicate OnlyBy(id: NodeId, e: Event) {
    match e
    case Local(j, _) => j == id
    case Fetch(j, _, _) => j == id
    case ReadStore(j, _) => j == id
    case Release(j, _, _) => j == id
    case Unlock(j, _, _) => j == id
    case Expire => true
    case Crash(_) => false
  }

  predicate AllBy(id: NodeId, events: seq<Event>) {
    forall i | 0 <= i < |events| :: OnlyBy(id, events[i])
  }

  /** A way for the node to get from `s` to `s'`. */
  predicate Way(s: System, events: seq<Event>, s': System, id: NodeId, sinks: set<Kind>) {
    Possible(s, events, sinks) && EndOf(s, events, sinks) == s' && AllBy(id, events)
  }

  lemma {:induction false} WayThen(s: System, e1: seq<Event>, s1: System, e2: seq<Event>, s2: System, id: NodeId, sinks: set<Kind>)
    requires Way(s, e1, s1, id, sinks) && Way(s1, e2, s2, id, sinks)
    ensures Way(s, e1 + e2, s2, id, sinks)
    decreases |e1|
  {
    if e1 == [] {
      assert e1 + e2 == e2;
    } else {
      assert (e1 + e2)[1..] == e1[1..] + e2;
      WayThen(Happen(s, e1[0], sinks), e1[1..], s1, e2, s2, id, sinks);
    }
  }

  lemma OneStep(s: System, e: Event, id: NodeId, sinks: set<Kind>)
    requires CanHappen(s, e, sinks) && OnlyBy(id, e)
    ensures Way(s, [e], Happen(s, e, sinks), id, sinks)
  {
    assert [e][1..] == [];
    assert Possible(Happen(s, e, sinks), [], sinks);
  }

  lemma StepMore(s: System, events: seq<Event>, s1: System, e: Event, id: NodeId, sinks: set<Kind>)
    requires Way(s, events, s1, id, sinks) && CanHappen(s1, e, sinks) && OnlyBy(id, e)
    ensures Way(s, events + [e], Happen(s1, e, sinks), id, sinks)
  {
    OneStep(s1, e, id, sinks);
    WayThen(s, events, s1, [e], Happen(s1, e, sinks), id, sinks);
  }

  lemma {:induction false} WayKeepsInv(s: System, events: seq<Event>, s': System, id: NodeId, sinks: set<Kind>, h0: int)
    requires Inv(s, sinks, h0) && Way(s, events, s', id, sinks)
    ensures Inv(s', sinks, h0)
    decreases |events|
  {
    if events != [] {
      StepKeeps(s, events[0], sinks, h0);
      assert forall i | 0 <= i < |events[1..]| :: events[1..][i] == events[i + 1];
      WayKeepsInv(Happen(s, events[0], sinks), events[1..], s', id, sinks, h0);
    }
  }

  // ---------------------------------------------------------------- back to the start of a pass

  /** Wherever a node is, it can give its pass up, or has finished. */
  lemma BackToTop(s: System, id: NodeId, sinks: set<Kind>, h0: int) returns (events: seq<Event>, s': System)
    requires Inv(s, sinks, h0) && id in s.nodes
    ensures Way(s, events, s', id, sinks) && id in s'.nodes && s'.nodes[id].height == s.nodes[id].height
    ensures s'.nodes[id].pc.Top? || s'.nodes[id].pc.Finished?
  {
    assert GoodAt(s, id, sinks, h0);
    events, s' := [], s;
    match s.nodes[id].pc {
      case Top =>
      case Finished =>
      case Fetching =>
        StepMore(s, [], s, Fetch(id, false, false), id, sinks);
        events, s' := [] + [Fetch(id, false, false)], Happen(s, Fetch(id, false, false), sinks);
      case Reading =>
        StepMore(s, [], s, ReadStore(id, false), id, sinks);
        var s1 := Happen(s, ReadStore(id, false), sinks);
        StepMore(s, [] + [ReadStore(id, false)], s1, Release(id, false, false), id, sinks);
        events, s' := [] + [ReadStore(id, false)] + [Release(id, false, false)], Happen(s1, Release(id, false, false), sinks);
      case Releasing(_) =>
        StepMore(s, [], s, Release(id, false, false), id, sinks);
        events, s' := [] + [Release(id, false, false)], Happen(s, Release(id, false, false), sinks);
      case Running(round) =>
        events, s' := GiveUpRound(s, id, sinks);
      case Unlocking =>
        StepMore(s, [], s, Unlock(id, false, false), id, sinks);
        events, s' := [] + [Unlock(id, false, false)], Happen(s, Unlock(id, false, false), sinks);
    }
  }

  lemma GiveUpRound(s: System, id: NodeId, sinks: set<Kind>) returns (events: seq<Event>, s': System)
    requires id in s.nodes && s.nodes[id].pc.Running?
    ensures Way(s, events, s', id, sinks) && id in s'.nodes && s'.nodes[id].height == s.nodes[id].height && s'.nodes[id].pc.Top?
  {
    events, s' := [], s;
    if !s.nodes[id].pc.round.ended {
      var e := Local(id, Coordinate(FanOut.Timeout));
      StepMore(s, events, s', e, id, sinks);
      events, s' := events + [e], Happen(s', e, sinks);
    }
    StepMore(s, events, s', Local(id, Collected), id, sinks);
    events, s' := events + [Local(id, Collected)], Happen(s', Local(id, Collected), sinks);
    StepMore(s, events, s', Unlock(id, false, false), id, sinks);
    events, s' := events + [Unlock(id, false, false)], Happen(s', Unlock(id, false, false), sinks);
  }

  // ---------------------------------------------------------------- one good pass

  /** From the start of a pass, with the lock to be had, a node gets to read the store or has finished. */
  lemma GetToRead(s: System, id: NodeId, sinks: set<Kind>) returns (events: seq<Event>, s': System)
    requires id in s.nodes && s.nodes[id].pc.Top?
    ensures Way(s, events, s', id, sinks) && id in s'.nodes && s'.store == s.store
    ensures s'.nodes[id].height == s.nodes[id].height && s'.nodes[id].task == s.nodes[id].task
    ensures if s.nodes[id].cached.Some? && s.nodes[id].cached.value > s.nodes[id].height then s'.nodes[id].pc.Finished?
            else s'.nodes[id].pc.Reading? && s'.lock == Some(id)
  {
    var e := Local(id, CheckCache);
    StepMore(s, [], s, e, id, sinks);
    events, s' := [] + [e], Happen(s, e, sinks);
    if s'.nodes[id].pc.Fetching? {
      StepMore(s, events, s', Expire, id, sinks);
      events, s' := events + [Expire], Happen(s', Expire, sinks);
      StepMore(s, events, s', Fetch(id, true, true), id, sinks);
      events, s' := events + [Fetch(id, true, true)], Happen(s', Fetch(id, true, true), sinks);
    }
  }

  /** A node whose block is finished jumps: after the read and the release `execute` has returned, and the
      store is as it was. */
  lemma DoneBlockIsLeft(s: System, id: NodeId, sinks: set<Kind>) returns (events: seq<Event>, s': System)
    requires id in s.nodes && s.nodes[id].pc.Reading? && s.lock == Some(id) && BlockDone(s.store, s.nodes[id].height)
    ensures events == [ReadStore(id, true), Release(id, true, true)] && Way(s, events, s', id, sinks)
    ensures id in s'.nodes && s'.nodes[id].pc.Finished? && s'.nodes[id].height == s.nodes[id].height
    ensures s'.store == s.store && s'.lock.None?
  {
    ReadDecides(s.nodes[id], s.store);
    OneStep(s, ReadStore(id, true), id, sinks);
    var s1 := Happen(s, ReadStore(id, true), sinks);
    StepMore(s, [ReadStore(id, true)], s1, Release(id, true, true), id, sinks);
    s' := Happen(s1, Release(id, true, true), sinks);
    events := [ReadStore(id, true)] + [Release(id, true, true)];
  }

  predicate RoundAtWork(n: Node, start: DoneMap)
  {
    && n.pc.Running? && FanOut.RoundInv(start, n.pc.round) && n.pc.round.channel == []
    && n.task.done == n.pc.round.done && Undone(n.task.done) == n.pc.round.waiting
    && (n.pc.round.ended ==> n.pc.round.waiting == {})
  }

  /** One runner reports success, and the coordinator collects it. */
  lemma OneReport(s: System, id: NodeId, start: DoneMap, k: Kind, sinks: set<Kind>) returns (events: seq<Event>, s': System)
    requires id in s.nodes && RoundAtWork(s.nodes[id], start) && k in s.nodes[id].pc.round.waiting
    ensures Way(s, events, s', id, sinks) && s'.lock == s.lock && s'.store == s.store && id in s'.nodes
    ensures RoundAtWork(s'.nodes[id], start) && s'.nodes[id].pc.round.waiting == s.nodes[id].pc.round.waiting - {k}
    ensures s'.nodes[id].height == s.nodes[id].height && s'.nodes[id].task.height == s.nodes[id].task.height
  {
    var r := s.nodes[id].pc.round;
    var send, receive := FanOut.Send(k, true), FanOut.Receive;
    assert |r.waiting - {k}| == |r.waiting| - 1;
    FanOut.StepInv(start, r, send);
    var r1 := FanOut.Take(r, send);
    FanOut.StepInv(start, r1, receive);
    var r2 := FanOut.Take(r1, receive);
    OneStep(s, Local(id, Coordinate(send)), id, sinks);
    var s1 := Happen(s, Local(id, Coordinate(send)), sinks);
    StepMore(s, [Local(id, Coordinate(send))], s1, Local(id, Coordinate(receive)), id, sinks);
    events, s' := [Local(id, Coordinate(send))] + [Local(id, Coordinate(receive))], Happen(s1, Local(id, Coordinate(receive)), sinks);
    assert s'.nodes[id].pc.round == r2 && r2.done == r.done[k := true] && r2.channel == [];
    assert Undone(r2.done) == Undone(r.done) - {k};
    assert r2.ended ==> |r2.waiting| == 0;
  }

  lemma {:induction false} AllReport(s: System, id: NodeId, start: DoneMap, sinks: set<Kind>) returns (events: seq<Event>, s': System)
    requires id in s.nodes && RoundAtWork(s.nodes[id], start)
    ensures Way(s, events, s', id, sinks) && s'.lock == s.lock && s'.store == s.store && id in s'.nodes
    ensures RoundAtWork(s'.nodes[id], start) && s'.nodes[id].pc.round.waiting == {} && s'.nodes[id].pc.round.ended
    ensures s'.nodes[id].height == s.nodes[id].height && s'.nodes[id].task.height == s.nodes[id].task.height
    decreases |s.nodes[id].pc.round.waiting|
  {
    var waiting := s.nodes[id].pc.round.waiting;
    if waiting == {} {
      events, s' := [], s;
    } else {
      var k :| k in waiting;
      var e1, s1 := OneReport(s, id, start, k, sinks);
      assert |waiting - {k}| < |waiting|;
      var e2, s2 := AllReport(s1, id, start, sinks);
      WayThen(s, e1, s1, e2, s2, id, sinks);
      events, s' := e1 + e2, s2;
    }
  }

  /** A node at work under the lock whose runners all succeed stores its block as finished and returns. */
  lemma WorkFinishes(s: System, id: NodeId, sinks: set<Kind>) returns (events: seq<Event>, s': System)
    requires id in s.nodes && s.lock == Some(id) && s.nodes[id].pc == Running(FanOut.Start(s.nodes[id].task.done))
    ensures Way(s, events, s', id, sinks) && id in s'.nodes && s'.nodes[id].pc.Finished? && s'.nodes[id].height == s.nodes[id].height
    ensures s'.store.Some? && s'.store.value.height == s.nodes[id].task.height && AllDone(s'.store.value.done)
  {
    var start := s.nodes[id].task.done;
    FanOut.StartInv(start);
    if Undone(start) != {} { assert |Undone(start)| > 0; }
    var e1, s1 := AllReport(s, id, start, sinks);
    events, s' := e1, s1;
    StepMore(s, events, s', Local(id, Collected), id, sinks);
    events, s' := events + [Local(id, Collected)], Happen(s', Local(id, Collected), sinks);
    NoneUndone(s1.nodes[id].task.done);
    StepMore(s, events, s', Unlock(id, true, true), id, sinks);
    events, s' := events + [Unlock(id, true, true)], Happen(s', Unlock(id, true, true), sinks);
  }

  lemma NoneUndone(done: DoneMap)
    requires Undone(done) == {}
    ensures AllDone(done)
  {
    forall k | k in done
      ensures done[k]
    {
      assert k !in Undone(done);
    }
  }

  /** From the start of a pass every node can finish its block. */
  lemma PassFinishes(s: System, id: NodeId, sinks: set<Kind>, h0: int) returns (events: seq<Event>, s': System)
    requires Inv(s, sinks, h0) && id in s.nodes && s.nodes[id].pc.Top?
    ensures Way(s, events, s', id, sinks) && id in s'.nodes && s'.nodes[id].pc.Finished? && s'.nodes[id].height == s.nodes[id].height
  {
    assert GoodAt(s, id, sinks, h0);
    events, s' := GetToRead(s, id, sinks);
    if !s'.nodes[id].pc.Finished? {
      ReadDecides(s'.nodes[id], s'.store);
      var e2, s2;
      if BlockDone(s'.store, s'.nodes[id].height) {
        e2, s2 := DoneBlockIsLeft(s', id, sinks);
      } else {
        e2, s2 := WorkOnBlock(s', id, sinks);
      }
      WayThen(s, events, s', e2, s2, id, sinks);
      events, s' := events + e2, s2;
    }
  }

  lemma WorkOnBlock(s: System, id: NodeId, sinks: set<Kind>) returns (events: seq<Event>, s': System)
    requires id in s.nodes && s.nodes[id].pc.Reading? && s.lock == Some(id)
    requires InProgress(s.store, s.nodes[id].height) || NotStarted(s.store, s.nodes[id].height)
    ensures Way(s, events, s', id, sinks) && id in s'.nodes && s'.nodes[id].pc.Finished? && s'.nodes[id].height == s.nodes[id].height
  {
    ReadDecides(s.nodes[id], s.store);
    OneStep(s, ReadStore(id, true), id, sinks);
    var s1 := Happen(s, ReadStore(id, true), sinks);
    var e2, s2 := WorkFinishes(s1, id, sinks);
    WayThen(s, [ReadStore(id, true)], s1, e2, s2, id, sinks);
    events, s' := [ReadStore(id, true)] + e2, s2;
  }

  // ---------------------------------------------------------------- whole behaviours

  /** In every behaviour, a node that has returned from `execute` left its block finished in the store. */
  lemma FinishedMeansDone(states: seq<System>, events: seq<Event>, sinks: set<Kind>, h0: int, i: nat, id: NodeId)
    requires Behaviour(states, events, sinks, h0) && i < |states| && id in states[i].nodes && states[i].nodes[id].pc.Finished?
    ensures BlockDone(states[i].store, states[i].nodes[id].height)
  {
    AlwaysGood(states, events, sinks, h0, i);
    assert GoodAt(states[i], id, sinks, h0);
  }

  /** No node is ever stuck: from every state of every behaviour, whatever was lost, expired or crashed
      before, each node can get by its own steps to where its block is finished and `execute` returns. */
  lemma EveryNodeCanFinish(states: seq<System>, events: seq<Event>, sinks: set<Kind>, h0: int, i: nat, id: NodeId)
    returns (more: seq<Event>, end: System)
    requires Behaviour(states, events, sinks, h0) && i < |states| && id in states[i].nodes
    ensures Way(states[i], more, end, id, sinks) && id in end.nodes
    ensures end.nodes[id].pc.Finished? && end.nodes[id].height == states[i].nodes[id].height
    ensures BlockDone(end.store, end.nodes[id].height)
  {
    var s := states[i];
    AlwaysGood(states, events, sinks, h0, i);
    more, end := BackToTop(s, id, sinks, h0);
    WayKeepsInv(s, more, end, id, sinks, h0);
    if end.nodes[id].pc.Top? {
      var e2, s2 := PassFinishes(end, id, sinks, h0);
      WayThen(s, more, end, e2, s2, id, sinks);
      more, end := more + e2, s2;
      WayKeepsInv(s, more, end, id, sinks, h0);
    }
    assert GoodAt(end, id, sinks, h0);
  }
}
