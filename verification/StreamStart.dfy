/** Why all nodes must set out at the same block: from any other start some interleaving moves the
    store past an unfinished block, or panics (x/stream/endblocker.go:79-84). */
module StreamStart {
  import opened Options
  import opened StreamTask
  import opened StreamProtocol
  import FanOut

  predicate Runs(s: System, events: seq<Event>, sinks: set<Kind>)
    decreases |events|
  {
    events == [] || (CanHappen(s, events[0], sinks) && Runs(Happen(s, events[0], sinks), events[1..], sinks))
  }

  function EndOf(s: System, events: seq<Event>, sinks: set<Kind>): System
    requires Runs(s, events, sinks)
    decreases |events|
  {
    if events == [] then s else EndOf(Happen(s, events[0], sinks), events[1..], sinks)
  }

  lemma {:induction false} RunsThen(s: System, events: seq<Event>, e: Event, sinks: set<Kind>)
    requires Runs(s, events, sinks) && CanHappen(EndOf(s, events, sinks), e, sinks)
    ensures Runs(s, events + [e], sinks)
    ensures EndOf(s, events + [e], sinks) == Happen(EndOf(s, events, sinks), e, sinks)
    decreases |events|
  {
    if events == [] {
      assert events + [e] == [e] && [e][1..] == [];
      assert Runs(Happen(s, e, sinks), [], sinks);
    } else {
      assert (events + [e])[1..] == events[1..] + [e];
      RunsThen(Happen(s, events[0], sinks), events[1..], e, sinks);
    }
  }

  /** All nodes at the top of their loop, nothing stored, but not necessarily at the same block. */
  predicate AnyStart(s: System, sinks: set<Kind>) {
    && s.lock.None? && s.store.None?
    && forall id | id in s.nodes :: s.nodes[id] == Begin(s.nodes[id].height, None, sinks)
  }

  predicate CommonStart(s: System) {
    forall a, b | a in s.nodes && b in s.nodes :: s.nodes[a].height == s.nodes[b].height
  }

  /** A step that must not happen: the stored task is replaced while its block is unfinished, by one
      for another block. */
  predicate SkipsBlock(s: System, s': System) {
    s.store.Some? && !AllDone(s.store.value.done) && s'.store.Some? && s'.store.value.height != s.store.value.height
  }

  predicate SomeonePanicked(s: System) {
    exists id :: id in s.nodes && s.nodes[id].pc.Panicked?
  }

  /** Something went wrong on the way. */
  ghost predicate GoesWrong(s: System, events: seq<Event>, sinks: set<Kind>) {
    && Runs(s, events, sinks)
    && (SomeonePanicked(EndOf(s, events, sinks))
        || (events != [] && Runs(s, events[..|events| - 1], sinks)
            && SkipsBlock(EndOf(s, events[..|events| - 1], sinks), EndOf(s, events, sinks))))
  }

  /** A node alone with a free lock gets as far as having the stored task in hand. */
  lemma ReachesDecision(s: System, events: seq<Event>, id: NodeId, sinks: set<Kind>) returns (more: seq<Event>)
    requires Runs(s, events, sinks)
    requires var m := EndOf(s, events, sinks); m.lock.None? && id in m.nodes && m.nodes[id] == Begin(m.nodes[id].height, None, sinks)
    ensures Runs(s, more, sinks)
    ensures var m := EndOf(s, events, sinks);
            EndOf(s, more, sinks) == System(Some(id), m.store, m.nodes[id := AfterRead(m.nodes[id].(pc := Reading), m.store)])
  {
    var m := EndOf(s, events, sinks);
    RunsThen(s, events, Local(id, CheckCache), sinks);
    more := events + [Local(id, CheckCache)];
    RunsThen(s, more, Fetch(id, true, true), sinks);
    more := more + [Fetch(id, true, true)];
    RunsThen(s, more, ReadStore(id, true), sinks);
    more := more + [ReadStore(id, true)];
    assert EndOf(s, more, sinks).nodes == m.nodes[id := AfterRead(m.nodes[id].(pc := Reading), m.store)];
  }

  /** Told to start a new task, it may time out on every sink and store the untouched task. */
  lemma StoresUnfinished(s: System, events: seq<Event>, id: NodeId, sinks: set<Kind>) returns (init: seq<Event>, last: Event)
    requires sinks != {} && Runs(s, events, sinks)
    requires var m := EndOf(s, events, sinks);
             && m.lock.None? && id in m.nodes && m.nodes[id] == Begin(m.nodes[id].height, None, sinks)
             && Decide(m.nodes[id].height, m.store) == NewTask
    ensures Runs(s, init, sinks) && Runs(s, init + [last], sinks)
    ensures var m := EndOf(s, events, sinks);
            var before, after := EndOf(s, init, sinks), EndOf(s, init + [last], sinks);
            && before.store == m.store
            && after.lock.None? && after.store == Some(Fresh(m.nodes[id].height, sinks))
            && after.nodes.Keys == m.nodes.Keys && forall j | j in m.nodes && j != id :: after.nodes[j] == m.nodes[j]
  {
    var m := EndOf(s, events, sinks);
    var h := m.nodes[id].height;
    FreshHasAllUndone(h, sinks);
    assert |sinks| > 0;
    init := ReachesDecision(s, events, id, sinks);
    RunsThen(s, init, Local(id, Coordinate(FanOut.Timeout)), sinks);
    init := init + [Local(id, Coordinate(FanOut.Timeout))];
    RunsThen(s, init, Local(id, Collected), sinks);
    init := init + [Local(id, Collected)];
    last := Unlock(id, true, true);
    assert EndOf(s, init, sinks).nodes[id].task == Fresh(h, sinks);
    RunsThen(s, init, last, sinks);
  }

  /** From a start where two nodes are at different blocks, something can go wrong. */
  lemma UnevenStartGoesWrong(s: System, sinks: set<Kind>, a: NodeId, b: NodeId)
    requires AnyStart(s, sinks) && sinks != {}
    requires a in s.nodes && b in s.nodes && s.nodes[a].height < s.nodes[b].height
    ensures exists events :: GoesWrong(s, events, sinks)
  {
    var init, last := StoresUnfinished(s, [], a, sinks);
    var first := init + [last];
    var m := EndOf(s, first, sinks);
    var h := s.nodes[a].height;
    assert m.nodes[b] == s.nodes[b];
    assert !AllDone(Fresh(h, sinks).done) by {
      var k :| k in sinks;
      assert k in Fresh(h, sinks).done;
    }
    if s.nodes[b].height == h + 1 {
      var init2, last2 := StoresUnfinished(s, first, b, sinks);
      var events := init2 + [last2];
      assert events[..|events| - 1] == init2;
      assert GoesWrong(s, events, sinks);
    } else {
      var events := ReachesDecision(s, first, b, sinks);
      assert EndOf(s, events, sinks).nodes[b].pc == Releasing(Unknown);
      RunsThen(s, events, Release(b, true, true), sinks);
      events := events + [Release(b, true, true)];
      assert EndOf(s, events, sinks).nodes[b].pc.Panicked?;
      assert GoesWrong(s, events, sinks);
    }
  }

  /** The states a run passes through. */
  function StatesOf(s: System, events: seq<Event>, sinks: set<Kind>): seq<System>
    requires Runs(s, events, sinks)
    decreases |events|
  {
    if events == [] then [s] else [s] + StatesOf(Happen(s, events[0], sinks), events[1..], sinks)
  }

  lemma {:induction false} RunIsBehaviour(s: System, events: seq<Event>, sinks: set<Kind>)
    requires Runs(s, events, sinks)
    ensures var states := StatesOf(s, events, sinks);
            && |states| == |events| + 1 && states[0] == s && states[|events|] == EndOf(s, events, sinks)
            && forall i | 0 <= i < |events| :: StepAt(states, events, sinks, i)
    decreases |events|
  {
    if events != [] {
      var s1 := Happen(s, events[0], sinks);
      var rest := StatesOf(s1, events[1..], sinks);
      RunIsBehaviour(s1, events[1..], sinks);
      var states := StatesOf(s, events, sinks);
      assert states[1..] == rest;
      forall i | 0 <= i < |events|
        ensures StepAt(states, events, sinks, i)
      {
        if i > 0 {
          assert StepAt(rest, events[1..], sinks, i - 1);
          assert states[i] == rest[i - 1] && states[i + 1] == rest[i] && events[1..][i - 1] == events[i];
        } else {
          assert states[1] == rest[0];
        }
      }
    }
  }

  lemma {:induction false} EndOfPrefix(s: System, events: seq<Event>, sinks: set<Kind>)
    requires Runs(s, events, sinks) && events != []
    requires Runs(s, events[..|events| - 1], sinks)
    ensures |StatesOf(s, events, sinks)| == |events| + 1
    ensures StatesOf(s, events, sinks)[|events| - 1] == EndOf(s, events[..|events| - 1], sinks)
    decreases |events|
  {
    RunIsBehaviour(s, events, sinks);
    if |events| > 1 {
      var s1 := Happen(s, events[0], sinks);
      assert events[..|events| - 1][1..] == events[1..][..|events| - 2];
      assert events[..|events| - 1][0] == events[0];
      RunIsBehaviour(s1, events[1..], sinks);
      EndOfPrefix(s1, events[1..], sinks);
    } else {
      assert events[..0] == [];
    }
  }

  lemma CommonStartGoesRight(s: System, sinks: set<Kind>, h0: int, events: seq<Event>)
    requires Initially(s, sinks, h0)
    ensures !GoesWrong(s, events, sinks)
  {
    if GoesWrong(s, events, sinks) {
      RunIsBehaviour(s, events, sinks);
      var states := StatesOf(s, events, sinks);
      assert Behaviour(states, events, sinks, h0);
      if SomeonePanicked(EndOf(s, events, sinks)) {
        var id :| id in states[|events|].nodes && states[|events|].nodes[id].pc.Panicked?;
        NeverPanics(states, events, sinks, h0, |events|, id);
      } else {
        EndOfPrefix(s, events, sinks);
        StoreMovesByOne(states, events, sinks, h0, |events| - 1);
      }
      assert false;
    }
  }

  /** Exactly the common starts are safe: with any sinks at all, no interleaving goes wrong if and
      only if all nodes set out at the same block. */
  lemma SafeExactlyFromCommonStart(s: System, sinks: set<Kind>)
    requires AnyStart(s, sinks) && sinks != {}
    ensures CommonStart(s) <==> forall events :: !GoesWrong(s, events, sinks)
  {
    if CommonStart(s) {
      forall events
        ensures !GoesWrong(s, events, sinks)
      {
        var h0 := if id :| id in s.nodes then s.nodes[id].height else 0;
        CommonStartGoesRight(s, sinks, h0, events);
      }
    } else {
      var a, b :| a in s.nodes && b in s.nodes && s.nodes[a].height != s.nodes[b].height;
      if s.nodes[a].height < s.nodes[b].height {
        UnevenStartGoesWrong(s, sinks, a, b);
      } else {
        UnevenStartGoesWrong(s, sinks, b, a);
      }
    }
  }
}
