/** `execute` and its two phases as code (x/stream/endblocker.go). What the lock service and the sinks
    answer comes in as arguments; what the code does with the answers is proved to be, observation by
    observation, what a node of the protocol does. */
module StreamNode {
  import opened Options
  import opened StreamTask
  import opened StreamProtocol
  import opened StreamProgress
  import FanOut

  // ---------------------------------------------------------------- sequences of observations

  predicate Follows(n: Node, obs: seq<Obs>)
    decreases |obs|
  {
    obs == [] || (Expected(n, obs[0]) && Follows(Observe(n, obs[0]), obs[1..]))
  }

  function Result(n: Node, obs: seq<Obs>): Node
    requires Follows(n, obs)
    decreases |obs|
  {
    if obs == [] then n else Result(Observe(n, obs[0]), obs[1..])
  }

  lemma {:induction false} FollowsThen(n: Node, obs: seq<Obs>, more: seq<Obs>)
    requires Follows(n, obs) && Follows(Result(n, obs), more)
    ensures Follows(n, obs + more) && Result(n, obs + more) == Result(Result(n, obs), more)
    decreases |obs|
  {
    if obs == [] {
      assert obs + more == more;
    } else {
      assert (obs + more)[1..] == obs[1..] + more;
      FollowsThen(Observe(n, obs[0]), obs[1..], more);
    }
  }

  lemma FollowsOne(n: Node, o: Obs)
    requires Expected(n, o)
    ensures Follows(n, [o]) && Result(n, [o]) == Observe(n, o)
  {
    assert [o][1..] == [];
    assert Follows(Observe(n, o), []);
  }

  lemma FollowsMore(n: Node, obs: seq<Obs>, o: Obs)
    requires Follows(n, obs) && Expected(Result(n, obs), o)
    ensures Follows(n, obs + [o]) && Result(n, obs + [o]) == Observe(Result(n, obs), o)
  {
    FollowsOne(Result(n, obs), o);
    FollowsThen(n, obs, [o]);
  }

  function Coordinated(steps: seq<FanOut.Step>): seq<Obs> {
    if steps == [] then [] else [Coordinate(steps[0])] + Coordinated(steps[1..])
  }

  /** A round of the coordinator, seen from its node. */
  lemma {:induction false} RoundFollows(n: Node, round: FanOut.Round, steps: seq<FanOut.Step>)
    requires n.pc == Running(round) && n.task.done == round.done && FanOut.Trace(round, steps)
    ensures Follows(n, Coordinated(steps))
    ensures var r := FanOut.After(round, steps);
            Result(n, Coordinated(steps)) == n.(task := n.task.(done := r.done), pc := Running(r))
    decreases |steps|
  {
    if steps != [] {
      var r := FanOut.Take(round, steps[0]);
      assert Coordinated(steps)[1..] == Coordinated(steps[1..]);
      RoundFollows(Observe(n, Coordinate(steps[0])), r, steps[1..]);
    }
  }

  // ---------------------------------------------------------------- answers from outside

  /** The answers one pass of the loop may get. `order` is the order in which runners report before
      the timer fires, `success` the sinks that report success. */
  datatype Answers = Answers(
    fetched: bool, read: Read, released: bool, order: seq<Kind>, success: set<Kind>, unlocked: bool)

  predicate NoDuplicates(order: seq<Kind>) {
    forall i, j | 0 <= i < j < |order| :: order[i] != order[j]
  }

  /** What the collector hears: the reports of those runners that exist, then the timer. */
  function Heard(done: DoneMap, order: seq<Kind>, success: set<Kind>): seq<FanOut.Signal> {
    if order == [] then [FanOut.Timer]
    else if order[0] in Undone(done) then
      [FanOut.Result(FanOut.AtomResult(order[0], order[0] in success))] + Heard(done, order[1..], success)
    else Heard(done, order[1..], success)
  }

  lemma {:induction false} HeardKinds(done: DoneMap, order: seq<Kind>, success: set<Kind>)
    ensures var h := Heard(done, order, success);
            && h != [] && h[|h| - 1] == FanOut.Timer
            && forall i | 0 <= i < |h| && h[i].Result? :: h[i].result.kind in Undone(done) && h[i].result.kind in order
    decreases |order|
  {
    if order != [] {
      HeardKinds(done, order[1..], success);
    }
  }

  lemma {:induction false} HeardIsSignals(done: DoneMap, order: seq<Kind>, success: set<Kind>)
    requires NoDuplicates(order)
    ensures FanOut.Signals(done, Heard(done, order, success))
    decreases |order|
  {
    var h := Heard(done, order, success);
    HeardKinds(done, order, success);
    if order != [] {
      var rest := Heard(done, order[1..], success);
      HeardIsSignals(done, order[1..], success);
      HeardKinds(done, order[1..], success);
      if order[0] in Undone(done) {
        assert h[1..] == rest;
        forall i, j | 0 <= i < j < |h| && h[i].Result? && h[j].Result?
          ensures h[i].result.kind != h[j].result.kind
        {
          assert h[j] == rest[j - 1];
          if i > 0 { assert h[i] == rest[i - 1]; }
        }
      }
    }
    assert h[|h| - 1] in h;
  }

  /** What is heard is what the runners say, each for itself; nothing but the timer comes last. */
  lemma {:induction false} HeardTells(done: DoneMap, order: seq<Kind>, success: set<Kind>)
    ensures var h := Heard(done, order, success);
            && (forall i | 0 <= i < |h| - 1 :: h[i].Result?)
            && (forall x | FanOut.Result(x) in h :: x.kind in order && x.success == (x.kind in success))
            && (forall k | k in order && k in Undone(done) :: FanOut.Result(FanOut.AtomResult(k, k in success)) in h)
    decreases |order|
  {
    if order != [] {
      HeardKinds(done, order, success);
      HeardKinds(done, order[1..], success);
      HeardTells(done, order[1..], success);
      var h, rest := Heard(done, order, success), Heard(done, order[1..], success);
      if order[0] in Undone(done) {
        assert h == [FanOut.Result(FanOut.AtomResult(order[0], order[0] in success))] + rest;
        assert forall i | 0 < i < |h| :: h[i] == rest[i - 1];
      }
      assert forall k | k in order :: k == order[0] || k in order[1..];
    }
  }

  lemma {:induction false} KindsCounted(signals: seq<FanOut.Signal>, used: nat)
    requires used <= |signals| && forall i | 0 <= i < used :: signals[i].Result?
    requires forall i, j | 0 <= i < j < |signals| && signals[i].Result? && signals[j].Result? :: signals[i].result.kind != signals[j].result.kind
    ensures |FanOut.SignalKinds(signals[..used])| == used
    decreases used
  {
    if used > 0 {
      KindsCounted(signals, used - 1);
      FanOut.FreshKind(signals, used - 1, signals[used - 1].result);
    } else {
      assert FanOut.SignalKinds(signals[..0]) == {};
    }
  }

  lemma AllOfThem(a: set<Kind>, b: set<Kind>, k: Kind)
    requires a <= b && |a| == |b| && k in b
    ensures k in a
  {
    if k !in a {
      SubsetSize(a, b - {k});
    }
  }

  /** By the time the collector stops it has heard every runner that reports before the timer. */
  lemma AllHeard(done: DoneMap, order: seq<Kind>, success: set<Kind>, used: nat, k: Kind)
    requires NoDuplicates(order) && k in order && k in Undone(done) && used <= |Heard(done, order, success)|
    requires FanOut.Timer in Heard(done, order, success)[..used] || used == |Undone(done)|
    ensures FanOut.Result(FanOut.AtomResult(k, k in success)) in Heard(done, order, success)[..used]
  {
    var h := Heard(done, order, success);
    HeardTells(done, order, success);
    HeardIsSignals(done, order, success);
    if FanOut.Timer in h[..used] {
      var i :| 0 <= i < used && h[i] == FanOut.Timer;
      assert h[..used] == h;
    } else {
      forall i | 0 <= i < used
        ensures h[i].Result?
      {
        assert h[..used][i] == h[i];
      }
      KindsCounted(h, used);
      AllOfThem(FanOut.SignalKinds(h[..used]), Undone(done), k);
      var i :| 0 <= i < |h[..used]| && h[..used][i].Result? && h[..used][i].result.kind == k;
      assert h[i] == FanOut.Result(h[i].result) && h[i] in h;
    }
  }

  /** Exactly the sinks that were done, or whose runner reports success before the timer, are done then. */
  predicate MarkedBy(done: DoneMap, done': DoneMap, a: Answers) {
    done'.Keys == done.Keys && forall k | k in done :: done'[k] <==> done[k] || (k in a.order && k in a.success)
  }

  lemma HeardMarks(done: DoneMap, done': DoneMap, a: Answers, used: nat)
    requires NoDuplicates(a.order) && used <= |Heard(done, a.order, a.success)|
    requires FanOut.Marked(done, done', Heard(done, a.order, a.success)[..used])
    requires FanOut.Timer in Heard(done, a.order, a.success)[..used] || used == |Undone(done)|
    ensures MarkedBy(done, done', a)
  {
    var h := Heard(done, a.order, a.success);
    HeardTells(done, a.order, a.success);
    forall k | k in done
      ensures done'[k] <==> done[k] || (k in a.order && k in a.success)
    {
      var x := FanOut.AtomResult(k, true);
      if !done[k] {
        if FanOut.Result(x) in h[..used] { assert FanOut.Result(x) in h; }
        if k in a.order && k in a.success { AllHeard(done, a.order, a.success, used, k); }
      }
    }
  }

  // ---------------------------------------------------------------- the node

  /** The node's cache says that a later block is stored. */
  predicate CacheAhead(latest: Option<Task>, height: int) {
    latest.Some? && latest.value.height > height
  }

  /** The lock was fetched and the store read. */
  predicate HasRead(a: Answers) {
    a.fetched && a.read.ReadState?
  }

  /** A pass in which every request is answered and every runner reports success. */
  predicate GoodPass(a: Answers) {
    HasRead(a) && a.released && a.unlocked && forall k: Kind :: k in a.order && k in a.success
  }

  datatype Outcome = Returned | Panics | Retrying

  function HeightOf(t: Option<Task>): Option<int> {
    if t.Some? then Some(t.value.height) else None
  }

  /** With nothing left to do there is nothing to mark. */
  lemma AllDoneOrNot(before: DoneMap, done: DoneMap, a: Answers, cnt: nat)
    requires cnt == |Undone(before)| && (cnt == 0 ==> done == before) && (cnt > 0 ==> MarkedBy(before, done, a))
    ensures MarkedBy(before, done, a)
  {
    if cnt == 0 {
      forall k | k in before
        ensures before[k]
      {
        assert k !in Undone(before);
      }
    }
  }

  class Stream {
    var height: int
    var latest: Option<Task>   // distrLatestTask
    var task: Task             // taskData.Task

    constructor (height: int, sinks: set<Kind>)
      ensures this.At(Top) == Begin(height, None, sinks)
    {
      this.height, this.latest, this.task := height, None, Fresh(height, sinks);
    }

    ghost function At(pc: Pc): Node
      reads this
    {
      Node(height, HeightOf(latest), task, pc)
    }

    /** `releaseLockWithStatus`: a release that fails or goes unanswered means starting over. */
    method ReleaseLockWithStatus(action: Action, released: bool) returns (r: Action)
      ensures r == if released then action else Restart
    {
      if !released {
        return Restart;
      }
      return action;
    }

    /** Where the node stands when phase one has answered `action`. */
    ghost function Stands(action: Action): Node
      requires action.ReturnTask? ==> latest.Some?
      reads this
    {
      match action
      case Restart => At(Top)
      case JumpNextBlock => At(Finished)
      case Unknown => At(Panicked)
      case NewTask => At(Running(FanOut.Start(task.done)))
      case ReturnTask => At(Running(FanOut.Start(latest.value.done))).(task := latest.value)
    }

    method PrepareStreamTask(a: Answers) returns (action: Action, ghost trace: seq<Obs>)
      modifies `latest
      ensures action == JumpNextBlock <==>
        CacheAhead(old(latest), height) || (HasRead(a) && a.released && BlockDone(a.read.stored, height))
      ensures action == ReturnTask <==> !CacheAhead(old(latest), height) && HasRead(a) && InProgress(a.read.stored, height)
      ensures action == NewTask <==> !CacheAhead(old(latest), height) && HasRead(a) && NotStarted(a.read.stored, height)
      ensures action == Unknown <==>
        !CacheAhead(old(latest), height) && HasRead(a) && a.released && TooFarBehind(a.read.stored, height)
      ensures latest == if !CacheAhead(old(latest), height) && HasRead(a) && a.read.stored.Some? then a.read.stored else old(latest)
      ensures CacheAhead(old(latest), height) ==> trace == [CheckCache]
      ensures action.ReturnTask? ==> latest.Some?
      ensures Follows(old(At(Top)), trace) && Result(old(At(Top)), trace) == Stands(action)
    {
      ghost var start := At(Top);
      trace := [CheckCache];
      FollowsOne(start, CheckCache);
      if latest.Some? && latest.value.height > height {
        return JumpNextBlock, trace;
      }
      FollowsMore(start, trace, FetchReply(a.fetched));
      trace := trace + [FetchReply(a.fetched)];
      if !a.fetched {
        return Restart, trace;
      }
      FollowsMore(start, trace, ReadReply(a.read));
      trace := trace + [ReadReply(a.read)];
      if a.read.ReadError? {
        FollowsMore(start, trace, ReleaseReply(a.released));
        trace := trace + [ReleaseReply(a.released)];
        action := ReleaseLockWithStatus(Restart, a.released);
        return;
      }
      if a.read.stored.Some? {
        latest := a.read.stored;
        if latest.value.height > height {
          FollowsMore(start, trace, ReleaseReply(a.released));
          trace := trace + [ReleaseReply(a.released)];
          action := ReleaseLockWithStatus(JumpNextBlock, a.released);
          return;
        }
        if latest.value.height == height {
          var status := GetStatus(latest.value.done);
          if status == Success {
            FollowsMore(start, trace, ReleaseReply(a.released));
            trace := trace + [ReleaseReply(a.released)];
            action := ReleaseLockWithStatus(JumpNextBlock, a.released);
            return;
          }
          return ReturnTask, trace;
        }
        if latest.value.height + 1 == height {
          return NewTask, trace;
        }
        FollowsMore(start, trace, ReleaseReply(a.released));
        trace := trace + [ReleaseReply(a.released)];
        action := ReleaseLockWithStatus(Unknown, a.released);
        return;
      }
      return NewTask, trace;
    }

    /** Phase two: let the coordinator run the task, then store the result and release the lock.
        Answers whether the block is finished. */
    method ExecuteStreamTask(a: Answers) returns (jump: bool, ghost trace: seq<Obs>)
      requires NoDuplicates(a.order)
      modifies `latest, `task
      ensures task.height == old(task.height) && MarkedBy(old(task.done), task.done, a)
      ensures jump <==> a.unlocked && forall k | k in task.done :: task.done[k]
      ensures latest == if a.unlocked then Some(task) else old(latest)
      ensures var running := old(At(Running(FanOut.Start(task.done))));
              Follows(running, trace) && Result(running, trace) == At(if jump then Finished else Top)
    {
      ghost var running := At(Running(FanOut.Start(task.done)));
      ghost var steps: seq<FanOut.Step> := [];
      var cnt := ValidAtomTaskCount(task.done);
      if cnt > 0 {
        HeardIsSignals(task.done, a.order, a.success);
        var done, used := FanOut.Collect(task.done, Heard(task.done, a.order, a.success));
        steps := FanOut.Seen(Heard(task.done, a.order, a.success)[..used]);
        HeardMarks(task.done, done, a, used);
        task := task.(done := done);
      }
      AllDoneOrNot(old(task.done), task.done, a, cnt);
      RoundFollows(running, running.pc.round, steps);
      trace := Coordinated(steps);
      FollowsMore(running, trace, Collected);
      trace := trace + [Collected];
      FollowsMore(running, trace, UnlockReply(a.unlocked));
      trace := trace + [UnlockReply(a.unlocked)];
      if a.unlocked {
        latest := Some(task);
        var status := GetStatus(task.done);
        if status != Success {
          return false, trace;
        }
        return true, trace;
      }
      return false, trace;
    }

    /** The retry loop, for as many passes as there are answers: the node ends where the protocol
        says it ends, having observed `trace`. */
    method Execute(answers: seq<Answers>) returns (outcome: Outcome, ghost trace: seq<Obs>)
      requires forall i | 0 <= i < |answers| :: NoDuplicates(answers[i].order)
      modifies `latest, `task
      ensures old(task.height) == height ==> task.height == height && (outcome == Returned ==> BlockDone(latest, height))
      ensures outcome == Panics ==> TooFarBehind(latest, height)
      ensures outcome == Retrying ==> forall i | 0 <= i < |answers| :: !GoodPass(answers[i])
      ensures Follows(old(At(Top)), trace)
      ensures Result(old(At(Top)), trace)
           == At(match outcome case Returned => Finished case Panics => Panicked case Retrying => Top)
    {
      trace := [];
      for i := 0 to |answers|
        invariant Follows(old(At(Top)), trace) && Result(old(At(Top)), trace) == At(Top)
        invariant old(task.height) == height ==> task.height == height
        invariant forall j | 0 <= j < i :: !GoodPass(answers[j])
      {
        var action, obs := PrepareStreamTask(answers[i]);
        FollowsThen(old(At(Top)), trace, obs);
        trace := trace + obs;
        if action == Unknown {
          return Panics, trace;
        } else if action == JumpNextBlock {
          return Returned, trace;
        } else if action != Restart {
          if action != NewTask {
            task := latest.value;
          }
          var jump, more := ExecuteStreamTask(answers[i]);
          FollowsThen(old(At(Top)), trace, more);
          trace := trace + more;
          if jump {
            return Returned, trace;
          }
        }
      }
      return Retrying, trace;
    }
  }
}
