/** The task queue protocol: one mutex, one condition variable, any number of workers, a quit flag. A move is one
    atomic block of one thread; a run is any sequence of moves, in which a move that is not possible does nothing. */
module TaskQueue {
  import opened Basics

  type Task = nat

  /** Where a worker stands in its loop. */
  datatype Phase =
    | AtTest          // about to read quit_ in the loop condition
    | Acquiring       // about to take the mutex and evaluate the predicate
    | Deciding        // holds the mutex, the predicate was false, about to block
    | Blocked         // asleep on the condition variable, mutex released
    | Executing(index: nat)  // runs what it popped as number index
    | Leaving         // the loop is over, about to take the mutex one last time
    | Exited

  datatype Outcome = InProgress | Completed | Threw

  datatype Taken = Taken(task: Task, worker: nat, outcome: Outcome)

  /** pushed and taken are the logs of all pushes and pops so far. */
  datatype Queue = Queue(pushed: seq<Task>, taken: seq<Taken>, queueTasks: seq<Task>, quit: bool, workers: seq<Phase>)

  const EMPTY_QUEUE := Queue([], [], [], false, [])

  datatype Move =
    | Spawn
    | Push(task: Task, wake: Option<nat>)
    | Notify(wake: Option<nat>)
    | Test(worker: nat)
    | Check(worker: nat)
    | Block(worker: nat)
    | Wakeup(worker: nat)              // spurious
    | Finish(worker: nat, threw: bool)
    | Leave(worker: nat)
    | SetQuit
    | NotifyAll

  predicate IsAt(q: Queue, w: nat, phase: Phase) { w < |q.workers| && q.workers[w] == phase }

  /** No worker holds the mutex between two of its moves. */
  predicate MutexFree(q: Queue) { Deciding !in q.workers }

  /** notify_one wakes some sleeping worker if there is one. */
  predicate Wakes(q: Queue, wake: Option<nat>) {
    match wake
    case None => Blocked !in q.workers
    case Some(w) => IsAt(q, w, Blocked)
  }

  predicate Enabled(q: Queue, move: Move) {
    match move
    case Spawn => !q.quit
    case Push(_, wake) => MutexFree(q) && Wakes(q, wake)
    case Notify(wake) => Wakes(q, wake)
    case Test(w) => IsAt(q, w, AtTest)
    case Check(w) => IsAt(q, w, Acquiring) && MutexFree(q)
    case Block(w) => IsAt(q, w, Deciding)
    case Wakeup(w) => IsAt(q, w, Blocked)
    case Finish(w, _) =>
      w < |q.workers| && q.workers[w].Executing? && q.workers[w].index < |q.taken|
    case Leave(w) => IsAt(q, w, Leaving) && MutexFree(q)
    case SetQuit => true
    case NotifyAll => q.quit
  }

  function Goto(q: Queue, w: nat, phase: Phase): Queue
    requires w < |q.workers|
  {
    q.(workers := q.workers[w := phase])
  }

  function WakeOne(q: Queue, wake: Option<nat>): Queue
    requires Wakes(q, wake)
  {
    if wake.Some? then Goto(q, wake.value, Acquiring) else q
  }

  /** The critical section of a worker: take the head of the queue if there is one. */
  function Checked(q: Queue, w: nat): Queue
    requires w < |q.workers|
  {
    if q.queueTasks != [] then
      Goto(q, w, Executing(|q.taken|)).(queueTasks := q.queueTasks[1..],
                                        taken := q.taken + [Taken(q.queueTasks[0], w, InProgress)])
    else if q.quit then Goto(q, w, AtTest)
    else Goto(q, w, Deciding)
  }

  function Woken(phase: Phase): Phase { if phase == Blocked then Acquiring else phase }

  function Do(q: Queue, move: Move): Queue
    requires Enabled(q, move)
  {
    match move
    case Spawn => q.(workers := q.workers + [AtTest])
    case Push(task, wake) => WakeOne(q, wake).(queueTasks := q.queueTasks + [task], pushed := q.pushed + [task])
    case Notify(wake) => WakeOne(q, wake)
    case Test(w) => Goto(q, w, if q.quit then Leaving else Acquiring)
    case Check(w) => Checked(q, w)
    case Block(w) => Goto(q, w, Blocked)
    case Wakeup(w) => Goto(q, w, Acquiring)
    case Finish(w, threw) =>
      var k := q.workers[w].index;
      Goto(q, w, AtTest).(taken := q.taken[k := q.taken[k].(outcome := if threw then Threw else Completed)])
    case Leave(w) => Goto(q, w, Exited)
    case SetQuit => q.(quit := true)
    case NotifyAll => q.(workers := Column(q.workers, Woken))
  }

  function Step(q: Queue, move: Move): Queue {
    if Enabled(q, move) then Do(q, move) else q
  }

  function RunFrom(q: Queue, moves: seq<Move>): Queue {
    if moves == [] then q else Step(RunFrom(q, moves[..|moves| - 1]), moves[|moves| - 1])
  }

  // ---------- exactly once, in order ----------

  function TasksOf(taken: seq<Taken>): seq<Task> { Column(taken, (t: Taken) => t.task) }

  /** The push order is the pop order followed by the queue. */
  predicate InOrder(q: Queue) { q.pushed == TasksOf(q.taken) + q.queueTasks }

  /** A popped task is in progress exactly while its one worker executes it. */
  ghost predicate Owned(q: Queue) {
    && (forall k :: 0 <= k < |q.taken| ==>
          && q.taken[k].worker < |q.workers|
          && (q.taken[k].outcome == InProgress <==> q.workers[q.taken[k].worker] == Executing(k)))
    && (forall w :: 0 <= w < |q.workers| && q.workers[w].Executing? ==>
          q.workers[w].index < |q.taken| && q.taken[q.workers[w].index].worker == w)
  }

  ghost predicate ExactlyOnce(q: Queue) { InOrder(q) && Owned(q) }

  lemma TasksSnoc(taken: seq<Taken>, t: Taken)
    ensures TasksOf(taken + [t]) == TasksOf(taken) + [t.task]
  {
  }

  lemma TasksUpdate(taken: seq<Taken>, k: nat, outcome: Outcome)
    requires k < |taken|
    ensures TasksOf(taken[k := taken[k].(outcome := outcome)]) == TasksOf(taken)
  {
  }

  lemma StepInOrder(q: Queue, move: Move)
    requires InOrder(q)
    ensures InOrder(Step(q, move))
  {
    hide TasksOf;
    if Enabled(q, move) {
      match move
      case Check(w) =>
        if q.queueTasks != [] {
          TasksSnoc(q.taken, Taken(q.queueTasks[0], w, InProgress));
          assert q.queueTasks == [q.queueTasks[0]] + q.queueTasks[1..];
        }
      case Finish(w, threw) =>
        TasksUpdate(q.taken, q.workers[w].index, if threw then Threw else Completed);
      case Push(task, wake) =>
        assert TasksOf(q.taken) + (q.queueTasks + [task]) == TasksOf(q.taken) + q.queueTasks + [task];
      case _ =>
    }
  }

  /** A worker that goes from one resting phase to another owns nothing before and after. */
  lemma GotoOwned(q: Queue, w: nat, phase: Phase)
    requires Owned(q) && w < |q.workers| && !q.workers[w].Executing? && !phase.Executing?
    ensures Owned(Goto(q, w, phase))
  {
  }

  lemma SameOwned(q: Queue, q': Queue)
    requires Owned(q) && q'.taken == q.taken && q'.workers == q.workers
    ensures Owned(q')
  {
  }

  lemma TakeOwned(q: Queue, w: nat)
    requires Owned(q) && IsAt(q, w, Acquiring) && q.queueTasks != []
    ensures Owned(Checked(q, w))
  {
  }

  lemma FinishOwned(q: Queue, w: nat, threw: bool)
    requires Owned(q) && Enabled(q, Finish(w, threw))
    ensures Owned(Do(q, Finish(w, threw)))
  {
  }

  lemma NotifyAllOwned(q: Queue)
    requires Owned(q)
    ensures Owned(q.(workers := Column(q.workers, Woken)))
  {
    var q' := q.(workers := Column(q.workers, Woken));
    assert forall w :: 0 <= w < |q.workers| ==> q'.workers[w].Executing? == q.workers[w].Executing?;
    assert forall w :: 0 <= w < |q.workers| && q.workers[w].Executing? ==> q'.workers[w] == q.workers[w];
  }

  lemma StepExactlyOnce(q: Queue, move: Move)
    requires ExactlyOnce(q)
    ensures ExactlyOnce(Step(q, move))
  {
    hide InOrder, Owned;
    StepInOrder(q, move);
    if Enabled(q, move) { DoOwned(q, move); }
  }

  lemma DoOwned(q: Queue, move: Move)
    requires Owned(q) && Enabled(q, move)
    ensures Owned(Do(q, move))
  {
    hide Owned;
    match move
    case Spawn => SpawnOwned(q);
    case Push(task, wake) =>
      if wake.Some? { GotoOwned(q, wake.value, Acquiring); }
      SameOwned(WakeOne(q, wake), Do(q, move));
    case Notify(wake) => if wake.Some? { GotoOwned(q, wake.value, Acquiring); }
    case Test(w) => GotoOwned(q, w, if q.quit then Leaving else Acquiring);
    case Check(w) =>
      if q.queueTasks != [] { TakeOwned(q, w); } else { GotoOwned(q, w, if q.quit then AtTest else Deciding); }
    case Block(w) => GotoOwned(q, w, Blocked);
    case Wakeup(w) => GotoOwned(q, w, Acquiring);
    case Finish(w, threw) => FinishOwned(q, w, threw);
    case Leave(w) => GotoOwned(q, w, Exited);
    case SetQuit => SameOwned(q, Do(q, move));
    case NotifyAll => NotifyAllOwned(q);
  }

  lemma SpawnOwned(q: Queue)
    requires Owned(q)
    ensures Owned(q.(workers := q.workers + [AtTest]))
  {
  }

  lemma {:induction false} RunExactlyOnce(moves: seq<Move>)
    ensures ExactlyOnce(RunFrom(EMPTY_QUEUE, moves))
  {
    if moves != [] {
      hide ExactlyOnce, Step;
      RunExactlyOnce(moves[..|moves| - 1]);
      StepExactlyOnce(RunFrom(EMPTY_QUEUE, moves[..|moves| - 1]), moves[|moves| - 1]);
    }
  }

  /** The pushes of a run that found the mutex free, in order. */
  function PushOrder(q: Queue, moves: seq<Move>): seq<Task> {
    if moves == [] then []
    else
      var init, move := moves[..|moves| - 1], moves[|moves| - 1];
      PushOrder(q, init) + if move.Push? && Enabled(RunFrom(q, init), move) then [move.task] else []
  }

  /** What was recorded about a pop never changes, except that a task in progress gets its outcome once. */
  ghost predicate Keeps(before: seq<Taken>, after: seq<Taken>) {
    && |before| <= |after|
    && forall k :: 0 <= k < |before| ==>
         && after[k].task == before[k].task && after[k].worker == before[k].worker
         && (before[k].outcome != InProgress ==> after[k].outcome == before[k].outcome)
  }

  lemma StepKeeps(q: Queue, move: Move)
    requires ExactlyOnce(q)
    ensures Keeps(q.taken, Step(q, move).taken)
    ensures Step(q, move).pushed == q.pushed + if move.Push? && Enabled(q, move) then [move.task] else []
  {
  }

  /** Exactly-once hand-off in order, over every run from the empty queue and every continuation of it: the tasks
      taken so far and then the tasks still queued are the pushes in order, and a taken task stays with its worker
      and, once over, is never run again. */
  lemma {:induction false} HandOff(moves: seq<Move>, more: seq<Move>)
    ensures var q := RunFrom(EMPTY_QUEUE, moves);
      var q' := RunFrom(EMPTY_QUEUE, moves + more);
      && ExactlyOnce(q')
      && TasksOf(q'.taken) + q'.queueTasks == q'.pushed == PushOrder(EMPTY_QUEUE, moves + more)
      && Keeps(q.taken, q'.taken)
  {
    hide ExactlyOnce, Step, TasksOf, Enabled;
    RunExactlyOnce(moves + more);
    PushedInOrder(moves + more);
    OnceOrder(RunFrom(EMPTY_QUEUE, moves + more));
    if more == [] {
      assert moves + more == moves;
    } else {
      var n := |more| - 1;
      assert (moves + more)[..|moves| + n] == moves + more[..n];
      HandOff(moves, more[..n]);
      StepKeeps(RunFrom(EMPTY_QUEUE, moves + more[..n]), more[n]);
    }
  }

  lemma OnceOrder(q: Queue)
    requires ExactlyOnce(q)
    ensures TasksOf(q.taken) + q.queueTasks == q.pushed
  {
  }

  lemma {:induction false} PushedInOrder(moves: seq<Move>)
    ensures RunFrom(EMPTY_QUEUE, moves).pushed == PushOrder(EMPTY_QUEUE, moves)
  {
    if moves != [] {
      hide ExactlyOnce, Step, Enabled;
      var n := |moves| - 1;
      PushedInOrder(moves[..n]);
      RunExactlyOnce(moves[..n]);
      StepKeeps(RunFrom(EMPTY_QUEUE, moves[..n]), moves[n]);
    }
  }

  // ---------- work conservation ----------

  function Count(workers: seq<Phase>, p: Phase -> bool): nat { |Where(workers, p)| }

  lemma CountUpdate(workers: seq<Phase>, w: nat, phase: Phase, p: Phase -> bool)
    requires w < |workers|
    ensures Count(workers[w := phase], p) ==
              Count(workers, p) - (if p(workers[w]) then 1 else 0) + (if p(phase) then 1 else 0)
  {
    var front, back := workers[..w], workers[w + 1..];
    assert workers == front + [workers[w]] + back;
    assert workers[w := phase] == front + [phase] + back;
    WhereConcat(front + [workers[w]], back, p);
    WhereConcat(front + [phase], back, p);
    WhereSnoc(front, workers[w], p);
    WhereSnoc(front, phase, p);
  }

  lemma {:induction false} CountAtLeast(workers: seq<Phase>, w: nat, p: Phase -> bool)
    requires w < |workers| && p(workers[w])
    ensures Count(workers, p) >= 1
  {
    var r := Where(workers, p);
    assert workers[w] in r;
  }

  function Sleepers(q: Queue): nat { Count(q.workers, (p: Phase) => p == Blocked) }

  /** A push, like any notify_one, wakes exactly one sleeper if there is one; notify_all wakes all. */
  lemma NotifyWakes(q: Queue, move: Move)
    requires Enabled(q, move) && (move.Push? || move.Notify? || move.NotifyAll?)
    ensures Sleepers(Do(q, move)) ==
              if Sleepers(q) == 0 || move.NotifyAll? then 0 else Sleepers(q) - 1
  {
    var p := (x: Phase) => x == Blocked;
    hide Count;
    match move
    case Push(_, wake) => WakeOneCount(q, wake);
    case Notify(wake) => WakeOneCount(q, wake);
    case NotifyAll => NoneCounted(Do(q, move).workers, p);
    case _ =>
  }

  lemma WakeOneCount(q: Queue, wake: Option<nat>)
    requires Wakes(q, wake)
    ensures Sleepers(WakeOne(q, wake)) == if Sleepers(q) == 0 then 0 else Sleepers(q) - 1
  {
    var p := (x: Phase) => x == Blocked;
    if wake.Some? {
      CountUpdate(q.workers, wake.value, Acquiring, p);
      CountAtLeast(q.workers, wake.value, p);
    } else {
      NoneCounted(q.workers, p);
    }
  }

  lemma NoneCounted(workers: seq<Phase>, p: Phase -> bool)
    requires forall w :: w in workers ==> !p(w)
    ensures Count(workers, p) == 0
  {
    WhereAllOrNone(workers, p);
  }

  /** The workers about to evaluate the predicate. */
  function Ready(q: Queue): nat { Count(q.workers, (p: Phase) => p == Acquiring) }

  predicate NoWorkBehindSleeper(q: Queue) {
    && (Blocked in q.workers ==> |q.queueTasks| <= Ready(q))
    && (Deciding in q.workers ==> q.queueTasks == [])
    && (forall v, w :: 0 <= v < |q.workers| && 0 <= w < |q.workers| && q.workers[v] == Deciding == q.workers[w] ==>
        v == w)
    && (!q.quit ==> Leaving !in q.workers && Exited !in q.workers)
  }

  lemma ReadyAfter(q: Queue, w: nat, phase: Phase)
    requires w < |q.workers|
    ensures Ready(Goto(q, w, phase)) ==
              Ready(q) - (if q.workers[w] == Acquiring then 1 else 0) + (if phase == Acquiring then 1 else 0)
    ensures q.workers[w] == Acquiring ==> Ready(q) >= 1
    ensures forall x :: x in Goto(q, w, phase).workers ==> x in q.workers || x == phase
  {
    hide Count;
    CountUpdate(q.workers, w, phase, (p: Phase) => p == Acquiring);
    if q.workers[w] == Acquiring { CountAtLeast(q.workers, w, (p: Phase) => p == Acquiring); }
  }

  /** Any change of phase that neither takes the mutex, nor leaves the ready workers, nor falls asleep with work
      queued, nor leaves the loop before shutdown. */
  lemma GotoConserves(q: Queue, w: nat, phase: Phase)
    requires NoWorkBehindSleeper(q) && w < |q.workers| && q.workers[w] != Acquiring && phase != Deciding
    requires phase == Blocked ==> q.queueTasks == []
    requires !q.quit ==> phase != Leaving && phase != Exited
    ensures NoWorkBehindSleeper(Goto(q, w, phase))
  {
    hide Ready;
    ReadyAfter(q, w, phase);
  }

  /** One more task, and one more ready worker if there was a sleeper. */
  lemma PushConserves(q: Queue, task: Task, wake: Option<nat>)
    requires NoWorkBehindSleeper(q) && Enabled(q, Push(task, wake))
    ensures NoWorkBehindSleeper(Do(q, Push(task, wake)))
  {
    hide Ready;
    var q', woken := Do(q, Push(task, wake)), WakeOne(q, wake);
    SameReady(woken, q');
    if wake.Some? {
      ReadyAfter(q, wake.value, Acquiring);
      assert Blocked in q.workers && Ready(q') == Ready(q) + 1;
      assert Deciding !in q'.workers;
    }
  }

  lemma CheckConserves(q: Queue, w: nat)
    requires NoWorkBehindSleeper(q) && Enabled(q, Check(w))
    ensures NoWorkBehindSleeper(Do(q, Check(w)))
  {
    hide Ready;
    var q' := Do(q, Check(w));
    var next := if q.queueTasks != [] then Executing(|q.taken|) else if q.quit then AtTest else Deciding;
    ReadyAfter(q, w, next);
    SameReady(Goto(q, w, next), q');
    assert forall v :: 0 <= v < |q.workers| ==> q.workers[v] in q.workers && q.workers[v] != Deciding;
  }

  lemma SameFieldsConserve(q: Queue, q': Queue)
    requires NoWorkBehindSleeper(q) && q'.workers == q.workers && q'.queueTasks == q.queueTasks
    requires q.quit ==> q'.quit
    ensures NoWorkBehindSleeper(q')
  {
    hide Ready;
    SameReady(q, q');
  }

  lemma SpawnConserves(q: Queue)
    requires NoWorkBehindSleeper(q)
    ensures NoWorkBehindSleeper(q.(workers := q.workers + [AtTest]))
  {
    hide Ready;
    SpawnReady(q);
  }

  lemma NotifyAllConserves(q: Queue)
    requires NoWorkBehindSleeper(q) && q.quit
    ensures NoWorkBehindSleeper(q.(workers := Column(q.workers, Woken)))
  {
    hide Ready;
    var woken := Column(q.workers, Woken);
    assert forall v :: 0 <= v < |woken| && woken[v] == Deciding ==>
        q.workers[v] == Deciding && q.workers[v] in q.workers;
  }

  lemma StepNoWorkBehindSleeper(q: Queue, move: Move)
    requires NoWorkBehindSleeper(q)
    ensures NoWorkBehindSleeper(Step(q, move))
  {
    if Enabled(q, move) {
      assert move.Block? ==> q.queueTasks == [] by { assert move.Block? ==> q.workers[move.worker] in q.workers; }
      assert forall w :: 0 <= w < |q.workers| && !q.quit ==> q.workers[w] != Leaving by {
        assert forall w :: 0 <= w < |q.workers| ==> q.workers[w] in q.workers;
      }
      hide NoWorkBehindSleeper;
      match move
      case Spawn => SpawnConserves(q);
      case Push(task, wake) => PushConserves(q, task, wake);
      case Notify(wake) => if wake.Some? { GotoConserves(q, wake.value, Acquiring); }
      case Test(w) => GotoConserves(q, w, if q.quit then Leaving else Acquiring);
      case Check(w) => CheckConserves(q, w);
      case Block(w) => GotoConserves(q, w, Blocked);
      case Wakeup(w) => GotoConserves(q, w, Acquiring);
      case Finish(w, _) => GotoConserves(q, w, AtTest); SameFieldsConserve(Goto(q, w, AtTest), Do(q, move));
      case Leave(w) => GotoConserves(q, w, Exited);
      case SetQuit => SameFieldsConserve(q, Do(q, move));
      case NotifyAll => NotifyAllConserves(q);
    }
  }

  lemma SpawnReady(q: Queue)
    ensures Ready(q.(workers := q.workers + [AtTest])) == Ready(q)
  {
    WhereSnoc(q.workers, AtTest, (p: Phase) => p == Acquiring);
  }

  lemma SameReady(q: Queue, q': Queue)
    requires q.workers == q'.workers
    ensures Ready(q) == Ready(q')
  {
  }

  lemma {:induction false} RunNoWorkBehindSleeper(moves: seq<Move>)
    ensures NoWorkBehindSleeper(RunFrom(EMPTY_QUEUE, moves))
  {
    if moves != [] {
      hide NoWorkBehindSleeper, Step;
      RunNoWorkBehindSleeper(moves[..|moves| - 1]);
      StepNoWorkBehindSleeper(RunFrom(EMPTY_QUEUE, moves[..|moves| - 1]), moves[|moves| - 1]);
    }
  }

  /** Work conservation, at every point of every run: a sleeping worker never leaves a queued task behind, because
      at least as many workers are about to evaluate the predicate, each of them can do so at once, and doing so
      takes the oldest task. */
  lemma WorkIsConserved(moves: seq<Move>)
    ensures var q := RunFrom(EMPTY_QUEUE, moves);
      Blocked in q.workers ==>
        && |q.queueTasks| <= Ready(q)
        && (q.queueTasks != [] ==>
              exists w: nat :: Enabled(q, Check(w)) && Do(q, Check(w)).queueTasks == q.queueTasks[1..])
  {
    hide Count;
    var q := RunFrom(EMPTY_QUEUE, moves);
    RunNoWorkBehindSleeper(moves);
    if Blocked in q.workers && q.queueTasks != [] {
      var w := SomeReady(q);
      assert Enabled(q, Check(w));
    }
  }

  lemma SomeReady(q: Queue) returns (w: nat)
    requires Ready(q) >= 1
    ensures IsAt(q, w, Acquiring)
  {
    var r := Where(q.workers, (p: Phase) => p == Acquiring);
    assert r[0] in r;
    w :| w < |q.workers| && q.workers[w] == Acquiring;
  }

  /** Before shutdown a queued task always has a worker on its way to it, unless every worker is executing. */
  lemma QueueIsServed(moves: seq<Move>)
    ensures var q := RunFrom(EMPTY_QUEUE, moves);
      !q.quit && q.queueTasks != [] && (exists w :: 0 <= w < |q.workers| && !q.workers[w].Executing?) ==>
        exists w: nat :: Enabled(q, Test(w)) || Enabled(q, Check(w))
  {
    var q := RunFrom(EMPTY_QUEUE, moves);
    RunNoWorkBehindSleeper(moves);
    if !q.quit && q.queueTasks != [] && exists w :: 0 <= w < |q.workers| && !q.workers[w].Executing? {
      var w: nat :| w < |q.workers| && !q.workers[w].Executing?;
      assert q.workers[w] in q.workers;
      if q.workers[w] == Blocked {
        WorkIsConserved(moves);
      } else if q.workers[w] == AtTest {
        assert Enabled(q, Test(w));
      } else {
        assert Enabled(q, Check(w));
      }
    }
  }
}
