/** The pool that runs requests: its task counter and its threads. */
module WorkersPool {
  import opened Basics

  /** Where a pool thread stands. */
  datatype Phase =
    | InRun        // inside io_context::run, idle
    | Executing    // runs the posted function
    | Caught       // a std::exception left run() and was caught; about to call run() again
    | Exited

  /** counter: counter_; posting: posts past startTask and not past io_context::post; queued: handlers in the context;
      threw: functions that ended with an exception; working: the work object is held; stopped: stop() was called. */
  datatype Pool = Pool(counter: int, posting: nat, queued: nat, threw: nat, working: bool, stopped: bool,
      threads: seq<Phase>)

  function Created(threadCount: nat): Pool {
    Pool(0, 0, 0, 0, true, false, seq(threadCount, i => InRun))
  }

  datatype Move =
    | StartTask                  // post: ++counter_ (by any thread, also from inside a task)
    | Post                       // post: hand the handler to the context
    | Take(thread: nat)
    | EndTask(thread: nat)       // the function returned: --counter_
    | Throw(thread: nat)         // the function threw: the decrement is skipped
    | Rerun(thread: nat)         // the loop of runThread goes round
    | Return(thread: nat)        // run() returns: the context is stopped, or has neither work object nor handlers
    | ResetWork
    | Stop

  predicate IsAt(p: Pool, t: nat, phase: Phase) { t < |p.threads| && p.threads[t] == phase }

  predicate Enabled(p: Pool, move: Move) {
    match move
    case StartTask => true
    case Post => p.posting > 0
    case Take(t) => IsAt(p, t, InRun) && p.queued > 0 && !p.stopped
    case EndTask(t) => IsAt(p, t, Executing)
    case Throw(t) => IsAt(p, t, Executing)
    case Rerun(t) => IsAt(p, t, Caught)
    case Return(t) => IsAt(p, t, InRun) && (p.stopped || (!p.working && p.queued == 0))
    case ResetWork => true
    case Stop => true
  }

  function Goto(p: Pool, t: nat, phase: Phase): Pool
    requires t < |p.threads|
  {
    p.(threads := p.threads[t := phase])
  }

  function Do(p: Pool, move: Move): Pool
    requires Enabled(p, move)
  {
    match move
    case StartTask => p.(counter := p.counter + 1, posting := p.posting + 1)
    case Post => p.(posting := p.posting - 1, queued := p.queued + 1)
    case Take(t) => Goto(p, t, Executing).(queued := p.queued - 1)
    case EndTask(t) => Goto(p, t, InRun).(counter := p.counter - 1)
    case Throw(t) => Goto(p, t, Caught).(threw := p.threw + 1)
    case Rerun(t) => Goto(p, t, InRun)
    case Return(t) => Goto(p, t, Exited)
    case ResetWork => p.(working := false)
    case Stop => p.(stopped := true)
  }

  function Run(threadCount: nat, moves: seq<Move>): Pool {
    if moves == [] then Created(threadCount)
    else
      var before, move := Run(threadCount, moves[..|moves| - 1]), moves[|moves| - 1];
      if Enabled(before, move) then Do(before, move) else before
  }

  function Count(threads: seq<Phase>, phase: Phase): nat { |Where(threads, (x: Phase) => x == phase)| }

  lemma CountGoto(threads: seq<Phase>, t: nat, to: Phase, phase: Phase)
    requires t < |threads|
    ensures Count(threads[t := to], phase) ==
              Count(threads, phase) - (if threads[t] == phase then 1 else 0) + (if to == phase then 1 else 0)
  {
    var p := (x: Phase) => x == phase;
    var a, b := threads[..t], threads[t + 1..];
    assert threads == a + [threads[t]] + b;
    assert threads[t := to] == a + [to] + b;
    WhereConcat(a + [threads[t]], b, p);
    WhereConcat(a + [to], b, p);
    WhereSnoc(a, threads[t], p);
    WhereSnoc(a, to, p);
  }

  /** The counter is the number of tasks being posted, queued, running, or ended by an exception. */
  predicate Accounted(p: Pool) {
    p.counter == p.posting + p.queued + Count(p.threads, Executing) + p.threw
  }

  lemma StepAccounted(p: Pool, move: Move)
    requires Accounted(p) && Enabled(p, move)
    ensures Accounted(Do(p, move))
  {
    hide Count;
    match move
    case Take(t) => CountGoto(p.threads, t, Executing, Executing);
    case EndTask(t) => CountGoto(p.threads, t, InRun, Executing);
    case Throw(t) => CountGoto(p.threads, t, Caught, Executing);
    case Rerun(t) => CountGoto(p.threads, t, InRun, Executing);
    case Return(t) => CountGoto(p.threads, t, Exited, Executing);
    case _ =>
  }

  lemma NeverNegative(p: Pool)
    requires Accounted(p)
    ensures p.counter >= 0
  {
  }

  lemma StepKeepsThreads(p: Pool, move: Move)
    requires Enabled(p, move) && (!p.stopped && p.working ==> Exited !in p.threads)
    ensures var p' := Do(p, move);
      |p'.threads| == |p.threads| && (!p'.stopped && p'.working ==> Exited !in p'.threads)
  {
  }

  /** Pool accounting, at every point of every run: the counter is exactly the tasks being posted, queued, running
      and ended by an exception, so it never falls below zero; and until stop() or the release of the work object no
      thread has left the pool, whatever the tasks threw. */
  lemma {:induction false} PoolAccounting(threadCount: nat, moves: seq<Move>)
    ensures var p := Run(threadCount, moves);
      && Accounted(p) && p.counter >= 0
      && |p.threads| == threadCount
      && (!p.stopped && p.working ==> Exited !in p.threads)
  {
    if moves != [] {
      hide Accounted;
      var before, move := Run(threadCount, moves[..|moves| - 1]), moves[|moves| - 1];
      PoolAccounting(threadCount, moves[..|moves| - 1]);
      if Enabled(before, move) {
        StepAccounted(before, move);
        StepKeepsThreads(before, move);
      }
      NeverNegative(Run(threadCount, moves));
    } else {
      WhereAllOrNone(Created(threadCount).threads, (x: Phase) => x == Executing);
    }
  }

  /** What every move keeps: the accounting, and all threads until stop() or the release of the work object. */
  predicate Kept(p: Pool) { Accounted(p) && (!p.stopped && p.working ==> Exited !in p.threads) }

  lemma StepKept(p: Pool, move: Move)
    requires Kept(p) && Enabled(p, move)
    ensures Kept(Do(p, move))
  {
    hide Accounted;
    StepAccounted(p, move);
    StepKeepsThreads(p, move);
  }

  lemma CounterAtRest(p: Pool)
    requires Accounted(p) && forall t :: 0 <= t < |p.threads| ==> p.threads[t] != Executing
    ensures p.counter == p.posting + p.queued + p.threw
  {
    WhereAllOrNone(p.threads, (x: Phase) => x == Executing);
  }

  /** A running task is counted. */
  lemma RunningIsCounted(p: Pool, t: nat)
    requires Accounted(p) && IsAt(p, t, Executing)
    ensures p.counter > 0
  {
    assert p.threads[t] in Where(p.threads, (x: Phase) => x == Executing);
  }

  /** The counter is back at zero when nothing is posted, queued or running, exactly if no task threw. */
  lemma CounterLeaks(threadCount: nat, moves: seq<Move>)
    requires var p := Run(threadCount, moves); p.posting == 0 && p.queued == 0 && Executing !in p.threads
    ensures Run(threadCount, moves).counter == 0 <==> forall i :: 0 <= i < |moves| ==> !ThrowsAt(threadCount, moves, i)
  {
    hide Run;
    PoolAccounting(threadCount, moves);
    WhereAllOrNone(Run(threadCount, moves).threads, (x: Phase) => x == Executing);
    ThrewIsThrows(threadCount, moves);
  }

  /** One task that throws leaves the counter at one with nothing left to run. */
  lemma OneThrowLeaks()
    ensures Run(1, [StartTask, Post, Take(0), Throw(0)]) == Pool(1, 0, 0, 1, true, false, [Caught])
  {
    var m1, m2, m3 := [StartTask], [StartTask, Post], [StartTask, Post, Take(0)];
    var m4 := [StartTask, Post, Take(0), Throw(0)];
    assert m1[..0] == [] && m2[..1] == m1 && m3[..2] == m2 && m4[..3] == m3;
    assert Run(1, []).threads == [InRun];
    assert Run(1, m1) == Pool(1, 1, 0, 0, true, false, [InRun]);
    assert Run(1, m2) == Pool(1, 0, 1, 0, true, false, [InRun]);
    assert Run(1, m3) == Pool(1, 0, 0, 0, true, false, [Executing]);
  }

  lemma StoppedStep(p: Pool, move: Move)
    requires p.stopped && Enabled(p, move)
    ensures var p' := Do(p, move);
      p'.stopped && p'.queued >= p.queued && Count(p'.threads, Executing) <= Count(p.threads, Executing)
  {
    hide Count;
    match move
    case EndTask(t) => CountGoto(p.threads, t, InRun, Executing);
    case Throw(t) => CountGoto(p.threads, t, Caught, Executing);
    case Rerun(t) => CountGoto(p.threads, t, InRun, Executing);
    case Return(t) => CountGoto(p.threads, t, Exited, Executing);
    case _ =>
  }

  /** After stop() no posted function starts any more, over any continuation: handlers stay queued, and only those
      threads run a function that ran one already. */
  lemma {:induction false} StoppedStartsNothing(threadCount: nat, moves: seq<Move>, more: seq<Move>)
    requires Run(threadCount, moves).stopped
    ensures var p, p' := Run(threadCount, moves), Run(threadCount, moves + more);
      p'.stopped && p'.queued >= p.queued && Count(p'.threads, Executing) <= Count(p.threads, Executing)
  {
    hide Count;
    if more == [] {
      assert moves + more == moves;
    } else {
      var n := |more| - 1;
      assert (moves + more)[..|moves| + n] == moves + more[..n];
      StoppedStartsNothing(threadCount, moves, more[..n]);
      var before := Run(threadCount, moves + more[..n]);
      if Enabled(before, more[n]) { StoppedStep(before, more[n]); }
    }
  }

  lemma RunMore(threadCount: nat, moves: seq<Move>, move: Move)
    ensures Run(threadCount, moves + [move]) ==
              var before := Run(threadCount, moves); if Enabled(before, move) then Do(before, move) else before
  {
    assert (moves + [move])[..|moves|] == moves;
  }

  /** When an idle thread can leave, after any run: with the work object released, unless a handler is still queued;
      and after stop() even then. Nothing else changes. */
  lemma WhoLeaves(threadCount: nat, moves: seq<Move>, move: Move, t: nat)
    requires IsAt(Run(threadCount, moves), t, InRun) && (move.ResetWork? || move.Stop?)
    ensures var p, p' := Run(threadCount, moves), Run(threadCount, moves + [move, Return(t)]);
      && t < |p'.threads|
      && (p'.threads[t] == Exited <==> p.stopped || move.Stop? || p.queued == 0)
      && p'.threads[t := InRun] == p.threads && p'.queued == p.queued && p'.counter == p.counter
  {
    var longer := moves + [move];
    assert moves + [move, Return(t)] == longer + [Return(t)];
    RunMore(threadCount, moves, move);
    RunMore(threadCount, longer, Return(t));
    hide Run;
  }

  /** Move i of the run is a task that throws. */
  predicate ThrowsAt(threadCount: nat, moves: seq<Move>, i: nat)
    requires i < |moves|
  {
    moves[i].Throw? && Enabled(Run(threadCount, moves[..i]), moves[i])
  }

  lemma {:induction false} ThrewIsThrows(threadCount: nat, moves: seq<Move>)
    ensures Run(threadCount, moves).threw == 0 <==> forall i :: 0 <= i < |moves| ==> !ThrowsAt(threadCount, moves, i)
  {
    if moves != [] {
      var n := |moves| - 1;
      var init := moves[..n];
      ThrewIsThrows(threadCount, init);
      forall i | 0 <= i < n ensures ThrowsAt(threadCount, moves, i) <==> ThrowsAt(threadCount, init, i) {
        assert init[..i] == moves[..i];
      }
      assert Run(threadCount, moves).threw == Run(threadCount, init).threw + if ThrowsAt(threadCount, moves,
          n) then 1 else 0;
    }
  }

  class CounterTasks {
    var counter: int

    constructor ()
      ensures counter == 0
    {
      counter := 0;
    }

    method StartTask()
      modifies this
      ensures counter == old(counter) + 1
    {
      counter := counter + 1;
    }

    method EndTask()
      modifies this
      ensures counter == old(counter) - 1
    {
      counter := counter - 1;
    }
  }

  /** The pool object. Each method but the destructor is one atomic block of the thread that calls it and the move of
      that name; every block keeps the counter exact and loses no thread. */
  class WorkersPool {
    const counter: CounterTasks
    var pool: seq<Phase>
    var handlers: nat          // queued in the io_context
    var work: bool
    var halted: bool
    ghost var posts: nat
    ghost var failures: nat

    ghost function View(): Pool
      reads this, counter
    {
      Pool(counter.counter, posts, handlers, failures, work, halted, pool)
    }

    ghost predicate Valid()
      reads this, counter
    {
      Kept(View())
    }

    constructor (countThread: nat)
      ensures Valid() && View() == Created(countThread) && fresh(counter)
    {
      counter := new CounterTasks();
      handlers := 0;
      work := true;
      halted := false;
      posts := 0;
      failures := 0;
      pool := [];
      new;
      for i := 0 to countThread
        invariant |pool| == i && forall k :: 0 <= k < i ==> pool[k] == InRun
        invariant View() == Created(0).(threads := pool) && fresh(counter)
      {
        pool := pool + [InRun];
      }
      WhereAllOrNone(pool, (x: Phase) => x == Executing);
    }

    /** post(), up to the hand-over to the context. */
    method StartPost()
      requires Valid()
      modifies this`posts, counter
      ensures Valid() && View() == Do(old(View()), StartTask)
      ensures counter.counter > 0
    {
      StepKept(View(), StartTask);
      counter.StartTask();
      posts := posts + 1;
      NeverNegative(View());
    }

    method EndPost()
      requires Valid() && posts > 0
      modifies this`posts, this`handlers
      ensures Valid() && View() == Do(old(View()), Post)
    {
      StepKept(View(), Post);
      posts := posts - 1;
      handlers := handlers + 1;
    }

    method TakeHandler(t: nat)
      requires Valid() && Enabled(View(), Take(t))
      modifies this`handlers, this`pool
      ensures Valid() && View() == Do(old(View()), Take(t))
    {
      StepKept(View(), Take(t));
      handlers := handlers - 1;
      pool := pool[t := Executing];
    }

    /** The function ends; only when it returns is the counter decremented, never below zero, and only when it threw
        does runThread go round its loop. */
    method EndFunction(t: nat, threw: bool)
      requires Valid() && IsAt(View(), t, Executing)
      modifies this`pool, this`failures, counter
      ensures Valid() && View() == Do(old(View()), if threw then Throw(t) else EndTask(t))
      ensures old(counter.counter) > 0
    {
      StepKept(View(), if threw then Throw(t) else EndTask(t));
      RunningIsCounted(View(), t);
      if threw {
        failures := failures + 1;
        pool := pool[t := Caught];
      } else {
        counter.EndTask();
        pool := pool[t := InRun];
      }
    }

    method LoopAgain(t: nat)
      requires Valid() && Enabled(View(), Rerun(t))
      modifies this`pool
      ensures Valid() && View() == Do(old(View()), Rerun(t))
    {
      StepKept(View(), Rerun(t));
      pool := pool[t := InRun];
    }

    method LeaveLoop(t: nat)
      requires Valid() && Enabled(View(), Return(t))
      modifies this`pool
      ensures Valid() && View() == Do(old(View()), Return(t))
    {
      StepKept(View(), Return(t));
      pool := pool[t := Exited];
    }

    /** The function that thread t runs posts some tasks. */
    method PostFrom(t: nat, posted: nat)
      requires Valid() && IsAt(View(), t, Executing)
      modifies this`posts, this`handlers, counter
      ensures Valid() && posts == old(posts) && handlers == old(handlers) + posted
      ensures counter.counter == old(counter.counter) + posted
    {
      hide Accounted, Kept;
      for i := 0 to posted
        invariant Valid() && posts == old(posts) && handlers == old(handlers) + i
        invariant counter.counter == old(counter.counter) + i
      {
        StartPost();
        EndPost();
      }
    }

    /** join(): the thread ends what it runs, which may post more tasks and throws or not, and leaves the stopped
        context. */
    method Join(t: nat, throws: bool, posted: nat)
      requires Valid() && halted && t < |pool|
      modifies this`pool, this`failures, this`posts, this`handlers, counter
      ensures Valid() && pool == old(pool)[t := Exited] && posts == old(posts)
      ensures handlers == old(handlers) + if old(pool[t]) == Executing then posted else 0
      ensures failures == old(failures) + if old(pool[t]) == Executing && throws then 1 else 0
    {
      hide Accounted;
      if pool[t] == Executing {
        PostFrom(t, posted);
        EndFunction(t, throws);
      }
      if pool[t] == Caught { LoopAgain(t); }
      if pool[t] == InRun { LeaveLoop(t); }
    }

    /** The destructor. All threads are gone afterwards, and the counter it logs is exactly the posts that never ran,
        those of the last running tasks included, and the tasks that threw. */
    method Destroy(throws: nat -> bool, posted: nat -> nat)
      requires Valid()
      modifies this, counter
      ensures Valid() && |pool| == |old(pool)| && forall t :: 0 <= t < |pool| ==> pool[t] == Exited
      ensures posts == old(posts) && handlers >= old(handlers)
      ensures (forall t :: 0 <= t < |pool| && old(pool)[t] == Executing ==> posted(t) == 0) ==>
          handlers == old(handlers)
      ensures counter.counter == posts + handlers + failures
      ensures failures <= old(failures) + |pool|
    {
      hide Accounted;
      StepKept(View(), ResetWork);
      work := false;
      StepKept(View(), Stop);
      halted := true;
      for i := 0 to |pool|
        invariant Valid() && halted && |pool| == |old(pool)| && forall t :: 0 <= t < i ==> pool[t] == Exited
        invariant forall t :: i <= t < |pool| ==> pool[t] == old(pool)[t]
        invariant posts == old(posts) && handlers >= old(handlers) && failures <= old(failures) + i
        invariant (forall t :: 0 <= t < i && old(pool)[t] == Executing ==> posted(t) == 0) ==> handlers == old(handlers)
      {
        Join(i, throws(i), posted(i));
      }
      CounterAtRest(View());
    }
  }
}
