/** The task queue object. A thread of threads_ is where it stands in the worker loop, and each method is one atomic
    block of the thread that calls it: the move of the protocol that carries its name. Every block keeps the hand-off
    exact and leaves no task behind a sleeping worker. */
module ThreadSafeQueueClass {
  import opened Basics
  import T = TaskQueue
  import opened TaskQueue

  class ThreadSafeQueue {
    var queueTasks: seq<Task>
    var quit: bool
    var threads: seq<Phase>
    var taken: seq<Taken>       // what the workers have popped; a thread that executes refers to its entry
    ghost var pushed: seq<Task>

    ghost function View(): Queue
      reads this
    {
      Queue(pushed, taken, queueTasks, quit, threads)
    }

    ghost predicate Valid()
      reads this
    {
      ExactlyOnce(View()) && NoWorkBehindSleeper(View())
    }

    constructor ()
      ensures Valid() && View() == EMPTY_QUEUE
    {
      queueTasks := [];
      quit := false;
      threads := [];
      pushed := [];
      taken := [];
    }

    /** Starts the workers; on a queue that is not shutting down the final store of quit_ changes nothing. */
    method Start(threadCount: nat)
      requires Valid() && !quit
      modifies this
      ensures Valid() && threads == old(threads) + seq(threadCount, i => AtTest)
      ensures exists moves :: View() == RunFrom(old(View()), moves) &&
                |moves| == threadCount && forall m :: m in moves ==> m == T.Spawn
    {
      hide ExactlyOnce, NoWorkBehindSleeper;
      ghost var moves: seq<Move> := [];
      assert threads == old(threads) + seq(0, i => AtTest);
      for i := 0 to threadCount
        invariant Valid() && !quit && |moves| == i && threads == old(threads) + seq(i, k => AtTest)
        invariant View() == RunFrom(old(View()), moves) && forall m :: m in moves ==> m == T.Spawn
      {
        Keeps(View(), T.Spawn);
        threads := threads + [AtTest];
        assert threads == old(threads) + seq(i + 1, k => AtTest);
        assert (moves + [T.Spawn])[..i] == moves;
        moves := moves + [T.Spawn];
      }
      quit := false;
    }

    /** Both invariants are kept by every move. */
    static lemma Keeps(q: Queue, move: Move)
      requires ExactlyOnce(q) && NoWorkBehindSleeper(q) && Enabled(q, move)
      ensures ExactlyOnce(Do(q, move)) && NoWorkBehindSleeper(Do(q, move))
    {
      hide ExactlyOnce, NoWorkBehindSleeper, Do;
      StepExactlyOnce(q, move);
      StepNoWorkBehindSleeper(q, move);
    }

    /** notify_one: some sleeping worker, if any, goes for the mutex. */
    method NotifyOne() returns (wake: Option<nat>)
      modifies this`threads
      ensures Wakes(old(View()), wake) && View() == WakeOne(old(View()), wake)
    {
      wake := None;
      if Blocked in threads {
        var w: nat :| w < |threads| && threads[w] == Blocked;
        threads := threads[w := Acquiring];
        wake := Some(w);
      }
    }

    /** The task goes last; there is a worker about to evaluate the predicate unless nobody sleeps. */
    method Push(task: Task)
      requires Valid() && MutexFree(View())
      modifies this
      ensures Valid() && queueTasks == old(queueTasks) + [task]
      ensures exists wake :: Enabled(old(View()), T.Push(task, wake)) && View() == Do(old(View()), T.Push(task, wake))
      ensures Blocked in threads ==> Acquiring in threads
    {
      ghost var before := View();
      queueTasks := queueTasks + [task];
      pushed := pushed + [task];
      var wake := NotifyOne();
      assert View() == Do(before, T.Push(task, wake));
      Keeps(before, T.Push(task, wake));
      SleeperHasReady(View());
    }

    static lemma SleeperHasReady(q: Queue)
      requires NoWorkBehindSleeper(q) && q.queueTasks != []
      ensures Blocked in q.workers ==> Acquiring in q.workers
    {
      if Blocked in q.workers { var w := SomeReady(q); }
    }

    method Notify()
      requires Valid()
      modifies this`threads
      ensures Valid()
      ensures exists wake :: Enabled(old(View()), T.Notify(wake)) && View() == Do(old(View()), T.Notify(wake))
    {
      ghost var before := View();
      var wake := NotifyOne();
      Keeps(before, T.Notify(wake));
    }

    /** while (!quit_) */
    method Test(w: nat)
      requires Valid() && Enabled(View(), T.Test(w))
      modifies this`threads
      ensures Valid() && View() == Do(old(View()), T.Test(w))
    {
      Keeps(View(), T.Test(w));
      threads := threads[w := if !quit then Acquiring else Leaving];
    }

    /** The mutex is taken and the predicate evaluated: the oldest task is popped, or the worker goes back to its
        loop, or it keeps the mutex to go to sleep. */
    method Check(w: nat) returns (task: Option<Task>)
      requires Valid() && Enabled(View(), T.Check(w))
      modifies this
      ensures Valid() && View() == Do(old(View()), T.Check(w))
      ensures match task
              case Some(next) => [next] + queueTasks == old(queueTasks) && pushed[|taken| - 1] == next
              case None => queueTasks == old(queueTasks) == []
    {
      Keeps(View(), T.Check(w));
      PoppedIsNext(View());
      task := None;
      if queueTasks != [] || quit {
        if queueTasks != [] {
          task := Some(queueTasks[0]);
          threads := threads[w := Executing(|taken|)];
          taken := taken + [Taken(queueTasks[0], w, InProgress)];
          queueTasks := queueTasks[1..];
        } else {
          threads := threads[w := AtTest];
        }
      } else {
        threads := threads[w := Deciding];
      }
    }

    /** The head of the queue is the next task in the order of pushing. */
    static lemma PoppedIsNext(q: Queue)
      requires ExactlyOnce(q)
      ensures q.queueTasks != [] ==> |q.taken| < |q.pushed| && q.pushed[|q.taken|] == q.queueTasks[0]
    {
    }

    /** A worker falls asleep only over an empty queue. */
    method Block(w: nat)
      requires Valid() && Enabled(View(), T.Block(w))
      modifies this`threads
      ensures Valid() && View() == Do(old(View()), T.Block(w))
      ensures queueTasks == [] && Blocked in threads && MutexFree(View())
    {
      Keeps(View(), T.Block(w));
      OneDecides(View(), w);
      threads := threads[w := Blocked];
      assert threads[w] in threads;
    }

    static lemma OneDecides(q: Queue, w: nat)
      requires NoWorkBehindSleeper(q) && IsAt(q, w, Deciding)
      ensures q.queueTasks == [] && Deciding !in q.workers[w := Blocked]
    {
      assert q.workers[w] in q.workers;
    }

    method Wakeup(w: nat)
      requires Valid() && Enabled(View(), T.Wakeup(w))
      modifies this`threads
      ensures Valid() && View() == Do(old(View()), T.Wakeup(w))
    {
      Keeps(View(), T.Wakeup(w));
      threads := threads[w := Acquiring];
    }

    /** What was popped has returned or thrown; the exception is caught and logged either way. Its outcome is
        recorded for the first and only time, and no other worker runs it. */
    method Finish(w: nat, threw: bool)
      requires Valid() && Enabled(View(), T.Finish(w, threw))
      modifies this
      ensures Valid() && View() == Do(old(View()), T.Finish(w, threw))
      ensures var k := old(threads[w].index);
        && k < |taken| == |old(taken)| && old(taken)[k].outcome == InProgress && taken[k].outcome != InProgress
        && taken[k].worker == w && Executing(k) !in threads
    {
      Keeps(View(), T.Finish(w, threw));
      var k := threads[w].index;
      OnlyRunner(View(), w);
      taken := taken[k := taken[k].(outcome := if threw then Threw else Completed)];
      threads := threads[w := AtTest];
    }

    static lemma OnlyRunner(q: Queue, w: nat)
      requires ExactlyOnce(q) && w < |q.workers| && q.workers[w].Executing?
      ensures var k := q.workers[w].index;
        && k < |q.taken| && q.taken[k].worker == w && q.taken[k].outcome == InProgress
        && Executing(k) !in q.workers[w := AtTest]
    {
    }

    /** Nobody leaves before shutdown. */
    method Leave(w: nat)
      requires Valid() && Enabled(View(), T.Leave(w))
      modifies this`threads
      ensures Valid() && View() == Do(old(View()), T.Leave(w))
      ensures quit
    {
      Keeps(View(), T.Leave(w));
      assert threads[w] in threads;
      threads := threads[w := Exited];
    }

    /** One undisturbed round of the worker loop: the worker runs the oldest task to its end and stands at its loop
        test again. */
    method Round(w: nat, threw: bool) returns (task: Option<Task>)
      requires Valid() && !quit && queueTasks != [] && MutexFree(View()) && IsAt(View(), w, AtTest)
      modifies this
      ensures Valid() && task == Some(old(queueTasks)[0]) && queueTasks == old(queueTasks)[1..]
      ensures threads == old(threads) && pushed == old(pushed) && quit == old(quit)
      ensures taken == old(taken) + [Taken(old(queueTasks)[0], w, if threw then Threw else Completed)]
    {
      hide ExactlyOnce, NoWorkBehindSleeper;
      Test(w);
      task := Check(w);
      Finish(w, threw);
      assert threads == old(threads);
    }

    /** The destructor up to its joins stores quit_ without the mutex and notifies all: nobody sleeps then, but a
        worker may still be about to. */
    method Shutdown()
      requires Valid()
      modifies this
      ensures Valid() && View() == RunFrom(old(View()), [T.SetQuit, T.NotifyAll])
      ensures quit && Blocked !in threads && |threads| == |old(threads)|
      ensures forall w :: 0 <= w < |threads| && old(threads)[w] != Blocked ==> threads[w] == old(threads)[w]
    {
      hide ExactlyOnce, NoWorkBehindSleeper, RunFrom;
      QuitThenNotify(View());
      Keeps(View(), T.SetQuit);
      quit := true;
      Keeps(View(), T.NotifyAll);
      threads := Column(threads, Woken);
    }

    static lemma QuitThenNotify(q: Queue)
      ensures RunFrom(q, [T.SetQuit, T.NotifyAll]) == q.(quit := true, workers := Column(q.workers, Woken))
    {
      TwoMoves(q, T.SetQuit, T.NotifyAll);
      hide RunFrom;
    }

    static lemma TwoMoves(q: Queue, a: Move, b: Move)
      ensures RunFrom(q, [a, b]) == Step(Step(q, a), b)
    {
      hide Step;
      assert [a, b][..1] == [a] && [a][..0] == [];
      assert RunFrom(q, []) == q;
      assert RunFrom(q, [a]) == Step(q, a);
    }
  }
}
