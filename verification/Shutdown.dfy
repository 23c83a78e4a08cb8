/** Shutdown of the task queue: how much can still happen once quit_ is set, and which workers exit. */
module Shutdown {
  import opened Basics
  import opened TaskQueue

  predicate IsWorkerMove(move: Move) {
    move.Test? || move.Check? || move.Block? || move.Wakeup? || move.Finish? || move.Leave?
  }

  // ---------- a bounded number of moves ----------

  function Rank(p: Phase): nat {
    match p
    case Deciding => 6
    case Blocked => 5
    case Acquiring => 4
    case Executing(_) => 3
    case AtTest => 2
    case Leaving => 1
    case Exited => 0
  }

  /** The moves the workers can still make. */
  function Budget(workers: seq<Phase>): nat {
    if workers == [] then 0 else Budget(workers[..|workers| - 1]) + Rank(workers[|workers| - 1])
  }

  lemma {:induction false} BudgetUpdate(workers: seq<Phase>, w: nat, phase: Phase)
    requires w < |workers|
    ensures Budget(workers[w := phase]) == Budget(workers) - Rank(workers[w]) + Rank(phase)
  {
    var n := |workers| - 1;
    if w < n {
      BudgetUpdate(workers[..n], w, phase);
      assert workers[w := phase][..n] == workers[..n][w := phase];
    } else {
      assert workers[w := phase][..n] == workers[..n];
    }
  }

  lemma {:induction false} BudgetBound(workers: seq<Phase>)
    ensures Budget(workers) <= 6 * |workers|
  {
    if workers != [] { BudgetBound(workers[..|workers| - 1]); }
  }

  lemma {:induction false} WokenBudget(workers: seq<Phase>)
    ensures Budget(Column(workers, Woken)) <= Budget(workers)
  {
    if workers != [] {
      var n := |workers| - 1;
      WokenBudget(workers[..n]);
      assert Column(workers, Woken)[..n] == Column(workers[..n], Woken);
    }
  }

  /** Once quit_ is set every move of a worker uses up some of the budget and no other move adds to it. */
  lemma StepBudget(q: Queue, move: Move)
    requires q.quit
    ensures Step(q, move).quit && |Step(q, move).workers| == |q.workers|
    ensures Budget(Step(q, move).workers) + (if IsWorkerMove(move) && Enabled(q, move) then 1 else 0) <=
              Budget(q.workers)
  {
    hide Budget;
    if Enabled(q, move) {
      match move
      case Push(_, wake) => if wake.Some? { BudgetUpdate(q.workers, wake.value, Acquiring); }
      case Notify(wake) => if wake.Some? { BudgetUpdate(q.workers, wake.value, Acquiring); }
      case Test(w) => BudgetUpdate(q.workers, w, Leaving);
      case Check(w) => BudgetUpdate(q.workers, w, if q.queueTasks != [] then Executing(|q.taken|) else AtTest);
      case Block(w) => BudgetUpdate(q.workers, w, Blocked);
      case Wakeup(w) => BudgetUpdate(q.workers, w, Acquiring);
      case Finish(w, _) => BudgetUpdate(q.workers, w, AtTest);
      case Leave(w) => BudgetUpdate(q.workers, w, Exited);
      case SetQuit =>
      case NotifyAll => WokenBudget(q.workers);
    }
  }

  /** How many of the moves are moves that some worker makes. */
  function WorkerMoves(q: Queue, moves: seq<Move>): nat {
    if moves == [] then 0
    else
      var init, move := moves[..|moves| - 1], moves[|moves| - 1];
      WorkerMoves(q, init) + if IsWorkerMove(move) && Enabled(RunFrom(q, init), move) then 1 else 0
  }

  /** After quit_ is set the workers together make at most six moves each, whatever is still pushed or notified and
      however the moves interleave. */
  lemma {:induction false} ShutdownIsBounded(q: Queue, moves: seq<Move>)
    requires q.quit
    ensures RunFrom(q, moves).quit && |RunFrom(q, moves).workers| == |q.workers|
    ensures WorkerMoves(q, moves) + Budget(RunFrom(q, moves).workers) <= Budget(q.workers) <= 6 * |q.workers|
  {
    BudgetBound(q.workers);
    if moves != [] {
      hide Budget, Step, Enabled;
      var n := |moves| - 1;
      ShutdownIsBounded(q, moves[..n]);
      StepBudget(RunFrom(q, moves[..n]), moves[n]);
    }
  }

  // ---------- a bounded number of tasks ----------

  /** The worker may still take a task after quit_ is set. */
  predicate MayTake(p: Phase) { p == Deciding || p == Blocked || p == Acquiring }

  function TakenBy(taken: seq<Taken>, w: nat): nat {
    |Where(taken, (t: Taken) => t.worker == w)|
  }

  function Chance(q: Queue, w: nat): nat {
    if w < |q.workers| && MayTake(q.workers[w]) then 1 else 0
  }

  lemma TakenBySnoc(taken: seq<Taken>, t: Taken, w: nat)
    ensures TakenBy(taken + [t], w) == TakenBy(taken, w) + if t.worker == w then 1 else 0
  {
    WhereSnoc(taken, t, (x: Taken) => x.worker == w);
  }

  lemma {:induction false} TakenByOutcome(taken: seq<Taken>, k: nat, outcome: Outcome, w: nat)
    requires k < |taken|
    ensures TakenBy(taken[k := taken[k].(outcome := outcome)], w) == TakenBy(taken, w)
  {
    var p := (x: Taken) => x.worker == w;
    var a, b, t := taken[..k], taken[k + 1..], taken[k].(outcome := outcome);
    assert taken == a + [taken[k]] + b;
    assert taken[k := t] == a + [t] + b;
    WhereConcat(a + [taken[k]], b, p);
    WhereConcat(a + [t], b, p);
    WhereSnoc(a, taken[k], p);
    WhereSnoc(a, t, p);
  }

  lemma StepTakes(q: Queue, move: Move, w: nat)
    requires q.quit
    ensures TakenBy(Step(q, move).taken, w) + Chance(Step(q, move), w) <= TakenBy(q.taken, w) + Chance(q, w)
  {
    hide TakenBy;
    if Enabled(q, move) {
      match move
      case Check(v) => if q.queueTasks != [] { TakenBySnoc(q.taken, Taken(q.queueTasks[0], v, InProgress), w); }
      case Finish(v, threw) => TakenByOutcome(q.taken, q.workers[v].index, if threw then Threw else Completed, w);
      case _ =>
    }
  }

  /** After quit_ is set each worker takes at most one more task, and only if it was already past the loop test. */
  lemma {:induction false} OneMoreTaskEach(q: Queue, moves: seq<Move>, w: nat)
    requires q.quit
    ensures TakenBy(RunFrom(q, moves).taken, w) + Chance(RunFrom(q, moves), w) <= TakenBy(q.taken, w) + Chance(q, w)
    ensures TakenBy(RunFrom(q, moves).taken, w) <= TakenBy(q.taken, w) + 1
  {
    if moves != [] {
      hide Step, TakenBy, Chance;
      var n := |moves| - 1;
      OneMoreTaskEach(q, moves[..n], w);
      ShutdownIsBounded(q, moves[..n]);
      StepTakes(RunFrom(q, moves[..n]), moves[n], w);
    }
    assert Chance(q, w) <= 1;
  }

  /** The bound is attained: a worker past the loop test still takes a queued task after quit_ is set. */
  lemma LastTaskTaken(q: Queue, w: nat)
    requires q.quit && q.queueTasks != [] && IsAt(q, w, Acquiring) && MutexFree(q)
    ensures TakenBy(RunFrom(q, [Check(w)]).taken, w) == TakenBy(q.taken, w) + 1
    ensures RunFrom(q, [Check(w)]).queueTasks == q.queueTasks[1..]
  {
    hide TakenBy;
    TakenBySnoc(q.taken, Taken(q.queueTasks[0], w, InProgress), w);
    assert [Check(w)][..0] == [] && RunFrom(q, []) == q;
  }

  function Chances(q: Queue): nat { Count(q.workers, (p: Phase) => MayTake(p)) }

  lemma GotoChances(q: Queue, w: nat, phase: Phase)
    requires w < |q.workers|
    ensures Chances(Goto(q, w, phase)) ==
              Chances(q) - (if MayTake(q.workers[w]) then 1 else 0) + (if MayTake(phase) then 1 else 0)
    ensures MayTake(q.workers[w]) ==> Chances(q) >= 1
  {
    hide Count;
    CountUpdate(q.workers, w, phase, (p: Phase) => MayTake(p));
    if MayTake(q.workers[w]) { CountAtLeast(q.workers, w, (p: Phase) => MayTake(p)); }
  }

  lemma SameChances(q: Queue, q': Queue)
    requires q.workers == q'.workers
    ensures Chances(q) == Chances(q')
  {
  }

  lemma {:induction false} WokenChances(workers: seq<Phase>)
    ensures Count(Column(workers, Woken), (p: Phase) => MayTake(p)) == Count(workers, (p: Phase) => MayTake(p))
  {
    var f := (p: Phase) => MayTake(p);
    if workers != [] {
      var n := |workers| - 1;
      WokenChances(workers[..n]);
      assert workers == workers[..n] + [workers[n]];
      assert Column(workers, Woken) == Column(workers[..n], Woken) + [Woken(workers[n])];
      WhereSnoc(workers[..n], workers[n], f);
      WhereSnoc(Column(workers[..n], Woken), Woken(workers[n]), f);
    }
  }

  lemma StepTakesInAll(q: Queue, move: Move)
    requires q.quit
    ensures |Step(q, move).taken| + Chances(Step(q, move)) <= |q.taken| + Chances(q)
  {
    hide Chances;
    if Enabled(q, move) {
      match move
      case Push(_, wake) =>
        if wake.Some? { GotoChances(q, wake.value, Acquiring); }
        SameChances(WakeOne(q, wake), Do(q, move));
      case Notify(wake) => if wake.Some? { GotoChances(q, wake.value, Acquiring); }
      case Test(w) => GotoChances(q, w, Leaving);
      case Check(w) =>
        var next := if q.queueTasks != [] then Executing(|q.taken|) else AtTest;
        GotoChances(q, w, next);
        SameChances(Goto(q, w, next), Do(q, move));
      case Block(w) => GotoChances(q, w, Blocked);
      case Wakeup(w) => GotoChances(q, w, Acquiring);
      case Finish(w, _) => GotoChances(q, w, AtTest); SameChances(Goto(q, w, AtTest), Do(q, move));
      case Leave(w) => GotoChances(q, w, Exited);
      case SetQuit => SameChances(q, Do(q, move));
      case NotifyAll => AllWokenChances(q);
    }
  }

  lemma AllWokenChances(q: Queue)
    ensures Chances(q.(workers := Column(q.workers, Woken))) == Chances(q)
  {
    WokenChances(q.workers);
  }

  /** After quit_ is set the workers together take at most as many tasks as there are workers. */
  lemma {:induction false} FewMoreTasks(q: Queue, moves: seq<Move>)
    requires q.quit
    ensures |RunFrom(q, moves).taken| + Chances(RunFrom(q, moves)) <= |q.taken| + Chances(q)
    ensures |RunFrom(q, moves).taken| <= |q.taken| + |q.workers|
  {
    if moves != [] {
      hide Step, Chances;
      var n := |moves| - 1;
      FewMoreTasks(q, moves[..n]);
      ShutdownIsBounded(q, moves[..n]);
      StepTakesInAll(RunFrom(q, moves[..n]), moves[n]);
    }
    assert Chances(q) <= |q.workers|;
  }

  // ---------- who exits ----------

  /** Only the workers act: nobody pushes or notifies any more, and no wake-up is spurious. */
  predicate Undisturbed(moves: seq<Move>) {
    forall m :: m in moves ==> IsWorkerMove(m) && !m.Wakeup?
  }

  /** No worker can act any more. */
  ghost predicate Quiescent(q: Queue) {
    forall m :: IsWorkerMove(m) && !m.Wakeup? ==> !Enabled(q, m)
  }

  /** A worker that held the mutex with a false predicate at notify_all can only go to sleep; no other worker
      ever decides or sleeps again. */
  predicate SplitByNotice(start: Queue, q: Queue) {
    && q.quit && |q.workers| == |start.workers|
    && forall w :: 0 <= w < |q.workers| ==>
         (start.workers[w] == Deciding <==> q.workers[w] == Deciding || q.workers[w] == Blocked)
  }

  lemma {:induction false} StaysSplit(start: Queue, q: Queue, moves: seq<Move>)
    requires SplitByNotice(start, q) && Undisturbed(moves)
    ensures SplitByNotice(start, RunFrom(q, moves))
  {
    if moves != [] {
      var n := |moves| - 1;
      assert moves[n] in moves;
      StaysSplit(start, q, moves[..n]);
    }
  }

  lemma ExecutingCanFinish(q: Queue, w: nat)
    requires Quiescent(q) && w < |q.workers|
    requires q.workers[w].Executing? ==> q.workers[w].index < |q.taken|
    requires forall v :: 0 <= v < |q.workers| ==> q.workers[v] != Deciding
    ensures q.workers[w] == Blocked || q.workers[w] == Exited
  {
    assert !Enabled(q, Test(w)) && !Enabled(q, Check(w)) && !Enabled(q, Leave(w)) && !Enabled(q, Finish(w, false));
    assert !Enabled(q, Block(w));
  }

  /** The destructor's notify_all, exactly. Let quit_ be set in a state of some run, and let the workers go on
      undisturbed after notify_all until none can act. A worker then sleeps for ever, and the destructor's join
      with it, exactly if it stood between its predicate check and its block at notify_all; every other worker
      has exited. */
  lemma WhoExits(before: seq<Move>, moves: seq<Move>, w: nat)
    requires var q := RunFrom(EMPTY_QUEUE, before);
      && q.quit && w < |q.workers| && Undisturbed(moves)
      && Quiescent(RunFrom(Step(q, NotifyAll), moves))
    ensures var q := RunFrom(EMPTY_QUEUE, before);
      var last := RunFrom(Step(q, NotifyAll), moves);
      && |last.workers| == |q.workers|
      && last.workers[w] == if q.workers[w] == Deciding then Blocked else Exited
  {
    var q := RunFrom(EMPTY_QUEUE, before);
    var noticed := Step(q, NotifyAll);
    var last := RunFrom(noticed, moves);
    assert SplitByNotice(q, noticed);
    StaysSplit(q, noticed, moves);
    OwnedAtEnd(before, moves);
    forall v | 0 <= v < |last.workers| ensures last.workers[v] != Deciding {
      assert !Enabled(last, Block(v));
    }
    ExecutingCanFinish(last, w);
  }

  lemma {:induction false} OwnedAtEnd(before: seq<Move>, moves: seq<Move>)
    ensures ExactlyOnce(RunFrom(Step(RunFrom(EMPTY_QUEUE, before), NotifyAll), moves))
  {
    var all := before + [NotifyAll] + moves;
    RunJoin(EMPTY_QUEUE, before + [NotifyAll], moves);
    assert (before + [NotifyAll])[..|before|] == before;
    RunExactlyOnce(all);
  }

  lemma {:induction false} RunJoin(q: Queue, a: seq<Move>, b: seq<Move>)
    ensures RunFrom(q, a + b) == RunFrom(RunFrom(q, a), b)
  {
    if b == [] {
      assert a + b == a;
    } else {
      var n := |b| - 1;
      assert (a + b)[..|a| + n] == a + b[..n];
      RunJoin(q, a, b[..n]);
    }
  }

  /** At most one worker can miss the notification. */
  lemma AtMostOneMisses(before: seq<Move>, v: nat, w: nat)
    requires IsAt(RunFrom(EMPTY_QUEUE, before), v, Deciding) && IsAt(RunFrom(EMPTY_QUEUE, before), w, Deciding)
    ensures v == w
  {
    RunNoWorkBehindSleeper(before);
  }

  /** And it does happen: a single worker that finds the queue empty, checks its predicate before quit_ is set and
      blocks after notify_all sleeps on until a spurious wake-up, if there ever is one. */
  lemma NotificationCanBeMissed()
    ensures var before := [Spawn, Test(0), Check(0), SetQuit];
      var last := RunFrom(Step(RunFrom(EMPTY_QUEUE, before), NotifyAll), [Block(0)]);
      last.workers == [Blocked] && Quiescent(last)
  {
    var q1 := RunFrom(EMPTY_QUEUE, [Spawn]);
    assert [Spawn][..0] == [];
    assert q1.workers == [AtTest];
    var q2 := RunFrom(EMPTY_QUEUE, [Spawn, Test(0)]);
    assert [Spawn, Test(0)][..1] == [Spawn];
    assert q2.workers == [Acquiring];
    var q3 := RunFrom(EMPTY_QUEUE, [Spawn, Test(0), Check(0)]);
    assert [Spawn, Test(0), Check(0)][..2] == [Spawn, Test(0)];
    assert q3.workers == [Deciding];
    var before := [Spawn, Test(0), Check(0), SetQuit];
    assert before[..3] == [Spawn, Test(0), Check(0)];
    var q4 := RunFrom(EMPTY_QUEUE, before);
    assert q4 == q3.(quit := true);
    var q5 := Step(q4, NotifyAll);
    assert q5.workers == [Deciding];
    assert [Block(0)][..0] == [];
    assert RunFrom(q5, [Block(0)]) == Step(q5, Block(0));
    assert Step(q5, Block(0)).workers == [Blocked];
  }
}
