/** Several sessions on one task queue: every write of a session is a task of the shared queue, and a worker that has
    popped one waits for the mutex of its socket. */
module SharedQueue {
  import opened Basics
  import T = TaskQueue
  import W = Wire

  /** A task of the queue: writeImpl_ of a socket with a message. */
  datatype Job = Job(socket: nat, letter: W.Letter)

  /** A socket with its mutex, which is held from the start of a write to its completion handler. */
  datatype Line = Line(write: W.Write, finished: seq<(W.Letter, bool)>, bytes: seq<Byte>, broken: bool)

  /** jobs: all writes pushed so far; tasks of the queue are positions in it. */
  datatype Net = Net(q: T.Queue, jobs: seq<Job>, lines: seq<Line>)

  const IDLE_LINE := Line(W.NoWrite, [], [], false)

  function Opened(sockets: nat): Net { Net(T.EMPTY_QUEUE, [], seq(sockets, i => IDLE_LINE)) }

  datatype Move =
    | Push(socket: nat, bytes: seq<Byte>, wake: Option<nat>)
    | OnQueue(move: T.Move)            // any other move of the queue's protocol
    | Start(worker: nat)               // the worker gets the mutex of its socket, starts the write and is done
    | OnLine(socket: nat, io: W.Move)

  /** The letters of these tasks that go to this socket, in order. */
  function Letters(jobs: seq<Job>, socket: nat, tasks: seq<T.Task>): seq<W.Letter> {
    if tasks == [] then []
    else
      var last := tasks[|tasks| - 1];
      Letters(jobs, socket, tasks[..|tasks| - 1]) +
      if last < |jobs| && jobs[last].socket == socket then [jobs[last].letter] else []
  }

  /** The tasks that workers hold. */
  function Held(taken: seq<T.Taken>): seq<T.Task> { T.TasksOf(Where(taken, (t: T.Taken) => t.outcome == T.InProgress)) }

  /** The shared queue as one socket sees it. */
  function View(net: Net, socket: nat): W.Socket
    requires socket < |net.lines|
  {
    var line := net.lines[socket];
    W.Socket(Letters(net.jobs, socket, net.q.pushed), Letters(net.jobs, socket, net.q.queueTasks),
             Letters(net.jobs, socket, Held(net.q.taken)), line.write, line.finished, line.bytes, line.broken)
  }

  function Bare(line: Line): W.Socket { W.Socket([], [], [], line.write, line.finished, line.bytes, line.broken) }

  /** The worker executes a write for a socket. */
  predicate Holds(net: Net, w: nat) {
    && w < |net.q.workers| && net.q.workers[w].Executing? && net.q.workers[w].index < |net.q.taken|
    && net.q.taken[net.q.workers[w].index].task < |net.jobs|
    && net.jobs[net.q.taken[net.q.workers[w].index].task].socket < |net.lines|
  }

  function HeldJob(net: Net, w: nat): Job
    requires Holds(net, w)
  {
    net.jobs[net.q.taken[net.q.workers[w].index].task]
  }

  predicate Enabled(net: Net, move: Move) {
    match move
    case Push(c, _, wake) => c < |net.lines| && T.Enabled(net.q, T.Push(|net.jobs|, wake))
    case OnQueue(m) => !m.Push? && !m.Finish? && T.Enabled(net.q, m)
    case Start(w) => Holds(net, w) && net.lines[HeldJob(net, w).socket].write.NoWrite?
    case OnLine(c, m) => c < |net.lines| && (m.Send? || m.Complete? || m.Fail?) && W.Enabled(0, Bare(net.lines[c]), m)
  }

  function Do(net: Net, move: Move): Net
    requires Enabled(net, move)
  {
    match move
    case Push(c, bytes, wake) =>
      var letter := W.Letter(|Letters(net.jobs, c, net.q.pushed)|, bytes);
      Net(T.Do(net.q, T.Push(|net.jobs|, wake)), net.jobs + [Job(c, letter)], net.lines)
    case OnQueue(m) => net.(q := T.Do(net.q, m))
    case Start(w) =>
      var job := HeldJob(net, w);
      net.(q := T.Do(net.q, T.Finish(w, false)),
           lines := net.lines[job.socket := net.lines[job.socket].(write := W.Writing(job.letter, 0))])
    case OnLine(c, m) =>
      var s := W.Do(0, Bare(net.lines[c]), m);
      net.(lines := net.lines[c := Line(s.write, s.finished, s.bytes, s.broken)])
  }

  function Step(net: Net, move: Move): Net { if Enabled(net, move) then Do(net, move) else net }

  function RunFrom(net: Net, moves: seq<Move>): Net {
    if moves == [] then net else Step(RunFrom(net, moves[..|moves| - 1]), moves[|moves| - 1])
  }

  // ---------- what every run keeps ----------

  /** Tasks are numbered as they are pushed, and every job is for one of the sockets. */
  ghost predicate Filed(net: Net) {
    && T.ExactlyOnce(net.q) && T.NoWorkBehindSleeper(net.q)
    && |net.q.pushed| == |net.jobs|
    && (forall i :: 0 <= i < |net.jobs| ==> net.q.pushed[i] == i && net.jobs[i].socket < |net.lines|)
  }

  /** What a move does to the queue is a move of its protocol, or nothing. */
  function QueueMove(net: Net, move: Move): Option<T.Move> {
    match move
    case Push(_, _, wake) => Some(T.Push(|net.jobs|, wake))
    case OnQueue(m) => Some(m)
    case Start(w) => Some(T.Finish(w, false))
    case OnLine(_, _) => None
  }

  lemma DoOnQueue(net: Net, move: Move)
    requires Enabled(net, move)
    ensures QueueMove(net, move).Some? ==>
              T.Enabled(net.q, QueueMove(net, move).value) && Do(net, move).q == T.Do(net.q, QueueMove(net, move).value)
    ensures QueueMove(net, move).None? ==> Do(net, move).q == net.q
    ensures |Do(net, move).lines| == |net.lines|
  {
    hide T.Do, Letters, W.Do;
  }

  lemma StepFiled(net: Net, move: Move)
    requires Filed(net)
    ensures Filed(Step(net, move)) && |Step(net, move).lines| == |net.lines|
    ensures |net.q.workers| <= |Step(net, move).q.workers|
  {
    hide T.ExactlyOnce, T.NoWorkBehindSleeper, T.Do, T.Enabled, Letters, W.Do, W.Enabled;
    if Enabled(net, move) {
      DoOnQueue(net, move);
      if QueueMove(net, move).Some? {
        QueueKeeps(net.q, QueueMove(net, move).value);
      }
    }
  }

  lemma QueueKeeps(q: T.Queue, move: T.Move)
    requires T.ExactlyOnce(q) && T.NoWorkBehindSleeper(q) && T.Enabled(q, move)
    ensures var q' := T.Do(q, move);
      && T.ExactlyOnce(q') && T.NoWorkBehindSleeper(q')
      && q'.pushed == q.pushed + (if move.Push? then [move.task] else [])
      && |q.workers| <= |q'.workers|
  {
    hide T.ExactlyOnce, T.NoWorkBehindSleeper;
    T.StepExactlyOnce(q, move);
    T.StepNoWorkBehindSleeper(q, move);
  }

  lemma {:induction false} RunFiled(sockets: nat, moves: seq<Move>)
    ensures Filed(RunFrom(Opened(sockets), moves)) && |RunFrom(Opened(sockets), moves).lines| == sockets
  {
    if moves != [] {
      hide Filed, Step;
      RunFiled(sockets, moves[..|moves| - 1]);
      StepFiled(RunFrom(Opened(sockets), moves[..|moves| - 1]), moves[|moves| - 1]);
    }
  }

  // ---------- letters ----------

  lemma {:induction false} LettersConcat(jobs: seq<Job>, c: nat, a: seq<T.Task>, b: seq<T.Task>)
    ensures Letters(jobs, c, a + b) == Letters(jobs, c, a) + Letters(jobs, c, b)
  {
    if b == [] {
      assert a + b == a;
    } else {
      var n := |b| - 1;
      assert (a + b)[..|a| + n] == a + b[..n];
      LettersConcat(jobs, c, a, b[..n]);
    }
  }

  lemma LettersOne(jobs: seq<Job>, c: nat, t: T.Task)
    ensures Letters(jobs, c, [t]) == if t < |jobs| && jobs[t].socket == c then [jobs[t].letter] else []
  {
    assert [t][..0] == [];
    assert Letters(jobs, c, []) == [];
  }

  lemma {:induction false} LettersStable(jobs: seq<Job>, job: Job, c: nat, tasks: seq<T.Task>)
    requires forall t :: t in tasks ==> t < |jobs|
    ensures Letters(jobs + [job], c, tasks) == Letters(jobs, c, tasks)
  {
    if tasks != [] {
      var n := |tasks| - 1;
      assert tasks[n] in tasks && forall t :: t in tasks[..n] ==> t in tasks;
      LettersStable(jobs, job, c, tasks[..n]);
    }
  }

  /** One more job changes nothing for the tasks before it and adds its letter after them. */
  lemma LettersPushed(jobs: seq<Job>, job: Job, c: nat, tasks: seq<T.Task>)
    requires forall t :: t in tasks ==> t < |jobs|
    ensures Letters(jobs + [job], c, tasks) == Letters(jobs, c, tasks)
    ensures Letters(jobs + [job], c, tasks + [|jobs|]) ==
              Letters(jobs, c, tasks) + if job.socket == c then [job.letter] else []
  {
    hide Letters;
    LettersStable(jobs, job, c, tasks);
    LettersConcat(jobs + [job], c, tasks, [|jobs|]);
    LettersOne(jobs + [job], c, |jobs|);
  }

  lemma HeldConcat(a: seq<T.Taken>, b: seq<T.Taken>)
    ensures Held(a + b) == Held(a) + Held(b)
  {
    WhereConcat(a, b, (t: T.Taken) => t.outcome == T.InProgress);
  }

  lemma HeldOne(t: T.Taken)
    ensures Held([t]) == if t.outcome == T.InProgress then [t.task] else []
  {
    WhereAllOrNone([t], (x: T.Taken) => x.outcome == T.InProgress);
  }

  lemma HeldAmong(taken: seq<T.Taken>)
    ensures forall t :: t in Held(taken) ==> t in T.TasksOf(taken)
  {
    var open := Where(taken, (t: T.Taken) => t.outcome == T.InProgress);
    forall t | t in Held(taken) ensures t in T.TasksOf(taken) {
      var i :| 0 <= i < |open| && open[i].task == t;
      assert open[i] in open;
      var k :| 0 <= k < |taken| && taken[k] == open[i];
      assert T.TasksOf(taken)[k] == t;
    }
  }

  // ---------- a free worker means room ----------

  predicate Runs(p: T.Phase) { p.Executing? }

  /** Each task in progress is executed by its worker. */
  predicate RunBy(taken: seq<T.Taken>, workers: seq<T.Phase>) {
    forall k :: 0 <= k < |taken| && taken[k].outcome == T.InProgress ==>
      taken[k].worker < |workers| && workers[taken[k].worker] == T.Executing(k)
  }

  /** Without the last task its worker may as well be idle. */
  lemma RunByInit(taken: seq<T.Taken>, workers: seq<T.Phase>)
    requires RunBy(taken, workers) && taken != []
    ensures var n := |taken| - 1;
      if taken[n].outcome == T.InProgress
      then taken[n].worker < |workers| && workers[taken[n].worker].Executing?
           && RunBy(taken[..n], workers[taken[n].worker := T.AtTest])
      else RunBy(taken[..n], workers)
  {
  }

  lemma HeldLast(taken: seq<T.Taken>)
    requires taken != []
    ensures var n := |taken| - 1;
      |Held(taken)| == |Held(taken[..n])| + if taken[n].outcome == T.InProgress then 1 else 0
  {
    hide Held;
    var n := |taken| - 1;
    assert taken == taken[..n] + [taken[n]];
    HeldConcat(taken[..n], [taken[n]]);
    HeldOne(taken[n]);
  }

  lemma {:induction false} HeldByWorkers(taken: seq<T.Taken>, workers: seq<T.Phase>)
    requires RunBy(taken, workers)
    ensures |Held(taken)| <= T.Count(workers, Runs)
  {
    if taken != [] {
      hide T.Count, Held, RunBy;
      var n := |taken| - 1;
      RunByInit(taken, workers);
      HeldLast(taken);
      if taken[n].outcome == T.InProgress {
        T.CountUpdate(workers, taken[n].worker, T.AtTest, Runs);
        HeldByWorkers(taken[..n], workers[taken[n].worker := T.AtTest]);
      } else {
        HeldByWorkers(taken[..n], workers);
      }
    } else {
      assert Held(taken) == [];
    }
  }

  /** If some worker does not execute, fewer tasks are held than there are workers. */
  lemma RoomForOne(q: T.Queue, w: nat)
    requires T.ExactlyOnce(q) && w < |q.workers| && !q.workers[w].Executing?
    ensures |Held(q.taken)| < |q.workers|
  {
    HeldByWorkers(q.taken, q.workers);
    hide T.Count;
    T.CountUpdate(q.workers, w, T.Executing(0), Runs);
    CountBound(q.workers[w := T.Executing(0)]);
  }

  lemma CountBound(workers: seq<T.Phase>)
    ensures T.Count(workers, Runs) <= |workers|
  {
  }

  lemma {:induction false} FewerLetters(jobs: seq<Job>, c: nat, tasks: seq<T.Task>)
    ensures |Letters(jobs, c, tasks)| <= |tasks|
  {
    if tasks != [] { FewerLetters(jobs, c, tasks[..|tasks| - 1]); }
  }

  // ---------- each socket sees a run of its own writer ----------

  lemma TasksFiled(net: Net)
    requires Filed(net)
    ensures forall t :: t in net.q.pushed ==> t < |net.jobs|
    ensures forall t :: t in net.q.queueTasks || t in Held(net.q.taken) ==> t < |net.jobs|
  {
    HeldAmong(net.q.taken);
    hide Held;
    var q := net.q;
    assert q.pushed == T.TasksOf(q.taken) + q.queueTasks;
    assert forall t :: t in q.queueTasks || t in T.TasksOf(q.taken) ==> t in q.pushed;
  }

  lemma PushOnQueue(q: T.Queue, task: T.Task, wake: Option<nat>)
    requires T.Enabled(q, T.Push(task, wake))
    ensures var q' := T.Do(q, T.Push(task, wake));
      q'.pushed == q.pushed + [task] && q'.queueTasks == q.queueTasks + [task] && q'.taken == q.taken
  {
  }

  lemma SimPush(net: Net, c: nat, bytes: seq<Byte>, wake: Option<nat>, socket: nat, n: nat)
    requires Filed(net) && Enabled(net, Push(c, bytes, wake)) && socket < |net.lines|
    ensures View(Do(net, Push(c, bytes, wake)), socket) ==
              if socket == c then W.Do(n, View(net, socket), W.Push(bytes)) else View(net, socket)
  {
    TasksFiled(net);
    hide Filed, T.Enabled, T.Do, Held, Letters;
    var q, k := net.q, |net.jobs|;
    PushOnQueue(q, k, wake);
    var net' := Do(net, Push(c, bytes, wake));
    var job := Job(c, W.Letter(|Letters(net.jobs, c, q.pushed)|, bytes));
    assert net'.jobs == net.jobs + [job] && net'.jobs[k] == job;
    LettersPushed(net.jobs, job, socket, q.pushed);
    LettersPushed(net.jobs, job, socket, q.queueTasks);
    LettersPushed(net.jobs, job, socket, Held(q.taken));
  }

  /** Only a pop moves tasks; the rest of the queue's protocol is invisible to a socket. */
  lemma QuietOnQueue(q: T.Queue, m: T.Move)
    requires T.Enabled(q, m) && !m.Push? && !m.Finish? && !(m.Check? && q.queueTasks != [])
    ensures var q' := T.Do(q, m); q'.pushed == q.pushed && q'.taken == q.taken && q'.queueTasks == q.queueTasks
  {
  }

  /** A pop moves the letter of the oldest task, if it is for this socket, from the queue to the workers. */
  lemma PopLetters(net: Net, w: nat, socket: nat) returns (own: seq<W.Letter>)
    requires Filed(net) && T.Enabled(net.q, T.Check(w)) && net.q.queueTasks != []
    ensures net.q.queueTasks[0] < |net.jobs|
    ensures var job := net.jobs[net.q.queueTasks[0]]; own == if job.socket == socket then [job.letter] else []
    ensures var q, q' := net.q, T.Do(net.q, T.Check(w));
      && q'.pushed == q.pushed
      && Letters(net.jobs, socket, q.queueTasks) == own + Letters(net.jobs, socket, q'.queueTasks)
      && Letters(net.jobs, socket, Held(q'.taken)) == Letters(net.jobs, socket, Held(q.taken)) + own
      && |Letters(net.jobs, socket, Held(q.taken))| < |q.workers|
  {
    TasksFiled(net);
    RoomForOne(net.q, w);
    hide Filed, Held, Letters;
    var q, head := net.q, net.q.queueTasks[0];
    var q', entry := T.Do(q, T.Check(w)), T.Taken(head, w, T.InProgress);
    assert head in q.queueTasks;
    assert q.queueTasks == [head] + q'.queueTasks && q'.taken == q.taken + [entry] && q'.pushed == q.pushed;
    LettersConcat(net.jobs, socket, [head], q'.queueTasks);
    LettersOne(net.jobs, socket, head);
    HeldConcat(q.taken, [entry]);
    HeldOne(entry);
    LettersConcat(net.jobs, socket, Held(q.taken), [head]);
    FewerLetters(net.jobs, socket, Held(q.taken));
    own := Letters(net.jobs, socket, [head]);
  }

  lemma SimPop(net: Net, w: nat, socket: nat, n: nat)
    requires Filed(net) && T.Enabled(net.q, T.Check(w)) && net.q.queueTasks != []
    requires socket < |net.lines| && |net.q.workers| <= n
    ensures var net', head := Do(net, OnQueue(T.Check(w))), net.q.queueTasks[0];
      && head < |net.jobs|
      && (if net.jobs[head].socket == socket
          then W.Enabled(n, View(net, socket), W.Pop) && View(net', socket) == W.Do(n, View(net, socket), W.Pop)
          else View(net', socket) == View(net, socket))
  {
    hide Filed, Held, Letters, T.Do;
    var own := PopLetters(net, w, socket);
    var rest := Letters(net.jobs, socket, T.Do(net.q, T.Check(w)).queueTasks);
    if own != [] { assert (own + rest)[0] == own[0] && (own + rest)[1..] == rest; } else { assert [] + rest == rest; }
  }

  /** The letters held, around the entry of a worker that finishes. */
  lemma HeldAround(jobs: seq<Job>, socket: nat, taken: seq<T.Taken>, k: nat) returns (i: nat)
    requires k < |taken| && taken[k].outcome == T.InProgress && taken[k].task < |jobs|
    ensures var before, after := Letters(jobs, socket, Held(taken)),
                                 Letters(jobs, socket, Held(taken[k := taken[k].(outcome := T.Completed)]));
      if jobs[taken[k].task].socket == socket
      then i < |before| && before[i] == jobs[taken[k].task].letter && after == before[..i] + before[i + 1..]
      else after == before
  {
    hide Held, Letters;
    var a, e, b := taken[..k], taken[k], taken[k + 1..];
    var done := e.(outcome := T.Completed);
    assert taken == a + [e] + b && taken[k := done] == a + [done] + b;
    HeldConcat(a + [e], b);
    HeldConcat(a, [e]);
    HeldConcat(a + [done], b);
    HeldConcat(a, [done]);
    HeldOne(e);
    HeldOne(done);
    LettersConcat(jobs, socket, Held(a) + [e.task], Held(b));
    LettersConcat(jobs, socket, Held(a), [e.task]);
    LettersConcat(jobs, socket, Held(a), Held(b));
    LettersOne(jobs, socket, e.task);
    assert Held(a) + [] == Held(a);
    var x, y := Letters(jobs, socket, Held(a)), Letters(jobs, socket, Held(b));
    i := |x|;
    if jobs[e.task].socket == socket {
      assert x + [jobs[e.task].letter] + y == Letters(jobs, socket, Held(taken));
    } else {
      assert x + [] + y == x + y;
    }
  }

  /** Starting a write ends the task and nothing else on the queue. */
  lemma StartOnQueue(net: Net, w: nat)
    requires Filed(net) && Enabled(net, Start(w))
    ensures var k, q' := net.q.workers[w].index, Do(net, Start(w)).q;
      && net.q.taken[k].outcome == T.InProgress
      && q'.pushed == net.q.pushed && q'.queueTasks == net.q.queueTasks
      && q'.taken == net.q.taken[k := net.q.taken[k].(outcome := T.Completed)]
  {
    hide Letters, Held;
  }

  lemma SimStart(net: Net, w: nat, socket: nat, n: nat) returns (i: nat)
    requires Filed(net) && Enabled(net, Start(w)) && socket < |net.lines|
    ensures var net' := Do(net, Start(w));
      if HeldJob(net, w).socket == socket
      then W.Enabled(n, View(net, socket), W.Start(i)) && View(net', socket) == W.Do(n, View(net, socket), W.Start(i))
      else View(net', socket) == View(net, socket)
  {
    hide Filed, Held, Letters, T.Do;
    StartOnQueue(net, w);
    i := HeldAround(net.jobs, socket, net.q.taken, net.q.workers[w].index);
  }

  lemma SimLine(net: Net, c: nat, m: W.Move, socket: nat, n: nat)
    requires Enabled(net, OnLine(c, m)) && socket < |net.lines|
    ensures var net' := Do(net, OnLine(c, m));
      if c == socket
      then W.Enabled(n, View(net, socket), m) && View(net', socket) == W.Do(n, View(net, socket), m)
      else View(net', socket) == View(net, socket)
  {
    hide Held, Letters;
  }

  /** One move of the whole is one move of the socket's writer, or none. */
  lemma Simulated(net: Net, move: Move, socket: nat, n: nat) returns (m: Option<W.Move>)
    requires Filed(net) && socket < |net.lines| && |net.q.workers| <= n
    ensures |Step(net, move).lines| == |net.lines|
    ensures View(Step(net, move), socket) ==
              if m.None? then View(net, socket) else W.Step(n, View(net, socket), m.value)
  {
    StepFiled(net, move);
    hide Filed, Held, Letters, W.Do, T.Do, T.Enabled;
    m := None;
    if Enabled(net, move) {
      match move
      case Push(c, bytes, wake) =>
        SimPush(net, c, bytes, wake, socket, n);
        if c == socket { m := Some(W.Push(bytes)); }
      case OnQueue(t) =>
        if t.Check? && net.q.queueTasks != [] {
          SimPop(net, t.worker, socket, n);
          if net.jobs[net.q.queueTasks[0]].socket == socket { m := Some(W.Pop); }
        } else {
          QuietOnQueue(net.q, t);
        }
      case Start(w) =>
        var i := SimStart(net, w, socket, n);
        if HeldJob(net, w).socket == socket { m := Some(W.Start(i)); }
      case OnLine(c, io) =>
        SimLine(net, c, io, socket, n);
        if c == socket { m := Some(io); }
    }
  }

  /** Refinement. However many sockets share the queue, what each of them sees of any run is a run of its own writer
      with at most as many workers as the queue has. */
  lemma {:induction false} EachSocketRefines(sockets: nat, moves: seq<Move>, socket: nat, n: nat)
    returns (own: seq<W.Move>)
    requires socket < sockets && |RunFrom(Opened(sockets), moves).q.workers| <= n
    ensures |RunFrom(Opened(sockets), moves).lines| == sockets
    ensures W.Run(n, own) == View(RunFrom(Opened(sockets), moves), socket)
  {
    if moves == [] {
      own := [];
    } else {
      hide Filed, Step, View, W.Step, W.Run;
      var k := |moves| - 1;
      var before := RunFrom(Opened(sockets), moves[..k]);
      RunFiled(sockets, moves[..k]);
      StepFiled(before, moves[k]);
      var init := EachSocketRefines(sockets, moves[..k], socket, n);
      var m := Simulated(before, moves[k], socket, n);
      if m.None? { own := init; } else { own := init + [m.value]; OneMore(n, init, m.value); }
    }
  }

  lemma OneMore(n: nat, init: seq<W.Move>, m: W.Move)
    ensures W.Run(n, init + [m]) == W.Step(n, W.Run(n, init), m)
  {
    assert (init + [m])[..|init|] == init;
  }

  /** So on every socket the bytes are whole messages followed by a prefix of at most one more, and every message
      pushed for it is in exactly one place. */
  lemma EachSocketWhole(sockets: nat, moves: seq<Move>, socket: nat)
    requires socket < sockets && socket < |RunFrom(Opened(sockets), moves).lines|
    ensures var s := View(RunFrom(Opened(sockets), moves), socket);
      W.EachOnce(s) && W.WholeMessages(s)
  {
    hide RunFrom, View, W.Run, W.EachOnce, W.WholeMessages;
    var n := |RunFrom(Opened(sockets), moves).q.workers|;
    var own := EachSocketRefines(sockets, moves, socket, n);
    W.WireIsWhole(n, own);
  }

  // ---------- a slow client ----------

  /** The worker has a move of its own, or of its socket's mutex. */
  predicate CanMove(net: Net, w: nat) {
    || Enabled(net, OnQueue(T.Test(w))) || Enabled(net, OnQueue(T.Check(w))) || Enabled(net, OnQueue(T.Block(w)))
    || Enabled(net, OnQueue(T.Leave(w))) || Enabled(net, Start(w))
  }

  /** The worker holds a write for a socket that is busy with another one. */
  predicate Waits(net: Net, w: nat) { Holds(net, w) && net.lines[HeldJob(net, w).socket].write.Writing? }

  lemma ExecutingHolds(net: Net, w: nat)
    requires Filed(net) && w < |net.q.workers| && net.q.workers[w].Executing?
    ensures Holds(net, w)
  {
    var q, k := net.q, net.q.workers[w].index;
    assert q.pushed[k] == T.TasksOf(q.taken)[k] == q.taken[k].task;
  }

  lemma SomeoneMoves(net: Net, w: nat)
    requires Filed(net) && !net.q.quit && net.q.queueTasks != [] && w < |net.q.workers| && !net.q.workers[w].Executing?
    ensures exists v: nat :: CanMove(net, v)
  {
    var q := net.q;
    assert q.workers[w] in q.workers;
    hide T.ExactlyOnce;
    if q.workers[w] == T.AtTest {
      assert CanMove(net, w);
    } else if q.workers[w] == T.Acquiring {
      assert CanMove(net, w);
    } else {
      assert q.workers[w] == T.Blocked && T.Ready(q) >= 1;
      var v := T.SomeReady(q);
      assert CanMove(net, v);
    }
  }

  /** The stall, exactly. At any point of any run before shutdown with a write queued: no worker can move until some
      write completes, if and only if every worker waits for a socket that is busy. */
  lemma StalledExactly(sockets: nat, moves: seq<Move>)
    ensures var net := RunFrom(Opened(sockets), moves);
      !net.q.quit && net.q.queueTasks != [] ==>
        ((forall w: nat :: !CanMove(net, w)) <==> forall w: nat :: w < |net.q.workers| ==> Waits(net, w))
  {
    hide RunFrom, CanMove, Waits, Filed;
    RunFiled(sockets, moves);
    var net := RunFrom(Opened(sockets), moves);
    if !net.q.quit && net.q.queueTasks != [] {
      forall w: nat ensures w < |net.q.workers| && !Waits(net, w) ==> exists v: nat :: CanMove(net, v) {
        if w < |net.q.workers| && !Waits(net, w) { IdleMoves(net, w); }
      }
      forall w: nat ensures CanMove(net, w) ==> w < |net.q.workers| && !Waits(net, w) { MoverIsIdle(net, w); }
    }
  }

  lemma IdleMoves(net: Net, w: nat)
    requires Filed(net) && !net.q.quit && net.q.queueTasks != [] && w < |net.q.workers| && !Waits(net, w)
    ensures exists v: nat :: CanMove(net, v)
  {
    hide Filed;
    if net.q.workers[w].Executing? {
      ExecutingHolds(net, w);
      assert CanMove(net, w);
    } else {
      SomeoneMoves(net, w);
    }
  }

  lemma MoverIsIdle(net: Net, w: nat)
    ensures CanMove(net, w) ==> w < |net.q.workers| && !Waits(net, w)
  {
  }

  /** Every worker waits for this one socket. */
  predicate AllWaitFor(net: Net, socket: nat) {
    && socket < |net.lines| && net.lines[socket].write.Writing?
    && forall w: nat :: w < |net.q.workers| ==> Holds(net, w) && HeldJob(net, w).socket == socket
  }

  /** The write in flight on the socket does not end, and no worker is added. */
  predicate NoEnd(moves: seq<Move>, socket: nat) {
    forall m :: m in moves ==> m != OnLine(socket, W.Complete) && m != OnLine(socket, W.Fail) && m != OnQueue(T.Spawn)
  }

  lemma HoldsKept(net: Net, net': Net, w: nat)
    requires Holds(net, w) && w < |net'.q.workers| && net'.q.workers[w] == net.q.workers[w]
    requires net.q.taken <= net'.q.taken && net.jobs <= net'.jobs && |net'.lines| == |net.lines|
    ensures Holds(net', w) && HeldJob(net', w) == HeldJob(net, w)
  {
  }

  lemma NoStart(net: Net, w: nat, socket: nat)
    requires AllWaitFor(net, socket)
    ensures !Enabled(net, Start(w))
  {
  }

  lemma StepStalled(net: Net, move: Move, socket: nat)
    requires Filed(net) && AllWaitFor(net, socket)
    requires move != OnLine(socket, W.Complete) && move != OnLine(socket, W.Fail) && move != OnQueue(T.Spawn)
    ensures AllWaitFor(Step(net, move), socket)
    ensures Step(net, move).q.taken == net.q.taken && Step(net, move).q.workers == net.q.workers
  {
    hide Filed, Letters;
    if move.Start? { NoStart(net, move.worker, socket); }
    if Enabled(net, move) {
      var q, net' := net.q, Step(net, move);
      forall w | 0 <= w < |q.workers| ensures q.workers[w].Executing? { assert Holds(net, w); }
      match move {
        case Push(_, _, wake) =>
        case OnQueue(m) => StalledQueue(q, m);
        case OnLine(_, _) =>
      }
      forall w: nat | w < |q.workers| ensures Holds(net', w) && HeldJob(net', w).socket == socket {
        HoldsKept(net, net', w);
      }
    }
  }

  /** Workers that all execute leave the queue as it is. */
  lemma StalledQueue(q: T.Queue, m: T.Move)
    requires (forall p :: p in q.workers ==> p.Executing?) && T.Enabled(q, m) && !m.Push? && !m.Finish? && !m.Spawn?
    ensures T.Do(q, m).taken == q.taken && T.Do(q, m).workers == q.workers
  {
    assert forall w :: 0 <= w < |q.workers| ==> q.workers[w] in q.workers;
    if m.NotifyAll? { assert Column(q.workers, T.Woken) == q.workers; }
  }

  /** One client that stops reading stalls all: while the write to it does not end, nothing is popped from the queue
      for any socket, whatever else happens. */
  lemma {:induction false} StallLasts(net: Net, moves: seq<Move>, socket: nat)
    requires Filed(net) && AllWaitFor(net, socket) && NoEnd(moves, socket)
    ensures Filed(RunFrom(net, moves)) && AllWaitFor(RunFrom(net, moves), socket)
    ensures RunFrom(net, moves).q.taken == net.q.taken
  {
    if moves != [] {
      hide Filed, AllWaitFor, Step;
      var n := |moves| - 1;
      assert moves[n] in moves && forall m :: m in moves[..n] ==> m in moves;
      StallLasts(net, moves[..n], socket);
      StepStalled(RunFrom(net, moves[..n]), moves[n], socket);
      StepFiled(RunFrom(net, moves[..n]), moves[n]);
    }
  }

  lemma Then(net: Net, moves: seq<Move>, move: Move) returns (longer: seq<Move>)
    ensures longer == moves + [move] && RunFrom(net, longer) == Step(RunFrom(net, moves), move)
  {
    longer := moves + [move];
    assert longer[..|longer| - 1] == moves;
  }

  /** Before shutdown, with an empty queue: the first i workers wait for socket 0, the others are at their loop test. */
  ghost predicate FirstWait(net: Net, n: nat, i: nat) {
    && Filed(net) && i <= n == |net.q.workers| && |net.lines| == 2 && !net.q.quit && net.q.queueTasks == []
    && (forall w :: 0 <= w < i ==> Holds(net, w) && HeldJob(net, w).socket == 0)
    && (forall w :: i <= w < n ==> net.q.workers[w] == T.AtTest)
  }

  lemma SpawnOne(net: Net, n: nat)
    requires FirstWait(net, n, 0)
    ensures FirstWait(Step(net, OnQueue(T.Spawn)), n + 1, 0) && Step(net, OnQueue(T.Spawn)).lines == net.lines
  {
    hide Filed;
    StepFiled(net, OnQueue(T.Spawn));
  }

  lemma NoWorkers()
    ensures FirstWait(Opened(2), 0, 0) && RunFrom(Opened(2), []) == Opened(2)
  {
  }

  lemma {:induction false} SpawnAll(n: nat) returns (moves: seq<Move>)
    ensures FirstWait(RunFrom(Opened(2), moves), n, 0) && RunFrom(Opened(2), moves).lines == Opened(2).lines
  {
    hide RunFrom, FirstWait, Step;
    if n == 0 {
      moves := [];
      NoWorkers();
    } else {
      var before := SpawnAll(n - 1);
      moves := Then(Opened(2), before, OnQueue(T.Spawn));
      SpawnOne(RunFrom(Opened(2), before), n - 1);
    }
  }

  /** One more write to socket 0, and worker i takes it. */
  lemma OneMoreWaits(before: seq<Move>, n: nat, i: nat) returns (moves: seq<Move>)
    requires FirstWait(RunFrom(Opened(2), before), n, i) && i < n
    ensures FirstWait(RunFrom(Opened(2), moves), n, i + 1)
    ensures RunFrom(Opened(2), moves).lines == RunFrom(Opened(2), before).lines
  {
    hide RunFrom, FirstWait, Step;
    PushedAndTaken(RunFrom(Opened(2), before), n, i);
    moves := Then(Opened(2), before, Push(0, [1], None));
    moves := Then(Opened(2), moves, OnQueue(T.Test(i)));
    moves := Then(Opened(2), moves, OnQueue(T.Check(i)));
  }

  /** The queue through a push, a loop test and a pop by worker i. */
  lemma QueueThrough(q: T.Queue, task: T.Task, i: nat)
    requires T.Enabled(q, T.Push(task, None)) && !q.quit && q.queueTasks == [] && T.IsAt(q, i, T.AtTest)
    ensures var q1 := T.Do(q, T.Push(task, None));
      && T.Enabled(q1, T.Test(i))
      && var q2 := T.Do(q1, T.Test(i));
         && T.Enabled(q2, T.Check(i))
         && T.Do(q2, T.Check(i)) ==
              q.(pushed := q.pushed + [task], taken := q.taken + [T.Taken(task, i, T.InProgress)],
                 workers := q.workers[i := T.Executing(|q.taken|)])
  {
    var q1 := T.Do(q, T.Push(task, None));
    assert q1.queueTasks == [task] && q1.workers == q.workers;
    assert q.workers[i := T.Acquiring][i := T.Executing(|q.taken|)] == q.workers[i := T.Executing(|q.taken|)];
  }

  lemma PushedAndTaken(s: Net, n: nat, i: nat)
    requires FirstWait(s, n, i) && i < n
    ensures var s3 := Step(Step(Step(s, Push(0, [1], None)), OnQueue(T.Test(i))), OnQueue(T.Check(i)));
      FirstWait(s3, n, i + 1) && s3.lines == s.lines
  {
    hide Filed, Letters, T.Do;
    NobodySleeps(s, n, i);
    QueueThrough(s.q, |s.jobs|, i);
    var s1 := Step(s, Push(0, [1], None));
    var s2 := Step(s1, OnQueue(T.Test(i)));
    var s3 := Step(s2, OnQueue(T.Check(i)));
    StepFiled(s, Push(0, [1], None));
    StepFiled(s1, OnQueue(T.Test(i)));
    StepFiled(s2, OnQueue(T.Check(i)));
    assert Holds(s3, i) && HeldJob(s3, i).socket == 0;
    forall w | 0 <= w < i ensures Holds(s3, w) && HeldJob(s3, w).socket == 0 { HoldsKept(s, s3, w); }
  }

  lemma NobodySleeps(net: Net, n: nat, i: nat)
    requires FirstWait(net, n, i)
    ensures T.Deciding !in net.q.workers && T.Blocked !in net.q.workers
  {
    hide Filed;
    forall w | 0 <= w < i ensures net.q.workers[w].Executing? { assert Holds(net, w); }
  }

  lemma {:induction false} AllWait(before: seq<Move>, n: nat, i: nat) returns (moves: seq<Move>)
    requires FirstWait(RunFrom(Opened(2), before), n, i)
    ensures FirstWait(RunFrom(Opened(2), moves), n, n)
    ensures RunFrom(Opened(2), moves).lines == RunFrom(Opened(2), before).lines
    decreases n - i
  {
    if i == n {
      moves := before;
    } else {
      hide RunFrom, FirstWait;
      var longer := OneMoreWaits(before, n, i);
      moves := AllWait(longer, n, i + 1);
    }
  }

  /** Worker 0 starts a write to socket 0 and is back at its loop test. */
  lemma FirstWrite(before: seq<Move>, n: nat) returns (moves: seq<Move>)
    requires FirstWait(RunFrom(Opened(2), before), n, 0) && n > 0
    requires RunFrom(Opened(2), before).lines == Opened(2).lines
    ensures FirstWait(RunFrom(Opened(2), moves), n, 0) && RunFrom(Opened(2), moves).lines[0].write.Writing?
  {
    hide RunFrom, Filed, Letters;
    var taken := OneMoreWaits(before, n, 0);
    var s := RunFrom(Opened(2), taken);
    moves := Then(Opened(2), taken, Start(0));
    StepFiled(s, Start(0));
  }

  /** With all workers waiting, a message for socket 1 stays in the queue. */
  lemma QueuedForOther(s: Net, n: nat)
    requires FirstWait(s, n, n) && s.lines[0].write.Writing?
    ensures var net := Step(s, Push(1, [1], None));
      && |net.q.workers| == n && AllWaitFor(net, 0) && !net.q.quit && |net.lines| == 2
      && Letters(net.jobs, 1, net.q.queueTasks) != []
  {
    hide Filed, Letters;
    NobodySleeps(s, n, n);
    var net := Step(s, Push(1, [1], None));
    assert net.q.queueTasks == [|s.jobs|];
    LettersOne(net.jobs, 1, |s.jobs|);
    forall w: nat | w < n ensures Holds(net, w) && HeldJob(net, w).socket == 0 { HoldsKept(s, net, w); }
  }

  /** It takes one message more than there are workers: with any number of workers there is a run in which they all
      wait for socket 0, while a message for socket 1 is queued. */
  lemma OneClientStallsAll(n: nat) returns (moves: seq<Move>)
    requires n > 0
    ensures var net := RunFrom(Opened(2), moves);
      && |net.q.workers| == n && AllWaitFor(net, 0) && !net.q.quit
      && |net.lines| == 2 && View(net, 1).queued != []
  {
    hide RunFrom, FirstWait, AllWaitFor, Letters, Step;
    moves := SpawnAll(n);
    moves := FirstWrite(moves, n);
    moves := AllWait(moves, n, 0);
    QueuedForOther(RunFrom(Opened(2), moves), n);
    moves := Then(Opened(2), moves, Push(1, [1], None));
  }
}
