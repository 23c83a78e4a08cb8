/** The serialised writes of one session: tasks of the queue that take the socket's mutex, start an asynchronous
    write of the whole message, and give the mutex back in its completion handler. */
module Wire {
  import opened Basics

  /** A message with its number in the order of pushing. */
  datatype Letter = Letter(number: nat, bytes: seq<Byte>)

  datatype Write = NoWrite | Writing(letter: Letter, sent: nat)

  /** pushed: all messages so far; queued: tasks not yet popped; waiting: tasks popped by workers that have not got
      the mutex yet; finished: writes whose handler has run, with their success; bytes: what is on the socket. */
  datatype Socket = Socket(
    pushed: seq<Letter>,
    queued: seq<Letter>,
    waiting: seq<Letter>,
    write: Write,
    finished: seq<(Letter, bool)>,
    bytes: seq<Byte>,
    broken: bool)

  const OPEN := Socket([], [], [], NoWrite, [], [], false)

  datatype Move =
    | Push(bytes: seq<Byte>)
    | Pop                      // a worker takes the oldest queued write
    | Start(index: nat)        // one of the waiting workers gets the mutex
    | Send(count: nat)         // some bytes of the write in flight reach the socket
    | Complete                 // handler without error
    | Fail                     // handler with an error; the connection is lost

  predicate Enabled(workers: nat, s: Socket, move: Move) {
    match move
    case Push(_) => true
    case Pop => s.queued != [] && |s.waiting| < workers
    case Start(i) => s.write.NoWrite? && i < |s.waiting|
    case Send(k) => s.write.Writing? && !s.broken && 0 < k && s.write.sent + k <= |s.write.letter.bytes|
    case Complete => s.write.Writing? && !s.broken && s.write.sent == |s.write.letter.bytes|
    case Fail => s.write.Writing?
  }

  function Do(workers: nat, s: Socket, move: Move): Socket
    requires Enabled(workers, s, move)
  {
    match move
    case Push(bytes) =>
      var l := Letter(|s.pushed|, bytes);
      s.(pushed := s.pushed + [l], queued := s.queued + [l])
    case Pop => s.(queued := s.queued[1..], waiting := s.waiting + [s.queued[0]])
    case Start(i) => s.(write := Writing(s.waiting[i], 0), waiting := s.waiting[..i] + s.waiting[i + 1..])
    case Send(k) =>
      var from := s.write.sent;
      s.(bytes := s.bytes + s.write.letter.bytes[from..from + k], write := Writing(s.write.letter, from + k))
    case Complete => s.(write := NoWrite, finished := s.finished + [(s.write.letter, true)])
    case Fail => s.(write := NoWrite, finished := s.finished + [(s.write.letter, false)], broken := true)
  }

  function Step(workers: nat, s: Socket, move: Move): Socket {
    if Enabled(workers, s, move) then Do(workers, s, move) else s
  }

  function Run(workers: nat, moves: seq<Move>): Socket {
    if moves == [] then OPEN else Step(workers, Run(workers, moves[..|moves| - 1]), moves[|moves| - 1])
  }

  /** The messages written completely, in order. */
  function Delivered(finished: seq<(Letter, bool)>): seq<Letter> {
    if finished == [] then []
    else
      var last := finished[|finished| - 1];
      Delivered(finished[..|finished| - 1]) + if last.1 then [last.0] else []
  }

  function Concat(letters: seq<Letter>): seq<Byte> {
    if letters == [] then [] else Concat(letters[..|letters| - 1]) + letters[|letters| - 1].bytes
  }

  lemma FinishedSnoc(finished: seq<(Letter, bool)>, l: Letter, ok: bool)
    ensures Delivered(finished + [(l, ok)]) == Delivered(finished) + if ok then [l] else []
    ensures Concat(Delivered(finished) + [l]) == Concat(Delivered(finished)) + l.bytes
  {
    assert (finished + [(l, ok)])[..|finished|] == finished;
    assert (Delivered(finished) + [l])[..|Delivered(finished)|] == Delivered(finished);
  }

  /** What the socket carries after the complete messages: a prefix of one message, that of the write in flight or,
      on a lost connection, of a write that failed. */
  ghost predicate TailIsPrefix(s: Socket, tail: seq<Byte>) {
    if s.broken then exists l :: (l, false) in s.finished && tail <= l.bytes
    else if s.write.Writing? then
      s.write.sent <= |s.write.letter.bytes| && tail == s.write.letter.bytes[..s.write.sent]
    else tail == []
  }

  ghost predicate WholeMessages(s: Socket) {
    exists tail :: SplitsAt(s, tail)
  }

  /** Every pushed message is in exactly one place: queued, popped, in flight or finished. */
  function InFlight(s: Socket): multiset<Letter> { if s.write.Writing? then multiset{s.write.letter} else multiset{} }

  function LettersOf(finished: seq<(Letter, bool)>): seq<Letter> { Column(finished, (x: (Letter, bool)) => x.0) }

  predicate EachOnce(s: Socket) {
    && multiset(s.queued) + multiset(s.waiting) + InFlight(s) + multiset(LettersOf(s.finished)) == multiset(s.pushed)
    && forall i :: 0 <= i < |s.pushed| ==> s.pushed[i].number == i
  }

  lemma PushEachOnce(s: Socket, bytes: seq<Byte>)
    requires EachOnce(s)
    ensures EachOnce(Do(1, s, Push(bytes)))
  {
  }

  lemma PopEachOnce(s: Socket)
    requires EachOnce(s) && s.queued != []
    ensures EachOnce(s.(queued := s.queued[1..], waiting := s.waiting + [s.queued[0]]))
  {
    assert s.queued == [s.queued[0]] + s.queued[1..];
  }

  lemma StartEachOnce(s: Socket, i: nat)
    requires EachOnce(s) && s.write.NoWrite? && i < |s.waiting|
    ensures EachOnce(s.(write := Writing(s.waiting[i], 0), waiting := s.waiting[..i] + s.waiting[i + 1..]))
  {
    assert s.waiting == s.waiting[..i] + [s.waiting[i]] + s.waiting[i + 1..];
  }

  lemma EndEachOnce(s: Socket, ok: bool, broken: bool)
    requires EachOnce(s) && s.write.Writing?
    ensures EachOnce(s.(write := NoWrite, finished := s.finished + [(s.write.letter, ok)], broken := broken))
  {
    LettersSnoc(s.finished, s.write.letter, ok);
    hide LettersOf;
  }

  lemma LettersSnoc(finished: seq<(Letter, bool)>, l: Letter, ok: bool)
    ensures LettersOf(finished + [(l, ok)]) == LettersOf(finished) + [l]
  {
  }

  lemma SendEachOnce(s: Socket, workers: nat, move: Move)
    requires EachOnce(s) && move.Send?
    ensures EachOnce(Step(workers, s, move))
  {
    if Enabled(workers, s, move) {
      var s' := Do(workers, s, move);
      assert InFlight(s') == InFlight(s);
    }
  }

  lemma StepEachOnce(workers: nat, s: Socket, move: Move)
    requires EachOnce(s)
    ensures EachOnce(Step(workers, s, move))
  {
    if move.Send? { SendEachOnce(s, workers, move); }
    hide EachOnce;
    if Enabled(workers, s, move) {
      match move
      case Push(bytes) => PushEachOnce(s, bytes);
      case Pop => PopEachOnce(s);
      case Start(i) => StartEachOnce(s, i);
      case Send(_) =>
      case Complete => EndEachOnce(s, true, s.broken);
      case Fail => EndEachOnce(s, false, true);
    }
  }

  /** The bytes split into whole messages and this tail. */
  ghost predicate SplitsAt(s: Socket, tail: seq<Byte>) {
    s.bytes == Concat(Delivered(s.finished)) + tail && TailIsPrefix(s, tail)
  }

  lemma SendKeepsWhole(s: Socket, k: nat, tail: seq<Byte>)
    requires SplitsAt(s, tail) && Enabled(1, s, Send(k))
    ensures SplitsAt(Do(1, s, Send(k)), tail + s.write.letter.bytes[s.write.sent..s.write.sent + k])
  {
    hide Concat, Delivered;
    var more := s.write.letter.bytes[s.write.sent..s.write.sent + k];
    assert tail + more == s.write.letter.bytes[..s.write.sent + k];
    assert s.bytes + more == Concat(Delivered(s.finished)) + (tail + more);
  }

  lemma CompleteKeepsWhole(s: Socket, tail: seq<Byte>)
    requires SplitsAt(s, tail) && Enabled(1, s, Complete)
    ensures SplitsAt(Do(1, s, Complete), [])
  {
    hide Concat, Delivered, TailIsPrefix;
    var l, s' := s.write.letter, Do(1, s, Complete);
    CompleteTail(s, tail);
    FinishedSnoc(s.finished, l, true);
    var whole := Concat(Delivered(s'.finished));
    assert s'.bytes == whole;
    assert whole + [] == whole;
    NoTail(s');
  }

  /** When a write completes its whole message is on the socket. */
  lemma CompleteTail(s: Socket, tail: seq<Byte>)
    requires TailIsPrefix(s, tail) && Enabled(1, s, Complete)
    ensures tail == s.write.letter.bytes
  {
    assert tail == s.write.letter.bytes[..|s.write.letter.bytes|];
  }

  lemma NoTail(s: Socket)
    requires !s.broken && s.write.NoWrite?
    ensures TailIsPrefix(s, [])
  {
  }

  /** When a write fails the tail is a prefix of its message, or of one that failed before. */
  lemma TailOfFailed(s: Socket, tail: seq<Byte>)
    requires s.write.Writing? && TailIsPrefix(s, tail)
    ensures exists l :: (l, false) in s.finished + [(s.write.letter, false)] && tail <= l.bytes
  {
    if s.broken {
      var l :| (l, false) in s.finished && tail <= l.bytes;
      assert (l, false) in s.finished + [(s.write.letter, false)];
    } else {
      assert (s.write.letter, false) in s.finished + [(s.write.letter, false)] && tail <= s.write.letter.bytes;
    }
  }

  lemma FailKeepsWhole(s: Socket, tail: seq<Byte>)
    requires SplitsAt(s, tail) && s.write.Writing?
    ensures SplitsAt(Do(1, s, Fail), tail)
  {
    FinishedSnoc(s.finished, s.write.letter, false);
    hide Concat, Delivered;
    var l, s' := s.write.letter, Do(1, s, Fail);
    assert s'.finished == s.finished + [(l, false)] && s'.bytes == s.bytes && s'.broken;
    assert Delivered(s'.finished) == Delivered(s.finished);
    TailOfFailed(s, tail);
    assert TailIsPrefix(s', tail);
  }

  lemma PushKeepsWhole(s: Socket, bytes: seq<Byte>, tail: seq<Byte>)
    requires SplitsAt(s, tail)
    ensures SplitsAt(Do(1, s, Push(bytes)), tail)
  {
    hide Concat, Delivered;
  }

  lemma StepWholeMessages(workers: nat, s: Socket, move: Move)
    requires WholeMessages(s)
    ensures WholeMessages(Step(workers, s, move))
  {
    hide EachOnce, Concat, Delivered;
    var tail :| SplitsAt(s, tail);
    if Enabled(workers, s, move) {
      var s' := Do(workers, s, move);
      match move
      case Push(bytes) => PushKeepsWhole(s, bytes, tail);
      case Pop => assert SplitsAt(s', tail);
      case Start(i) => assert SplitsAt(s', tail);
      case Send(k) => SendKeepsWhole(s, k, tail);
      case Complete => CompleteKeepsWhole(s, tail);
      case Fail => FailKeepsWhole(s, tail);
    }
  }

  /** No interleaving on the wire. With any number of workers, any order in which they get the mutex and any
      chunking of the writes, the bytes on the socket are always the concatenation of whole messages followed by a
      prefix of at most one more, and every pushed message is in exactly one place. */
  lemma {:induction false} WireIsWhole(workers: nat, moves: seq<Move>)
    ensures EachOnce(Run(workers, moves)) && WholeMessages(Run(workers, moves))
  {
    if moves != [] {
      hide EachOnce, WholeMessages, Step;
      var n := |moves| - 1;
      WireIsWhole(workers, moves[..n]);
      StepEachOnce(workers, Run(workers, moves[..n]), moves[n]);
      StepWholeMessages(workers, Run(workers, moves[..n]), moves[n]);
    } else {
      assert SplitsAt(OPEN, []);
    }
  }

  /** How often the writes of a message have finished. */
  function Times(finished: seq<(Letter, bool)>, l: Letter): nat { multiset(LettersOf(finished))[l] }

  lemma TimesSnoc(finished: seq<(Letter, bool)>, x: (Letter, bool), l: Letter)
    ensures Times(finished + [x], l) == Times(finished, l) + if x.0 == l then 1 else 0
  {
    LettersSnoc(finished, x.0, x.1);
    assert x == (x.0, x.1);
    hide LettersOf;
  }

  /** A delivered message has finished, and one that failed as well has finished twice. */
  lemma {:induction false} DeliveredAndFailed(finished: seq<(Letter, bool)>, l: Letter)
    ensures l in Delivered(finished) || (l, false) in finished ==> Times(finished, l) >= 1
    ensures l in Delivered(finished) && (l, false) in finished ==> Times(finished, l) >= 2
  {
    hide Times, Concat;
    if finished != [] {
      hide Delivered;
      var n := |finished| - 1;
      var init, last := finished[..n], finished[n];
      assert finished == init + [last] && last == (last.0, last.1);
      DeliveredAndFailed(init, l);
      TimesSnoc(init, last, l);
      FinishedSnoc(init, last.0, last.1);
    } else {
      assert Delivered(finished) == [];
    }
  }

  /** A message that failed was not delivered: the tail of a lost connection is no part of a delivered message. */
  lemma {:induction false} FailedNotDelivered(workers: nat, moves: seq<Move>, l: Letter)
    requires (l, false) in Run(workers, moves).finished
    ensures l !in Delivered(Run(workers, moves).finished) && l in Run(workers, moves).pushed
  {
    hide Run, Delivered, Concat;
    var s := Run(workers, moves);
    WireIsWhole(workers, moves);
    DeliveredAndFailed(s.finished, l);
    NumbersOnce(s.pushed);
    hide LettersOf;
    assert Times(s.finished, l) <= multiset(s.pushed)[l] <= 1;
    assert l in multiset(s.pushed);
  }

  /** A message is delivered at most once. */
  lemma {:induction false} DeliveredOnce(workers: nat, moves: seq<Move>)
    ensures var s := Run(workers, moves);
      forall l :: multiset(Delivered(s.finished))[l] <= multiset(s.pushed)[l] <= 1
  {
    hide Run;
    var s := Run(workers, moves);
    WireIsWhole(workers, moves);
    DeliveredAmong(s.finished);
    NumbersOnce(s.pushed);
  }

  lemma {:induction false} DeliveredAmong(finished: seq<(Letter, bool)>)
    ensures multiset(Delivered(finished)) <= multiset(LettersOf(finished))
  {
    if finished != [] {
      var n := |finished| - 1;
      hide LettersOf, Delivered, Concat;
      assert finished == finished[..n] + [finished[n]];
      DeliveredAmong(finished[..n]);
      LettersSnoc(finished[..n], finished[n].0, finished[n].1);
      FinishedSnoc(finished[..n], finished[n].0, finished[n].1);
    }
  }

  lemma {:induction false} NumbersOnce(pushed: seq<Letter>)
    requires forall i :: 0 <= i < |pushed| ==> pushed[i].number == i
    ensures forall l :: multiset(pushed)[l] <= 1
  {
    if pushed != [] {
      var n := |pushed| - 1;
      NumbersOnce(pushed[..n]);
      assert pushed == pushed[..n] + [pushed[n]];
      assert forall i :: 0 <= i < n ==> pushed[i] != pushed[n];
      assert pushed[n] !in pushed[..n];
      assert multiset(pushed)[pushed[n]] == 1;
    }
  }

  // ---------- order ----------

  function Flying(s: Socket): seq<Letter> { if s.write.Writing? then [s.write.letter] else [] }

  /** Writes finish in the order of pushing. */
  predicate InPushOrder(s: Socket) { LettersOf(s.finished) <= s.pushed }

  /** With one worker the places of the messages, read in turn, are the push order. */
  predicate Lined(s: Socket) {
    && |s.waiting| <= 1
    && LettersOf(s.finished) + Flying(s) + s.waiting + s.queued == s.pushed
  }

  lemma EndLined(s: Socket, ok: bool, broken: bool)
    requires Lined(s) && s.write.Writing?
    ensures Lined(s.(write := NoWrite, finished := s.finished + [(s.write.letter, ok)], broken := broken))
  {
    LettersSnoc(s.finished, s.write.letter, ok);
    hide LettersOf;
    assert LettersOf(s.finished) + [s.write.letter] + [] + s.waiting + s.queued == s.pushed;
  }

  lemma PushLined(s: Socket, bytes: seq<Byte>)
    requires Lined(s)
    ensures Lined(Do(1, s, Push(bytes)))
  {
    hide LettersOf;
    var front, l := LettersOf(s.finished) + Flying(s) + s.waiting, Letter(|s.pushed|, bytes);
    assert front + (s.queued + [l]) == (front + s.queued) + [l];
  }

  lemma PopLined(s: Socket)
    requires Lined(s) && Enabled(1, s, Pop)
    ensures Lined(Do(1, s, Pop))
  {
    hide LettersOf;
    var front, head, rest := LettersOf(s.finished) + Flying(s), s.queued[0], s.queued[1..];
    assert s.waiting == [] && s.queued == [head] + rest;
    assert front + s.waiting == front;
    assert s.waiting + [head] == [head];
    assert front + ([head] + rest) == (front + [head]) + rest;
  }

  lemma StartLined(s: Socket, i: nat)
    requires Lined(s) && Enabled(1, s, Start(i))
    ensures Lined(Do(1, s, Start(i)))
  {
    hide LettersOf;
    var done, l := LettersOf(s.finished), s.waiting[i];
    assert i == 0 && s.waiting == [l];
    assert s.waiting[..i] + s.waiting[i + 1..] == [];
    assert done + Flying(s) == done;
    assert (done + [l]) + [] == done + [l];
  }

  lemma StepLined(s: Socket, move: Move)
    requires Lined(s)
    ensures Lined(Step(1, s, move))
  {
    if Enabled(1, s, move) {
      match move
      case Push(bytes) => hide Lined; PushLined(s, bytes);
      case Pop => hide Lined; PopLined(s);
      case Start(i) => hide Lined; StartLined(s, i);
      case Send(_) => hide LettersOf;
      case Complete => hide Lined; EndLined(s, true, s.broken);
      case Fail => hide Lined; EndLined(s, false, true);
    }
  }

  lemma {:induction false} OneWorkerLined(moves: seq<Move>)
    ensures Lined(Run(1, moves))
  {
    if moves != [] {
      hide Lined, Step;
      OneWorkerLined(moves[..|moves| - 1]);
      StepLined(Run(1, moves[..|moves| - 1]), moves[|moves| - 1]);
    }
  }

  lemma {:induction false} NoWorkerNoWrite(moves: seq<Move>)
    ensures Run(0, moves).waiting == [] && Run(0, moves).write.NoWrite? && Run(0, moves).finished == []
  {
    if moves != [] { NoWorkerNoWrite(moves[..|moves| - 1]); }
  }

  lemma Then(workers: nat, moves: seq<Move>, move: Move) returns (longer: seq<Move>)
    ensures longer == moves + [move] && Run(workers, longer) == Step(workers, Run(workers, moves), move)
  {
    longer := moves + [move];
    assert longer[..|longer| - 1] == moves;
  }

  lemma SecondFirst(s: Socket, a: Letter, b: Letter)
    requires s.pushed == [a, b] && s.finished == [(b, true)] && a != b
    ensures !InPushOrder(s)
  {
    assert LettersOf(s.finished)[0] == b;
  }

  const ONE := Letter(0, [1])
  const TWO := Letter(1, [2])

  /** Both messages are in the hands of workers. */
  lemma BothPopped(workers: nat)
    requires workers >= 2
    ensures Run(workers, [Push([1]), Push([2]), Pop, Pop]) == OPEN.(pushed := [ONE, TWO], waiting := [ONE, TWO])
  {
    assert Run(workers, []) == OPEN;
    hide Run;
    var m := Then(workers, [], Push([1]));
    m := Then(workers, m, Push([2]));
    m := Then(workers, m, Pop);
    m := Then(workers, m, Pop);
    assert m == [Push([1]), Push([2]), Pop, Pop];
  }

  /** The second message gets the mutex first. */
  lemma SecondStarts(workers: nat, s: Socket)
    requires s == OPEN.(pushed := [ONE, TWO], waiting := [ONE, TWO])
    ensures Step(workers, s, Start(1)) == s.(write := Writing(TWO, 0), waiting := [ONE])
  {
    assert s.waiting[..1] + s.waiting[2..] == [ONE];
  }

  /** A message of one byte is sent and completes. */
  lemma SentWhole(workers: nat, s: Socket, l: Letter)
    requires s.write == Writing(l, 0) && !s.broken && |l.bytes| == 1
    ensures Step(workers, Step(workers, s, Send(1)), Complete) ==
              s.(bytes := s.bytes + l.bytes, write := NoWrite, finished := s.finished + [(l, true)])
  {
    assert l.bytes[0..1] == l.bytes;
  }

  /** With two workers the second message can overtake the first. */
  lemma Overtaking(workers: nat)
    requires workers >= 2
    ensures !InPushOrder(Run(workers, [Push([1]), Push([2]), Pop, Pop, Start(1), Send(1), Complete]))
  {
    hide InPushOrder, Run, Step;
    BothPopped(workers);
    var m := [Push([1]), Push([2]), Pop, Pop];
    SecondStarts(workers, Run(workers, m));
    m := Then(workers, m, Start(1));
    SentWhole(workers, Run(workers, m), TWO);
    m := Then(workers, m, Send(1));
    m := Then(workers, m, Complete);
    assert m == [Push([1]), Push([2]), Pop, Pop, Start(1), Send(1), Complete];
    assert [] + [(TWO, true)] == [(TWO, true)];
    SecondFirst(Run(workers, m), ONE, TWO);
  }

  /** Messages to one session are written in the order they were pushed in every run, if and only if the queue has
      at most one worker. The server starts four. */
  lemma OrderIffOneWorker(workers: nat)
    ensures (forall moves :: InPushOrder(Run(workers, moves))) <==> workers <= 1
  {
    hide Run, InPushOrder;
    if workers <= 1 {
      forall moves ensures InPushOrder(Run(workers, moves)) {
        if workers == 1 { OneWorkerLined(moves); LinedInOrder(Run(1, moves)); }
        else { NoWorkerNoWrite(moves); NothingFinished(Run(0, moves)); }
      }
    } else {
      Overtaking(workers);
    }
  }

  lemma LinedInOrder(s: Socket)
    requires Lined(s)
    ensures InPushOrder(s)
  {
  }

  lemma NothingFinished(s: Socket)
    requires s.finished == []
    ensures InPushOrder(s)
  {
  }

  // ---------- the writer object ----------

  /** Both invariants are kept by every move. */
  lemma Keeps(workers: nat, s: Socket, move: Move)
    requires EachOnce(s) && WholeMessages(s)
    ensures EachOnce(Step(workers, s, move)) && WholeMessages(Step(workers, s, move))
  {
    hide EachOnce, WholeMessages, Step;
    StepEachOnce(workers, s, move);
    StepWholeMessages(workers, s, move);
  }

  /** What an unbroken connection carries: the delivered messages and what was sent of the write in flight. */
  function Carried(s: Socket): seq<Byte> {
    Concat(Delivered(s.finished)) +
    if s.write.Writing? && s.write.sent <= |s.write.letter.bytes| then s.write.letter.bytes[..s.write.sent] else []
  }

  lemma UnbrokenCarries(s: Socket)
    requires WholeMessages(s) && !s.broken
    ensures s.bytes == Carried(s)
  {
    hide Concat, Delivered;
    var tail :| SplitsAt(s, tail);
  }

  /** SocketWriter over one socket; the queue's part is its own messages, in order. The bytes of a message are
      assumed to stay alive until its handler runs. Every method keeps each message in one place and the bytes on the
      socket whole. */
  class SocketWriter {
    var queued: seq<Letter>
    var waiting: seq<Letter>
    var mutexHeldFor: Write
    var wire: seq<Byte>
    var broken: bool
    ghost var pushed: seq<Letter>
    ghost var finished: seq<(Letter, bool)>
    var next: nat

    ghost predicate Valid()
      reads this
    {
      next == |pushed| && EachOnce(View()) && WholeMessages(View())
    }

    ghost function View(): Socket
      reads this
    {
      Socket(pushed, queued, waiting, mutexHeldFor, finished, wire, broken)
    }

    constructor ()
      ensures Valid() && View() == OPEN
    {
      queued, waiting, mutexHeldFor, wire, broken, pushed, finished, next := [], [], NoWrite, [], false, [], [], 0;
      new;
      assert SplitsAt(OPEN, []);
    }

    /** write(): the message is moved into a task of the queue. */
    method PushWrite(message: seq<Byte>)
      requires Valid()
      modifies this`queued, this`pushed, this`next
      ensures Valid() && forall workers :: View() == Step(workers, old(View()), Push(message))
    {
      hide EachOnce, WholeMessages;
      Keeps(1, View(), Push(message));
      queued := queued + [Letter(next, message)];
      pushed := pushed + [Letter(next, message)];
      next := next + 1;
    }

    /** A worker pops the oldest queued write and enters writeImpl_. */
    method EnterWriteImpl(ghost workers: nat)
      requires Valid() && Enabled(workers, View(), Pop)
      modifies this`queued, this`waiting
      ensures Valid() && View() == Step(workers, old(View()), Pop)
    {
      hide EachOnce, WholeMessages;
      Keeps(workers, View(), Pop);
      waiting := waiting + [queued[0]];
      queued := queued[1..];
    }

    /** writeImpl_ gets the mutex, hands it to the completion handler and starts the asynchronous write. On an
        unbroken connection the socket carries whole messages only at that moment. */
    method LockAndStart(i: nat, ghost workers: nat)
      requires Valid() && Enabled(workers, View(), Start(i))
      modifies this`mutexHeldFor, this`waiting
      ensures Valid() && View() == Step(workers, old(View()), Start(i))
      ensures !broken ==> wire == Concat(Delivered(finished))
    {
      hide EachOnce, WholeMessages, Concat, Delivered;
      if !broken { UnbrokenCarries(View()); }
      Keeps(workers, View(), Start(i));
      mutexHeldFor := Writing(waiting[i], 0);
      waiting := waiting[..i] + waiting[i + 1..];
    }

    /** The socket accepts some bytes of the write in flight: it carries the delivered messages and what was sent of
        this one. */
    method Transfer(count: nat, ghost workers: nat)
      requires Valid() && Enabled(workers, View(), Send(count))
      modifies this`wire, this`mutexHeldFor
      ensures Valid() && View() == Step(workers, old(View()), Send(count))
      ensures mutexHeldFor.Writing? && mutexHeldFor.sent <= |mutexHeldFor.letter.bytes|
      ensures wire == Concat(Delivered(finished)) + mutexHeldFor.letter.bytes[..mutexHeldFor.sent]
    {
      hide EachOnce, WholeMessages, Concat, Delivered;
      Keeps(workers, View(), Send(count));
      var letter, from := mutexHeldFor.letter, mutexHeldFor.sent;
      wire := wire + letter.bytes[from..from + count];
      mutexHeldFor := Writing(letter, from + count);
      UnbrokenCarries(View());
    }

    /** The completion handler releases the mutex first and then logs the outcome. After a success the socket carries
        whole messages only. */
    method Handler(failed: bool, ghost workers: nat)
      requires Valid() && Enabled(workers, View(), if failed then Fail else Complete)
      modifies this`finished, this`mutexHeldFor, this`broken
      ensures Valid() && View() == Step(workers, old(View()), if failed then Fail else Complete)
      ensures !failed ==> wire == Concat(Delivered(finished))
    {
      hide EachOnce, WholeMessages, Concat, Delivered;
      Keeps(workers, View(), if failed then Fail else Complete);
      finished := finished + [(mutexHeldFor.letter, !failed)];
      mutexHeldFor := NoWrite;
      if failed { broken := true; } else { UnbrokenCarries(View()); }
    }
  }
}
