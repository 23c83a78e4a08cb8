/** Overlapping joins of one client: how many subscription rows they leave. */
module JoinRace {
  import opened Basics
  import opened Schema
  import opened ChatModel
  import opened Interleaving

  /** The subscription rows of a client and a channel. */
  function Rows(t: Tables, client: Id, id: Id): nat {
    |Where(t.subscriptions, (r: SubscriptionRow) => r == SubscriptionRow(client, id))|
  }

  /** A join of this client and this channel that is not over. */
  predicate Unfinished(th: Thread, client: Id, name: string) {
    th.kind == Joining(client) && th.name == name && !th.pc.Done? && !th.pc.Failed?
  }

  function Open(threads: seq<Thread>, client: Id, name: string): nat {
    |Where(threads, (th: Thread) => Unfinished(th, client, name))|
  }

  /** The joins of this client and this channel begun by these moves. */
  function JoinsBegun(moves: seq<Move>, client: Id, name: string): nat {
    |Where(moves, (m: Move) => m == Begin(Joining(client), name))|
  }

  lemma RowsAfterInsert(t: Tables, c: Id, i: Id, client: Id, id: Id)
    ensures Rows(InsertSubscription(t, c, i), client, id) ==
              Rows(t, client, id) + if c == client && i == id then 1 else 0
  {
    WhereSnoc(t.subscriptions, SubscriptionRow(c, i), (r: SubscriptionRow) => r == SubscriptionRow(client, id));
  }

  lemma SubscribedIffRow(t: Tables, client: Id, id: Id)
    ensures HasChannelClient(t, id, client) <==> Rows(t, client, id) >= 1
  {
    var rows := Where(t.subscriptions, (r: SubscriptionRow) => r == SubscriptionRow(client, id));
    if HasChannelClient(t, id, client) { assert SubscriptionRow(client, id) in rows; }
    if |rows| >= 1 { assert rows[0] in rows; }
  }

  lemma OpenAfter(threads: seq<Thread>, t: nat, th: Thread, client: Id, name: string)
    requires t < |threads|
    ensures Open(threads[t := th], client, name) == Open(threads, client, name)
              - (if Unfinished(threads[t], client, name) then 1 else 0)
              + (if Unfinished(th, client, name) then 1 else 0)
  {
    hide Unfinished;
    var p := (x: Thread) => Unfinished(x, client, name);
    var a, b := threads[..t], threads[t + 1..];
    assert threads == a + [threads[t]] + b && threads[t := th] == a + [th] + b;
    WhereConcat(a + [threads[t]], b, p);
    WhereConcat(a + [th], b, p);
    WhereSnoc(a, threads[t], p);
    WhereSnoc(a, th, p);
  }

  // ---------- each join inserts at most one row ----------

  function Potential(s: Shared, client: Id, name: string): nat {
    Rows(s.db, client, GetChannelId(s.db, name)) + Open(s.threads, client, name)
  }

  lemma SameRows(t: Tables, t': Tables, client: Id, id: Id)
    requires t'.subscriptions == t.subscriptions
    ensures Rows(t', client, id) == Rows(t, client, id)
  {
  }

  lemma AdvancePotential(s: Shared, t: nat, known: bool, client: Id, name: string)
    requires Inv(s) && Settled(s.db, name) && t < |s.threads|
    ensures Potential(Advance(s, t, known), client, name) <= Potential(s, client, name)
  {
    hide Inv, Advance, Rows, Open, Settled, GetChannelId, InsertSubscription;
    var s', th, id := Advance(s, t, known), s.threads[t], GetChannelId(s.db, name);
    AdvanceKeeps(s, t, known);
    SameChannelTable(s.db, s'.db, name, NO_ID);
    StepOfThread(s, t, known);
    StepOfSubscriptions(s, t, known);
    OpenAfter(s.threads, t, s'.threads[t], client, name);
    if th.pc.JoinInsert? && th.kind.Joining? {
      RowsAfterInsert(s.db, th.kind.client, th.pc.id, client, id);
      InsertsForItsName(s, t, name);
    } else {
      SameRows(s.db, s'.db, client, id);
    }
  }

  /** A thread that inserts for the id of a settled name was asked to join that name. */
  lemma InsertsForItsName(s: Shared, t: nat, name: string)
    requires Inv(s) && Settled(s.db, name) && t < |s.threads| && s.threads[t].pc.JoinInsert?
    ensures s.threads[t].pc.id == GetChannelId(s.db, name) <==> s.threads[t].name == name
  {
    hide Inv, GetChannelId, GetChannelName, HasChannel, Members;
    InvThreadOk(s, t);
  }

  lemma StepPotential(s: Shared, move: Move, client: Id, name: string)
    requires Inv(s) && Settled(s.db, name)
    ensures Potential(Step(s, move), client, name) <=
              Potential(s, client, name) + if move == Begin(Joining(client), name) then 1 else 0
  {
    hide Inv, Advance, Rows, Settled, GetChannelId;
    match move
    case Begin(kind, other) =>
      WhereSnoc(s.threads, Thread(kind, other, AskHas), (th: Thread) => Unfinished(th, client, name));
    case Go(t, known) => if t < |s.threads| { AdvancePotential(s, t, known, client, name); }
  }

  lemma {:induction false} RunPotential(s: Shared, moves: seq<Move>, client: Id, name: string)
    requires Inv(s) && NamesSettled(s.db, moves) && Settled(s.db, name)
    ensures Potential(RunFrom(s, moves), client, name) <= Potential(s, client, name) + JoinsBegun(moves, client, name)
  {
    hide Inv, RunFrom, Step, Settled, Potential, NamesSettled, JoinsBegun;
    if moves != [] {
      var n := |moves| - 1;
      var init, move := moves[..n], moves[n];
      assert moves == init + [move];
      NamesSettledInit(s.db, init, [move]);
      RunPotential(s, init, client, name);
      RunKeeps(s, init);
      RunSnoc(s, moves);
      var mid := RunFrom(s, init);
      SameChannelTable(s.db, mid.db, name, NO_ID);
      StepPotential(mid, move, client, name);
      JoinsSnoc(init, move, client, name);
    } else {
      assert RunFrom(s, moves) == s by { RunNothing(s); }
    }
  }

  lemma JoinsSnoc(init: seq<Move>, move: Move, client: Id, name: string)
    ensures JoinsBegun(init + [move], client, name) ==
              JoinsBegun(init, client, name) + if move == Begin(Joining(client), name) then 1 else 0
  {
    WhereSnoc(init, move, (m: Move) => m == Begin(Joining(client), name));
  }

  /** In every interleaving a client has at most as many new rows for a channel as it began joins. */
  lemma RowsAtMostJoins(s: Shared, moves: seq<Move>, client: Id, name: string)
    requires Idle(s) && NamesSettled(s.db, moves) && Settled(s.db, name)
    ensures var id := GetChannelId(s.db, name);
      Rows(RunFrom(s, moves).db, client, id) <= Rows(s.db, client, id) + JoinsBegun(moves, client, name)
  {
    hide RunFrom, Rows, Open, Settled, GetChannelId, JoinsBegun, Inv;
    IdleInv(s);
    RunKeeps(s, moves);
    RunPotential(s, moves, client, name);
    SameChannelTable(s.db, RunFrom(s, moves).db, name, NO_ID);
    NoneOpen(client, name);
  }

  lemma NoneOpen(client: Id, name: string)
    ensures Open([], client, name) == 0
  {
  }

  // ---------- a subscriber gets no second row ----------

  /** The client is subscribed and no join of it stands before its INSERT. */
  predicate NoSecondInsert(s: Shared, client: Id, id: Id) {
    && HasChannelClient(s.db, id, client)
    && forall th :: th in s.threads && th.kind == Joining(client) && th.pc.JoinInsert? ==> th.pc.id != id
  }

  lemma StepNoSecondInsert(s: Shared, move: Move, client: Id, id: Id)
    requires NoSecondInsert(s, client, id)
    ensures NoSecondInsert(Step(s, move), client, id) && Rows(Step(s, move).db, client, id) == Rows(s.db, client, id)
  {
    hide Advance, Rows, GetChannelId, InsertSubscription;
    match move
    case Begin(_, _) =>
    case Go(t, known) =>
      if t < |s.threads| {
        var s', th := Advance(s, t, known), s.threads[t];
        assert th in s.threads;
        StepOfThread(s, t, known);
        StepOfSubscriptions(s, t, known);
        if !th.pc.JoinInsert? { InsertOnlyIfAbsent(s, t, known); }
        if th.pc.JoinInsert? && th.kind.Joining? {
          RowsAfterInsert(s.db, th.kind.client, th.pc.id, client, id);
          SubscribedIffRow(s.db, client, id);
          SubscribedIffRow(s'.db, client, id);
        } else {
          SameRows(s.db, s'.db, client, id);
        }
      }
  }

  lemma InsertOnlyIfAbsent(s: Shared, t: nat, known: bool)
    requires t < |s.threads| && !s.threads[t].pc.JoinInsert?
    ensures var th := Advance(s, t, known).threads[t];
      th.pc.JoinInsert? && th.kind.Joining? ==> !HasChannelClient(s.db, th.pc.id, th.kind.client)
  {
    hide HasChannel, GetChannelId, GetClientId, GetChannelUsers, HasChannelClient, InsertChannel, InsertHistory,
         InsertSubscription, Refused, Elements;
    if !s.threads[t].pc.JoinHas? { OthersDoNotInsert(s, t, known); hide Advance; }
  }

  lemma OthersDoNotInsert(s: Shared, t: nat, known: bool)
    requires t < |s.threads| && !s.threads[t].pc.JoinInsert? && !s.threads[t].pc.JoinHas?
    ensures !Advance(s, t, known).threads[t].pc.JoinInsert?
  {
    hide HasChannel, GetChannelId, GetClientId, GetChannelUsers, HasChannelClient, InsertChannel, InsertHistory,
         InsertSubscription;
    match s.threads[t].pc
    case Loaded(_, _) =>
    case Build(_) =>
    case Adding(_) =>
    case Storing(_, _) =>
    case _ =>
  }

  lemma {:induction false} SubscriberKeepsRows(s: Shared, moves: seq<Move>, client: Id, id: Id)
    requires NoSecondInsert(s, client, id)
    ensures NoSecondInsert(RunFrom(s, moves), client, id)
    ensures Rows(RunFrom(s, moves).db, client, id) == Rows(s.db, client, id)
  {
    if moves != [] {
      var n := |moves| - 1;
      SubscriberKeepsRows(s, moves[..n], client, id);
      StepNoSecondInsert(RunFrom(s, moves[..n]), moves[n], client, id);
    }
  }

  // ---------- two joins can both insert ----------

  /** Only thread t has moved, and nobody holds the mutex. */
  predicate OnlyMoved(s: Shared, s': Shared, t: nat, pc: Pc) {
    && t < |s.threads| && s'.db == s.db && !s'.locked
    && s'.threads == s.threads[t := s.threads[t].(pc := pc)]
  }

  predicate GoesOnly(moves: seq<Move>) { forall m :: m in moves ==> m.Go? }

  /** A thread that begins gets its channel. */
  lemma ToGot(s: Shared, t: nat) returns (moves: seq<Move>, obj: nat)
    requires Inv(s) && !s.locked && t < |s.threads| && s.threads[t].pc == AskHas
    ensures GoesOnly(moves) && OnlyMoved(s, RunFrom(s, moves), t, Got(obj))
  {
    hide Inv, Settled, HasChannel, GetChannelId, GetChannelUsers, Members;
    var id := GetChannelId(s.db, s.threads[t].name);
    InvThreadOk(s, t);
    SettledHas(s.db, s.threads[t].name);
    assert RunFrom(s, []) == s;
    hide RunFrom;
    moves := Then(s, [], Go(t, true));
    assert RunFrom(s, moves) == At(s, t, AskId);
    moves := Then(s, moves, Go(t, true));
    assert RunFrom(s, moves) == At(s, t, Lookup(id));
    moves := Then(s, moves, Go(t, true));
    if id in s.installed {
      obj := s.installed[id];
    } else {
      obj := |s.objs|;
      moves := Then(s, moves, Go(t, true));
    }
  }

  /** From there a join of a client that is no subscriber comes to stand before its INSERT. */
  lemma ToInsert(s: Shared, before: seq<Move>, t: nat, obj: nat, client: Id) returns (moves: seq<Move>)
    requires var mid := RunFrom(s, before);
      && !mid.locked && t < |mid.threads| && mid.threads[t].kind == Joining(client)
      && mid.threads[t].pc == Got(obj) && obj < |mid.objs|
      && !HasChannelClient(mid.db, GetChannelId(mid.db, mid.threads[t].name), client)
    requires GoesOnly(before)
    ensures GoesOnly(moves)
    ensures var mid := RunFrom(s, before);
      OnlyMoved(mid, RunFrom(s, moves), t, JoinInsert(obj, GetChannelId(mid.db, mid.threads[t].name)))
  {
    hide RunFrom, GetChannelId, HasChannelClient;
    var mid := RunFrom(s, before);
    moves := Then(s, before, Go(t, true));
    assert RunFrom(s, moves) == At(mid, t, Adding(obj));
    moves := Then(s, moves, Go(t, true));
    moves := Then(s, moves, Go(t, true));
    moves := Then(s, moves, Go(t, true));
  }

  lemma GoesBeginNothing(moves: seq<Move>, client: Id, name: string)
    requires GoesOnly(moves)
    ensures JoinsBegun(moves, client, name) == 0
  {
    WhereAllOrNone(moves, (m: Move) => m == Begin(Joining(client), name));
  }

  /** One more thread, the join of a client that is no subscriber, comes to stand before its INSERT. */
  lemma OneToInsert(s: Shared, t: nat, client: Id) returns (moves: seq<Move>, obj: nat)
    requires Inv(s) && !s.locked && t < |s.threads| && s.threads[t].pc == AskHas && s.threads[t].kind == Joining(client)
    requires !HasChannelClient(s.db, GetChannelId(s.db, s.threads[t].name), client)
    ensures GoesOnly(moves) && Inv(RunFrom(s, moves))
    ensures OnlyMoved(s, RunFrom(s, moves), t, JoinInsert(obj, GetChannelId(s.db, s.threads[t].name)))
  {
    hide Inv, GetChannelId, HasChannelClient, RunFrom, Settled;
    var before;
    before, obj := ToGot(s, t);
    RunKeeps(s, before);
    GivenIsInstalled(s.db, RunFrom(s, before), t);
    moves := ToInsert(s, before, t, obj, client);
    RunKeeps(s, moves);
  }

  /** Two joins of the same client have begun and stand before their INSERTs. */
  lemma BothToInsert(s: Shared, client: Id, name: string) returns (moves: seq<Move>)
    requires Idle(s) && Settled(s.db, name) && !HasChannelClient(s.db, GetChannelId(s.db, name), client)
    ensures NamesSettled(s.db, moves) && JoinsBegun(moves, client, name) == 2
    ensures var s' := RunFrom(s, moves);
      && |s'.threads| == 2 && s'.threads[0].kind == Joining(client) == s'.threads[1].kind
      && s'.threads[0].pc.JoinInsert? && s'.threads[0].pc.id == GetChannelId(s.db, name)
      && s'.threads[1].pc.JoinInsert? && s'.threads[1].pc.id == GetChannelId(s.db, name)
  {
    hide Inv, GetChannelId, HasChannelClient, RunFrom, Settled, Idle, JoinsBegun;
    var join := Begin(Joining(client), name);
    var begun := BeginTwo(s, join);
    var s1 := RunFrom(s, begun);
    RunKeeps(s, begun);
    var first, obj := OneToInsert(s1, 0, client);
    var s2 := RunFrom(s1, first);
    var second, other := OneToInsert(s2, 1, client);
    RunAppend(s, begun, first);
    RunAppend(s, begun + first, second);
    moves := begun + first + second;
    JoinsConcat(begun + first, second, client, name);
    JoinsConcat(begun, first, client, name);
    GoesBeginNothing(first, client, name);
    GoesBeginNothing(second, client, name);
  }

  lemma JoinsConcat(a: seq<Move>, b: seq<Move>, client: Id, name: string)
    ensures JoinsBegun(a + b, client, name) == JoinsBegun(a, client, name) + JoinsBegun(b, client, name)
  {
    WhereConcat(a, b, (m: Move) => m == Begin(Joining(client), name));
  }

  lemma BeginTwo(s: Shared, join: Move) returns (moves: seq<Move>)
    requires Idle(s) && join.Begin? && join.kind.Joining? && Settled(s.db, join.name)
    ensures NamesSettled(s.db, moves) && JoinsBegun(moves, join.kind.client, join.name) == 2
    ensures var th := Thread(join.kind, join.name, AskHas); RunFrom(s, moves) == s.(threads := [th, th])
    ensures Inv(s) && !RunFrom(s, moves).locked
  {
    hide Settled, Inv, ObjectsFiled, Members, JoinsBegun;
    IdleInv(s);
    assert RunFrom(s, []) == s;
    hide RunFrom;
    moves := Then(s, [], join);
    moves := Then(s, moves, join);
    assert moves == [join, join];
    TwoBegun(join);
  }

  lemma TwoBegun(join: Move)
    requires join.Begin? && join.kind.Joining?
    ensures JoinsBegun([join, join], join.kind.client, join.name) == 2
  {
    WhereAllOrNone([join, join], (m: Move) => m == Begin(Joining(join.kind.client), join.name));
  }

  /** Both then insert. */
  lemma TwoRows(s: Shared, client: Id, name: string) returns (moves: seq<Move>)
    requires Idle(s) && Settled(s.db, name) && !HasChannelClient(s.db, GetChannelId(s.db, name), client)
    ensures NamesSettled(s.db, moves) && JoinsBegun(moves, client, name) == 2
    ensures Rows(RunFrom(s, moves).db, client, GetChannelId(s.db, name)) >= 2
  {
    hide GetChannelId, HasChannelClient, RunFrom, Settled, Idle, JoinsBegun, Advance, InsertSubscription, Rows;
    var before := BothToInsert(s, client, name);
    var s1, id := RunFrom(s, before), GetChannelId(s.db, name);
    moves := Then(s, before, Go(0, true));
    var s2 := RunFrom(s, moves);
    moves := Then(s, moves, Go(1, true));
    StepOfThread(s1, 0, true);
    StepOfSubscriptions(s1, 0, true);
    StepOfSubscriptions(s2, 1, true);
    RowsAfterInsert(s1.db, client, id, client, id);
    RowsAfterInsert(s2.db, client, id, client, id);
    JoinsConcat(before, [Go(0, true), Go(1, true)], client, name);
    assert moves == before + [Go(0, true), Go(1, true)];
    GoesBeginNothing([Go(0, true), Go(1, true)], client, name);
  }

  // ---------- joins that do not overlap ----------

  /** At no time are more than n joins of this client and this channel under way. */
  predicate AtMostOpen(s: Shared, moves: seq<Move>, client: Id, name: string, n: nat) {
    forall k :: 0 <= k <= |moves| ==> Open(RunFrom(s, moves[..k]).threads, client, name) <= n
  }

  /** At most one row, and none while a join stands before its INSERT. */
  predicate OneRow(s: Shared, client: Id, id: Id) {
    && Rows(s.db, client, id) <= 1
    && forall th :: th in s.threads && th.kind == Joining(client) && th.pc.JoinInsert? && th.pc.id == id ==>
         Rows(s.db, client, id) == 0
  }

  /** Of two joins at different places one is over. */
  lemma OnlyOneOpen(s: Shared, i: nat, j: nat, client: Id, name: string)
    requires i < |s.threads| && j < |s.threads| && i != j && Open(s.threads, client, name) <= 1
    requires Unfinished(s.threads[i], client, name)
    ensures !Unfinished(s.threads[j], client, name)
  {
    hide Unfinished;
    if Unfinished(s.threads[j], client, name) {
      TwoPass(s.threads, (th: Thread) => Unfinished(th, client, name), if i < j then i else j, if i < j then j else i);
    }
  }

  /** With one join under way at a time, no other thread stands before an INSERT of this pair. */
  lemma NoOtherInsert(s: Shared, i: nat, j: nat, client: Id, name: string)
    requires Inv(s) && Settled(s.db, name) && Open(s.threads, client, name) <= 1
    requires i < |s.threads| && j < |s.threads| && i != j
    requires Unfinished(s.threads[i], client, name)
    requires s.threads[j].kind == Joining(client) && s.threads[j].pc.JoinInsert?
    ensures s.threads[j].pc.id != GetChannelId(s.db, name)
  {
    hide Inv, Settled, Open;
    InsertsForItsName(s, j, name);
    OnlyOneOpen(s, i, j, client, name);
  }

  /** The step that inserts the row of this pair. */
  lemma InsertOneRow(s: Shared, t: nat, known: bool, client: Id, name: string)
    requires Inv(s) && Settled(s.db, name) && Open(s.threads, client, name) <= 1 && t < |s.threads|
    requires OneRow(s, client, GetChannelId(s.db, name))
    requires s.threads[t].kind == Joining(client) && s.threads[t].pc.JoinInsert?
    requires s.threads[t].pc.id == GetChannelId(s.db, name)
    ensures OneRow(Advance(s, t, known), client, GetChannelId(s.db, name))
  {
    hide Inv, Settled, Open, GetChannelId, Advance, Rows, InsertSubscription;
    var s', id := Advance(s, t, known), GetChannelId(s.db, name);
    StepOfThread(s, t, known);
    StepOfSubscriptions(s, t, known);
    assert s.threads[t] in s.threads;
    RowsAfterInsert(s.db, client, id, client, id);
    InsertsForItsName(s, t, name);
    forall th | th in s'.threads && th.kind == Joining(client) && th.pc.JoinInsert? ensures th.pc.id != id {
      var j: nat :| j < |s'.threads| && s'.threads[j] == th;
      NoOtherInsert(s, t, j, client, name);
    }
  }

  lemma StepOneRow(s: Shared, move: Move, client: Id, name: string)
    requires Inv(s) && Settled(s.db, name) && Open(s.threads, client, name) <= 1
    requires OneRow(s, client, GetChannelId(s.db, name))
    ensures OneRow(Step(s, move), client, GetChannelId(s.db, name))
  {
    hide Inv, Settled, Open, GetChannelId, Advance, Rows, InsertSubscription, HasChannelClient;
    var id := GetChannelId(s.db, name);
    match move
    case Begin(_, _) =>
    case Go(t, known) =>
      if t < |s.threads| {
        var s', th := Advance(s, t, known), s.threads[t];
        if th.kind == Joining(client) && th.pc.JoinInsert? && th.pc.id == id {
          InsertOneRow(s, t, known, client, name);
        } else {
          StepOfThread(s, t, known);
          StepOfSubscriptions(s, t, known);
          if th.pc.JoinInsert? && th.kind.Joining? {
            RowsAfterInsert(s.db, th.kind.client, th.pc.id, client, id);
          } else {
            SameRows(s.db, s'.db, client, id);
            if !th.pc.JoinInsert? { InsertOnlyIfAbsent(s, t, known); }
            SubscribedIffRow(s.db, client, id);
          }
        }
      }
  }

  lemma {:induction false} RunOneRow(s: Shared, moves: seq<Move>, client: Id, name: string)
    requires Inv(s) && NamesSettled(s.db, moves) && Settled(s.db, name) && AtMostOpen(s, moves, client, name, 1)
    requires OneRow(s, client, GetChannelId(s.db, name))
    ensures OneRow(RunFrom(s, moves), client, GetChannelId(s.db, name))
  {
    hide Inv, RunFrom, Step, Settled, NamesSettled, OneRow, Open, GetChannelId;
    if moves != [] {
      var n := |moves| - 1;
      var init := moves[..n];
      assert moves == init + [moves[n]];
      assert forall k :: 0 <= k <= n ==> init[..k] == moves[..k];
      NamesSettledInit(s.db, init, [moves[n]]);
      RunOneRow(s, init, client, name);
      RunKeeps(s, init);
      RunSnoc(s, moves);
      SameChannelTable(s.db, RunFrom(s, init).db, name, NO_ID);
      StepOneRow(RunFrom(s, init), moves[n], client, name);
    } else {
      RunNothing(s);
    }
  }

  lemma {:induction false} OpenAtMostBegun(s: Shared, moves: seq<Move>, client: Id, name: string)
    requires s.threads == []
    ensures Open(RunFrom(s, moves).threads, client, name) <= JoinsBegun(moves, client, name)
  {
    if moves != [] {
      hide RunFrom, Open, JoinsBegun, Step;
      var n := |moves| - 1;
      assert moves == moves[..n] + [moves[n]];
      OpenAtMostBegun(s, moves[..n], client, name);
      RunSnoc(s, moves);
      StepOpen(RunFrom(s, moves[..n]), moves[n], client, name);
      JoinsSnoc(moves[..n], moves[n], client, name);
    } else {
      RunNothing(s);
      NoneOpen(client, name);
    }
  }

  lemma StepOpen(s: Shared, move: Move, client: Id, name: string)
    ensures Open(Step(s, move).threads, client, name) <=
              Open(s.threads, client, name) + if move == Begin(Joining(client), name) then 1 else 0
  {
    hide Advance;
    match move
    case Begin(kind, other) =>
      WhereSnoc(s.threads, Thread(kind, other, AskHas), (th: Thread) => Unfinished(th, client, name));
    case Go(t, known) =>
      if t < |s.threads| {
        hide Open;
        StepOfThread(s, t, known);
        OpenAfter(s.threads, t, Advance(s, t, known).threads[t], client, name);
      }
  }

  /** A run that begins few joins has few under way. */
  lemma FewBegunFewOpen(s: Shared, moves: seq<Move>, client: Id, name: string, n: nat)
    requires s.threads == [] && JoinsBegun(moves, client, name) <= n
    ensures AtMostOpen(s, moves, client, name, n)
  {
    hide RunFrom, Open, JoinsBegun;
    forall k | 0 <= k <= |moves| ensures Open(RunFrom(s, moves[..k]).threads, client, name) <= n {
      assert moves == moves[..k] + moves[k..];
      JoinsConcat(moves[..k], moves[k..], client, name);
      OpenAtMostBegun(s, moves[..k], client, name);
    }
  }

  lemma FewerOpen(s: Shared, moves: seq<Move>, client: Id, name: string, m: nat, n: nat)
    requires AtMostOpen(s, moves, client, name, m) && m <= n
    ensures AtMostOpen(s, moves, client, name, n)
  {
    hide Open, RunFrom;
  }

  /** One subscription row per client, exactly. Start idle, on a name with its row, with at most one subscription row
      of the client. Every interleaving of any requests in which at most n joins of that name by the client are under
      way at a time leaves at most one row, if and only if n is at most one or the row is there already. */
  lemma OneRowIffNoOverlap(s: Shared, client: Id, name: string, n: nat)
    requires Idle(s) && Settled(s.db, name) && Rows(s.db, client, GetChannelId(s.db, name)) <= 1
    ensures var id := GetChannelId(s.db, name);
      (forall moves :: NamesSettled(s.db, moves) && AtMostOpen(s, moves, client, name, n) ==>
         Rows(RunFrom(s, moves).db, client, id) <= 1) <==>
      n <= 1 || HasChannelClient(s.db, id, client)
  {
    hide RunFrom, Rows, Settled, GetChannelId, JoinsBegun, HasChannelClient, Idle, NamesSettled, AtMostOpen, Inv;
    var id := GetChannelId(s.db, name);
    SubscribedIffRow(s.db, client, id);
    IdleHasNoThreads(s);
    if HasChannelClient(s.db, id, client) {
      IdleNoSecondInsert(s, client, id);
      forall moves ensures Rows(RunFrom(s, moves).db, client, id) <= 1 { SubscriberKeepsRows(s, moves, client, id); }
    } else if n <= 1 {
      IdleInv(s);
      forall moves | NamesSettled(s.db, moves) && AtMostOpen(s, moves, client, name, n)
        ensures Rows(RunFrom(s, moves).db, client, id) <= 1
      {
        FewerOpen(s, moves, client, name, n, 1);
        RunOneRow(s, moves, client, name);
      }
    } else {
      var moves := TwoRows(s, client, name);
      FewBegunFewOpen(s, moves, client, name, n);
    }
  }

  lemma IdleNoSecondInsert(s: Shared, client: Id, id: Id)
    requires Idle(s) && HasChannelClient(s.db, id, client)
    ensures NoSecondInsert(s, client, id)
  {
  }
}
