/** Two requests that create the same channel at once can lose a member; requests on an existing row cannot. */
module CreationRace {
  import opened Basics
  import opened Schema
  import opened ChatModel
  import opened Interleaving

  /** Channel rows have names and ids of their own and every subscription names one; a client may be subscribed to a
      channel twice. */
  predicate ChannelRowsSound(t: Tables) {
    ChannelsSound(t) && forall x :: x in t.subscriptions ==> HasChannelRowId(t, x.channel)
  }

  /** Every request begun names this channel. */
  predicate OnlyName(moves: seq<Move>, name: string) {
    forall m :: m in moves && m.Begin? ==> m.name == name
  }

  /** If every request is over, each installed object holds exactly the subscribers of its channel. */
  ghost predicate RestsCoherent(s: Shared) {
    (forall th :: th in s.threads ==> th.pc.Done?) ==>
      forall id :: id in s.installed ==>
        s.installed[id] < |s.objs| && s.objs[s.installed[id]].users == Members(s.db, id)
  }

  /** A history request of anybody. */
  const POLL := Reading(NO_ID, DEFAULT_DATE)

  /** A join of client and a poll, both on name, at these points. */
  function Two(db: Tables, objs: seq<ChannelObject>, installed: map<Id, nat>, client: Id, name: string, a: Pc,
      b: Pc): Shared {
    Shared(db, objs, installed, false, [Thread(Joining(client), name, a), Thread(POLL, name, b)])
  }

  lemma MoveFirst(s: Shared, pc: Pc)
    requires |s.threads| == 2
    ensures At(s, 0, pc).threads == [s.threads[0].(pc := pc), s.threads[1]]
  {
  }

  lemma MoveSecond(s: Shared, pc: Pc)
    requires |s.threads| == 2
    ensures At(s, 1, pc).threads == [s.threads[0], s.threads[1].(pc := pc)]
  {
  }

  /** The tables around the insertion of a new channel row. */
  lemma NewRow(t: Tables, name: string)
    requires ChannelRowsSound(t) && !HasChannel(t, name) && FitsName(name)
    ensures GetChannelId(t, name) == NO_ID
    ensures var t' := InsertChannel(t, name);
      && GetChannelId(t', name) == t.nextChannel != NO_ID && HasChannel(t', name)
      && Elements(GetChannelUsers(t', t.nextChannel)) == {}
      && Members(t', t.nextChannel) == {}
  {
    var t', row := InsertChannel(t, name), ChannelRow(t.nextChannel, name);
    ChannelIdFound(t, name);
    assert row in t'.channels && ChannelsSound(t');
    ChannelByName(t', row);
    assert forall x :: x in t.subscriptions ==> x.channel < t.nextChannel;
    ChannelUsersAreMembers(t', t.nextChannel);
  }

  /** Both requests see no row; the first inserts it, the second finds it while creating. */
  lemma BothCreate(s: Shared, name: string, client: Id) returns (moves: seq<Move>)
    requires s.threads == [] && !s.locked && ChannelRowsSound(s.db) && UsableName(name) && !HasChannel(s.db, name)
    ensures OnlyName(moves, name)
    ensures RunFrom(s, moves) ==
              Two(InsertChannel(s.db, name), s.objs, s.installed, client, name, Build(s.db.nextChannel),
                  Build(s.db.nextChannel))
  {
    hide HasChannel, GetChannelId, InsertChannel, RunFrom, ChannelRowsSound, FitsName;
    var t, t' := s.db, InsertChannel(s.db, name);
    NewRow(t, name);
    assert RunFrom(s, []) == s by { RunNothing(s); }
    moves := Then(s, [], Begin(Joining(client), name));
    moves := Then(s, moves, Begin(POLL, name));
    assert RunFrom(s, moves) == Two(t, s.objs, s.installed, client, name, AskHas, AskHas);
    MoveFirst(RunFrom(s, moves), CreateAsk);
    moves := Then(s, moves, Go(0, true));
    MoveSecond(RunFrom(s, moves), CreateAsk);
    moves := Then(s, moves, Go(1, true));
    assert RunFrom(s, moves) == Two(t, s.objs, s.installed, client, name, CreateAsk, CreateAsk);
    MoveFirst(RunFrom(s, moves), CreateInsert);
    moves := Then(s, moves, Go(0, true));
    MoveFirst(RunFrom(s, moves), CreateId);
    moves := Then(s, moves, Go(0, true));
    assert RunFrom(s, moves) == Two(t', s.objs, s.installed, client, name, CreateId, CreateAsk);
    MoveFirst(RunFrom(s, moves), Build(t.nextChannel));
    moves := Then(s, moves, Go(0, true));
    MoveSecond(RunFrom(s, moves), Build(t.nextChannel));
    moves := Then(s, moves, Go(1, true));
  }

  /** Both build an object; the object of the join is installed. */
  lemma BothBuild(s: Shared, name: string, client: Id) returns (moves: seq<Move>)
    requires s.threads == [] && !s.locked && ChannelRowsSound(s.db) && UsableName(name) && !HasChannel(s.db, name)
    ensures OnlyName(moves, name)
    ensures var id, n, empty := s.db.nextChannel, |s.objs|, ChannelObject(s.db.nextChannel, name, {});
      RunFrom(s, moves) == Two(InsertChannel(s.db, name), s.objs + [empty, empty], s.installed[id := n + 1], client,
          name,
                               Adding(n + 1), Overwrite(n))
  {
    hide HasChannel, GetChannelId, GetChannelUsers, InsertChannel, RunFrom, ChannelRowsSound, FitsName, Members;
    var t' := InsertChannel(s.db, name);
    NewRow(s.db, name);
    moves := BothCreate(s, name, client);
    var id, n, empty := s.db.nextChannel, |s.objs|, ChannelObject(s.db.nextChannel, name, {});
    var s1 := NewObject(RunFrom(s, moves), empty);
    MoveSecond(s1, Overwrite(n));
    moves := Then(s, moves, Go(1, true));
    assert RunFrom(s, moves) == Two(t', s.objs + [empty], s.installed, client, name, Build(id), Overwrite(n));
    assert s.objs + [empty] + [empty] == s.objs + [empty, empty];
    var s2 := NewObject(RunFrom(s, moves), empty);
    MoveFirst(s2, Overwrite(n + 1));
    moves := Then(s, moves, Go(0, true));
    assert RunFrom(s, moves) == Two(t', s.objs + [empty, empty], s.installed, client, name, Overwrite(n + 1),
        Overwrite(n));
    MoveFirst(RunFrom(s, moves), Got(n + 1));
    moves := Then(s, moves, Go(0, true));
    MoveFirst(RunFrom(s, moves), Adding(n + 1));
    moves := Then(s, moves, Go(0, true));
  }

  /** The join adds its client to its own object and is about to insert the subscription. */
  lemma MemberAdded(s: Shared, name: string, client: Id) returns (moves: seq<Move>)
    requires s.threads == [] && !s.locked && ChannelRowsSound(s.db) && UsableName(name) && !HasChannel(s.db, name)
    ensures OnlyName(moves, name)
    ensures var id, n := s.db.nextChannel, |s.objs|;
      RunFrom(s, moves) ==
        Two(InsertChannel(s.db, name), s.objs + [ChannelObject(id, name, {}), ChannelObject(id, name, {client})],
            s.installed[id := n + 1], client, name, JoinInsert(n + 1, id), Overwrite(n))
  {
    hide HasChannel, GetChannelId, InsertChannel, RunFrom, ChannelRowsSound, FitsName, Members;
    NewRow(s.db, name);
    moves := BothBuild(s, name, client);
    var t', id, n := InsertChannel(s.db, name), s.db.nextChannel, |s.objs|;
    var empty, full := ChannelObject(id, name, {}), ChannelObject(id, name, {client});
    var added := AddMember(RunFrom(s, moves), n + 1, client);
    assert {} + {client} == {client};
    assert (s.objs + [empty, empty])[n + 1 := full] == s.objs + [empty, full];
    MoveFirst(added, JoinId(n + 1));
    moves := Then(s, moves, Go(0, true));
    assert RunFrom(s, moves) == Two(t', s.objs + [empty, full], s.installed[id := n + 1], client, name,
        JoinId(n + 1), Overwrite(n));
    MoveFirst(RunFrom(s, moves), JoinHas(n + 1, id));
    moves := Then(s, moves, Go(0, true));
    assert !HasChannelClient(t', id, client) by { NotYetMember(t', id, client); }
    hide HasChannelClient;
    MoveFirst(RunFrom(s, moves), JoinInsert(n + 1, id));
    moves := Then(s, moves, Go(0, true));
  }

  /** The join completes; then the poll replaces the installed object by its own, empty one. */
  lemma MemberLost(s: Shared, name: string, client: Id) returns (moves: seq<Move>)
    requires s.threads == [] && !s.locked && ChannelRowsSound(s.db) && UsableName(name) && !HasChannel(s.db, name)
    ensures OnlyName(moves, name)
    ensures var s' := RunFrom(s, moves);
      && |s'.threads| == 2 && (forall th :: th in s'.threads ==> th.pc.Done?)
      && s'.threads[0].pc.obj != s'.threads[1].pc.obj
      && s.db.nextChannel in s'.installed && s'.installed[s.db.nextChannel] < |s'.objs|
      && client in Members(s'.db, s.db.nextChannel)
      && client !in s'.objs[s'.installed[s.db.nextChannel]].users
  {
    hide HasChannel, GetChannelId, InsertChannel, RunFrom, ChannelRowsSound, FitsName, Members;
    moves := MemberAdded(s, name, client);
    var t', id, n := InsertChannel(s.db, name), s.db.nextChannel, |s.objs|;
    MembersAfterInsert(t', client, id, id);
    MoveFirst(RunFrom(s, moves), Done(n + 1));
    moves := Then(s, moves, Go(0, true));
    MoveSecond(RunFrom(s, moves), Got(n));
    moves := Then(s, moves, Go(1, true));
    MoveSecond(RunFrom(s, moves), Done(n));
    moves := Then(s, moves, Go(1, true));
    assert RunFrom(s, moves).threads == [Thread(Joining(client), name, Done(n + 1)), Thread(POLL, name, Done(n))];
  }

  lemma NotYetMember(t: Tables, id: Id, client: Id)
    requires client !in Members(t, id)
    ensures !HasChannelClient(t, id, client)
  {
  }

  /** From any idle state over tables with sound channel rows, and for any usable name: every interleaving of requests
      on that name leaves every installed channel with exactly its subscribers, if and only if the name has its row
      already. Logins may run alongside: any client may be known to the server by the time it joins. */
  lemma CoherentIffRowExists(s: Shared, name: string)
    requires Idle(s) && ChannelRowsSound(s.db) && UsableName(name)
    ensures (forall moves :: OnlyName(moves, name) ==> RestsCoherent(RunFrom(s, moves))) <==> HasChannel(s.db, name)
  {
    hide RunFrom, RestsCoherent, HasChannel, ChannelRowsSound;
    if HasChannel(s.db, name) {
      forall moves | OnlyName(moves, name) ensures RestsCoherent(RunFrom(s, moves)) {
        RowKeepsCoherent(s, name, moves);
      }
    } else {
      var moves := MemberLost(s, name, 1);
      assert !RestsCoherent(RunFrom(s, moves)) by { Lost(RunFrom(s, moves), s.db.nextChannel, 1); }
    }
  }

  lemma Lost(s: Shared, id: Id, client: Id)
    requires forall th :: th in s.threads ==> th.pc.Done?
    requires id in s.installed && s.installed[id] < |s.objs|
    requires client in Members(s.db, id) && client !in s.objs[s.installed[id]].users
    ensures !RestsCoherent(s)
  {
    hide Members;
  }

  lemma RowIsSettled(t: Tables, name: string)
    requires ChannelRowsSound(t) && UsableName(name) && HasChannel(t, name)
    ensures Settled(t, name)
  {
    ChannelIdFound(t, name);
    ChannelById(t, ChannelRow(GetChannelId(t, name), name));
  }

  lemma {:induction false} RowKeepsCoherent(s: Shared, name: string, moves: seq<Move>)
    requires Idle(s) && ChannelRowsSound(s.db) && UsableName(name) && HasChannel(s.db, name) && OnlyName(moves, name)
    ensures RestsCoherent(RunFrom(s, moves))
  {
    RowIsSettled(s.db, name);
    hide Settled, Idle, ChannelRowsSound, RunFrom, Members, HasChannel;
    assert NamesSettled(s.db, moves);
    var s' := RunFrom(s, moves);
    if forall th :: th in s'.threads ==> th.pc.Done? {
      forall id | id in s'.installed
        ensures s'.installed[id] < |s'.objs| && s'.objs[s'.installed[id]].users == Members(s'.db, id)
      {
        AtRestExact(s, moves, id);
        ChannelUsersAreMembers(s'.db, id);
      }
    }
  }

  /** Any two requests that have been given a channel have been given the same object. */
  predicate OneObject(s: Shared) {
    forall a, b :: a in s.threads && b in s.threads && GivenObject(a.pc).Some? && GivenObject(b.pc).Some? ==>
      GivenObject(a.pc) == GivenObject(b.pc)
  }

  lemma {:induction false} NamesOfThreads(s: Shared, moves: seq<Move>, name: string)
    requires s.threads == [] && OnlyName(moves, name)
    ensures forall th :: th in RunFrom(s, moves).threads ==> th.name == name
  {
    if moves != [] {
      var n := |moves| - 1;
      assert moves[n] in moves && forall m :: m in moves[..n] ==> m in moves;
      NamesOfThreads(s, moves[..n], name);
      StepNames(RunFrom(s, moves[..n]), moves[n], name);
    }
  }

  lemma StepNames(s: Shared, move: Move, name: string)
    requires (forall th :: th in s.threads ==> th.name == name) && (move.Begin? ==> move.name == name)
    ensures forall th :: th in Step(s, move).threads ==> th.name == name
  {
    hide HasChannel, GetChannelId, GetClientId, GetChannelUsers, HasChannelClient, InsertChannel, InsertHistory,
         Advance;
    if move.Go? && move.thread < |s.threads| { StepOfThread(s, move.thread, move.known); }
  }

  /** All requests on a name work on one object, in every interleaving, if and only if the name has its row. */
  lemma OneObjectIffRowExists(s: Shared, name: string)
    requires Idle(s) && ChannelRowsSound(s.db) && UsableName(name)
    ensures (forall moves :: OnlyName(moves, name) ==> OneObject(RunFrom(s, moves))) <==> HasChannel(s.db, name)
  {
    hide RunFrom, OneObject, HasChannel, ChannelRowsSound;
    if HasChannel(s.db, name) {
      forall moves | OnlyName(moves, name) ensures OneObject(RunFrom(s, moves)) {
        RowKeepsOneObject(s, name, moves);
      }
    } else {
      var moves := MemberLost(s, name, 1);
      assert !OneObject(RunFrom(s, moves)) by { TwoObjects(RunFrom(s, moves)); }
    }
  }

  lemma TwoObjects(s: Shared)
    requires |s.threads| == 2 && s.threads[0].pc.Done? && s.threads[1].pc.Done?
        && s.threads[0].pc.obj != s.threads[1].pc.obj
    ensures !OneObject(s)
  {
    assert s.threads[0] in s.threads && s.threads[1] in s.threads;
  }

  lemma RowKeepsOneObject(s: Shared, name: string, moves: seq<Move>)
    requires Idle(s) && ChannelRowsSound(s.db) && UsableName(name) && HasChannel(s.db, name) && OnlyName(moves, name)
    ensures OneObject(RunFrom(s, moves))
  {
    RowIsSettled(s.db, name);
    NamesOfThreads(s, moves, name);
    hide Settled, Idle, ChannelRowsSound, RunFrom, HasChannel, GivenObject;
    var s' := RunFrom(s, moves);
    assert moves + [] == moves;
    forall a, b | a in s'.threads && b in s'.threads && GivenObject(a.pc).Some? && GivenObject(b.pc).Some?
      ensures GivenObject(a.pc) == GivenObject(b.pc)
    {
      var i: nat :| i < |s'.threads| && s'.threads[i] == a;
      var j: nat :| j < |s'.threads| && s'.threads[j] == b;
      OneObjectPerChannel(s, moves, [], i, j);
    }
  }

  // ---------- requests that do not overlap ----------

  predicate UnderWay(th: Thread) { !th.pc.Done? && !th.pc.Failed? }

  function OpenCount(s: Shared): nat { |Where(s.threads, (th: Thread) => UnderWay(th))| }

  /** At no time are more than n requests under way. */
  predicate AtMostOpen(s: Shared, moves: seq<Move>, n: nat) {
    forall k :: 0 <= k <= |moves| ==> OpenCount(RunFrom(s, moves[..k])) <= n
  }

  /** The channel has no row, and at most one request is on its way to insert it. */
  predicate NoRowYet(s: Shared, now: Shared, name: string) {
    && now == s.(threads := now.threads) && |now.threads| <= 1
    && forall th :: th in now.threads ==> th.name == name && (th.pc.AskHas? || th.pc.CreateAsk? || th.pc.CreateInsert?)
  }

  /** The row is inserted, and the one request is on its way to install the object. */
  predicate Installing(s: Shared, now: Shared, name: string) {
    var id, o := s.db.nextChannel, ChannelObject(s.db.nextChannel, name, {});
    && |now.threads| == 1 && now.threads[0].name == name
    && now.db == InsertChannel(s.db, name) && now.installed == s.installed && !now.locked
    && match now.threads[0].pc
       case CreateId => now.objs == s.objs
       case Build(i) => i == id && now.objs == s.objs
       case Overwrite(obj) => obj == |s.objs| && now.objs == s.objs + [o]
       case _ => false
  }

  /** Where a run without overlap stands: before the row, at its creation, or as if the row had always been there. */
  ghost predicate Phase(s: Shared, now: Shared, name: string) {
    NoRowYet(s, now, name) || Installing(s, now, name) || (Inv(now) && Settled(now.db, name))
  }

  /** What the run starts from. */
  ghost predicate FreeName(s: Shared, name: string) {
    Idle(s) && ChannelRowsSound(s.db) && UsableName(name) && !HasChannel(s.db, name)
  }

  lemma StartFacts(s: Shared, name: string)
    requires FreeName(s, name)
    ensures s.threads == [] && !s.locked && GetChannelId(s.db, name) == NO_ID && !HasChannel(s.db, name)
        && FitsName(name)
    ensures var t', id := InsertChannel(s.db, name), s.db.nextChannel;
      GetChannelId(t', name) == id != NO_ID && Elements(GetChannelUsers(t', id)) == {} && name != ""
  {
    NewRow(s.db, name);
  }

  lemma TwoUnderWay(s: Shared, move: Move)
    requires |s.threads| == 1 && UnderWay(s.threads[0]) && move.Begin?
    ensures OpenCount(Step(s, move)) >= 2
  {
    TwoPass(Step(s, move).threads, (th: Thread) => UnderWay(th), 0, 1);
  }

  /** The one request before its INSERT, and the INSERT. */
  lemma AdvanceNoRow(now: Shared, th: Thread, known: bool)
    requires now.threads == [th] && !HasChannel(now.db, th.name) && GetChannelId(now.db, th.name) == NO_ID
    requires th.pc.AskHas? || th.pc.CreateAsk? || th.pc.CreateInsert?
    ensures Advance(now, 0, known) ==
              match th.pc
              case AskHas => now.(threads := [th.(pc := CreateAsk)])
              case CreateAsk => now.(threads := [th.(pc := CreateInsert)])
              case _ => now.(threads := [th.(pc := CreateId)], db := InsertChannel(now.db, th.name))
  {
    hide HasChannel, GetChannelId, InsertChannel;
    match th.pc
    case AskHas => assert now.threads[0 := th.(pc := CreateAsk)] == [th.(pc := CreateAsk)];
    case CreateAsk => assert now.threads[0 := th.(pc := CreateInsert)] == [th.(pc := CreateInsert)];
    case CreateInsert => assert now.threads[0 := th.(pc := CreateId)] == [th.(pc := CreateId)];
  }

  lemma NoRowYetIs(s: Shared, now: Shared, name: string)
    requires NoRowYet(s, now, name) && now.threads != []
    ensures var th := now.threads[0];
      && now == s.(threads := [th]) && th.name == name && UnderWay(th)
      && (th.pc.AskHas? || th.pc.CreateAsk? || th.pc.CreateInsert?)
  {
    assert now.threads[0] in now.threads && now.threads == [now.threads[0]];
  }

  lemma BeginNoRow(s: Shared, now: Shared, move: Move, name: string)
    requires NoRowYet(s, now, name) && now.threads == [] && (move.Begin? ==> move.name == name)
    ensures NoRowYet(s, Step(now, move), name)
  {
  }

  /** The one request takes a step. */
  lemma GoNoRow(s: Shared, th: Thread, known: bool, name: string)
    requires s.threads == [] && !s.locked && !HasChannel(s.db, name) && GetChannelId(s.db, name) == NO_ID
        && th.name == name
    requires th.pc.AskHas? || th.pc.CreateAsk? || th.pc.CreateInsert?
    ensures var next := Advance(s.(threads := [th]), 0, known); NoRowYet(s, next, name) || Installing(s, next, name)
  {
    hide HasChannel, GetChannelId, InsertChannel, Advance;
    AdvanceNoRow(s.(threads := [th]), th, known);
  }

  lemma StepNoRowYet(s: Shared, now: Shared, move: Move, name: string)
    requires FreeName(s, name) && NoRowYet(s, now, name) && (move.Begin? ==> move.name == name)
    requires OpenCount(Step(now, move)) <= 1
    ensures NoRowYet(s, Step(now, move), name) || Installing(s, Step(now, move), name)
  {
    hide FreeName, HasChannel, GetChannelId, GetChannelUsers, InsertChannel, OpenCount, FitsName, Advance, NoRowYet,
         Installing, UnderWay;
    StartFacts(s, name);
    if now.threads == [] {
      BeginNoRow(s, now, move, name);
    } else {
      NoRowYetIs(s, now, name);
      if move.Begin? { TwoUnderWay(now, move); }
      else if move.thread == 0 { GoNoRow(s, now.threads[0], move.known, name); }
    }
  }

  /** The one request after its INSERT, up to the assignment to idChannels_. */
  lemma AdvanceInstalling(now: Shared, th: Thread, known: bool, id: Id)
    requires now.threads == [th] && !now.locked && th.name != "" && id != NO_ID
    requires GetChannelId(now.db, th.name) == id && Elements(GetChannelUsers(now.db, id)) == {}
    requires th.pc.CreateId? || th.pc == Build(id) || (th.pc.Overwrite? && th.pc.obj < |now.objs|)
    ensures Advance(now, 0, known) ==
              match th.pc
              case Overwrite(obj) =>
                now.(threads := [th.(pc := Got(obj))], installed := now.installed[now.objs[obj].id := obj])
              case Build(_) =>
                now.(threads := [th.(pc := Overwrite(|now.objs|))], objs := now.objs + [ChannelObject(id, th.name, {})])
              case _ => now.(threads := [th.(pc := Build(id))])
  {
    hide HasChannel, GetChannelId, GetChannelUsers;
    match th.pc
    case CreateId => assert now.threads[0 := th.(pc := Build(id))] == [th.(pc := Build(id))];
    case Overwrite(obj) => assert now.threads[0 := th.(pc := Got(obj))] == [th.(pc := Got(obj))];
    case Build(_) => assert now.threads[0 := th.(pc := Overwrite(|now.objs|))] == [th.(pc := Overwrite(|now.objs|))];
  }

  lemma InstallingIs(s: Shared, now: Shared, name: string)
    requires Installing(s, now, name)
    ensures var th, id := now.threads[0], s.db.nextChannel;
      && now.threads == [th] && th.name == name && UnderWay(th)
      && match th.pc
         case Overwrite(n) =>
           && n == |s.objs|
           && now == Shared(InsertChannel(s.db, name), s.objs + [ChannelObject(id, name, {})], s.installed, false, [th])
         case _ =>
           && (th.pc.CreateId? || th.pc == Build(id))
           && now == Shared(InsertChannel(s.db, name), s.objs, s.installed, false, [th])
  {
    hide InsertChannel;
    assert now.threads == [now.threads[0]];
  }

  /** The one request takes a step towards the assignment. */
  lemma GoInstalling(s: Shared, th: Thread, known: bool, name: string)
    requires th.name == name != "" && (th.pc.CreateId? || th.pc == Build(s.db.nextChannel)) && s.db.nextChannel != NO_ID
    requires var t', id := InsertChannel(s.db, name), s.db.nextChannel;
      GetChannelId(t', name) == id && Elements(GetChannelUsers(t', id)) == {}
    ensures Installing(s, Advance(Shared(InsertChannel(s.db, name), s.objs, s.installed, false, [th]), 0, known), name)
  {
    hide GetChannelId, GetChannelUsers, InsertChannel, Advance;
    AdvanceInstalling(Shared(InsertChannel(s.db, name), s.objs, s.installed, false, [th]), th, known, s.db.nextChannel);
  }

  /** The one request assigns. */
  lemma GoOverwrite(s: Shared, th: Thread, known: bool, name: string)
    requires FreeName(s, name) && th.name == name && th.pc == Overwrite(|s.objs|)
    ensures var o := ChannelObject(s.db.nextChannel, name, {});
      var now := Shared(InsertChannel(s.db, name), s.objs + [o], s.installed, false, [th]);
      Phase(s, Advance(now, 0, known), name)
  {
    StartFacts(s, name);
    hide FreeName, GetChannelId, GetChannelUsers, InsertChannel, Advance, Inv, Settled, NoRowYet, Installing;
    var o := ChannelObject(s.db.nextChannel, name, {});
    var now := Shared(InsertChannel(s.db, name), s.objs + [o], s.installed, false, [th]);
    AdvanceInstalling(now, th, known, s.db.nextChannel);
    InstalledInv(s, Advance(now, 0, known), th, name);
  }

  lemma StepInstalling(s: Shared, now: Shared, move: Move, name: string)
    requires FreeName(s, name) && Installing(s, now, name) && OpenCount(Step(now, move)) <= 1
    ensures Phase(s, Step(now, move), name)
  {
    hide FreeName, GetChannelId, GetChannelUsers, InsertChannel, OpenCount, Inv, Settled, Advance, NoRowYet, Installing,
         UnderWay;
    StartFacts(s, name);
    InstallingIs(s, now, name);
    if move.Begin? { TwoUnderWay(now, move); }
    else if move.thread == 0 {
      if now.threads[0].pc.Overwrite? {
        GoOverwrite(s, now.threads[0], move.known, name);
      } else {
        GoInstalling(s, now.threads[0], move.known, name);
      }
    }
  }

  /** Once the new object is installed, everything is as if the row had always been there. */
  lemma InstalledInv(s: Shared, now: Shared, th: Thread, name: string)
    requires FreeName(s, name) && th.name == name
    requires var n, id := |s.objs|, s.db.nextChannel;
      now == Shared(InsertChannel(s.db, name), s.objs + [ChannelObject(id, name, {})], s.installed[id := n], false,
                    [th.(pc := Got(n))])
    ensures Inv(now) && Settled(now.db, name)
  {
    RowSettled(s, name);
    hide FreeName, Settled, GetChannelId, InsertChannel, HasChannel;
    InstalledCoherent(s, now, name);
    InstalledFiled(s, now, name);
    assert ThreadOk(now, now.threads[0]);
  }

  lemma RowSettled(s: Shared, name: string)
    requires FreeName(s, name)
    ensures Settled(InsertChannel(s.db, name), name)
    ensures GetChannelId(InsertChannel(s.db, name), name) == s.db.nextChannel
    ensures GetChannelName(InsertChannel(s.db, name), s.db.nextChannel) == name
  {
    var t, t', row := s.db, InsertChannel(s.db, name), ChannelRow(s.db.nextChannel, name);
    ChannelIdFound(t, name);
    assert row in t'.channels && ChannelsSound(t');
    ChannelByName(t', row);
    ChannelById(t', row);
  }

  lemma InstalledCoherent(s: Shared, now: Shared, name: string)
    requires FreeName(s, name)
    requires now.objs == s.objs + [ChannelObject(s.db.nextChannel, name, {})]
    requires now.installed == s.installed[s.db.nextChannel := |s.objs|] && now.db == InsertChannel(s.db, name)
    requires |now.threads| == 1 && now.threads[0].pc.Got?
    ensures MembersCoherent(now)
  {
    hide Members, GetChannelId, InsertChannel, Pending, FreeName;
    NoMembersYet(s, name);
    FreeCoherent(s, name);
    forall i, c ensures !Pending(now, i, c) { NonePending(now, i, c); }
  }

  lemma NonePending(now: Shared, id: Id, client: Id)
    requires |now.threads| == 1 && now.threads[0].pc.Got?
    ensures !Pending(now, id, client)
  {
    hide GetChannelId;
  }

  /** The INSERT of the row leaves all members, and the new channel has none. */
  lemma NoMembersYet(s: Shared, name: string)
    requires FreeName(s, name)
    ensures Members(InsertChannel(s.db, name), s.db.nextChannel) == {}
    ensures forall i :: Members(InsertChannel(s.db, name), i) == Members(s.db, i)
  {
    NewRow(s.db, name);
    hide GetChannelId, HasChannel;
    forall i ensures Members(InsertChannel(s.db, name), i) == Members(s.db, i) {
      SameMembers(s.db, InsertChannel(s.db, name), i);
    }
  }

  lemma InstalledFiled(s: Shared, now: Shared, name: string)
    requires FreeName(s, name)
    requires now.objs == s.objs + [ChannelObject(s.db.nextChannel, name, {})]
    requires now.installed == s.installed[s.db.nextChannel := |s.objs|] && now.db == InsertChannel(s.db, name)
    ensures ObjectsFiled(now)
  {
    hide GetChannelName, GetChannelId, InsertChannel, FreeName;
    RowSettled(s, name);
    FreeFiled(s, name);
    forall i | i in s.installed && i != s.db.nextChannel ensures GetChannelName(now.db, i) == GetChannelName(s.db, i) {
      NameKept(s.db, name, i);
    }
  }

  lemma FreeFiled(s: Shared, name: string)
    requires FreeName(s, name)
    ensures ObjectsFiled(s) && FitsName(name)
  {
    hide ObjectsFiled;
  }

  /** One more row leaves the names under the other ids. */
  lemma NameKept(t: Tables, name: string, id: Id)
    requires id != t.nextChannel
    ensures GetChannelName(InsertChannel(t, name), id) == GetChannelName(t, id)
  {
    WhereSnoc(t.channels, ChannelRow(t.nextChannel, name), (c: ChannelRow) => c.id == id);
  }

  lemma {:induction false} RunPhase(s: Shared, moves: seq<Move>, name: string)
    requires FreeName(s, name) && OnlyName(moves, name) && AtMostOpen(s, moves, 1)
    ensures Phase(s, RunFrom(s, moves), name)
  {
    hide FreeName, Phase, RunFrom, Step, OpenCount;
    if moves != [] {
      var n := |moves| - 1;
      assert forall k :: 0 <= k <= n ==> moves[..n][..k] == moves[..k];
      assert moves[n] in moves && moves[..|moves|] == moves;
      RunPhase(s, moves[..n], name);
      RunSnoc(s, moves);
      StepPhase(s, RunFrom(s, moves[..n]), moves[n], name);
    } else {
      RunNothing(s);
      StartPhase(s, name);
    }
  }

  lemma StartPhase(s: Shared, name: string)
    requires FreeName(s, name)
    ensures Phase(s, s, name)
  {
    hide ChannelRowsSound, HasChannel, Inv, Members, GetChannelName;
  }

  lemma StepPhase(s: Shared, now: Shared, move: Move, name: string)
    requires FreeName(s, name) && Phase(s, now, name) && (move.Begin? ==> move.name == name)
    requires OpenCount(Step(now, move)) <= 1
    ensures Phase(s, Step(now, move), name)
  {
    hide FreeName, NoRowYet, Installing, Inv, Settled, Step, OpenCount;
    if NoRowYet(s, now, name) {
      StepNoRowYet(s, now, move, name);
    } else if Installing(s, now, name) {
      StepInstalling(s, now, move, name);
    } else {
      StepSettled(now, move, name);
    }
  }

  lemma StepSettled(now: Shared, move: Move, name: string)
    requires Inv(now) && Settled(now.db, name) && (move.Begin? ==> move.name == name)
    ensures Inv(Step(now, move)) && Settled(Step(now, move).db, name)
  {
    hide Inv, Settled, Advance;
    match move
    case Begin(kind, _) => BeginKeeps(now, kind, name);
    case Go(t, known) =>
      if t < |now.threads| {
        AdvanceKeeps(now, t, known);
        SameChannelTable(now.db, Advance(now, t, known).db, name, NO_ID);
      }
  }

  /** In each of these phases a run at rest is coherent, and its requests have one object. */
  lemma PhaseFine(s: Shared, now: Shared, name: string)
    requires FreeName(s, name) && Phase(s, now, name) && forall th :: th in now.threads ==> th.name == name
    ensures RestsCoherent(now) && OneObject(now)
  {
    hide FreeName, Members, Settled, ChannelRowsSound, HasChannel, GetChannelId, GetChannelName;
    if Inv(now) && Settled(now.db, name) {
      InvRests(now);
      InvOneObject(now, name);
    } else if NoRowYet(s, now, name) {
      FreeCoherent(s, name);
    } else {
      assert now.threads[0] in now.threads;
    }
  }

  lemma FreeCoherent(s: Shared, name: string)
    requires FreeName(s, name)
    ensures forall id :: id in s.installed ==>
              s.installed[id] < |s.objs| && s.objs[s.installed[id]].users == Members(s.db, id)
  {
    hide ChannelRowsSound, Members, HasChannel, GetChannelName;
  }

  lemma InvRests(now: Shared)
    requires Inv(now)
    ensures RestsCoherent(now)
  {
    hide Members, ThreadsOk, OneHolder, ObjectsFiled;
    if forall th :: th in now.threads ==> th.pc.Done? {
      forall id, c ensures !Pending(now, id, c) {
        forall i: nat | i < |now.threads| ensures !PendingAt(now, i, id, c) { assert now.threads[i] in now.threads; }
      }
    }
  }

  lemma InvOneObject(now: Shared, name: string)
    requires Inv(now) && forall th :: th in now.threads ==> th.name == name
    ensures OneObject(now)
  {
    hide Inv, GetChannelId, GivenObject;
    forall a, b | a in now.threads && b in now.threads && GivenObject(a.pc).Some? && GivenObject(b.pc).Some?
      ensures GivenObject(a.pc) == GivenObject(b.pc)
    {
      var i: nat :| i < |now.threads| && now.threads[i] == a;
      var j: nat :| j < |now.threads| && now.threads[j] == b;
      GivenIsInstalled(now.db, now, i);
      GivenIsInstalled(now.db, now, j);
    }
  }

  lemma {:induction false} ThreadsOnlyGrow(s: Shared, moves: seq<Move>, k: nat)
    requires k <= |moves|
    ensures |RunFrom(s, moves[..k]).threads| <= |RunFrom(s, moves).threads|
  {
    hide RunFrom, Step;
    if k == |moves| {
      assert moves[..k] == moves;
    } else {
      var n := |moves| - 1;
      assert moves[..n][..k] == moves[..k];
      ThreadsOnlyGrow(s, moves[..n], k);
      RunSnoc(s, moves);
      NoThreadLost(RunFrom(s, moves[..n]), moves[n]);
    }
  }

  lemma NoThreadLost(s: Shared, move: Move)
    ensures |s.threads| <= |Step(s, move).threads|
  {
    hide Advance;
    if move.Go? && move.thread < |s.threads| { StepOfThread(s, move.thread, move.known); }
  }

  lemma FewThreadsFewOpen(s: Shared, moves: seq<Move>, n: nat)
    requires |RunFrom(s, moves).threads| <= n
    ensures AtMostOpen(s, moves, n)
  {
    hide RunFrom, UnderWay;
    forall k | 0 <= k <= |moves| ensures OpenCount(RunFrom(s, moves[..k])) <= n { ThreadsOnlyGrow(s, moves, k); }
  }

  lemma FewerOpen(s: Shared, moves: seq<Move>, m: nat, n: nat)
    requires AtMostOpen(s, moves, m) && m <= n
    ensures AtMostOpen(s, moves, n)
  {
    hide OpenCount, RunFrom;
  }

  /** Creation, exactly. From any idle state over tables with sound channel rows, and for any usable name: every
      interleaving with at most n requests on that name under way at a time leaves every installed channel with exactly
      its subscribers and all requests on one object, if and only if n is at most one or the name has its row. */
  lemma CoherentIffNoOverlap(s: Shared, name: string, n: nat)
    requires Idle(s) && ChannelRowsSound(s.db) && UsableName(name)
    ensures (forall moves :: OnlyName(moves, name) && AtMostOpen(s, moves, n) ==>
               RestsCoherent(RunFrom(s, moves)) && OneObject(RunFrom(s, moves))) <==>
            n <= 1 || HasChannel(s.db, name)
  {
    hide RunFrom, RestsCoherent, OneObject, HasChannel, ChannelRowsSound, Idle, OnlyName, AtMostOpen, FreeName;
    if HasChannel(s.db, name) {
      CoherentIffRowExists(s, name);
      OneObjectIffRowExists(s, name);
    } else if n <= 1 {
      IsFree(s, name);
      IdleHasNoThreads(s);
      forall moves | OnlyName(moves, name) && AtMostOpen(s, moves, n)
        ensures RestsCoherent(RunFrom(s, moves)) && OneObject(RunFrom(s, moves))
      {
        FewerOpen(s, moves, n, 1);
        RunPhase(s, moves, name);
        NamesOfThreads(s, moves, name);
        PhaseFine(s, RunFrom(s, moves), name);
      }
    } else {
      OverlapBreaks(s, name, n);
    }
  }

  lemma IsFree(s: Shared, name: string)
    requires Idle(s) && ChannelRowsSound(s.db) && UsableName(name) && !HasChannel(s.db, name)
    ensures FreeName(s, name)
  {
  }

  /** Two requests at a time are enough to break it. */
  lemma OverlapBreaks(s: Shared, name: string, n: nat)
    requires Idle(s) && ChannelRowsSound(s.db) && UsableName(name) && !HasChannel(s.db, name) && n >= 2
    ensures exists moves :: OnlyName(moves, name) && AtMostOpen(s, moves, n) && !OneObject(RunFrom(s, moves))
  {
    hide RunFrom, HasChannel, ChannelRowsSound, OneObject, AtMostOpen;
    var moves := MemberLost(s, name, 1);
    TwoObjects(RunFrom(s, moves));
    FewThreadsFewOpen(s, moves, n);
  }
}
