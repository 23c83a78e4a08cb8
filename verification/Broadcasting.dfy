/** Whom a broadcast visits while joins are under way. */
module Broadcasting {
  import opened Basics
  import opened Schema
  import opened ChatModel
  import opened Interleaving

  // ---------- nobody is missed ----------

  /** The client is subscribed, and thread i, if it has visited the members of this channel, has visited it. */
  ghost predicate NotMissed(s: Shared, i: nat, name: string, client: Id) {
    && client in Members(s.db, GetChannelId(s.db, name))
    && (i < |s.threads| && s.threads[i].name == name && s.threads[i].pc.Writing? ==> client in s.threads[i].pc.visited)
  }

  /** A thread comes to stand behind its loop over the members only by that loop. */
  lemma VisitsOnce(s: Shared, t: nat, known: bool)
    requires t < |s.threads| && Advance(s, t, known).threads[t].pc.Writing?
    ensures if s.threads[t].pc.Visiting?
            then s.threads[t].pc.obj < |s.objs|
                 && Advance(s, t, known).threads[t].pc.visited == s.objs[s.threads[t].pc.obj].users
                 && Advance(s, t, known).threads[t].pc.obj == s.threads[t].pc.obj
            else Advance(s, t, known).threads[t].pc == s.threads[t].pc
  {
    hide HasChannel, GetChannelId, GetClientId, GetChannelUsers, HasChannelClient, InsertSubscription, InsertChannel,
         InsertHistory;
    match s.threads[t].pc
    case Loaded(_, _) =>
    case Build(_) =>
    case Overwrite(_) =>
    case Adding(_) =>
    case Visiting(_) =>
    case _ =>
  }

  /** The object a sender visits holds every subscriber and nobody but subscribers and pending joins. */
  lemma VisitedObject(s: Shared, i: nat, client: Id)
    requires Inv(s) && i < |s.threads| && GivenObject(s.threads[i].pc).Some?
    ensures var obj, id := GivenObject(s.threads[i].pc).value, GetChannelId(s.db, s.threads[i].name);
      obj < |s.objs| && (client in s.objs[obj].users <==> client in Members(s.db, id) || Pending(s, id, client))
  {
    hide Members, Pending, GetChannelId, GetChannelName, Settled, ThreadOk;
    GivenIsInstalled(s.db, s, i);
    assert MembersCoherent(s);
  }

  lemma StepNotMissed(s: Shared, move: Move, i: nat, name: string, client: Id)
    requires Inv(s) && NotMissed(s, i, name, client)
    ensures NotMissed(Step(s, move), i, name, client)
  {
    hide Inv, Members, GetChannelId, Advance, Pending;
    match move
    case Begin(_, _) =>
    case Go(t, known) =>
      if t < |s.threads| {
        var s' := Advance(s, t, known);
        AdvanceKeeps(s, t, known);
        SameChannelTable(s.db, s'.db, name, NO_ID);
        StepGrows(s, t, known, GetChannelId(s.db, name));
        StepOfThread(s, t, known);
        if t == i && s'.threads[t].pc.Writing? {
          VisitsOnce(s, t, known);
          if s.threads[t].pc.Visiting? { VisitedObject(s, t, client); }
        }
      }
  }

  lemma {:induction false} RunNotMissed(s: Shared, moves: seq<Move>, i: nat, name: string, client: Id)
    requires Inv(s) && NamesSettled(s.db, moves) && NotMissed(s, i, name, client)
    ensures NotMissed(RunFrom(s, moves), i, name, client)
  {
    hide Inv, RunFrom, Step, NamesSettled, NotMissed;
    if moves != [] {
      var n := |moves| - 1;
      assert moves == moves[..n] + [moves[n]];
      NamesSettledInit(s.db, moves[..n], [moves[n]]);
      RunNotMissed(s, moves[..n], i, name, client);
      RunKeeps(s, moves[..n]);
      RunSnoc(s, moves);
      StepNotMissed(RunFrom(s, moves[..n]), moves[n], i, name, client);
    } else {
      RunNothing(s);
    }
  }

  // ---------- nobody else is visited ----------

  /** Whom a thread has visited is still in the object. */
  ghost predicate VisitedStay(s: Shared) {
    forall i :: 0 <= i < |s.threads| && s.threads[i].pc.Writing? ==>
      s.threads[i].pc.obj < |s.objs| && s.threads[i].pc.visited <= s.objs[s.threads[i].pc.obj].users
  }

  lemma StepVisitedStay(s: Shared, move: Move)
    requires VisitedStay(s)
    ensures VisitedStay(Step(s, move))
  {
    hide Advance, Members;
    match move
    case Begin(_, _) =>
    case Go(t, known) =>
      if t < |s.threads| {
        StepGrows(s, t, known, NO_ID);
        StepOfThread(s, t, known);
        if Advance(s, t, known).threads[t].pc.Writing? { VisitsOnce(s, t, known); }
      }
  }

  lemma {:induction false} RunVisitedStay(s: Shared, moves: seq<Move>)
    requires s.threads == []
    ensures VisitedStay(RunFrom(s, moves))
  {
    if moves != [] {
      hide VisitedStay, Step;
      var n := |moves| - 1;
      RunVisitedStay(s, moves[..n]);
      StepVisitedStay(RunFrom(s, moves[..n]), moves[n]);
    }
  }

  /** The broadcast under way joins. In every interleaving of requests on names that have their row, let thread i have
      visited the members of its channel after moves + more and not yet after moves. Whatever users are known and
      whatever sessions are closed at its visit, it writes to every known client with a living session that was
      subscribed after moves, and to nobody that is neither subscribed nor past addUser by now. */
  lemma BroadcastVisits(s: Shared, moves: seq<Move>, more: seq<Move>, i: nat, client: Id, users: map<Id, UserView>,
                        closed: set<Session>)
    requires Idle(s) && NamesSettled(s.db, moves + more)
    requires i < |RunFrom(s, moves + more).threads| && RunFrom(s, moves + more).threads[i].pc.Writing?
    requires i < |RunFrom(s, moves).threads| ==> !RunFrom(s, moves).threads[i].pc.Writing?
    ensures var before, after := RunFrom(s, moves), RunFrom(s, moves + more);
      var th := after.threads[i];
      var id := GetChannelId(s.db, th.name);
      var to := Living(th.pc.visited, users, closed);
      && (client in Members(before.db, id) && client in users && users[client].session !in closed ==> client in to)
      && (client in to ==> client in users && users[client].session !in closed)
      && (client in to ==> client in Members(after.db, id) || Pending(after, id, client))
  {
    hide RunFrom, Inv, Idle, NamesSettled, Members, Pending, GetChannelId, NotMissed, VisitedStay, GivenObject;
    var before, after := RunFrom(s, moves), RunFrom(s, moves + more);
    var name := after.threads[i].name;
    IdleInv(s);
    NamesSettledInit(s.db, moves, more);
    RunKeeps(s, moves);
    RunKeeps(s, moves + more);
    SameChannelTable(s.db, before.db, name, NO_ID);
    SameChannelTable(s.db, after.db, name, NO_ID);
    if client in Members(before.db, GetChannelId(s.db, name)) {
      NotMissedYet(before, i, name, client);
      NamesSettledRest(s.db, before.db, moves, more);
      RunNotMissed(before, more, i, name, client);
      RunAppend(s, moves, more);
      MissedNobody(after, i, client);
    }
    IdleHasNoThreads(s);
    RunVisitedStay(s, moves + more);
    VisitedNow(after, i, client);
  }

  lemma NotMissedYet(s: Shared, i: nat, name: string, client: Id)
    requires client in Members(s.db, GetChannelId(s.db, name))
    requires i < |s.threads| ==> !s.threads[i].pc.Writing?
    ensures NotMissed(s, i, name, client)
  {
  }

  lemma MissedNobody(s: Shared, i: nat, client: Id)
    requires i < |s.threads| && s.threads[i].pc.Writing? && NotMissed(s, i, s.threads[i].name, client)
    ensures client in s.threads[i].pc.visited
  {
  }

  lemma VisitedNow(s: Shared, i: nat, client: Id)
    requires Inv(s) && VisitedStay(s) && i < |s.threads| && s.threads[i].pc.Writing?
    ensures var id := GetChannelId(s.db, s.threads[i].name);
      client in s.threads[i].pc.visited ==> client in Members(s.db, id) || Pending(s, id, client)
  {
    hide Inv, Members, Pending, GetChannelId;
    VisitedObject(s, i, client);
  }
}
