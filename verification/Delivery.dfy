/** Who is reached by a message, over whole runs with restarts. */
module Delivery {
  import opened Basics
  import opened Schema
  import opened ChatModel
  import opened Recovery
  import opened Accounts

  // ---------- the user directory ----------

  /** The session of the latest registration or authorisation answered with this id since the last restart. */
  function LatestSession(events: seq<Event>, id: Id): Option<Session> {
    if events == [] then None
    else
      var init, e := events[..|events| - 1], events[|events| - 1];
      if e.Restart? then None
      else if (e.Registration? || e.Authorisation?) && id != NO_ID && Answer(Run(init), e) == id then Some(e.session)
      else LatestSession(init, id)
  }

  ghost predicate DirectoryMatches(events: seq<Event>, users: map<Id, UserView>) {
    forall id ::
      LatestSession(events, id) == if id in users then Some(users[id].session) else None
  }

  lemma UsersStep(w: World, e: Event)
    requires w.Running? && !e.Restart?
    ensures Apply(w, e).Running?
    ensures Apply(w, e).server.users ==
              if (e.Registration? || e.Authorisation?) && Answer(w, e) != NO_ID
              then PushUser(w.server.users, UserView(Answer(w, e), e.login, e.password, e.session))
              else w.server.users
    ensures Apply(w, e).closed == if e.SessionClosed? then w.closed + {e.session} else w.closed
  {
    hide OpenChannel, CheckRegUser, CheckAuthUser, PushUser;
    if NamedChannel(e).Some? { OpenKeepsClients(w.server, NamedChannel(e).value); }
  }

  lemma LatestSnoc(init: seq<Event>, e: Event, id: Id)
    ensures LatestSession(init + [e], id) ==
      if e.Restart? then None
      else if (e.Registration? || e.Authorisation?) && id != NO_ID && Answer(Run(init), e) == id then Some(e.session)
      else LatestSession(init, id)
  {
    assert (init + [e])[..|init|] == init;
    hide Answer, Run;
  }

  /** A successful login files the id under its session and leaves the other entries. */
  lemma LoginMatches(init: seq<Event>, events: seq<Event>, users: map<Id, UserView>, u: UserView)
    requires DirectoryMatches(init, users)
    requires forall id :: LatestSession(events, id) == if id == u.id then Some(u.session) else LatestSession(init, id)
    ensures DirectoryMatches(events, PushUser(users, u))
  {
    hide LatestSession;
  }

  lemma SameMatches(init: seq<Event>, events: seq<Event>, users: map<Id, UserView>)
    requires DirectoryMatches(init, users)
    requires forall id :: LatestSession(events, id) == LatestSession(init, id)
    ensures DirectoryMatches(events, users)
  {
    hide LatestSession;
  }

  /** One event other than a restart. */
  lemma DirectoryStep(init: seq<Event>, e: Event)
    requires Run(init).Running? && !e.Restart? && DirectoryMatches(init, Run(init).server.users)
    ensures DirectoryMatches(init + [e], Apply(Run(init), e).server.users)
  {
    hide Run, Answer, Apply, DirectoryMatches, PushUser, LatestSession;
    var w := Run(init);
    UsersStep(w, e);
    forall id ensures LatestSession(init + [e], id) ==
      if (e.Registration? || e.Authorisation?) && Answer(w, e) != NO_ID && Answer(w, e) == id then Some(e.session)
      else LatestSession(init, id)
    {
      LatestSnoc(init, e, id);
    }
    if (e.Registration? || e.Authorisation?) && Answer(w, e) != NO_ID {
      LoginMatches(init, init + [e], w.server.users, UserView(Answer(w, e), e.login, e.password, e.session));
    } else {
      SameMatches(init, init + [e], w.server.users);
    }
  }

  /** The keys of the directory are exactly the ids that logged in since the last restart, each with the session
      of its latest login. */
  lemma {:induction false} Directory(events: seq<Event>)
    ensures Run(events).Running? ==> DirectoryMatches(events, Run(events).server.users)
    ensures Run(events).Stopped? ==> forall id :: LatestSession(events, id) == None
  {
    if events != [] {
      hide Run, Answer, Apply, LatestSession;
      var init, e := events[..|events| - 1], events[|events| - 1];
      assert events == init + [e];
      Directory(init);
      var w := Run(init);
      RunSnoc(events);
      forall id ensures e.Restart? ==> LatestSession(events, id) == None { LatestSnoc(init, e, id); }
      if e.Restart? {
        RestartClears(w);
      } else if w.Running? {
        UsersStep(w, e);
        DirectoryStep(init, e);
      } else {
        StoppedStays(w, e);
        forall id ensures LatestSession(events, id) == None { LatestSnoc(init, e, id); }
      }
    } else {
      assert Run(events) == BOOT;
    }
  }

  lemma RunSnoc(events: seq<Event>)
    requires events != []
    ensures Run(events) == Apply(Run(events[..|events| - 1]), events[|events| - 1])
  {
  }

  lemma RestartClears(w: World)
    ensures Apply(w, Restart).Running? ==> Apply(w, Restart).server.users == map[]
    ensures Apply(w, Restart).Running? ==> w.Running? && Apply(w, Restart).closed == w.closed
  {
    hide Recover;
  }

  lemma StoppedStays(w: World, e: Event)
    requires w.Stopped?
    ensures Apply(w, e) == w && Answer(w, e) == NO_ID
  {
  }

  /** Every directory entry holds its own id and the login and password registered for it. */
  lemma {:induction false} DirectoryRows(events: seq<Event>, id: Id)
    requires Run(events).Running? && id in Run(events).server.users
    ensures var u := Run(events).server.users[id];
      u.id == id && IsAccount(events, ClientRow(id, u.login, u.password))
  {
    hide IsAccount, Run;
    var u := Run(events).server.users[id];
    RunCoherent(events);
    ClientsAreAccounts(events, ClientRow(id, u.login, u.password));
  }

  // ---------- closed sessions ----------

  /** The session has not been closed. */
  predicate Alive(events: seq<Event>, session: Session) { SessionClosed(session) !in events }

  lemma {:induction false} ClosedSessions(events: seq<Event>, session: Session)
    requires Run(events).Running?
    ensures session in Run(events).closed <==> !Alive(events, session)
  {
    if events != [] {
      var init, e := events[..|events| - 1], events[|events| - 1];
      assert events == init + [e];
      var w := Run(init);
      if w.Stopped? { StoppedStays(w, e); } else {
        ClosedSessions(init, session);
        hide Run;
        assert Run(events) == Apply(w, e) by { RunSnoc(events); }
        hide Apply;
        if e.Restart? { RestartClears(w); } else { UsersStep(w, e); }
      }
    }
  }

  // ---------- membership ----------

  /** A logged-in client asked to join this channel at event i. */
  predicate JoinedAt(events: seq<Event>, i: nat, id: Id, name: string) {
    i < |events| && events[i] == JoinRoom(id, name) && LatestSession(events[..i], id).Some?
  }

  /** The client has joined the channel at some time, possibly before the last restart. */
  ghost predicate HasJoined(events: seq<Event>, id: Id, name: string) {
    UsableName(name) && exists i: nat :: JoinedAt(events, i, id, name)
  }

  ghost predicate SubscribedTo(t: Tables, id: Id, name: string) {
    exists r :: r in t.channels && r.name == name && SubscriptionRow(id, r.id) in t.subscriptions
  }

  lemma OneMoreJoin(init: seq<Event>, e: Event, id: Id, name: string)
    ensures HasJoined(init + [e], id, name) <==>
      HasJoined(init, id, name) || (UsableName(name) && e == JoinRoom(id, name) && LatestSession(init, id).Some?)
  {
    hide LatestSession;
    var events, n := init + [e], |init|;
    assert events[n] == e && events[..n] == init;
    forall i: nat | i < n ensures JoinedAt(events, i, id, name) <==> JoinedAt(init, i, id, name) {
      assert events[..i] == init[..i];
    }
    if HasJoined(events, id, name) {
      var i: nat :| JoinedAt(events, i, id, name);
      assert i == n || JoinedAt(init, i, id, name);
    }
    if HasJoined(init, id, name) {
      var i: nat :| JoinedAt(init, i, id, name);
      assert JoinedAt(events, i, id, name);
    }
    if UsableName(name) && e == JoinRoom(id, name) && LatestSession(init, id).Some? {
      assert JoinedAt(events, n, id, name);
    }
  }

  /** One more channel row brings no subscriber. */
  lemma NewRowHasNoSubscriber(t: Tables, name: string, id: Id, other: string)
    requires Sound(t)
    ensures SubscribedTo(InsertChannel(t, name), id, other) <==> SubscribedTo(t, id, other)
  {
    hide HasClientRow;
    var t' := InsertChannel(t, name);
    if SubscribedTo(t, id, other) {
      var r :| r in t.channels && r.name == other && SubscriptionRow(id, r.id) in t.subscriptions;
      assert r in t'.channels;
    }
    if SubscribedTo(t', id, other) {
      var r :| r in t'.channels && r.name == other && SubscriptionRow(id, r.id) in t'.subscriptions;
      assert HasChannelRowId(t, r.id);
      assert r in t.channels || r == ChannelRow(t.nextChannel, name);
    }
  }

  /** Joining adds exactly the one pair of client and channel. */
  lemma JoinSubscribes(t: Tables, client: Id, name: string, id: Id, other: string)
    requires ChannelsSound(t) && HasChannel(t, name)
    ensures SubscribedTo(JoinClientChannel(t, client, name), id, other) <==>
              SubscribedTo(t, id, other) || (id == client && other == name)
  {
    var t' := JoinClientChannel(t, client, name);
    ChannelIdFound(t, name);
    var row := ChannelRow(GetChannelId(t, name), name);
    assert row in t'.channels && SubscriptionRow(client, row.id) in t'.subscriptions;
    assert forall x :: x in t'.subscriptions <==> x in t.subscriptions || x == SubscriptionRow(client, row.id);
    if SubscribedTo(t, id, other) {
      var r :| r in t.channels && r.name == other && SubscriptionRow(id, r.id) in t.subscriptions;
      assert r in t'.channels && SubscriptionRow(id, r.id) in t'.subscriptions;
    }
    if SubscribedTo(t', id, other) {
      var r :| r in t'.channels && r.name == other && SubscriptionRow(id, r.id) in t'.subscriptions;
      if r.id == row.id { ChannelRowUnique(t, r, row); }
    }
  }

  lemma SubscribedOpen(s: Server, name: string, id: Id, other: string)
    requires Coherent(s)
    ensures SubscribedTo(OpenChannel(s, name).server.db, id, other) <==> SubscribedTo(s.db, id, other)
  {
    hide Coherent, OpenChannel, SubscribedTo, Sound;
    OpenedChannel(s, name);
    assert Sound(s.db) by { CoherentTables(s); }
    NewRowHasNoSubscriber(s.db, name, id, other);
  }

  lemma SubscribedStep(w: World, e: Event, id: Id, name: string)
    requires WorldCoherent(w)
    ensures SubscribedTo(Database(Apply(w, e)), id, name) <==>
      || SubscribedTo(Database(w), id, name)
      || (w.Running? && UsableName(name) && e == JoinRoom(id, name) && id in w.server.users)
  {
    hide Coherent, OpenChannel, SubscribedTo, Sound, JoinClientChannel, AddMsgHistory, Recover, CheckRegUser,
         CheckAuthUser, HasChannel;
    if w.Running? && NamedChannel(e).Some? {
      var s, channel := w.server, NamedChannel(e).value;
      SubscribedOpen(s, channel, id, name);
      OpenedChannel(s, channel);
      var o := OpenChannel(s, channel);
      if e.JoinRoom? && o.id.Some? && e.client in s.users {
        CoherentTables(o.server);
        SoundParts(o.server.db);
        JoinSubscribes(o.server.db, e.client, channel, id, name);
      } else if e.SendText? {
        SameSubscriptions(o.server.db, e.message, id, name);
      }
    } else if w.Running? && e.Registration? {
      RegisterKeepsSubscriptions(w.server.db, e.login, e.password, id, name);
    }
  }

  lemma SameSubscriptions(t: Tables, m: TextMsg, id: Id, name: string)
    ensures SubscribedTo(AddMsgHistory(t, m), id, name) <==> SubscribedTo(t, id, name)
  {
  }

  lemma RegisterKeepsSubscriptions(t: Tables, login: string, password: string, id: Id, name: string)
    ensures SubscribedTo(CheckRegUser(t, login, password).0, id, name) <==> SubscribedTo(t, id, name)
  {
  }

  /** The subscriptions table is exactly the joins of logged-in clients. */
  lemma {:induction false} SubscriptionsAreJoins(events: seq<Event>, id: Id, name: string)
    ensures SubscribedTo(Database(Run(events)), id, name) <==> HasJoined(events, id, name)
  {
    hide HasJoined, WorldCoherent;
    if events != [] {
      hide SubscribedTo;
      var init, e := events[..|events| - 1], events[|events| - 1];
      assert events == init + [e];
      SubscriptionsAreJoins(init, id, name);
      OneMoreJoin(init, e, id, name);
      Directory(init);
      RunCoherent(init);
      SubscribedStep(Run(init), e, id, name);
    } else {
      NothingJoined(id, name);
    }
  }

  lemma NothingJoined(id: Id, name: string)
    ensures !HasJoined([], id, name)
  {
  }

  // ---------- delivery ----------

  /** The client joined the channel, logged in since the last restart, and its latest session is alive. */
  ghost predicate Reached(events: seq<Event>, id: Id, name: string) {
    && HasJoined(events, id, name)
    && LatestSession(events, id).Some? && Alive(events, LatestSession(events, id).value)
  }

  /** The object of an opened channel holds exactly the clients that joined it. */
  lemma {:induction false} MembersAreJoined(events: seq<Event>, name: string, id: Id)
    requires Run(events).Running?
    requires OpenChannel(Run(events).server, name).id.Some?
    ensures var o := OpenChannel(Run(events).server, name);
      id in o.server.channels[o.id.value].users <==> HasJoined(events, id, name)
  {
    hide HasJoined, Run, OpenChannel;
    var s := Run(events).server;
    var o := OpenChannel(s, name);
    assert Coherent(s) by { RunCoherent(events); }
    OpenedChannel(s, name);
    SubscribedOpen(s, name, id, name);
    SubscriptionsAreJoins(events, id, name);
    MemberIffSubscribed(o.server, o.id.value, id);
  }

  lemma MemberIffSubscribed(s: Server, channel: Id, id: Id)
    requires Coherent(s) && channel in s.channels
    ensures id in s.channels[channel].users <==> SubscribedTo(s.db, id, s.channels[channel].name)
  {
    hide SubscriptionsSound, HistorySound, ClientsSound;
    var name := s.channels[channel].name;
    var row := ChannelRow(channel, name);
    assert row in s.db.channels;
    if SubscribedTo(s.db, id, name) {
      var r :| r in s.db.channels && r.name == name && SubscriptionRow(id, r.id) in s.db.subscriptions;
      assert r == row by {
        var i :| 0 <= i < |s.db.channels| && s.db.channels[i] == r;
        var j :| 0 <= j < |s.db.channels| && s.db.channels[j] == row;
      }
    }
  }

  lemma RecipientsAreReached(events: seq<Event>, name: string, id: Id)
    requires Run(events).Running? && OpenChannel(Run(events).server, name).id.Some?
    ensures var o := OpenChannel(Run(events).server, name);
      && (id in Recipients(o.server, Run(events).closed, o.id.value) <==> Reached(events, id, name))
      && (Reached(events, id, name) ==>
            id in o.server.users && Some(o.server.users[id].session) == LatestSession(events, id))
  {
    hide HasJoined, Run, OpenChannel, Alive, LatestSession;
    var w := Run(events);
    MembersAreJoined(events, name, id);
    OpenKeepsClients(w.server, name);
    Directory(events);
    if id in w.server.users { ClosedSessions(events, w.server.users[id].session); }
  }

  /** The session writes issued on behalf of one user. */
  function WritesFor(out: seq<SessionWrite>, id: Id): seq<SessionWrite> {
    Where(out, (x: SessionWrite) => x.user == id)
  }

  lemma {:induction false} OneWriteEach(out: seq<SessionWrite>, id: Id)
    requires NoDuplicates(Column(out, (x: SessionWrite) => x.user))
    ensures (forall x :: x in out ==> x.user != id) ==> WritesFor(out, id) == []
    ensures forall x :: x in out && x.user == id ==> WritesFor(out, id) == [x]
  {
    var users := Column(out, (x: SessionWrite) => x.user);
    if out != [] {
      var n := |out| - 1;
      var init, last := out[..n], out[n];
      assert Column(init, (x: SessionWrite) => x.user) == users[..n];
      OneWriteEach(init, id);
      assert forall x :: x in init ==> (exists i :: 0 <= i < n && out[i] == x);
      assert forall i :: 0 <= i < n ==> users[i] != users[n];
      assert forall x :: x in out <==> x in init || x == last;
      assert WritesFor(out, id) == WritesFor(init, id) + if last.user == id then [last] else [];
    }
  }

  /** Delivery. Whatever happened before, a text sent to a channel issues exactly one session write for each client
      that joined the channel, logged in since the last restart and has a living session, to that latest session;
      and none for anybody else. */
  lemma TextReaches(events: seq<Event>, m: TextMsg, out: seq<SessionWrite>, id: Id)
    requires Outputs(Run(events), SendText(m), out)
    ensures !Reached(events, id, m.channel) ==> WritesFor(out, id) == []
    ensures Reached(events, id, m.channel) ==>
              && |WritesFor(out, id)| == 1
              && Some(WritesFor(out, id)[0].to) == LatestSession(events, id)
  {
    hide Reached, Run, OpenChannel, LatestSession, Recipients;
    var w := Run(events);
    if w.Running? && OpenChannel(w.server, m.channel).id.Some? {
      var o := OpenChannel(w.server, m.channel);
      var to := Recipients(o.server, w.closed, o.id.value);
      assert IsBroadcast(out, o.server.users, to, EchoResponse(m));
      RecipientsAreReached(events, m.channel, id);
      BroadcastPerUser(out, o.server.users, to, EchoResponse(m), id);
    } else {
      NobodyReached(events, m.channel, id);
      assert out == [];
    }
  }

  lemma BroadcastPerUser(out: seq<SessionWrite>, users: map<Id, UserView>, to: set<Id>, payload: Payload, id: Id)
    requires IsBroadcast(out, users, to, payload)
    ensures id !in to ==> WritesFor(out, id) == []
    ensures id in to ==> id in users && |WritesFor(out, id)| == 1 && WritesFor(out, id)[0].to == users[id].session
  {
    hide WritesFor;
    var col := Column(out, (x: SessionWrite) => x.user);
    OneWriteEach(out, id);
    if id in to {
      assert id in Elements(col);
      var i :| 0 <= i < |col| && col[i] == id;
      assert out[i] in out && out[i].user == id;
    } else {
      forall x | x in out ensures x.user != id {
        var i :| 0 <= i < |out| && out[i] == x;
        assert col[i] in Elements(col);
      }
    }
  }

  lemma NobodyReached(events: seq<Event>, name: string, id: Id)
    requires Run(events).Running? ==> OpenChannel(Run(events).server, name).id.None?
    ensures !Reached(events, id, name)
  {
    hide Run, OpenChannel, LatestSession;
    Directory(events);
    if Run(events).Running? {
      RunCoherent(events);
      OpenedChannel(Run(events).server, name);
    }
  }

  /** The buffer of a broadcast is moved out at the first write: exactly one of the writes carries the text. */
  lemma OneWriteCarriesText(events: seq<Event>, m: TextMsg, out: seq<SessionWrite>)
    requires Outputs(Run(events), SendText(m), out)
    ensures |Where(out, (x: SessionWrite) => x.payload == EchoResponse(m))| == if out == [] then 0 else 1
    ensures forall x :: x in out ==> x.payload == EchoResponse(m) || x.payload == EmptyBuffer
  {
    hide Run, OpenChannel, Recipients, IsBroadcast, Outputs;
    var p := (x: SessionWrite) => x.payload == EchoResponse(m);
    PayloadsInOrder(events, m, out);
    if out != [] {
      assert out == [out[0]] + out[1..];
      WhereConcat([out[0]], out[1..], p);
      WhereAllOrNone(out[1..], p);
      WhereAllOrNone([out[0]], p);
    }
  }

  lemma PayloadsInOrder(events: seq<Event>, m: TextMsg, out: seq<SessionWrite>)
    requires Outputs(Run(events), SendText(m), out)
    ensures forall i :: 0 <= i < |out| ==> out[i].payload == if i == 0 then EchoResponse(m) else EmptyBuffer
  {
    hide Run, OpenChannel, Recipients;
  }

  /** The text is delivered to this client. */
  predicate GetsText(out: seq<SessionWrite>, m: TextMsg, id: Id) {
    exists x :: x in out && x.user == id && x.payload == EchoResponse(m)
  }

  /** Every client that should be reached gets the text exactly when there is at most one such client. */
  lemma TextArrivesForAll(events: seq<Event>, m: TextMsg, out: seq<SessionWrite>)
    requires Outputs(Run(events), SendText(m), out)
    ensures (forall id :: Reached(events, id, m.channel) ==> GetsText(out, m, id)) <==>
              (forall a, b :: Reached(events, a, m.channel) && Reached(events, b, m.channel) ==> a == b)
  {
    hide Reached, Outputs, GetsText;
    forall id ensures Reached(events, id, m.channel) && GetsText(out, m, id) <==> out != [] && out[0].user == id {
      TextForOne(events, m, out, id);
    }
    forall id ensures Reached(events, id, m.channel) ==> out != [] {
      TextForOne(events, m, out, id);
    }
    if forall a, b :: Reached(events, a, m.channel) && Reached(events, b, m.channel) ==> a == b {
      forall id | Reached(events, id, m.channel) ensures GetsText(out, m, id) {
        assert Reached(events, out[0].user, m.channel);
      }
    }
  }

  lemma {:induction false} TextForOne(events: seq<Event>, m: TextMsg, out: seq<SessionWrite>, id: Id)
    requires Outputs(Run(events), SendText(m), out)
    ensures Reached(events, id, m.channel) && GetsText(out, m, id) <==> out != [] && out[0].user == id
    ensures Reached(events, id, m.channel) ==> out != []
  {
    hide Reached, Outputs;
    TextReaches(events, m, out, id);
    assert forall x :: x in WritesFor(out, id) <==> x in out && x.user == id;
    if Reached(events, id, m.channel) { assert WritesFor(out, id)[0] in WritesFor(out, id); }
    FirstWriteCarries(events, m, out);
    if out != [] { assert out[0] in out; }
  }

  lemma FirstWriteCarries(events: seq<Event>, m: TextMsg, out: seq<SessionWrite>)
    requires Outputs(Run(events), SendText(m), out)
    ensures out != [] ==> out[0].payload == EchoResponse(m)
    ensures forall x :: x in out && x.payload == EchoResponse(m) ==> x == out[0]
  {
    hide Run, Outputs;
    PayloadsInOrder(events, m, out);
  }

  /** What is known of a usable channel name once opened. */
  lemma OpenedUsable(events: seq<Event>, name: string)
    requires Run(events).Running?
    ensures var s := Run(events).server;
      && (OpenChannel(s, name).id.Some? <==> UsableName(name))
      && OpenChannel(s, name).server.users == s.users
      && (UsableName(name) ==>
            OpenChannel(s, name).server.channels[OpenChannel(s, name).id.value].name == name)
      && (forall id :: id in s.users ==> s.users[id].id == id)
  {
    hide Run, OpenChannel;
    RunCoherent(events);
    OpenedChannel(Run(events).server, name);
  }

  /** A join is confirmed exactly the first time ever: to a logged-in client with a living session that has not
      joined the channel before, not even before a restart. */
  lemma JoinConfirmedOnce(events: seq<Event>, id: Id, name: string, out: seq<SessionWrite>)
    requires Outputs(Run(events), JoinRoom(id, name), out)
    ensures (out != []) <==>
      && UsableName(name) && !HasJoined(events, id, name)
      && LatestSession(events, id).Some? && Alive(events, LatestSession(events, id).value)
    ensures out != [] ==> out == [SessionWrite(id, LatestSession(events, id).value, JoinRoomResponse(name))]
  {
    hide HasJoined, Run, OpenChannel, Alive, LatestSession, UsableName;
    var w := Run(events);
    Directory(events);
    if w.Running? {
      OpenedUsable(events, name);
      if UsableName(name) {
        MembersAreJoined(events, name, id);
        if id in w.server.users { ClosedSessions(events, w.server.users[id].session); }
      }
    }
  }

  // ---------- a text that is lost ----------

  const ANN := Registration(1, "ann", "pw")
  const BOB := Registration(2, "bob", "pw")
  const JOINING: seq<Event> := [ANN, BOB, JoinRoom(1, "den"), JoinRoom(2, "den")]

  lemma FirstRegistration()
    ensures Answer(Run([]), ANN) == 1
    ensures Database(Run([ANN])) == InsertClient(EMPTY_TABLES, "ann", "pw") && Run([ANN]).Running?
  {
    hide CheckRegUser;
    Registered(EMPTY_TABLES, "ann", "pw");
    RunSnoc([ANN]);
    assert [ANN][..0] == [] && Run([]) == BOOT;
    hide Run;
  }

  lemma SecondRegistration()
    ensures Answer(Run([ANN]), BOB) == 2
  {
    hide CheckRegUser, Run;
    FirstRegistration();
    var t := EMPTY_TABLES;
    ClientRowAdded(t, "ann", "pw");
    var t1 := InsertClient(t, "ann", "pw");
    assert t1.clients == [ClientRow(1, "ann", "pw")];
    ClientIdFound(t1, "bob");
    Registered(t1, "bob", "pw");
  }

  lemma JoiningSessions(id: Id)
    ensures LatestSession([ANN, BOB], id) == if id == 1 then Some(1) else if id == 2 then Some(2) else None
    ensures LatestSession(JOINING[..3], id) == LatestSession([ANN, BOB], id) == LatestSession(JOINING, id)
  {
    hide Run, Answer;
    FirstRegistration();
    SecondRegistration();
    LatestSnoc([], ANN, id);
    LatestSnoc([ANN], BOB, id);
    LatestSnoc([ANN, BOB], JoinRoom(1, "den"), id);
    LatestSnoc([ANN, BOB, JoinRoom(1, "den")], JoinRoom(2, "den"), id);
    assert [] + [ANN] == [ANN] && [ANN] + [BOB] == [ANN, BOB];
    assert JOINING[..3] == [ANN, BOB] + [JoinRoom(1, "den")];
    assert JOINING == [ANN, BOB, JoinRoom(1, "den")] + [JoinRoom(2, "den")];
    assert LatestSession([], id) == None;
    hide LatestSession;
  }

  /** After this run exactly the clients 1 and 2 are reached by a text to the channel. */
  lemma TwoReached(id: Id)
    ensures Reached(JOINING, id, "den") <==> id == 1 || id == 2
  {
    hide Run, Answer, LatestSession;
    JoiningSessions(1);
    JoiningSessions(2);
    JoiningSessions(id);
    assert JOINING[..2] == [ANN, BOB];
    assert JoinedAt(JOINING, 2, 1, "den") && JoinedAt(JOINING, 3, 2, "den");
    assert forall i: nat :: JoinedAt(JOINING, i, id, "den") ==> id == 1 || id == 2;
  }

  lemma {:induction false} SomeBroadcast(users: map<Id, UserView>, to: set<Id>, payload: Payload)
    returns (out: seq<SessionWrite>)
    requires to <= users.Keys
    ensures IsBroadcast(out, users, to, payload)
  {
    hide IsBroadcast;
    if to == {} {
      out := [];
      NoBroadcast(users, payload);
    } else {
      var id :| id in to;
      var before := SomeBroadcast(users, to - {id}, payload);
      BroadcastMore(before, users, to - {id}, payload, id);
      assert to - {id} + {id} == to;
      out := before + [SessionWrite(id, users[id].session, if before == [] then payload else EmptyBuffer)];
    }
  }

  /** Whatever happened before, a text can be sent. */
  lemma SomeOutput(events: seq<Event>, m: TextMsg) returns (out: seq<SessionWrite>)
    ensures Outputs(Run(events), SendText(m), out)
  {
    hide Run, OpenChannel, IsBroadcast;
    var w := Run(events);
    out := [];
    if w.Running? {
      var o := OpenChannel(w.server, m.channel);
      if o.id.Some? {
        out := SomeBroadcast(o.server.users, Recipients(o.server, w.closed, o.id.value), EchoResponse(m));
      }
    }
  }

  /** A text to a channel with two members that can be reached: whatever the order of the session writes, one of the
      members is not handed the text. */
  lemma TextLost(m: TextMsg, out: seq<SessionWrite>)
    requires m.channel == "den" && Outputs(Run(JOINING), SendText(m), out)
    ensures |out| == 2
    ensures exists id :: Reached(JOINING, id, "den") && |WritesFor(out, id)| == 1 && !GetsText(out, m, id)
  {
    hide Run, Outputs, GetsText, Reached, LatestSession, JOINING;
    TwoReached(1);
    TwoReached(2);
    TextReaches(JOINING, m, out, 1);
    TextReaches(JOINING, m, out, 2);
    TextForOne(JOINING, m, out, 1);
    TextForOne(JOINING, m, out, 2);
    forall x | x in out ensures x.user == 1 || x.user == 2 {
      TwoReached(x.user);
      TextReaches(JOINING, m, out, x.user);
      assert x in WritesFor(out, x.user);
    }
    TwoWrites(out);
  }

  /** One write each for two users makes two writes. */
  lemma TwoWrites(out: seq<SessionWrite>)
    requires |WritesFor(out, 1)| == 1 && |WritesFor(out, 2)| == 1
    requires forall x :: x in out ==> x.user == 1 || x.user == 2
    ensures |out| == 2
  {
    SplitWrites(out);
  }

  lemma {:induction false} SplitWrites(out: seq<SessionWrite>)
    requires forall x :: x in out ==> x.user == 1 || x.user == 2
    ensures |WritesFor(out, 1)| + |WritesFor(out, 2)| == |out|
  {
    if out != [] {
      var init, last := out[..|out| - 1], out[|out| - 1];
      assert out == init + [last] && last in out;
      SplitWrites(init);
      WhereSnoc(init, last, (x: SessionWrite) => x.user == 1);
      WhereSnoc(init, last, (x: SessionWrite) => x.user == 2);
    }
  }
}
