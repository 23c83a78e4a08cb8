/** The in-memory channels are a cache of the tables, and a restart rebuilds exactly that cache. */
module Recovery {
  import opened Basics
  import opened Schema
  import opened ChatModel

  /** An installed channel shows its row's name and its subscribers; every named row is installed. */
  ghost predicate ChannelsCoherent(t: Tables, channels: map<Id, ChannelView>) {
    && (forall c :: c in t.channels && c.name != "" ==> c.id in channels)
    && (forall id :: id in channels ==>
          && ChannelRow(id, channels[id].name) in t.channels
          && channels[id].name != ""
          && channels[id].users == Members(t, id))
  }

  /** A user object repeats its row of the clients table. */
  predicate UsersCoherent(t: Tables, users: map<Id, UserView>) {
    forall id :: id in users ==>
      && users[id].id == id
      && ClientRow(id, users[id].login, users[id].password) in t.clients
  }

  ghost predicate Coherent(s: Server) {
    Sound(s.db) && ChannelsCoherent(s.db, s.channels) && UsersCoherent(s.db, s.users)
  }

  ghost predicate WorldCoherent(w: World) {
    if w.Running? then Coherent(w.server) else Sound(w.db)
  }

  // ---------- inserts ----------

  lemma RowsKept(t: Tables, t': Tables)
    requires t.clients <= t'.clients && t.channels <= t'.channels
    ensures forall id :: HasClientRow(t, id) ==> HasClientRow(t', id)
    ensures forall id :: HasChannelRowId(t, id) ==> HasChannelRowId(t', id)
  {
    assert forall c :: c in t.clients ==> c in t'.clients;
    assert forall c :: c in t.channels ==> c in t'.channels;
  }

  lemma ClientInserted(s: Server, login: string, password: string)
    requires Coherent(s) && GetClientId(s.db, login) == NO_ID
    ensures Coherent(s.(db := InsertClient(s.db, login, password)))
  {
    hide HasClientRow, HasChannelRowId, GetClientId;
    ClientIdFound(s.db, login);
    var t, t' := s.db, InsertClient(s.db, login, password);
    assert forall c :: c in t.clients ==> c in t'.clients;
    RowsKept(t, t');
    assert Sound(t');
    assert forall id :: id in s.channels ==> Members(t', id) == Members(t, id);
  }

  lemma ChannelRowAdded(t: Tables, name: string)
    requires Sound(t) && GetChannelId(t, name) == NO_ID && FitsName(name)
    ensures Sound(InsertChannel(t, name))
    ensures GetChannelId(InsertChannel(t, name), name) == t.nextChannel
    ensures HasChannel(InsertChannel(t, name), name)
    ensures Members(InsertChannel(t, name), t.nextChannel) == {}
    ensures forall id :: Members(InsertChannel(t, name), id) == Members(t, id)
  {
    ChannelIdFound(t, name);
    var row, t' := ChannelRow(t.nextChannel, name), InsertChannel(t, name);
    assert row in t'.channels;
    assert ChannelsSound(t');
    SubscriptionsKept(t, t');
    ChannelByName(t', row);
    assert forall x :: x in t.subscriptions ==> x.channel < t.nextChannel;
    assert Members(t', t.nextChannel) == {};
  }

  /** Creating a channel: a named row gets an empty channel object, an unnamed row none. */
  lemma ChannelInserted(s: Server, name: string)
    requires Sound(s.db) && GetChannelId(s.db, name) == NO_ID
    ensures OpenChannel(s, name) ==
              (if name != "" && FitsName(name)
               then Opened(Server(InsertChannel(s.db, name),
                                  s.channels[s.db.nextChannel := ChannelView(name, {})], s.users),
                           Some(s.db.nextChannel))
               else Opened(s.(db := InsertChannel(s.db, name)), None))
  {
    ChannelIdFound(s.db, name);
    if FitsName(name) {
      ChannelRowAdded(s.db, name);
      ChannelUsersAreMembers(InsertChannel(s.db, name), s.db.nextChannel);
    }
  }

  lemma InstalledIsCoherent(t: Tables, channels: map<Id, ChannelView>, name: string)
    requires Sound(t) && GetChannelId(t, name) == NO_ID && FitsName(name) && ChannelsCoherent(t, channels)
    ensures name != "" ==> ChannelsCoherent(InsertChannel(t, name), channels[t.nextChannel := ChannelView(name, {})])
    ensures name == "" ==> ChannelsCoherent(InsertChannel(t, name), channels)
  {
    hide Members, Sound, GetChannelId, HasChannel;
    var t', row := InsertChannel(t, name), ChannelRow(t.nextChannel, name);
    ChannelRowAdded(t, name);
    SoundChannels(t);
    FreshChannelNotInstalled(t, channels);
    assert forall c :: c in t'.channels <==> c in t.channels || c == row;
  }

  lemma SoundChannels(t: Tables)
    requires Sound(t)
    ensures ChannelsSound(t)
  {
  }

  lemma FreshChannelNotInstalled(t: Tables, channels: map<Id, ChannelView>)
    requires ChannelsSound(t) && ChannelsCoherent(t, channels)
    ensures t.nextChannel !in channels
  {
    forall id | id in channels ensures id < t.nextChannel {
      assert ChannelRow(id, channels[id].name) in t.channels;
    }
  }

  lemma ChannelInsertedCoherent(s: Server, name: string)
    requires Coherent(s) && GetChannelId(s.db, name) == NO_ID
    ensures Coherent(OpenChannel(s, name).server)
  {
    ChannelInserted(s, name);
    if FitsName(name) {
      ChannelRowAdded(s.db, name);
      InstalledIsCoherent(s.db, s.channels, name);
    }
  }

  lemma SubscriptionsKept(t: Tables, t': Tables)
    requires SubscriptionsSound(t) && t'.subscriptions == t.subscriptions
    requires t.clients <= t'.clients && t.channels <= t'.channels
    ensures SubscriptionsSound(t')
  {
    RowsKept(t, t');
  }

  /** What opening a channel does to a coherent server. */
  lemma OpenedChannel(s: Server, name: string)
    requires Coherent(s)
    ensures Coherent(OpenChannel(s, name).server)
    ensures OpenChannel(s, name).server.users == s.users
    ensures OpenChannel(s, name).id.Some? <==> name != "" && FitsName(name)
    ensures name != "" && FitsName(name) ==>
              var o := OpenChannel(s, name);
              && o.id.value in o.server.channels && o.server.channels[o.id.value].name == name
              && GetChannelId(o.server.db, name) == o.id.value && HasChannel(o.server.db, name)
    ensures HasChannel(s.db, name) && name != "" ==> OpenChannel(s, name) == Opened(s, Some(GetChannelId(s.db, name)))
    ensures !HasChannel(s.db, name) ==> OpenChannel(s, name).server.db == InsertChannel(s.db, name)
    ensures HasChannel(s.db, name) ==> OpenChannel(s, name).server.db == s.db
  {
    ChannelIdFound(s.db, name);
    if HasChannel(s.db, name) {
      var row := ChannelRow(GetChannelId(s.db, name), name);
      if name == "" && row.id in s.channels {
        ChannelRowUnique(s.db, row, ChannelRow(row.id, s.channels[row.id].name));
      }
      if name != "" {
        ChannelRowUnique(s.db, row, ChannelRow(row.id, s.channels[row.id].name));
      }
    } else {
      ChannelInserted(s, name);
      ChannelInsertedCoherent(s, name);
      if name != "" && FitsName(name) {
        var t' := InsertChannel(s.db, name);
        ChannelByName(t', ChannelRow(s.db.nextChannel, name));
      }
    }
  }

  lemma ChannelRowUnique(t: Tables, a: ChannelRow, b: ChannelRow)
    requires ChannelsSound(t) && a in t.channels && b in t.channels && a.id == b.id
    ensures a == b
  {
    var i :| 0 <= i < |t.channels| && t.channels[i] == a;
    var j :| 0 <= j < |t.channels| && t.channels[j] == b;
  }

  // ---------- joining ----------

  lemma JoinSound(t: Tables, client: Id, name: string)
    requires Sound(t) && HasClientRow(t, client) && HasChannelRowId(t, GetChannelId(t, name))
    ensures Sound(JoinClientChannel(t, client, name))
  {
    hide HasClientRow, HasChannelRowId, GetChannelId;
    var t' := JoinClientChannel(t, client, name);
    RowsKept(t, t');
  }

  /** Adding a user to the channel object and to the table keeps the two equal. */
  lemma Joined(s: Server, client: Id, id: Id, name: string)
    requires Coherent(s) && client in s.users && id in s.channels && s.channels[id].name == name
    requires GetChannelId(s.db, name) == id
    ensures Coherent(Subscribed(s, id, client, name))
    ensures Members(JoinClientChannel(s.db, client, name), id) == Members(s.db, id) + {client}
  {
    hide Members, Sound, GetChannelId;
    MembersAfterJoin(s.db, client, name);
    assert ClientRow(client, s.users[client].login, s.users[client].password) in s.db.clients;
    assert ChannelRow(id, name) in s.db.channels;
    JoinSound(s.db, client, name);
  }

  lemma MembersAfterJoin(t: Tables, client: Id, name: string)
    ensures var t' := JoinClientChannel(t, client, name);
      && Members(t', GetChannelId(t, name)) == Members(t, GetChannelId(t, name)) + {client}
      && forall other :: other != GetChannelId(t, name) ==> Members(t', other) == Members(t, other)
  {
    var id := GetChannelId(t, name);
    var t', row := JoinClientChannel(t, client, name), SubscriptionRow(client, id);
    assert row in t'.subscriptions;
    assert forall x :: x in t'.subscriptions <==> x in t.subscriptions || x == row;
    forall other ensures Members(t', other) == Members(t, other) + if other == id then {client} else {} {
      forall u | u in Members(t', other) ensures u in Members(t, other) + if other == id then {client} else {} {
        assert SubscriptionRow(u, other) in t'.subscriptions;
      }
      forall u | u in Members(t, other) ensures u in Members(t', other) {
        assert SubscriptionRow(u, other) in t'.subscriptions;
      }
    }
  }

  lemma MessageStored(s: Server, m: TextMsg)
    requires Coherent(s)
    ensures Coherent(Recorded(s, m))
  {
    var t, t' := s.db, AddMsgHistory(s.db, m);
    var found := ClientsById(t, GetClientId(t, m.author));
    if found != [] { assert found[0] in found; }
    SubscriptionsKept(t, t');
    assert forall id :: Members(t', id) == Members(t, id);
  }

  // ---------- logins ----------

  lemma LoggedIn(s: Server, session: Session, login: string, password: string, id: Id)
    requires Coherent(s)
    requires id != NO_ID ==> ClientRow(id, login, password) in s.db.clients
    ensures Coherent(Login(s, session, login, password, id))
  {
  }

  lemma Authorised(t: Tables, login: string, password: string)
    requires ClientsSound(t)
    ensures CheckAuthUser(t, login, password) != NO_ID ==>
              ClientRow(CheckAuthUser(t, login, password), login, password) in t.clients
    ensures forall c :: c in t.clients && c.login == login && c.password == password ==>
              CheckAuthUser(t, login, password) == c.id
  {
    var r := ClientsByLogin(t, login);
    if r != [] {
      assert r[0] in r;
      assert r[0] == ClientRow(r[0].id, login, r[0].password);
    }
    forall c | c in t.clients && c.login == login && c.password == password
      ensures CheckAuthUser(t, login, password) == c.id
    {
      ClientByLogin(t, c);
    }
  }

  lemma ClientRowAdded(t: Tables, login: string, password: string)
    requires ClientsSound(t) && GetClientId(t, login) == NO_ID && FitsName(login) && FitsName(password)
    ensures ClientsSound(InsertClient(t, login, password))
    ensures GetClientId(InsertClient(t, login, password), login) == t.nextClient
  {
    ClientIdFound(t, login);
    var t' := InsertClient(t, login, password);
    var row := ClientRow(t.nextClient, login, password);
    assert t'.clients == t.clients + [row];
    assert row in t'.clients;
    ClientByLogin(t', row);
  }

  /** A registration succeeds exactly for a free login within the column limits; it gets the next serial id. */
  lemma Registered(t: Tables, login: string, password: string)
    requires ClientsSound(t)
    ensures CheckRegUser(t, login, password) ==
      if GetClientId(t, login) == NO_ID && FitsName(login) && FitsName(password)
      then (InsertClient(t, login, password), t.nextClient)
      else (t, NO_ID)
  {
    if GetClientId(t, login) == NO_ID && FitsName(login) && FitsName(password) {
      ClientRowAdded(t, login, password);
    }
  }

  // ---------- every reachable state ----------

  lemma ServedRegistration(s: Server, session: Session, login: string, password: string)
    requires Coherent(s)
    ensures Coherent(Served(s, Registration(session, login, password)))
  {
    Registered(s.db, login, password);
    var (db, id) := CheckRegUser(s.db, login, password);
    if id != NO_ID {
      ClientInserted(s, login, password);
      assert db.clients == s.db.clients + [ClientRow(id, login, password)];
      assert ClientRow(id, login, password) in db.clients;
      LoggedIn(s.(db := db), session, login, password, id);
    }
  }

  lemma ServedAuthorisation(s: Server, session: Session, login: string, password: string)
    requires Coherent(s)
    ensures Coherent(Served(s, Authorisation(session, login, password)))
  {
    Authorised(s.db, login, password);
    LoggedIn(s, session, login, password, CheckAuthUser(s.db, login, password));
  }

  lemma ServedJoin(s: Server, client: Id, channel: string)
    requires Coherent(s)
    ensures Coherent(Served(s, JoinRoom(client, channel)))
  {
    hide Coherent, JoinClientChannel, OpenChannel;
    OpenedChannel(s, channel);
    var o := OpenChannel(s, channel);
    if o.id.Some? && client in o.server.users {
      assert Served(s, JoinRoom(client, channel)) == Subscribed(o.server, o.id.value, client, channel);
      Joined(o.server, client, o.id.value, channel);
    } else {
      assert Served(s, JoinRoom(client, channel)) == o.server;
    }
  }

  lemma ServedText(s: Server, m: TextMsg)
    requires Coherent(s)
    ensures Coherent(Served(s, SendText(m)))
  {
    hide Coherent, AddMsgHistory, OpenChannel;
    OpenedChannel(s, m.channel);
    var o := OpenChannel(s, m.channel);
    MessageStored(o.server, m);
    assert Served(s, SendText(m)) == o.server || Served(s, SendText(m)) == Recorded(o.server, m);
  }

  lemma ServedCoherent(s: Server, e: Event)
    requires Coherent(s) && !e.Restart? && !e.SessionClosed?
    ensures Coherent(Served(s, e))
  {
    match e
    case Registration(session, login, password) => ServedRegistration(s, session, login, password);
    case Authorisation(session, login, password) => ServedAuthorisation(s, session, login, password);
    case JoinRoom(client, channel) => ServedJoin(s, client, channel);
    case SendText(message) => ServedText(s, message);
    case HistoryRequest(client, channel, since) => OpenedChannel(s, channel);
    case ChannelsRequest(client) =>
  }

  /** Recovery over sound tables: it fails exactly on an unnamed row, and otherwise gives the coherent cache. */
  lemma RecoverIsCoherent(t: Tables)
    requires Sound(t)
    ensures Recover(t).None? <==> HasChannel(t, "")
    ensures Recover(t).Some? ==> ChannelsCoherent(t, Recover(t).value)
  {
    hide Members, HasChannel, GetChannelUsers, GetCurrentChannels, ChannelsSound, SubscriptionsSound;
    CurrentChannels(t);
    ChannelIdFound(t, "");
    forall id ensures Elements(GetChannelUsers(t, id)) == Members(t, id) {
      ChannelUsersAreMembers(t, id);
    }
  }

  /** The map of current channels is the table, row by row. */
  lemma {:induction false} CurrentChannels(t: Tables)
    requires ChannelsSound(t)
    ensures var rows := GetCurrentChannels(t);
      && (forall c :: c in t.channels ==> c.id in rows && rows[c.id] == c.name && c.id != NO_ID)
      && (forall id :: id in rows ==> ChannelRow(id, rows[id]) in t.channels)
  {
    var rows := GetCurrentChannels(t);
    forall c | c in t.channels ensures c.id in rows && rows[c.id] == c.name && c.id != NO_ID {
      ChannelById(t, c);
    }
    forall id | id in rows ensures ChannelRow(id, rows[id]) in t.channels {
      var c :| c in t.channels && c.id == id;
    }
  }

  /** Two coherent caches of the same tables are the same map. */
  lemma CoherentIsUnique(t: Tables, a: map<Id, ChannelView>, b: map<Id, ChannelView>)
    requires ChannelsSound(t) && ChannelsCoherent(t, a) && ChannelsCoherent(t, b)
    ensures a == b
  {
    forall id | id in a ensures id in b && a[id] == b[id] {
      var row := ChannelRow(id, a[id].name);
      assert row in t.channels && row.id in b;
      ChannelRowUnique(t, row, ChannelRow(id, b[id].name));
    }
    forall id | id in b ensures id in a {
      assert ChannelRow(id, b[id].name) in t.channels;
    }
  }

  lemma {:induction false} RunCoherent(events: seq<Event>)
    ensures WorldCoherent(Run(events))
  {
    if events != [] {
      var init, e := events[..|events| - 1], events[|events| - 1];
      RunCoherent(init);
      var w := Run(init);
      if w.Running? {
        match e
        case Restart => RecoverIsCoherent(w.server.db);
        case SessionClosed(_) =>
        case _ => ServedCoherent(w.server, e);
      }
    } else {
      assert Coherent(BOOT.server);
    }
  }

  // ---------- the exact condition ----------

  predicate NamesEmpty(e: Event) { NamedChannel(e) == Some("") }

  /** After the channel is open, a request leaves the channels table alone. */
  lemma ChannelRowsOfOpened(s: Server, e: Event)
    requires !e.Restart? && !e.SessionClosed?
    ensures Served(s, e).db.channels ==
              if NamedChannel(e).Some? then OpenChannel(s, NamedChannel(e).value).server.db.channels else s.db.channels
  {
    hide OpenChannel, GetClientId, GetChannelId, CheckAuthUser;
  }

  /** A request adds at most the one row of the channel it names. */
  lemma ChannelRowsAfter(s: Server, e: Event)
    requires Coherent(s) && !e.Restart? && !e.SessionClosed?
    ensures NamedChannel(e).None? ==> Served(s, e).db.channels == s.db.channels
    ensures NamedChannel(e).Some? ==>
              var name := NamedChannel(e).value;
              Served(s, e).db.channels ==
                if HasChannel(s.db, name) || !FitsName(name) then s.db.channels
                else s.db.channels + [ChannelRow(s.db.nextChannel, name)]
  {
    hide Coherent, OpenChannel, Served;
    ChannelRowsOfOpened(s, e);
    if NamedChannel(e).Some? { OpenedChannel(s, NamedChannel(e).value); }
  }

  lemma UnnamedRowAfter(s: Server, e: Event)
    requires Coherent(s) && !e.Restart? && !e.SessionClosed?
    ensures HasChannel(Served(s, e).db, "") <==> HasChannel(s.db, "") || NamesEmpty(e)
  {
    hide Coherent, Served, HasChannel, NamedChannel;
    ChannelRowsAfter(s, e);
    var t, t' := s.db, Served(s, e).db;
    if NamedChannel(e).Some? {
      RowAppended(t, t', ChannelRow(t.nextChannel, NamedChannel(e).value), "");
      EmptyFits();
    }
    SameChannelRows(t, t', "");
  }

  lemma EmptyFits()
    ensures FitsName("")
  {
  }

  lemma SameChannelRows(t: Tables, t': Tables, name: string)
    ensures t'.channels == t.channels ==> (HasChannel(t', name) <==> HasChannel(t, name))
  {
  }

  lemma RowAppended(t: Tables, t': Tables, row: ChannelRow, name: string)
    ensures t'.channels == t.channels + [row] ==> (HasChannel(t', name) <==> HasChannel(t, name) || row.name == name)
  {
    WhereSnoc(t.channels, row, (c: ChannelRow) => c.name == name);
  }

  /** Some request named the empty channel. */
  ghost predicate EverNamedEmpty(events: seq<Event>) {
    exists i :: 0 <= i < |events| && NamesEmpty(events[i])
  }

  /** Such a request came before some restart. */
  ghost predicate RestartedAfterEmpty(events: seq<Event>) {
    exists j :: 0 <= j < |events| && events[j].Restart? && EverNamedEmpty(events[..j])
  }

  lemma OneMoreEvent(init: seq<Event>, e: Event)
    ensures EverNamedEmpty(init + [e]) <==> EverNamedEmpty(init) || NamesEmpty(e)
    ensures RestartedAfterEmpty(init + [e]) <==> RestartedAfterEmpty(init) || (e.Restart? && EverNamedEmpty(init))
  {
    var events, n := init + [e], |init|;
    assert events[n] == e && events[..n] == init;
    assert forall i :: 0 <= i < n ==> events[i] == init[i];
    assert forall j :: 0 <= j < n ==> events[..j] == init[..j];
  }

  lemma UnnamedRowStep(w: World, e: Event)
    requires WorldCoherent(w)
    ensures HasChannel(Database(Apply(w, e)), "") <==> HasChannel(Database(w), "") || (w.Running? && NamesEmpty(e))
    ensures Apply(w, e).Stopped? <==> w.Stopped? || (e.Restart? && HasChannel(Database(w), ""))
  {
    hide HasChannel, Served, Recover;
    if w.Running? {
      if e.Restart? { RecoverIsCoherent(w.server.db); }
      else if !e.SessionClosed? { UnnamedRowAfter(w.server, e); }
    }
  }

  /** The channels table has an unnamed row exactly when some request named the empty channel, and the
      server is stopped for good exactly when it was restarted after such a request. */
  lemma {:induction false} UnnamedRow(events: seq<Event>)
    ensures HasChannel(Database(Run(events)), "") <==> EverNamedEmpty(events)
    ensures Run(events).Stopped? <==> RestartedAfterEmpty(events)
  {
    if events != [] {
      hide EverNamedEmpty, RestartedAfterEmpty, WorldCoherent, HasChannel, Apply;
      var init, e := events[..|events| - 1], events[|events| - 1];
      assert events == init + [e];
      OneMoreEvent(init, e);
      UnnamedRow(init);
      RunCoherent(init);
      UnnamedRowStep(Run(init), e);
      if Run(init).Stopped? { EmptyBeforeRestart(init); }
    }
  }

  lemma EmptyBeforeRestart(events: seq<Event>)
    requires RestartedAfterEmpty(events)
    ensures EverNamedEmpty(events)
  {
    var j :| 0 <= j < |events| && events[j].Restart? && EverNamedEmpty(events[..j]);
    var i :| 0 <= i < j && NamesEmpty(events[..j][i]);
    assert NamesEmpty(events[i]);
  }

  /** A running server got a request that names this channel. */
  ghost predicate EverNamed(events: seq<Event>, name: string) {
    exists i :: 0 <= i < |events| && NamedChannel(events[i]) == Some(name) && Run(events[..i]).Running?
  }

  lemma OneMoreName(init: seq<Event>, e: Event, name: string)
    ensures EverNamed(init + [e], name) <==>
              EverNamed(init, name) || (NamedChannel(e) == Some(name) && Run(init).Running?)
  {
    hide Run, NamedChannel;
    var events, n := init + [e], |init|;
    assert events[n] == e && events[..n] == init;
    assert forall i :: 0 <= i < n ==> events[i] == init[i] && events[..i] == init[..i];
  }

  lemma NamedRowStep(w: World, e: Event, name: string)
    requires WorldCoherent(w)
    ensures HasChannel(Database(Apply(w, e)), name) <==>
      HasChannel(Database(w), name) || (w.Running? && NamedChannel(e) == Some(name) && FitsName(name))
  {
    hide HasChannel, Served, Recover, Coherent, FitsName;
    if w.Running? && !e.Restart? && !e.SessionClosed? {
      var t, t' := w.server.db, Served(w.server, e).db;
      ChannelRowsAfter(w.server, e);
      if NamedChannel(e).Some? { RowAppended(t, t', ChannelRow(t.nextChannel, NamedChannel(e).value), name); }
      SameChannelRows(t, t', name);
    }
  }

  /** After any run the channels table has a row of a name exactly if the name fits its column and some request, of
      whatever client and kind, named it while the server was running. */
  lemma {:induction false} ChannelRowsAreNamed(events: seq<Event>, name: string)
    ensures HasChannel(Database(Run(events)), name) <==> EverNamed(events, name) && FitsName(name)
  {
    if events != [] {
      hide EverNamed, WorldCoherent, HasChannel, Apply, FitsName;
      var init, e := events[..|events| - 1], events[|events| - 1];
      assert events == init + [e];
      OneMoreName(init, e, name);
      ChannelRowsAreNamed(init, name);
      RunCoherent(init);
      NamedRowStep(Run(init), e, name);
    }
  }

  /** Restart is exact. At any running point of any run: if no request ever named the empty channel, a fresh
      ChannelsManager over the tables rebuilds the very map that was in memory; otherwise its constructor throws. */
  lemma {:induction false} RestartIsExact(events: seq<Event>)
    requires Run(events).Running?
    ensures var s := Run(events).server;
      Recover(s.db) == if EverNamedEmpty(events) then None else Some(s.channels)
  {
    var s := Run(events).server;
    RunCoherent(events);
    UnnamedRow(events);
    RecoverIsCoherent(s.db);
    if Recover(s.db).Some? { CoherentIsUnique(s.db, Recover(s.db).value, s.channels); }
  }

  /** One join of the empty channel, and the next restart stops the server. */
  lemma EmptyNameStops(client: Id)
    ensures Run([JoinRoom(client, ""), Restart]).Stopped?
  {
    hide Apply;
    var events := [JoinRoom(client, ""), Restart];
    UnnamedRow(events);
    assert NamesEmpty(events[..1][0]) && EverNamedEmpty(events[..1]) && events[1].Restart?;
  }
}
