/** What was sent to a channel is what its history returns, over whole runs with restarts. */
module HistoryRoundTrip {
  import opened Basics
  import opened DateText
  import opened Schema
  import opened ChatModel
  import opened Recovery
  import opened Accounts
  import opened Delivery

  /** The run so far lets this text be stored: the server runs, the author is registered, and every column
      accepts its value. */
  ghost predicate Storable(events: seq<Event>, m: TextMsg) {
    && Run(events).Running? && UsableName(m.channel) && LoginTaken(events, m.author)
    && FitsText(m.text) && IsCalendarDate(m.date)
  }

  /** The texts sent to a channel that could be stored when they were sent, in the order of sending. */
  ghost function StoredTexts(events: seq<Event>, name: string): seq<TextMsg> {
    if events == [] then []
    else
      var init, e := events[..|events| - 1], events[|events| - 1];
      StoredTexts(init, name) +
      if e.SendText? && e.message.channel == name && Storable(init, e.message) then [e.message] else []
  }

  /** The history rows of a channel name, read back as messages. */
  function ReadBack(t: Tables, name: string): seq<TextMsg> {
    Column(HistoryOf(t, name), (h: HistoryRow) => ToMsg(t, name, h))
  }

  lemma HistoryOfSnoc(t: Tables, t': Tables, h: HistoryRow, name: string)
    requires t'.history == t.history + [h]
    ensures HistoryOf(t', name) == HistoryOf(t, name) + if h.channel == name then [h] else []
  {
    WhereSnoc(t.history, h, (x: HistoryRow) => x.channel == name);
  }

  /** Later registrations do not change how stored rows read. */
  lemma ReadBackStable(t: Tables, t': Tables, name: string)
    requires ClientsSound(t) && HistorySound(t) && ClientsSound(t')
    requires t.clients <= t'.clients && t'.history == t.history
    ensures ReadBack(t', name) == ReadBack(t, name)
  {
    hide GetClientName, ReadStamp;
    var rows := HistoryOf(t, name);
    assert HistoryOf(t', name) == rows;
    forall i | 0 <= i < |rows| ensures ToMsg(t', name, rows[i]) == ToMsg(t, name, rows[i]) {
      assert rows[i] in rows;
      var c :| c in t.clients && c.id == rows[i].client;
      assert c in t'.clients;
      ClientById(t, c);
      ClientById(t', c);
    }
  }

  /** A message accepted by addMsgHistory reads back unchanged; a refused one leaves the table alone. */
  lemma {:induction false} AddedReadsBack(t: Tables, m: TextMsg, name: string)
    requires ClientsSound(t) && FitsName(m.channel)
    ensures ReadBack(AddMsgHistory(t, m), name) == ReadBack(t, name) +
              if m.channel == name && GetClientId(t, m.author) != NO_ID && FitsText(m.text) && IsCalendarDate(m.date)
              then [m] else []
  {
    hide GetClientName, ReadStamp, GetClientId, Print, Parse, IsCalendarDate;
    var id := GetClientId(t, m.author);
    var t' := AddMsgHistory(t, m);
    AuthorRow(t, m.author);
    assert forall h :: ToMsg(t', name, h) == ToMsg(t, name, h) by { SameClients(t, t'); }
    if t' != t {
      var h := HistoryRow(id, m.channel, Print(m.date), m.text);
      HistoryOfSnoc(t, t', h, name);
      ClientNameInvertsId(t, m.author, id);
      StampReadsBack(m.date);
      assert ToMsg(t, m.channel, h) == m;
    }
  }

  lemma SameClients(t: Tables, t': Tables)
    requires t'.clients == t.clients
    ensures forall id :: GetClientName(t', id) == GetClientName(t, id)
  {
  }

  lemma StampReadsBack(date: DateTime)
    requires IsCalendarDate(date)
    ensures ReadStamp(Print(date)) == date
  {
    hide Print, Parse;
    ParsePrint(date);
  }

  /** The foreign key refuses exactly the authors without an id. */
  lemma AuthorRow(t: Tables, author: string)
    requires ClientsSound(t)
    ensures GetClientId(t, author) != NO_ID <==> ClientsById(t, GetClientId(t, author)) != []
  {
    ClientIdFound(t, author);
    WhereAllOrNone(t.clients, (c: ClientRow) => c.id == NO_ID);
    if GetClientId(t, author) != NO_ID {
      var c :| c in t.clients && c.login == author && c.id == GetClientId(t, author);
      ClientById(t, c);
    }
  }

  /** One event adds at most the one text it sends. */
  lemma {:induction false} ReadBackStep(events: seq<Event>, e: Event, name: string)
    ensures ReadBack(Database(Apply(Run(events), e)), name) == ReadBack(Database(Run(events)), name) +
      if e.SendText? && e.message.channel == name && Storable(events, e.message) then [e.message] else []
  {
    hide Run, OpenChannel, ReadBack, Coherent, Sound, Recover, CheckRegUser, CheckAuthUser, JoinClientChannel,
         AddMsgHistory, GetClientId, UsableName;
    var w := Run(events);
    if w.Running? {
      var s := w.server;
      assert Coherent(s) by { RunCoherent(events); }
      CoherentTables(s);
      SoundParts(s.db);
      if e.SendText? {
        TextStep(events, e.message, name);
      } else if NamedChannel(e).Some? {
        OpenedReadsBack(s, NamedChannel(e).value, name);
        if e.JoinRoom? {
          var db := OpenChannel(s, e.channel).server.db;
          JoinReadsBack(db, e.client, e.channel, name);
        }
      } else if e.Registration? {
        RegisteredReadsBack(s, e.login, e.password, name);
      }
    }
  }

  lemma TextStep(events: seq<Event>, m: TextMsg, name: string)
    requires Run(events).Running? && Coherent(Run(events).server)
    ensures ReadBack(Served(Run(events).server, SendText(m)).db, name) == ReadBack(Run(events).server.db, name) +
      if m.channel == name && Storable(events, m) then [m] else []
  {
    hide Run, OpenChannel, ReadBack, Coherent, Sound, AddMsgHistory, GetClientId, LoginTaken;
    var s := Run(events).server;
    OpenedReadsBack(s, m.channel, name);
    OpenedUsable(events, m.channel);
    LoginTakenIsRow(events, m.author);
    if UsableName(m.channel) {
      var db := OpenChannel(s, m.channel).server.db;
      AddedReadsBack(db, m, name);
      OpenKeepsClients(s, m.channel);
      SameIds(s.db, db, m.author);
    }
  }

  lemma SameIds(t: Tables, t': Tables, login: string)
    requires t'.clients == t.clients
    ensures GetClientId(t', login) == GetClientId(t, login)
  {
  }

  lemma OpenedReadsBack(s: Server, channel: string, name: string)
    requires Coherent(s)
    ensures ClientsSound(OpenChannel(s, channel).server.db)
    ensures ReadBack(OpenChannel(s, channel).server.db, name) == ReadBack(s.db, name)
  {
    hide Coherent, OpenChannel, Sound, ReadBack;
    OpenedChannel(s, channel);
    OpenKeepsClients(s, channel);
    CoherentTables(s);
    SoundParts(s.db);
    CoherentTables(OpenChannel(s, channel).server);
    ReadBackStable(s.db, OpenChannel(s, channel).server.db, name);
  }

  lemma JoinReadsBack(t: Tables, client: Id, channel: string, name: string)
    requires ClientsSound(t)
    ensures ReadBack(JoinClientChannel(t, client, channel), name) == ReadBack(t, name)
  {
    hide GetChannelId, GetClientName, ReadStamp;
    var t' := JoinClientChannel(t, client, channel);
    assert t'.clients == t.clients && t'.history == t.history;
    SameClients(t, t');
  }

  lemma RegisteredReadsBack(s: Server, login: string, password: string, name: string)
    requires Coherent(s)
    ensures ReadBack(CheckRegUser(s.db, login, password).0, name) == ReadBack(s.db, name)
  {
    hide Coherent, Sound, ReadBack, GetClientId;
    CoherentTables(s);
    SoundParts(s.db);
    Registered(s.db, login, password);
    if GetClientId(s.db, login) == NO_ID && FitsName(login) && FitsName(password) {
      var t' := InsertClient(s.db, login, password);
      ClientRowAdded(s.db, login, password);
      assert s.db.clients <= t'.clients;
      ReadBackStable(s.db, t', name);
    }
  }

  /** Read back, the history rows of a name are exactly the texts that were stored for it. */
  lemma {:induction false} HistoryIsStoredTexts(events: seq<Event>, name: string)
    ensures ReadBack(Database(Run(events)), name) == StoredTexts(events, name)
  {
    if events != [] {
      hide ReadBack, Apply, Storable;
      var init, e := events[..|events| - 1], events[|events| - 1];
      HistoryIsStoredTexts(init, name);
      ReadBackStep(init, e, name);
      RunSnoc(events);
    }
  }

  /** A channel's own history, asked for by id, is the history of its name. */
  lemma HistoryById(t: Tables, name: string)
    requires ChannelsSound(t) && HasChannel(t, name)
    ensures GetHistory(t, GetChannelId(t, name)) == ReadBack(t, name)
  {
    ChannelIdFound(t, name);
    ChannelById(t, ChannelRow(GetChannelId(t, name), name));
  }

  /** The texts a poll should return: all stored ones for DateTime(), otherwise the later ones. */
  ghost function WantedTexts(events: seq<Event>, name: string, since: DateTime): seq<TextMsg> {
    Since(StoredTexts(events, name), since)
  }

  /** History round trip. A history request is answered exactly for a client that joined the channel, has logged in
      since the last restart, has a living session, and for which some stored text is new; the answer then holds,
      as a multiset, exactly the texts stored for that channel and wanted by the request, every field unchanged. */
  lemma HistoryRoundTrips(events: seq<Event>, id: Id, name: string, since: DateTime, out: seq<SessionWrite>)
    requires Outputs(Run(events), HistoryRequest(id, name, since), out)
    ensures out != [] <==> Reached(events, id, name) && WantedTexts(events, name, since) != []
    ensures out != [] ==>
              && |out| == 1 && out[0].user == id && Some(out[0].to) == LatestSession(events, id)
              && out[0].payload.HistoryResponse? && out[0].payload.channel == name
              && multiset(out[0].payload.messages) == multiset(WantedTexts(events, name, since))
  {
    hide HasJoined, Run, OpenChannel, Alive, LatestSession, UsableName, StoredTexts, Since, GetHistory;
    var w := Run(events);
    if w.Running? {
      OpenedUsable(events, name);
      Directory(events);
      if UsableName(name) {
        MembersAreJoined(events, name, id);
        OpenedHistory(events, name);
        if id in w.server.users { ClosedSessions(events, w.server.users[id].session); }
      } else {
        NobodyReached(events, name, id);
      }
    } else {
      NobodyReached(events, name, id);
    }
  }

  lemma OpenedHistory(events: seq<Event>, name: string)
    requires Run(events).Running? && UsableName(name)
    requires OpenChannel(Run(events).server, name).id.Some?
    ensures var o := OpenChannel(Run(events).server, name);
      GetHistory(o.server.db, o.id.value) == StoredTexts(events, name)
  {
    hide Run, OpenChannel, StoredTexts, GetHistory, ReadBack;
    var s := Run(events).server;
    assert Coherent(s) by { RunCoherent(events); }
    var o := OpenChannel(s, name);
    OpenedChannel(s, name);
    CoherentTables(o.server);
    SoundParts(o.server.db);
    HistoryById(o.server.db, name);
    OpenedReadsBack(s, name, name);
    HistoryIsStoredTexts(events, name);
  }

  // ---------- the list of channels ----------

  /** The channels of a user's list are those it has stored a text in; joining alone does not list a channel. */
  lemma {:induction false} ListedChannels(events: seq<Event>, id: Id, out: seq<SessionWrite>, name: string)
    requires Outputs(Run(events), ChannelsRequest(id), out) && out != []
    ensures |out| == 1 && out[0].payload.ChannelsResponse?
    ensures name in out[0].payload.channels <==>
              exists m :: m in StoredTexts(events, name) && IsAuthor(events, m, id)
  {
    hide Run, StoredTexts, GetUserNameChannels, IsAuthor;
    var t := Run(events).server.db;
    RunCoherent(events);
    assert Sound(t);
    SoundParts(t);
    HistoryIsStoredTexts(events, name);
    forall m ensures IsAuthor(events, m, id) <==> GetClientId(t, m.author) == id != NO_ID { AuthorId(events, m, id); }
    ListedRows(t, id, name);
    assert id != NO_ID by { UserIdNonZero(events, id); }
  }

  /** The message's author is the login registered under this id. */
  ghost predicate IsAuthor(events: seq<Event>, m: TextMsg, id: Id) {
    exists password :: IsAccount(events, ClientRow(id, m.author, password))
  }

  lemma AuthorId(events: seq<Event>, m: TextMsg, id: Id)
    requires ClientsSound(Database(Run(events)))
    ensures IsAuthor(events, m, id) <==> GetClientId(Database(Run(events)), m.author) == id != NO_ID
  {
    hide Run, IsAccount, GetClientId;
    var t := Database(Run(events));
    ClientIdFound(t, m.author);
    if IsAuthor(events, m, id) {
      var password :| IsAccount(events, ClientRow(id, m.author, password));
      ClientsAreAccounts(events, ClientRow(id, m.author, password));
      ClientByLogin(t, ClientRow(id, m.author, password));
    }
    if GetClientId(t, m.author) == id != NO_ID {
      var c :| c in t.clients && c.login == m.author && c.id == id;
      ClientsAreAccounts(events, c);
      assert c == ClientRow(id, m.author, c.password);
    }
  }

  lemma UserIdNonZero(events: seq<Event>, id: Id)
    requires Run(events).Running? && id in Run(events).server.users
    ensures id != NO_ID
  {
    hide Run;
    RunCoherent(events);
    var u := Run(events).server.users[id];
    assert ClientRow(id, u.login, u.password) in Run(events).server.db.clients;
  }

  lemma ListedRows(t: Tables, id: Id, name: string)
    requires ClientsSound(t) && HistorySound(t) && id != NO_ID
    ensures name in GetUserNameChannels(t, id) <==>
              exists m :: m in ReadBack(t, name) && GetClientId(t, m.author) == id
  {
    hide ToMsg, GetClientId, GetClientName;
    ListedNames(t, id);
    if name in GetUserNameChannels(t, id) {
      var h :| h in t.history && h.client == id && h.channel == name;
      RowAuthor(t, h);
      ReadBackRow(t, name, h);
      assert GetClientId(t, ToMsg(t, name, h).author) == id by { AuthorOf(t, name, h); }
    }
    if exists m :: m in ReadBack(t, name) && GetClientId(t, m.author) == id {
      var m :| m in ReadBack(t, name) && GetClientId(t, m.author) == id;
      var h := RowRead(t, name, m);
      RowAuthor(t, h);
      AuthorOf(t, name, h);
    }
  }

  lemma AuthorOf(t: Tables, name: string, h: HistoryRow)
    ensures ToMsg(t, name, h).author == GetClientName(t, h.client)
  {
  }

  lemma ReadBackRow(t: Tables, name: string, h: HistoryRow)
    requires h in t.history && h.channel == name
    ensures ToMsg(t, name, h) in ReadBack(t, name)
  {
    var rows := HistoryOf(t, name);
    assert h in rows;
    var i :| 0 <= i < |rows| && rows[i] == h;
    assert ReadBack(t, name)[i] == ToMsg(t, name, h);
  }

  lemma RowRead(t: Tables, name: string, m: TextMsg) returns (h: HistoryRow)
    requires m in ReadBack(t, name)
    ensures h in t.history && h.channel == name && ToMsg(t, name, h) == m
  {
    var rows := HistoryOf(t, name);
    var i :| 0 <= i < |rows| && ReadBack(t, name)[i] == m;
    h := rows[i];
    assert h in rows;
  }

  lemma RowAuthor(t: Tables, h: HistoryRow)
    requires ClientsSound(t) && HistorySound(t) && h in t.history
    ensures GetClientId(t, GetClientName(t, h.client)) == h.client
  {
    hide GetClientId, GetClientName;
    var c :| c in t.clients && c.id == h.client;
    ClientById(t, c);
    ClientNameInvertsId(t, c.login, h.client);
  }
}
