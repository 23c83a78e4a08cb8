/** What requests are answered with and to which session, over whole runs with restarts. */
module Responses {
  import opened Basics
  import opened DateText
  import opened Schema
  import opened ChatModel
  import opened Recovery
  import opened Accounts
  import opened Delivery
  import opened HistoryRoundTrip

  /** A registration is answered exactly if its session is alive and the server runs: one RegistrationResponse to that
      session. Its id is zero if the login was registered before or a string is longer than 32 characters; otherwise
      it is the id of the account that the registration creates, and the session is then where that client is
      written to. */
  lemma {:induction false} RegistrationAnswered(
    events: seq<Event>, session: Session, login: string, password: string, out: seq<SessionWrite>)
    requires Outputs(Run(events), Registration(session, login, password), out)
    ensures out != [] <==> Run(events).Running? && Alive(events, session)
    ensures out != [] ==>
              && |out| == 1 && out[0].to == session && out[0].payload.RegistrationResponse?
              && var id, after := out[0].payload.id, events + [Registration(session, login, password)];
              && out[0].user == id
              && (id != 0 <==> !LoginTaken(events, login) && |login| <= 32 && |password| <= 32)
              && (id != 0 ==> IsAccount(after, ClientRow(id, login, password)))
              && (id != 0 ==> LatestSession(after, id) == Some(session))
              && (id == 0 ==> forall row :: IsAccount(after, row) <==> IsAccount(events, row))
  {
    hide Run, IsAccount, LoginTaken, Alive, LatestSession, Answer;
    var w, e := Run(events), Registration(session, login, password);
    if w.Running? {
      ClosedSessions(events, session);
      RegistrationExact(events, session, login, password);
      ColumnLimits(login);
      ColumnLimits(password);
      var id := Answer(w, e);
      OneMoreAccount(events, e, ClientRow(id, login, password));
      LatestSnoc(events, e, id);
      forall row ensures id == 0 ==> (IsAccount(events + [e], row) <==> IsAccount(events, row)) {
        OneMoreAccount(events, e, row);
      }
    }
  }

  /** An authorisation is answered exactly if its session is alive and the server runs: one AuthorisationResponse to
      that session, with the id of the account of that login and password, or zero when there is none. */
  lemma {:induction false} AuthorisationAnswered(
    events: seq<Event>, session: Session, login: string, password: string, out: seq<SessionWrite>)
    requires Outputs(Run(events), Authorisation(session, login, password), out)
    ensures out != [] <==> Run(events).Running? && Alive(events, session)
    ensures out != [] ==>
              && |out| == 1 && out[0].to == session && out[0].payload.AuthorisationResponse?
              && var id, after := out[0].payload.id, events + [Authorisation(session, login, password)];
              && out[0].user == id
              && (forall k :: k != 0 ==> (k == id <==> IsAccount(events, ClientRow(k, login, password))))
              && (id != 0 ==> LatestSession(after, id) == Some(session))
  {
    hide Run, IsAccount, Alive, LatestSession, Answer;
    var w, e := Run(events), Authorisation(session, login, password);
    if w.Running? {
      ClosedSessions(events, session);
      var id := Answer(w, e);
      forall k | k != 0 ensures k == id <==> IsAccount(events, ClientRow(k, login, password)) {
        AuthorisationExact(events, session, login, password, k);
      }
      LatestSnoc(events, e, id);
    }
  }

  /** The list of channels is sent exactly to a logged-in client with a living session, to that session. What it
      lists is HistoryRoundTrip.ListedChannels. */
  lemma {:induction false} ListSent(events: seq<Event>, id: Id, out: seq<SessionWrite>)
    requires Outputs(Run(events), ChannelsRequest(id), out)
    ensures out != [] <==> LatestSession(events, id).Some? && Alive(events, LatestSession(events, id).value)
    ensures out != [] ==>
              && |out| == 1 && out[0].user == id && Some(out[0].to) == LatestSession(events, id)
              && out[0].payload.ChannelsResponse? && NoDuplicates(out[0].payload.channels)
  {
    hide Run, Alive, LatestSession, GetUserNameChannels;
    var w := Run(events);
    Directory(events);
    if w.Running? && id in w.server.users {
      ClosedSessions(events, w.server.users[id].session);
      DirectoryRows(events, id);
      ListedOnce(w.server.db, id);
    }
  }

  lemma ListedOnce(t: Tables, id: Id)
    ensures NoDuplicates(GetUserNameChannels(t, id))
  {
  }

  /** The reply to a poll contains this text. */
  predicate Returned(out: seq<SessionWrite>, m: TextMsg) {
    exists x :: x in out && x.payload.HistoryResponse? && m in x.payload.messages
  }

  /** Which texts a poll returns: to a client that is reached, of the stored texts all for DateTime(), and otherwise
      those of the next second or later, which are never those dated at or before the date asked for; to nobody else
      any. */
  lemma {:induction false} PollByDate(
    events: seq<Event>, id: Id, name: string, since: DateTime, m: TextMsg, out: seq<SessionWrite>)
    requires Outputs(Run(events), HistoryRequest(id, name, since), out)
    ensures Returned(out, m) ==> Reached(events, id, name) && m in StoredTexts(events, name)
    ensures Reached(events, id, name) && m in StoredTexts(events, name)
            && (since == DEFAULT_DATE || m.date == NextSecond(since) || Earlier(NextSecond(since), m.date)) ==>
              Returned(out, m)
    ensures since != DEFAULT_DATE && (m.date == since || Earlier(m.date, since)) ==> !Returned(out, m)
  {
    hide Run, Reached, StoredTexts, Outputs, Earlier, NextSecond, WantedTexts;
    HistoryRoundTrips(events, id, name, since, out);
    WantedStored(events, name, since, m);
    CalendarInSeconds(since, m.date);
    EarlierIsStrictTotalOrder(since, NextSecond(since), m.date);
    EarlierIsStrictTotalOrder(m.date, since, m.date);
    if out != [] { OneReply(out, m); }
  }

  lemma OneReply(out: seq<SessionWrite>, m: TextMsg)
    requires |out| == 1 && out[0].payload.HistoryResponse?
    ensures Returned(out, m) <==> m in multiset(out[0].payload.messages)
  {
    assert out[0] in out;
  }

  lemma WantedStored(events: seq<Event>, name: string, since: DateTime, m: TextMsg)
    ensures m in multiset(WantedTexts(events, name, since)) <==>
              m in StoredTexts(events, name) && (since == DEFAULT_DATE || Earlier(since, m.date))
    ensures m in multiset(WantedTexts(events, name, since)) ==> WantedTexts(events, name, since) != []
  {
    hide StoredTexts, Earlier;
    var wanted := WantedTexts(events, name, since);
    assert m in multiset(wanted) <==> m in wanted;
  }

  // ---------- to whom ----------

  /** Whatever is written goes to a session that has not been closed, and on behalf of a client only to the session
      of its latest login; closing sessions and restarting write nothing. */
  lemma {:induction false} OnlyLivingSessions(events: seq<Event>, e: Event, out: seq<SessionWrite>, x: SessionWrite)
    requires Outputs(Run(events), e, out) && x in out
    ensures Alive(events, x.to) && !e.SessionClosed? && !e.Restart?
    ensures if e.Registration? || e.Authorisation? then x.to == e.session
            else Some(x.to) == LatestSession(events, x.user)
  {
    hide Run, Alive, LatestSession, IsAccount, LoginTaken, HasJoined, StoredTexts, WantedTexts, Outputs, UsableName;
    match e
    case Registration(session, login, password) => RegistrationAnswered(events, session, login, password, out);
    case Authorisation(session, login, password) => AuthorisationAnswered(events, session, login, password, out);
    case JoinRoom(id, name) => JoinConfirmedOnce(events, id, name, out);
    case SendText(m) => TextGoesToLiving(events, m, out, x);
    case HistoryRequest(id, name, since) => HistoryRoundTrips(events, id, name, since, out);
    case ChannelsRequest(id) => ListSent(events, id, out);
    case _ => Silent(events, e, out);
  }

  lemma TextGoesToLiving(events: seq<Event>, m: TextMsg, out: seq<SessionWrite>, x: SessionWrite)
    requires Outputs(Run(events), SendText(m), out) && x in out
    ensures Some(x.to) == LatestSession(events, x.user) && Alive(events, x.to)
  {
    hide Run, Alive, LatestSession, HasJoined, Outputs;
    TextReaches(events, m, out, x.user);
    assert x in WritesFor(out, x.user);
    assert WritesFor(out, x.user)[0] == x;
  }

  lemma Silent(events: seq<Event>, e: Event, out: seq<SessionWrite>)
    requires Outputs(Run(events), e, out) && (e.SessionClosed? || e.Restart?)
    ensures out == []
  {
    hide Run;
  }

  /** The first request after a restart is answered only if it is a registration or an authorisation: the new process
      knows no client. */
  lemma {:induction false} AfterRestart(events: seq<Event>, e: Event, out: seq<SessionWrite>)
    requires Outputs(Run(events + [Restart]), e, out) && !e.Registration? && !e.Authorisation?
    ensures out == []
  {
    hide Outputs, Run, LatestSession, Alive, Answer;
    if out != [] {
      LatestSnoc(events, Restart, out[0].user);
      OnlyLivingSessions(events + [Restart], e, out, out[0]);
    }
  }

  // ---------- the stored row ----------

  /** The row that a text leaves: its author's id, its channel and text unchanged, and its date as printed. */
  ghost predicate RowOf(events: seq<Event>, h: HistoryRow, m: TextMsg) {
    && IsAuthor(events, m, h.client) && h.channel == m.channel && h.text == m.text
    && IsStamp(h.stamp, m.date)
  }

  /** A text leaves exactly one row more, at the end, if the server runs, the author is registered, the channel's name
      has 1 to 32 characters, the text at most 255 and the date is one of the calendar; otherwise none. */
  lemma {:induction false} TextStored(events: seq<Event>, m: TextMsg)
    ensures var before, after := Database(Run(events)).history, Database(Run(events + [SendText(m)])).history;
      if Run(events).Running? && LoginTaken(events, m.author) && 1 <= |m.channel| <= 32 && |m.text| <= 255
         && IsCalendarDate(m.date)
      then |after| == |before| + 1 && after[..|before|] == before && RowOf(events, after[|before|], m)
      else after == before
  {
    hide Run, LoginTaken, IsAuthor, IsStamp, IsCalendarDate, OpenChannel, UsableName, Print, GetClientId,
         Coherent, Sound;
    var w, e := Run(events), SendText(m);
    RunSnoc(events + [e]);
    assert (events + [e])[..|events|] == events;
    if w.Running? {
      RunCoherent(events);
      OpenedUsable(events, m.channel);
      OpenKeepsClients(w.server, m.channel);
      assert ClientsSound(w.server.db) by { CoherentTables(w.server); }
      LoginTakenIsRow(events, m.author);
      AuthorId(events, m, GetClientId(w.server.db, m.author));
      ColumnLimits(m.channel);
      ColumnLimits(m.text);
      assert UsableName(m.channel) <==> 1 <= |m.channel| <= 32 by { UsableLength(m.channel); }
      if UsableName(m.channel) {
        var db := OpenChannel(w.server, m.channel).server.db;
        OpenedChannel(w.server, m.channel);
        CoherentTables(OpenChannel(w.server, m.channel).server);
        SameIds(w.server.db, db, m.author);
        MessageRow(db, m);
      }
    }
  }

  lemma UsableLength(name: string)
    ensures UsableName(name) <==> 1 <= |name| <= 32
  {
    ColumnLimits(name);
  }

  /** What addMsgHistory inserts. */
  lemma MessageRow(t: Tables, m: TextMsg)
    requires ClientsSound(t)
    ensures var id := GetClientId(t, m.author);
      if id != NO_ID && |m.channel| <= 32 && |m.text| <= 255 && IsCalendarDate(m.date)
      then exists stamp :: IsStamp(stamp, m.date)
             && AddMsgHistory(t, m).history == t.history + [HistoryRow(id, m.channel, stamp, m.text)]
      else AddMsgHistory(t, m) == t
  {
    hide IsStamp, Print, GetClientId, IsCalendarDate;
    AuthorRow(t, m.author);
    ColumnLimits(m.channel);
    ColumnLimits(m.text);
    if IsCalendarDate(m.date) {
      ParsePrint(m.date);
      PrintedText(m.date);
    }
  }
}
