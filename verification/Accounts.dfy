/** Accounts over whole runs: what registrations and authorisations are answered with. */
module Accounts {
  import opened Basics
  import opened Schema
  import opened ChatModel
  import opened Recovery

  /** Event i registered this account: it was answered with the non-zero id. */
  predicate RegisteredAt(events: seq<Event>, i: nat, row: ClientRow) {
    && i < |events| && events[i].Registration?
    && events[i].login == row.login && events[i].password == row.password
    && AnswerAt(events, i) == row.id != NO_ID
  }

  ghost predicate IsAccount(events: seq<Event>, row: ClientRow) {
    exists i: nat :: RegisteredAt(events, i, row)
  }

  ghost predicate LoginTaken(events: seq<Event>, login: string) {
    exists i: nat :: i < |events| && events[i].Registration? && events[i].login == login && AnswerAt(events, i) != NO_ID
  }

  lemma AnswerOfPrefix(init: seq<Event>, rest: seq<Event>, i: nat)
    requires i < |init|
    ensures (init + rest)[i] == init[i] && AnswerAt(init + rest, i) == AnswerAt(init, i)
  {
    assert (init + rest)[..i] == init[..i];
  }

  lemma OneMoreAccount(init: seq<Event>, e: Event, row: ClientRow)
    ensures IsAccount(init + [e], row) <==>
      || IsAccount(init, row)
      || (e.Registration? && e.login == row.login && e.password == row.password
          && Answer(Run(init), e) == row.id != NO_ID)
  {
    hide Run, Answer;
    var events, n := init + [e], |init|;
    assert events[n] == e && events[..n] == init;
    forall i: nat | i < n ensures RegisteredAt(events, i, row) <==> RegisteredAt(init, i, row) {
      AnswerOfPrefix(init, [e], i);
    }
    if IsAccount(events, row) {
      var i: nat :| RegisteredAt(events, i, row);
      assert i == n || RegisteredAt(init, i, row);
    }
    if IsAccount(init, row) {
      var i: nat :| RegisteredAt(init, i, row);
      assert RegisteredAt(events, i, row);
    }
    assert AnswerAt(events, n) == Answer(Run(init), e);
    if e.Registration? && e.login == row.login && e.password == row.password
        && Answer(Run(init), e) == row.id != NO_ID {
      assert RegisteredAt(events, n, row);
    }
  }

  /** Only an answered registration adds a client row. */
  lemma ClientRowsStep(w: World, e: Event)
    requires WorldCoherent(w)
    ensures Database(Apply(w, e)).clients == Database(w).clients +
              if e.Registration? && Answer(w, e) != NO_ID then [ClientRow(Answer(w, e), e.login, e.password)] else []
  {
    hide GetClientId, OpenChannel, Recover, Coherent, CheckAuthUser, GetChannelId;
    if w.Running? && !e.Restart? && !e.SessionClosed? {
      var t := w.server.db;
      assert ClientsSound(t) by { CoherentTables(w.server); }
      if e.Registration? { Registered(t, e.login, e.password); }
      else if NamedChannel(e).Some? { OpenKeepsClients(w.server, NamedChannel(e).value); }
    }
  }

  lemma CoherentTables(s: Server)
    requires Coherent(s)
    ensures Sound(s.db) && ClientsSound(s.db)
  {
  }

  lemma OpenKeepsClients(s: Server, name: string)
    ensures OpenChannel(s, name).server.db.clients == s.db.clients
    ensures OpenChannel(s, name).server.db.history == s.db.history
    ensures OpenChannel(s, name).server.db.subscriptions == s.db.subscriptions
    ensures OpenChannel(s, name).server.users == s.users
  {
    hide HasChannel, GetChannelId;
  }

  /** The clients table is exactly the registrations that were answered with an id. */
  lemma {:induction false} ClientsAreAccounts(events: seq<Event>, row: ClientRow)
    ensures row in Database(Run(events)).clients <==> IsAccount(events, row)
  {
    if events != [] {
      hide IsAccount, WorldCoherent, Apply, Answer;
      var init, e := events[..|events| - 1], events[|events| - 1];
      assert events == init + [e];
      ClientsAreAccounts(init, row);
      RunCoherent(init);
      ClientRowsStep(Run(init), e);
      OneMoreAccount(init, e, row);
    } else {
      assert !IsAccount(events, row);
    }
  }

  lemma {:induction false} TablesSoundAfter(events: seq<Event>)
    ensures Sound(Database(Run(events)))
  {
    RunCoherent(events);
  }

  lemma {:induction false} LoginTakenIsRow(events: seq<Event>, login: string)
    ensures LoginTaken(events, login) <==> GetClientId(Database(Run(events)), login) != NO_ID
  {
    hide Run, Sound, GetClientId, Answer;
    var t := Database(Run(events));
    assert ClientsSound(t) by { TablesSoundAfter(events); assert Sound(t); SoundParts(t); }
    ClientIdFound(t, login);
    if LoginTaken(events, login) {
      var i: nat :| i < |events| && events[i].Registration? && events[i].login == login && AnswerAt(events, i) != NO_ID;
      var row := ClientRow(AnswerAt(events, i), login, events[i].password);
      assert RegisteredAt(events, i, row);
      ClientsAreAccounts(events, row);
    }
    if GetClientId(t, login) != NO_ID {
      var row :| row in t.clients && row.login == login && row.id == GetClientId(t, login);
      ClientsAreAccounts(events, row);
      var i: nat :| RegisteredAt(events, i, row);
    }
  }

  lemma SoundParts(t: Tables)
    requires Sound(t)
    ensures ClientsSound(t) && ChannelsSound(t) && HistorySound(t) && SubscriptionsSound(t)
  {
  }

  /** A registration is answered with an id exactly when the server runs, the login was never registered before
      and both strings fit their columns; the id is greater than every id handed out so far. */
  lemma RegistrationExact(events: seq<Event>, session: Session, login: string, password: string)
    ensures var id := Answer(Run(events), Registration(session, login, password));
      && (id != NO_ID <==> Run(events).Running? && !LoginTaken(events, login) && FitsName(login) && FitsName(password))
      && (id != NO_ID ==> forall row :: IsAccount(events, row) ==> row.id < id)
  {
    hide IsAccount, Run, Sound, GetClientId;
    var t := Database(Run(events));
    TablesSoundAfter(events);
    SoundParts(t);
    LoginTakenIsRow(events, login);
    Registered(t, login, password);
    forall row | IsAccount(events, row) ensures row.id < t.nextClient { ClientsAreAccounts(events, row); }
  }

  /** Ids are never reused and a login is registered at most once: two registrations that were answered with an
      id have different logins and different ids. */
  lemma AccountsAreDistinct(events: seq<Event>, i: nat, j: nat, a: ClientRow, b: ClientRow)
    requires i < j && RegisteredAt(events, i, a) && RegisteredAt(events, j, b)
    ensures a.login != b.login && a.id < b.id
  {
    hide Run, Answer;
    var before := events[..j];
    assert before + events[j..] == events;
    AnswerOfPrefix(before, events[j..], i);
    assert RegisteredAt(before, i, a);
    assert IsAccount(before, a) && LoginTaken(before, a.login);
    RegistrationExact(before, events[j].session, b.login, b.password);
  }

  /** An authorisation is answered with an id exactly when an earlier registration of that login was answered
      with that id and used the same password. */
  lemma AuthorisationExact(events: seq<Event>, session: Session, login: string, password: string, id: Id)
    requires id != NO_ID && Run(events).Running?
    ensures Answer(Run(events), Authorisation(session, login, password)) == id <==>
              IsAccount(events, ClientRow(id, login, password))
  {
    hide IsAccount, Run, Sound, CheckAuthUser;
    var t := Database(Run(events));
    TablesSoundAfter(events);
    SoundParts(t);
    Authorised(t, login, password);
    ClientsAreAccounts(events, ClientRow(id, login, password));
  }
}
