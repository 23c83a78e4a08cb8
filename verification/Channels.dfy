/** Channel objects: the members kept in memory, and what the three operations on a channel send. */
module Channels {
  import opened Basics
  import opened DateText
  import opened Schema
  import opened PgDatabase
  import opened ChatModel
  import opened Users

  lemma SinceNothing(since: DateTime)
    ensures Since([], since) == []
  {
  }

  lemma SinceSnoc(history: seq<TextMsg>, m: TextMsg, since: DateTime)
    ensures Since(history + [m], since) == Since(history, since) + if Wanted(since, m) then [m] else []
  {
    hide Earlier;
    WhereSnoc(history, m, (x: TextMsg) => Wanted(since, x));
  }

  /** The std::copy_if over the history. */
  method CopySince(history: seq<TextMsg>, since: DateTime) returns (response: seq<TextMsg>)
    ensures response == Since(history, since)
  {
    hide Earlier, Since;
    response := [];
    SinceNothing(since);
    assert history[..0] == [];
    for i := 0 to |history|
      invariant response == Since(history[..i], since)
    {
      SinceSnoc(history[..i], history[i], since);
      assert history[..i + 1] == history[..i] + [history[i]];
      if since == DEFAULT_DATE || Earlier(since, history[i].date) {
        response := response + [history[i]];
      }
    }
    assert history[..|history|] == history;
  }

  class Channel {
    const manager: UserManager
    const db: WrapperPg
    const name: string
    const id: Id
    var idUsers: set<Id>

    function View(): ChannelView
      reads this
    {
      ChannelView(name, idUsers)
    }

    constructor (manager: UserManager, db: WrapperPg, name: string, id: Id)
      requires !Refused(name, id) && db.isConnected
      ensures this.manager == manager && this.db == db && this.id == id
      ensures View() == Built(db.tables, name, id)
    {
      this.manager := manager;
      this.db := db;
      this.name := name;
      this.id := id;
      idUsers := {};
      new;
      var users := db.GetChannelUsers(id);
      for i := 0 to |users|
        invariant idUsers == Elements(users[..i])
      {
        ElementsSnoc(users[..i], users[i]);
        assert users[..i + 1] == users[..i] + [users[i]];
        idUsers := idUsers + {users[i]};
      }
      assert users[..|users|] == users;
    }

    /** std::make_shared<Channel>; null stands for the exception of the constructor. */
    static method Make(manager: UserManager, db: WrapperPg, name: string, id: Id) returns (c: Channel?)
      requires db.isConnected
      ensures c == null <==> Refused(name, id)
      ensures c != null ==>
                && fresh(c) && c.manager == manager && c.db == db && c.id == id
                && c.View() == Built(db.tables, name, id)
    {
      if name == "" { return null; }
      if id == NO_ID { return null; }
      c := new Channel(manager, db, name, id);
    }

    method AddUser(client: Id, closed: set<Session>) returns (out: seq<SessionWrite>)
      requires manager.Valid()
      modifies this
      ensures View() == WithUser(old(View()), client)
      ensures out == if client !in manager.idClients || client in old(idUsers) then []
                     else WriteTo(manager.View()[client], closed, JoinRoomResponse(name))
    {
      out := [];
      if client !in idUsers {
        idUsers := idUsers + {client};
        var user := manager.GetUser(client);
        if user == null { return; }
        if user.session !in closed {
          out := [SessionWrite(user.id, user.session, JoinRoomResponse(name))];
        }
      }
    }

    method SendHistory(client: Id, since: DateTime, closed: set<Session>) returns (out: seq<SessionWrite>)
      requires manager.Valid() && db.isConnected
      ensures var messages := Since(GetHistory(db.tables, id), since);
        out == if client !in idUsers || client !in manager.idClients || messages == [] then []
               else WriteTo(manager.View()[client], closed, HistoryResponse(name, messages))
    {
      out := [];
      if client !in idUsers { return; }
      var user := manager.GetUser(client);
      if user == null { return; }
      if user.session !in closed {
        var history := db.GetHistory(id);
        var response := CopySince(history, since);
        if response != [] {
          out := [SessionWrite(user.id, user.session, HistoryResponse(name, response))];
        }
      }
    }

    /** The members that have a user object with a living session. */
    ghost function LiveMembers(closed: set<Session>): set<Id>
      reads this, manager, manager.idClients.Values
    {
      set u | u in idUsers && u in manager.idClients && manager.idClients[u].session !in closed
    }

    /** The members are visited in no particular order; the buffer is moved out by the first session write. */
    method Write(message: TextMsg, closed: set<Session>) returns (out: seq<SessionWrite>)
      requires manager.Valid() && db.isConnected
      modifies db`tables
      ensures db.tables == AddMsgHistory(old(db.tables), message)
      ensures IsBroadcast(out, manager.View(), LiveMembers(closed), EchoResponse(message))
    {
      hide IsBroadcast;
      var buffer := EchoResponse(message);
      out := [];
      var rest := idUsers;
      ghost var users, live := manager.View(), LiveMembers(closed);
      NoBroadcast(users, EchoResponse(message));
      assert live - rest == {};
      while rest != {}
        invariant rest <= idUsers && db.tables == old(db.tables)
        invariant IsBroadcast(out, users, live - rest, EchoResponse(message))
        invariant buffer == if out == [] then EchoResponse(message) else EmptyBuffer
        decreases rest
      {
        var id :| id in rest;
        var user := manager.GetUser(id);
        ghost var before := live - rest;
        rest := rest - {id};
        if user == null {
          assert live - rest == before;
          continue;
        }
        if user.session !in closed {
          BroadcastMore(out, users, before, EchoResponse(message), id);
          out := out + [SessionWrite(id, user.session, buffer)];
          buffer := EmptyBuffer;
          assert live - rest == before + {id};
        } else {
          assert live - rest == before;
        }
      }
      assert live - rest == live;
      db.AddMsgHistory(message);
      assert manager.View() == users && LiveMembers(closed) == live;
    }
  }
}
