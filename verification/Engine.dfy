/** The request handlers. Each one is proved to be the event of the chat model that carries its name. */
module Engine {
  import opened Basics
  import opened DateText
  import opened Schema
  import opened ChatModel
  import opened Users
  import opened Channels
  import opened Managers

  class QueryEngine {
    const managerUsers: UserManager
    const managerChannels: ChannelsManager

    constructor (managerUsers: UserManager, managerChannels: ChannelsManager)
      ensures this.managerUsers == managerUsers && this.managerChannels == managerChannels
    {
      this.managerUsers := managerUsers;
      this.managerChannels := managerChannels;
    }

    /** The wiring main leaves behind: one connected database and one user directory shared by all. */
    ghost predicate Valid()
      reads managerUsers, managerUsers.idClients.Values
      reads managerChannels, managerChannels.idChannels.Values, managerUsers.db, managerChannels.db
    {
      && managerUsers.Valid() && managerChannels.Valid()
      && managerChannels.managerUsers == managerUsers && managerChannels.db == managerUsers.db
      && managerUsers.db.isConnected
    }

    ghost function View(): Server
      reads managerUsers, managerUsers.idClients.Values
      reads managerChannels, managerChannels.idChannels.Values, managerUsers.db, managerChannels.db
      reads managerChannels.managerUsers, managerChannels.managerUsers.idClients.Values
    {
      managerChannels.ServerView()
    }

    /** UserManager::create and push, as reg and auth do on success. */
    method Remember(session: Session, login: string, password: string, id: Id)
      requires Valid() && id != NO_ID
      modifies managerUsers, managerUsers.idClients.Values
      ensures Valid() && UsersGrown()
      ensures View() == Login(old(View()), session, login, password, id)
    {
      hide PushUser;
      var client := new User(session, login, password, id);
      managerUsers.Push(client);
      assert managerChannels.View() == old(managerChannels.View());
    }

    /** Each user object is the one that was there before, or a new one. */
    twostate predicate UsersGrown()
      reads managerUsers
    {
      forall id :: id in managerUsers.idClients ==>
        || (id in old(managerUsers.idClients) && managerUsers.idClients[id] == old(managerUsers.idClients[id]))
        || fresh(managerUsers.idClients[id])
    }

    method Reg(session: Session, login: string, password: string, closed: set<Session>) returns (out: seq<SessionWrite>)
      requires Valid()
      modifies managerUsers, managerUsers.idClients.Values, managerUsers.db`tables
      ensures Valid() && UsersGrown()
      ensures View() == Served(old(View()), Registration(session, login, password))
      ensures Outputs(Running(old(View()), closed), Registration(session, login, password), out)
    {
      hide Schema.CheckRegUser, PushUser;
      var id := managerUsers.CheckRegUser(login, password);
      assert managerUsers.View() == old(managerUsers.View()) && managerChannels.View() == old(managerChannels.View());
      if id != NO_ID { Remember(session, login, password, id); }
      out := [];
      if session !in closed { out := [SessionWrite(id, session, RegistrationResponse(id))]; }
    }

    method Auth(session: Session, login: string, password: string, closed: set<Session>)
      returns (out: seq<SessionWrite>)
      requires Valid()
      modifies managerUsers, managerUsers.idClients.Values
      ensures Valid() && UsersGrown()
      ensures View() == Served(old(View()), Authorisation(session, login, password))
      ensures Outputs(Running(old(View()), closed), Authorisation(session, login, password), out)
    {
      hide Schema.CheckAuthUser, PushUser;
      var id := managerUsers.CheckAuthUser(login, password);
      if id != NO_ID { Remember(session, login, password, id); }
      out := [];
      if session !in closed { out := [SessionWrite(id, session, AuthorisationResponse(id))]; }
    }

    method GetHistory(client: Id, channelName: string, since: DateTime, closed: set<Session>)
      returns (out: seq<SessionWrite>)
      requires Valid()
      modifies managerChannels, managerUsers.db`tables
      ensures Valid() && managerChannels.Grown()
      ensures View() == Served(old(View()), HistoryRequest(client, channelName, since))
      ensures Outputs(Running(old(View()), closed), HistoryRequest(client, channelName, since), out)
    {
      hide OpenChannel, Schema.GetHistory, Since, Served, Outputs;
      PollIs(View(), closed, client, channelName, since);
      var channel := managerChannels.CreateOrGetChannelByName(channelName);
      if channel == null { return []; }
      out := channel.SendHistory(client, since, closed);
    }

    method GetChannels(client: Id, closed: set<Session>) returns (out: seq<SessionWrite>)
      requires Valid()
      ensures Outputs(Running(View(), closed), ChannelsRequest(client), out)
    {
      out := [];
      var user := managerUsers.GetUser(client);
      if user == null { return; }
      if user.session !in closed {
        var channels := managerChannels.GetUserNameChannels(client);
        out := [SessionWrite(client, user.session, ChannelsResponse(channels))];
      }
    }

    /** addUser on the channel, then joinClientChannel. */
    method AddMember(channel: Channel, client: Id, channelName: string, closed: set<Session>)
      returns (out: seq<SessionWrite>)
      requires Valid() && client in managerUsers.idClients
      requires channel.id in managerChannels.idChannels && managerChannels.idChannels[channel.id] == channel
      modifies channel, managerUsers.db`tables
      ensures Valid()
      ensures View() == Subscribed(old(View()), channel.id, client, channelName)
      ensures out == JoinReply(old(View()), closed, channel.id, client)
    {
      hide Schema.JoinClientChannel;
      out := channel.AddUser(client, closed);
      managerChannels.JoinClientChannel(client, channelName);
      assert managerUsers.View() == old(managerUsers.View());
      assert managerChannels.View() == old(managerChannels.View())[channel.id := channel.View()];
    }

    /** joinRoom once it has its channel. */
    method JoinOpened(channel: Channel, client: Id, channelName: string, closed: set<Session>)
      returns (out: seq<SessionWrite>)
      requires Valid()
      requires channel.id in managerChannels.idChannels && managerChannels.idChannels[channel.id] == channel
      modifies channel, managerUsers.db`tables
      ensures Valid()
      ensures View() ==
                if client in old(View()).users then Subscribed(old(View()), channel.id, client, channelName)
                else old(View())
      ensures out == JoinReply(old(View()), closed, channel.id, client)
    {
      hide Subscribed, JoinReply;
      var user := managerUsers.GetUser(client);
      if user == null {
        NoReplyForStranger(View(), closed, channel.id, client);
        return [];
      }
      out := AddMember(channel, user.id, channelName, closed);
    }

    method JoinRoom(client: Id, channelName: string, closed: set<Session>) returns (out: seq<SessionWrite>)
      requires Valid()
      modifies managerChannels, managerChannels.idChannels.Values, managerUsers.db`tables
      ensures Valid() && managerChannels.Grown()
      ensures View() == Served(old(View()), ChatModel.JoinRoom(client, channelName))
      ensures Outputs(Running(old(View()), closed), ChatModel.JoinRoom(client, channelName), out)
    {
      hide OpenChannel, Subscribed, JoinReply, Served, Outputs;
      JoinIs(View(), closed, client, channelName);
      var channel := managerChannels.CreateOrGetChannelByName(channelName);
      if channel == null { return []; }
      out := JoinOpened(channel, client, channelName, closed);
    }

    method SendText(message: TextMsg, closed: set<Session>) returns (out: seq<SessionWrite>)
      requires Valid()
      modifies managerChannels, managerUsers.db`tables
      ensures Valid() && managerChannels.Grown()
      ensures View() == Served(old(View()), ChatModel.SendText(message))
      ensures Outputs(Running(old(View()), closed), ChatModel.SendText(message), out)
    {
      hide OpenChannel, AddMsgHistory, IsBroadcast, Served, Outputs;
      TextIs(View(), closed, message);
      var channel := managerChannels.CreateOrGetChannelByName(message.channel);
      if channel == null { return []; }
      ghost var before := View();
      assert channel.LiveMembers(closed) == Recipients(before, closed, channel.id);
      out := channel.Write(message, closed);
      assert managerChannels.View() == before.channels && managerUsers.View() == before.users;
      assert channel.LiveMembers(closed) == Recipients(before, closed, channel.id);
    }
  }

  lemma NoReplyForStranger(s: Server, closed: set<Session>, channel: Id, client: Id)
    requires channel in s.channels && client !in s.users
    ensures JoinReply(s, closed, channel, client) == []
  {
  }

  // ---------- the three events that open a channel ----------

  lemma JoinIs(s: Server, closed: set<Session>, client: Id, channel: string)
    ensures var o := OpenChannel(s, channel);
      && Served(s, JoinRoom(client, channel)) ==
           (if o.id.None? || client !in o.server.users then o.server
            else Subscribed(o.server, o.id.value, client, channel))
      && forall out :: Outputs(Running(s, closed), JoinRoom(client, channel), out) <==>
           out == if o.id.None? then [] else JoinReply(o.server, closed, o.id.value, client)
  {
    hide OpenChannel, Subscribed, JoinReply;
  }

  lemma TextIs(s: Server, closed: set<Session>, message: TextMsg)
    ensures var o := OpenChannel(s, message.channel);
      && Served(s, SendText(message)) == (if o.id.None? then o.server else Recorded(o.server, message))
      && forall out :: Outputs(Running(s, closed), SendText(message), out) <==>
           if o.id.None? then out == []
           else IsBroadcast(out, o.server.users, Recipients(o.server, closed, o.id.value), EchoResponse(message))
  {
    hide OpenChannel, Recorded, IsBroadcast, Recipients;
  }

  lemma PollIs(s: Server, closed: set<Session>, client: Id, channel: string, since: DateTime)
    ensures var o := OpenChannel(s, channel);
      && Served(s, HistoryRequest(client, channel, since)) == o.server
      && forall out :: Outputs(Running(s, closed), HistoryRequest(client, channel, since), out) <==>
           out == if o.id.None? then [] else HistoryReply(o.server, closed, o.id.value, client, since)
  {
    hide OpenChannel, HistoryReply;
  }
}
