/** The PostgreSQL client: every method reads or changes the tables through the statements of Schema. */
module PgDatabase {
  import opened Basics
  import S = Schema
  import opened Schema

  class WrapperPg {
    var isConnected: bool
    var tables: Tables

    constructor (stored: Tables)
      ensures !isConnected && tables == stored
    {
      isConnected := false;
      tables := stored;
    }

    /** An established connection is kept. */
    method Connect(reachable: bool) returns (ok: bool)
      modifies this`isConnected
      ensures ok == isConnected == (old(isConnected) || reachable)
    {
      if !isConnected { isConnected := reachable; }
      ok := isConnected;
    }

    method GetClientId(login: string) returns (id: Id)
      ensures id == if isConnected then S.GetClientId(tables, login) else NO_ID
    {
      id := NO_ID;
      if isConnected {
        var rows := ClientsByLogin(tables, login);
        id := if |rows| > 0 then rows[0].id else NO_ID;
      }
    }

    method GetClientName(id: Id) returns (login: string)
      ensures login == if isConnected then S.GetClientName(tables, id) else ""
    {
      login := "";
      if !isConnected { return; }
      var rows := ClientsById(tables, id);
      login := if |rows| > 0 then rows[0].login else "";
    }

    method GetChannelId(name: string) returns (id: Id)
      ensures id == if isConnected then S.GetChannelId(tables, name) else NO_ID
    {
      id := NO_ID;
      if !isConnected { return; }
      var rows := ChannelsByName(tables, name);
      if |rows| > 0 { id := rows[0].id; }
    }

    method GetChannelName(id: Id) returns (name: string)
      ensures name == if isConnected then S.GetChannelName(tables, id) else ""
    {
      name := "";
      if isConnected {
        var rows := ChannelsById(tables, id);
        name := if |rows| > 0 then rows[0].name else "";
      }
    }

    method CheckRegUser(login: string, password: string) returns (id: Id)
      modifies this`tables
      ensures isConnected ==> (tables, id) == S.CheckRegUser(old(tables), login, password)
      ensures !isConnected ==> tables == old(tables) && id == NO_ID
    {
      id := NO_ID;
      if !isConnected { return; }
      var found := GetClientId(login);
      if found == NO_ID {
        tables := InsertClient(tables, login, password);
        id := GetClientId(login);
      }
    }

    method CheckAuthUser(login: string, password: string) returns (id: Id)
      ensures id == if isConnected then S.CheckAuthUser(tables, login, password) else NO_ID
    {
      id := NO_ID;
      if !isConnected { return; }
      var rows := ClientsByLogin(tables, login);
      if |rows| > 0 {
        if password == rows[0].password { id := rows[0].id; }
      }
    }

    method HasChannel(name: string) returns (found: bool)
      ensures found == (isConnected && S.HasChannel(tables, name))
    {
      found := false;
      if !isConnected { return; }
      var rows := ChannelsByName(tables, name);
      found := |rows| > 0;
    }

    method CreateChannel(name: string) returns (id: Id)
      modifies this`tables
      ensures isConnected ==> (tables, id) == S.CreateChannel(old(tables), name)
      ensures !isConnected ==> tables == old(tables) && id == NO_ID
    {
      id := NO_ID;
      if !isConnected { return; }
      id := GetChannelId(name);
      if id == NO_ID {
        tables := InsertChannel(tables, name);
        id := GetChannelId(name);
      }
    }

    method HasChannelClient(channel: Id, client: Id) returns (found: bool)
      ensures found == (isConnected && S.HasChannelClient(tables, channel, client))
    {
      found := false;
      if !isConnected { return; }
      var rows := Where(tables.subscriptions,
                        (x: SubscriptionRow) => x.client == client && x.channel == channel);
      found := |rows| > 0;
      assert SubscriptionRow(client, channel) in tables.subscriptions ==> SubscriptionRow(client, channel) in rows;
      if found {
        assert rows[0] in rows;
        assert rows[0] == SubscriptionRow(client, channel);
      }
    }

    method JoinClientChannel(client: Id, name: string)
      modifies this`tables
      ensures tables == if isConnected then S.JoinClientChannel(old(tables), client, name) else old(tables)
    {
      if !isConnected { return; }
      var channel := GetChannelId(name);
      var present := HasChannelClient(channel, client);
      if present { return; }
      tables := InsertSubscription(tables, client, channel);
    }

    method AddMsgHistory(m: TextMsg)
      requires isConnected
      modifies this`tables
      ensures tables == S.AddMsgHistory(old(tables), m)
    {
      var author := GetClientId(m.author);
      tables := InsertHistory(tables, author, m.channel, m.date, m.text);
    }

    method GetHistory(channel: Id) returns (history: seq<TextMsg>)
      ensures history == if isConnected then S.GetHistory(tables, channel) else []
    {
      hide S.GetHistory, S.GetClientName, S.GetChannelName, HistoryOf, ReadStamp;
      history := [];
      if !isConnected { return; }
      var name := GetChannelName(channel);
      var rows := HistoryOf(tables, name);
      for i := 0 to |rows|
        invariant |history| == i
        invariant forall k :: 0 <= k < i ==> history[k] == ToMsg(tables, name, rows[k])
      {
        var author := GetClientName(rows[i].client);
        history := history + [TextMsg(author, rows[i].text, name, ReadStamp(rows[i].stamp))];
      }
      ReadAll(tables, channel, history);
    }

    /** The messages read row by row are the history. */
    static lemma ReadAll(t: Tables, channel: Id, history: seq<TextMsg>)
      requires var name := S.GetChannelName(t, channel);
        && |history| == |HistoryOf(t, name)|
        && forall k :: 0 <= k < |history| ==> history[k] == ToMsg(t, name, HistoryOf(t, name)[k])
      ensures history == S.GetHistory(t, channel)
    {
      hide S.GetChannelName, HistoryOf, ToMsg;
    }

    method GetChannelUsers(channel: Id) returns (users: seq<Id>)
      ensures users == if isConnected then S.GetChannelUsers(tables, channel) else []
      ensures NoDuplicates(users)
      ensures isConnected ==> Elements(users) == Members(tables, channel)
    {
      users := [];
      if !isConnected { return; }
      var rows := S.GetChannelUsers(tables, channel);
      for i := 0 to |rows|
        invariant users == rows[..i]
      {
        users := users + [rows[i]];
      }
      ChannelUsersAreMembers(tables, channel);
    }

    method GetUserNameChannels(client: Id) returns (channels: seq<string>)
      ensures channels == if isConnected then S.GetUserNameChannels(tables, client) else []
      ensures NoDuplicates(channels)
      ensures isConnected ==> forall name :: name in channels <==>
                exists h :: h in tables.history && h.client == client && h.channel == name
    {
      channels := [];
      if !isConnected { return; }
      var rows := S.GetUserNameChannels(tables, client);
      for i := 0 to |rows|
        invariant channels == rows[..i]
      {
        channels := channels + [rows[i]];
      }
      ListedNames(tables, client);
    }

    method GetCurrentChannels() returns (channels: map<Id, string>)
      requires ChannelKeys(tables)
      ensures channels == if isConnected then S.GetCurrentChannels(tables) else map[]
    {
      channels := map[];
      if !isConnected { return; }
      var rows := tables.channels;
      for i := 0 to |rows|
        invariant forall k :: 0 <= k < i ==> rows[k].id in channels
        invariant forall id :: id in channels ==> exists k :: 0 <= k < i && rows[k] == ChannelRow(id, channels[id])
      {
        channels := channels[rows[i].id := rows[i].name];
      }
      forall id | id in channels ensures channels[id] == S.GetChannelName(tables, id) {
        ChannelById(tables, ChannelRow(id, channels[id]));
      }
    }
  }
}
