/** The directory of channel objects. */
module Managers {
  import opened Basics
  import opened Schema
  import opened PgDatabase
  import opened ChatModel
  import opened Users
  import opened Channels

  class ChannelsManager {
    const managerUsers: UserManager
    const db: WrapperPg
    var idChannels: map<Id, Channel>

    /** Every channel object is filed under its own id and shares this manager's users and database. */
    ghost predicate Valid()
      reads this, idChannels.Values
    {
      forall id :: id in idChannels ==>
        idChannels[id].id == id && idChannels[id].db == db && idChannels[id].manager == managerUsers
    }

    ghost function View(): map<Id, ChannelView>
      reads this, idChannels.Values
    {
      map id | id in idChannels :: idChannels[id].View()
    }

    constructor Empty(managerUsers: UserManager, db: WrapperPg)
      ensures this.managerUsers == managerUsers && this.db == db && idChannels == map[] && Valid()
    {
      this.managerUsers := managerUsers;
      this.db := db;
      idChannels := map[];
    }

    /** The constructor; null stands for the exception that leaves it. */
    static method Start(managerUsers: UserManager, db: WrapperPg) returns (m: ChannelsManager?)
      requires db.isConnected && ChannelKeys(db.tables)
      ensures m == null <==> Recover(db.tables).None?
      ensures m != null ==>
                && fresh(m) && (forall id :: id in m.idChannels ==> fresh(m.idChannels[id]))
                && m.Valid() && m.managerUsers == managerUsers && m.db == db
                && Recover(db.tables) == Some(m.View())
    {
      m := new ChannelsManager.Empty(managerUsers, db);
      var ok := m.CreateChannelFromDb();
      if !ok { m := null; }
    }

    method CreateChannelFromDb() returns (ok: bool)
      requires idChannels == map[] && db.isConnected && ChannelKeys(db.tables)
      modifies this
      ensures ok <==> Recover(db.tables).Some?
      ensures ok ==> Valid() && Recover(db.tables) == Some(View())
      ensures forall id :: id in idChannels ==> fresh(idChannels[id])
    {
      hide GetCurrentChannels, Built, ChannelKeys;
      var channels := db.GetCurrentChannels();
      var rest := channels.Keys;
      while rest != {}
        invariant rest <= channels.Keys
        invariant idChannels.Keys == channels.Keys - rest
        invariant Valid() && forall id :: id in idChannels ==> fresh(idChannels[id])
        invariant forall id :: id in idChannels ==>
                    !Refused(channels[id], id) && idChannels[id].View() == Built(db.tables, channels[id], id)
        decreases rest
      {
        var id :| id in rest;
        var c := Channel.Make(managerUsers, db, channels[id], id);
        if c == null { return false; }
        idChannels := idChannels[id := c];
        rest := rest - {id};
      }
      assert View() == map id | id in channels :: Built(db.tables, channels[id], id);
      ok := true;
    }

    method GetUserNameChannels(client: Id) returns (channels: seq<string>)
      requires db.isConnected
      ensures channels == Schema.GetUserNameChannels(db.tables, client)
    {
      channels := db.GetUserNameChannels(client);
    }

    method JoinClientChannel(client: Id, name: string)
      requires db.isConnected
      modifies db`tables
      ensures db.tables == Schema.JoinClientChannel(old(db.tables), client, name)
    {
      db.JoinClientChannel(client, name);
    }

    /** The state of the chat server as these objects hold it. */
    ghost function ServerView(): Server
      reads this, idChannels.Values, db, managerUsers, managerUsers.idClients.Values
    {
      Server(db.tables, View(), managerUsers.View())
    }

    /** Each entry is the one that was there before, or a new object. */
    twostate predicate Grown()
      reads this
    {
      forall id :: id in idChannels ==>
        (id in old(idChannels) && idChannels[id] == old(idChannels[id])) || fresh(idChannels[id])
    }

    /** make_shared<Channel> and the assignment to idChannels_; null stands for the constructor's exception. */
    method InstallChannel(name: string, id: Id) returns (c: Channel?)
      requires Valid() && db.isConnected
      modifies this`idChannels
      ensures Valid() && Grown()
      ensures c == null ==> idChannels == old(idChannels)
      ensures c != null ==> fresh(c) && idChannels == old(idChannels)[id := c] && c.id == id
      ensures var o := Install(old(ServerView()), name, id);
        ServerView() == o.server && (if c == null then o.id.None? else o.id == Some(id))
    {
      hide Built;
      c := Channel.Make(managerUsers, db, name, id);
      if c != null {
        idChannels := idChannels[id := c];
        assert View() == old(View())[id := c.View()];
      }
    }

    /** Null stands for the exception of the channel's constructor. */
    method CreateOrGetChannelByName(name: string) returns (c: Channel?)
      requires Valid() && db.isConnected
      modifies this`idChannels, db`tables
      ensures Valid() && Grown()
      ensures c != null ==> c.id in idChannels && idChannels[c.id] == c
      ensures var o := OpenChannel(old(ServerView()), name);
        ServerView() == o.server && (if c == null then o.id.None? else o.id == Some(c.id))
    {
      hide Schema.HasChannel, Schema.GetChannelId, Schema.CreateChannel, Install;
      var found := db.HasChannel(name);
      if found {
        var id := db.GetChannelId(name);
        if id !in idChannels {
          c := InstallChannel(name, id);
        } else {
          c := idChannels[id];
        }
      } else {
        var id := db.CreateChannel(name);
        assert View() == old(View()) && managerUsers.View() == old(managerUsers.View());
        c := InstallChannel(name, id);
      }
    }
  }
}
