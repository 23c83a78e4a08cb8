/** User objects and their directory. */
module Users {
  import opened Basics
  import Schema
  import opened PgDatabase
  import opened ChatModel

  class User {
    var session: Session
    const login: string
    const password: string
    const id: Id

    constructor (session: Session, login: string, password: string, id: Id)
      ensures View() == UserView(id, login, password, session)
    {
      this.session := session;
      this.login := login;
      this.password := password;
      this.id := id;
    }

    function View(): UserView
      reads this
    {
      UserView(id, login, password, session)
    }

    method UpdateSession(newSession: Session)
      modifies this
      ensures View() == old(View()).(session := newSession)
    {
      session := newSession;
    }
  }

  class UserManager {
    const db: WrapperPg
    var idClients: map<Id, User>

    /** Every object is filed under its own id. */
    ghost predicate Valid()
      reads this, idClients.Values
    {
      forall id :: id in idClients ==> idClients[id].id == id
    }

    ghost function View(): map<Id, UserView>
      reads this, idClients.Values
    {
      map id | id in idClients :: idClients[id].View()
    }

    constructor (db: WrapperPg)
      ensures Valid() && this.db == db && idClients == map[] && View() == map[]
    {
      this.db := db;
      idClients := map[];
    }

    method CheckRegUser(login: string, password: string) returns (id: Id)
      requires db.isConnected
      modifies db`tables
      ensures (db.tables, id) == Schema.CheckRegUser(old(db.tables), login, password)
    {
      id := db.CheckRegUser(login, password);
    }

    method CheckAuthUser(login: string, password: string) returns (id: Id)
      requires db.isConnected
      ensures id == Schema.CheckAuthUser(db.tables, login, password)
    {
      id := db.CheckAuthUser(login, password);
    }

    /** A known id only gets the session of the pushed object; an unknown one gets the object itself. */
    method Push(data: User)
      requires Valid()
      modifies this, idClients.Values
      ensures Valid() && View() == PushUser(old(View()), old(data.View()))
      ensures forall id :: id in idClients ==>
        (id in old(idClients) && idClients[id] == old(idClients[id])) || idClients[id] == data
    {
      if data.id in idClients {
        idClients[data.id].UpdateSession(data.session);
      } else {
        idClients := idClients[data.id := data];
      }
    }

    method GetUser(id: Id) returns (user: User?)
      ensures user == if id in idClients then idClients[id] else null
    {
      if id in idClients { user := idClients[id]; } else { user := null; }
    }
  }
}
