/** A request that runs alone through its steps does what the chat model says the whole request does. */
module AtomicRequests {
  import opened Basics
  import opened Schema
  import opened ChatModel
  import opened Interleaving

  /** The objects of the step machine as the chat model sees them. */
  predicate Filed(s: Shared) {
    forall id :: id in s.installed ==> s.installed[id] < |s.objs| && s.objs[s.installed[id]].id == id
  }

  function ViewOf(o: ChannelObject): ChannelView { ChannelView(o.name, o.users) }

  function ServerOf(s: Shared, users: map<Id, UserView>): Server
    requires Filed(s)
  {
    Server(s.db, map id | id in s.installed :: ViewOf(s.objs[s.installed[id]]), users)
  }

  /** The first thread takes this many steps, with nothing in between. */
  function Alone(s: Shared, known: bool, steps: nat): Shared
    decreases steps
  {
    if steps == 0 || s.threads == [] then s else Alone(Advance(s, 0, known), known, steps - 1)
  }

  /** A state with one request under way. */
  function One(db: Tables, objs: seq<ChannelObject>, installed: map<Id, nat>, locked: bool, kind: Kind, name: string,
      pc: Pc): Shared {
    Shared(db, objs, installed, locked, [Thread(kind, name, pc)])
  }

  lemma AtOne(s: Shared, pc: Pc)
    requires |s.threads| == 1
    ensures At(s, 0, pc).threads == [s.threads[0].(pc := pc)]
  {
  }

  lemma NextStep(s: Shared, known: bool, steps: nat)
    requires s.threads != [] && steps > 0
    ensures Alone(s, known, steps) == Alone(Advance(s, 0, known), known, steps - 1)
  {
  }

  lemma {:induction false} OverStays(s: Shared, known: bool, steps: nat)
    requires |s.threads| == 1 && (s.threads[0].pc.Done? || s.threads[0].pc.Failed?)
    ensures Alone(s, known, steps) == s
  {
    if steps > 0 { OverStays(s, known, steps - 1); }
  }

  /** Opening an existing channel alone. */
  lemma OpenExisting(s: Shared, users: map<Id, UserView>, kind: Kind, name: string, known: bool, steps: nat)
    returns (s': Shared, left: nat)
    requires Filed(s) && !s.locked && s.threads == [Thread(kind, name, AskHas)] && HasChannel(s.db, name) && steps >= 7
    ensures left + 7 >= steps && Alone(s, known, steps) == Alone(s', known, left)
    ensures Opens(s, s', users, kind, name)
  {
    hide HasChannel, GetChannelId, GetChannelUsers, Alone, Opens;
    var id := GetChannelId(s.db, name);
    AtOne(s, AskId);
    NextStep(s, known, steps);
    var s1 := Advance(s, 0, known);
    AtOne(s1, Lookup(id));
    NextStep(s1, known, steps - 1);
    var s2 := Advance(s1, 0, known);
    assert s2 == One(s.db, s.objs, s.installed, false, kind, name, Lookup(id));
    s', left := LookupAlone(s2, users, kind, name, id, known, steps - 2);
    OpensFrom(s, s2, s', users, kind, name);
  }

  /** Whether a request opens its channel does not depend on where it stands. */
  lemma OpensFrom(a: Shared, b: Shared, s': Shared, users: map<Id, UserView>, kind: Kind, name: string)
    requires Filed(a) && b.db == a.db && b.objs == a.objs && b.installed == a.installed
    ensures Filed(b)
    ensures Opens(b, s', users, kind, name) ==> Opens(a, s', users, kind, name)
  {
    assert ServerOf(a, users) == ServerOf(b, users);
    hide OpenChannel, ServerOf;
  }

  /** The section under the mutex alone. */
  lemma LookupAlone(s: Shared, users: map<Id, UserView>, kind: Kind, name: string, id: Id, known: bool, steps: nat)
    returns (s': Shared, left: nat)
    requires s == One(s.db, s.objs, s.installed, false, kind, name, Lookup(id)) && Filed(s)
    requires HasChannel(s.db, name) && id == GetChannelId(s.db, name) && steps >= 2
    ensures left + 2 >= steps && Alone(s, known, steps) == Alone(s', known, left)
    ensures Opens(s, s', users, kind, name)
  {
    hide HasChannel, GetChannelId, GetChannelUsers, Alone;
    NextStep(s, known, steps);
    s', left := Advance(s, 0, known), steps - 1;
    if id in s.installed {
      AtOne(s, Got(s.installed[id]));
    } else if Refused(name, id) {
      AtOne(s, Failed);
    } else {
      AtOne(s, Loaded(id, Elements(GetChannelUsers(s.db, id))));
      s' := LoadAlone(s', kind, name, id, known, left);
      left := left - 1;
      LoadedView(s, s', users, kind, name, id);
    }
  }

  /** Installing the loaded object and letting the mutex go, alone. */
  lemma LoadAlone(s: Shared, kind: Kind, name: string, id: Id, known: bool, steps: nat)
    returns (s': Shared)
    requires var members := Elements(GetChannelUsers(s.db, id));
      s == One(s.db, s.objs, s.installed, true, kind, name, Loaded(id, members))
    requires steps >= 1
    ensures Alone(s, known, steps) == Alone(s', known, steps - 1)
    ensures s' == One(s.db, s.objs + [ChannelObject(id, name, Elements(GetChannelUsers(s.db, id)))],
                      s.installed[id := |s.objs|], false, kind, name, Got(|s.objs|))
  {
    hide GetChannelUsers, Alone;
    NextStep(s, known, steps);
    AtOne(NewObject(s, ChannelObject(id, name, Elements(GetChannelUsers(s.db, id)))), Got(|s.objs|));
    s' := Advance(s, 0, known);
  }

  lemma LoadedView(s: Shared, s': Shared, users: map<Id, UserView>, kind: Kind, name: string, id: Id)
    requires Filed(s) && HasChannel(s.db, name) && id == GetChannelId(s.db, name)
    requires id !in s.installed && !Refused(name, id)
    requires s' == One(s.db, s.objs + [ChannelObject(id, name, Elements(GetChannelUsers(s.db, id)))],
                       s.installed[id := |s.objs|], false, kind, name, Got(|s.objs|))
    ensures Opens(s, s', users, kind, name)
  {
    hide HasChannel, GetChannelId, GetChannelUsers;
    InstallView(s, s', users, id, name, Elements(GetChannelUsers(s.db, id)));
  }

  /** The request has got its channel, or failed, and the server shows what OpenChannel makes of it. */
  ghost predicate Opens(s: Shared, s': Shared, users: map<Id, UserView>, kind: Kind, name: string)
    requires Filed(s)
  {
    && |s'.threads| == 1 && s'.threads[0].kind == kind && s'.threads[0].name == name && !s'.locked && Filed(s')
    && var o := OpenChannel(ServerOf(s, users), name);
       && ServerOf(s', users) == o.server
       && match s'.threads[0].pc
          case Failed => o.id.None?
          case Got(obj) => o.id.Some? && o.id.value in s'.installed && s'.installed[o.id.value] == obj
          case _ => false
  }

  lemma InstallView(s: Shared, s': Shared, users: map<Id, UserView>, id: Id, name: string, members: set<Id>)
    requires Filed(s)
    requires s'.objs == s.objs + [ChannelObject(id, name, members)] && s'.installed == s.installed[id := |s.objs|]
    ensures Filed(s')
    ensures ServerOf(s', users) ==
              Server(s'.db, ServerOf(s, users).channels[id := ChannelView(name, members)], users)
  {
  }

  /** Creating a channel alone. */
  lemma {:induction false} OpenNew(s: Shared, users: map<Id, UserView>, kind: Kind, name: string, known: bool,
      steps: nat)
    returns (s': Shared, left: nat)
    requires Filed(s) && !s.locked && s.threads == [Thread(kind, name, AskHas)] && !HasChannel(s.db, name) && steps >= 7
    ensures left + 7 >= steps && Alone(s, known, steps) == Alone(s', known, left)
    ensures Opens(s, s', users, kind, name)
  {
    hide HasChannel, GetChannelId, GetChannelUsers, Alone, InsertChannel;
    AtOne(s, CreateAsk);
    NextStep(s, known, steps);
    var s1 := Advance(s, 0, known);
    assert s1 == One(s.db, s.objs, s.installed, false, kind, name, CreateAsk);
    var id, s2, rest := CreateRow(s1, kind, name, known, steps - 1);
    s', left := BuildAlone(s2, users, kind, name, id, known, rest);
  }

  /** createChannel alone. */
  lemma {:induction false} CreateRow(s: Shared, kind: Kind, name: string, known: bool, steps: nat)
    returns (id: Id, s': Shared, left: nat)
    requires s == One(s.db, s.objs, s.installed, false, kind, name, CreateAsk) && steps >= 6
    ensures left + 3 >= steps && Alone(s, known, steps) == Alone(s', known, left)
    ensures (s'.db, id) == CreateChannel(s.db, name)
    ensures s' == One(s'.db, s.objs, s.installed, false, kind, name, Build(id))
  {
    hide GetChannelId, Alone, InsertChannel;
    NextStep(s, known, steps);
    s', left := Advance(s, 0, known), steps - 1;
    id := GetChannelId(s.db, name);
    if id == NO_ID {
      AtOne(s, CreateInsert);
      NextStep(s', known, left);
      AtOne(s', CreateId);
      s', left := Advance(s', 0, known), left - 1;
      NextStep(s', known, left);
      id := GetChannelId(s'.db, name);
      AtOne(s', Build(id));
      s', left := Advance(s', 0, known), left - 1;
    } else {
      AtOne(s, Build(id));
    }
  }

  /** Building and installing the object of a created channel alone. */
  lemma {:induction false} BuildAlone(s: Shared, users: map<Id, UserView>, kind: Kind, name: string, id: Id,
      known: bool, steps: nat)
    returns (s': Shared, left: nat)
    requires Filed(s) && s == One(s.db, s.objs, s.installed, false, kind, name, Build(id)) && steps >= 2
    ensures left + 2 >= steps && Alone(s, known, steps) == Alone(s', known, left)
    ensures |s'.threads| == 1 && s'.threads[0].kind == kind && s'.threads[0].name == name && !s'.locked && Filed(s')
    ensures var o := Install(ServerOf(s, users), name, id);
      && ServerOf(s', users) == o.server
      && (if o.id.None? then s'.threads[0].pc == Failed
          else id in s'.installed && s'.threads[0].pc == Got(s'.installed[id]) && o.id == Some(id))
  {
    hide GetChannelUsers, Alone;
    NextStep(s, known, steps);
    s', left := Advance(s, 0, known), steps - 1;
    if Refused(name, id) {
      AtOne(s, Failed);
    } else {
      var members := Elements(GetChannelUsers(s.db, id));
      AtOne(NewObject(s, ChannelObject(id, name, members)), Overwrite(|s.objs|));
      var s1 := s';
      assert s1 == One(s.db, s.objs + [ChannelObject(id, name, members)], s.installed, false, kind, name,
          Overwrite(|s.objs|));
      NextStep(s1, known, left);
      AtOne(s1, Got(|s.objs|));
      s', left := Advance(s1, 0, known), left - 1;
      InstallView(s, s', users, id, name, members);
    }
  }

  /** The rest of a join alone. */
  lemma JoinAlone(s: Shared, users: map<Id, UserView>, client: Id, name: string, id: Id, steps: nat)
    requires Filed(s) && !s.locked && id in s.installed && steps >= 5
    requires s.threads == [Thread(Joining(client), name, Got(s.installed[id]))]
    ensures var s' := Alone(s, true, steps);
      && |s'.threads| == 1 && s'.threads[0].pc.Done? && Filed(s')
      && ServerOf(s', users) == Subscribed(ServerOf(s, users), id, client, name)
  {
    hide GetChannelId, Alone, HasChannelClient, JoinClientChannel, Advance, ServerOf;
    var obj := s.installed[id];
    var s1 := StartJoin(s, client, name, obj, steps);
    var s3 := AddAlone(s1, client, name, obj, true, steps - 1);
    MemberView(s, s3, users, id, client);
    RowAlone(s3, users, client, name, obj, true, steps - 3);
    JoinView(s, s3, users, id, client, name);
  }

  lemma StartJoin(s: Shared, client: Id, name: string, obj: nat, steps: nat) returns (s': Shared)
    requires !s.locked && s.threads == [Thread(Joining(client), name, Got(obj))] && steps >= 1
    ensures Alone(s, true, steps) == Alone(s', true, steps - 1)
    ensures s' == One(s.db, s.objs, s.installed, false, Joining(client), name, Adding(obj))
  {
    hide Alone;
    NextStep(s, true, steps);
    AtOne(s, Adding(obj));
    s' := Advance(s, 0, true);
  }

  lemma JoinView(s: Shared, s': Shared, users: map<Id, UserView>, id: Id, client: Id, name: string)
    requires Filed(s) && Filed(s') && id in s.installed && s'.db == s.db
    requires ServerOf(s', users).channels ==
               ServerOf(s, users).channels[id := WithUser(ServerOf(s, users).channels[id], client)]
    ensures ServerOf(s', users).(db := JoinClientChannel(s.db, client, name)) ==
              Subscribed(ServerOf(s, users), id, client, name)
  {
    hide JoinClientChannel;
  }

  /** addUser alone, up to the questions to the database. */
  lemma {:induction false} AddAlone(s: Shared, client: Id, name: string, obj: nat, known: bool, steps: nat)
    returns (s': Shared)
    requires s == One(s.db, s.objs, s.installed, false, Joining(client), name, Adding(obj))
    requires obj < |s.objs| && steps >= 2
    ensures Alone(s, known, steps) == Alone(s', known, steps - 2)
    ensures s' == One(s.db, AddMember(s, obj, client).objs, s.installed, false, Joining(client), name,
                      JoinHas(obj, GetChannelId(s.db, name)))
  {
    hide GetChannelId, Alone;
    NextStep(s, known, steps);
    AtOne(AddMember(s, obj, client), JoinId(obj));
    s' := Advance(s, 0, known);
    NextStep(s', known, steps - 1);
    AtOne(s', JoinHas(obj, GetChannelId(s.db, name)));
    s' := Advance(s', 0, known);
  }

  /** The database part of joinClientChannel alone. */
  lemma RowAlone(s: Shared, users: map<Id, UserView>, client: Id, name: string, obj: nat, known: bool, steps: nat)
    requires Filed(s) && steps >= 2
    requires s == One(s.db, s.objs, s.installed, false, Joining(client), name, JoinHas(obj, GetChannelId(s.db, name)))
    ensures var s' := Alone(s, known, steps);
      && |s'.threads| == 1 && s'.threads[0].pc.Done? && Filed(s')
      && ServerOf(s', users) == ServerOf(s, users).(db := JoinClientChannel(s.db, client, name))
  {
    hide GetChannelId, Alone, HasChannelClient, InsertSubscription;
    var row := GetChannelId(s.db, name);
    NextStep(s, known, steps);
    var s1 := Advance(s, 0, known);
    if HasChannelClient(s.db, row, client) {
      AtOne(s, Done(obj));
      OverStays(s1, known, steps - 1);
    } else {
      AtOne(s, JoinInsert(obj, row));
      NextStep(s1, known, steps - 1);
      AtOne(s1, Done(obj));
      OverStays(Advance(s1, 0, known), known, steps - 2);
    }
  }

  lemma MemberView(s: Shared, s': Shared, users: map<Id, UserView>, id: Id, client: Id)
    requires Filed(s) && id in s.installed
    requires s'.objs == AddMember(s, s.installed[id], client).objs && s'.installed == s.installed
    ensures Filed(s')
    ensures ServerOf(s', users).channels ==
              ServerOf(s, users).channels[id := WithUser(ServerOf(s, users).channels[id], client)]
  {
    var obj := s.installed[id];
    forall i | i in s.installed && i != id ensures s.installed[i] != obj { }
  }

  /** The rest of a sendText alone: write with addMsgHistory. */
  lemma SendAlone(s: Shared, users: map<Id, UserView>, kind: Kind, name: string, obj: nat, steps: nat)
    requires Filed(s) && !s.locked && kind.Sending? && s.threads == [Thread(kind, name, Got(obj))] && steps >= 4
    requires obj < |s.objs|
    ensures var s' := Alone(s, false, steps);
      && |s'.threads| == 1 && s'.threads[0].pc.Done? && Filed(s')
      && ServerOf(s', users) == Recorded(ServerOf(s, users), TextMsg(kind.author, kind.text, name, kind.date))
  {
    hide Alone, ServerOf, Recorded, Advance, GetClientId, InsertHistory;
    var s1 := VisitAlone(s, kind, name, obj, steps);
    SameView(s, s1, users);
    StoreAlone(s1, users, kind, name, obj, s.objs[obj].users, steps - 2);
  }

  /** The loop over the members alone. */
  lemma VisitAlone(s: Shared, kind: Kind, name: string, obj: nat, steps: nat) returns (s': Shared)
    requires !s.locked && kind.Sending? && s.threads == [Thread(kind, name, Got(obj))] && obj < |s.objs| && steps >= 2
    ensures Alone(s, false, steps) == Alone(s', false, steps - 2)
    ensures s' == One(s.db, s.objs, s.installed, false, kind, name, Writing(obj, s.objs[obj].users))
  {
    hide Alone;
    NextStep(s, false, steps);
    AtOne(s, Visiting(obj));
    s' := Advance(s, 0, false);
    NextStep(s', false, steps - 1);
    AtOne(s', Writing(obj, s.objs[obj].users));
    s' := Advance(s', 0, false);
  }

  /** addMsgHistory alone. */
  lemma StoreAlone(s: Shared, users: map<Id, UserView>, kind: Kind, name: string, obj: nat, visited: set<Id>,
                   steps: nat)
    requires Filed(s) && kind.Sending? && steps >= 2
    requires s == One(s.db, s.objs, s.installed, false, kind, name, Writing(obj, visited))
    ensures var s' := Alone(s, false, steps);
      && |s'.threads| == 1 && s'.threads[0].pc.Done? && Filed(s')
      && ServerOf(s', users) == Recorded(ServerOf(s, users), TextMsg(kind.author, kind.text, name, kind.date))
  {
    hide GetClientId, Alone, InsertHistory;
    NextStep(s, false, steps);
    AtOne(s, Storing(obj, GetClientId(s.db, kind.author)));
    var s1 := Advance(s, 0, false);
    NextStep(s1, false, steps - 1);
    AtOne(s1, Done(obj));
    OverStays(Advance(s1, 0, false), false, steps - 2);
  }

  lemma SameView(s: Shared, s': Shared, users: map<Id, UserView>)
    requires Filed(s) && s'.db == s.db && s'.objs == s.objs && s'.installed == s.installed
    ensures Filed(s') && ServerOf(s', users) == ServerOf(s, users)
  {
  }

  /** The event of the chat model for a request. */
  function EventOf(kind: Kind, name: string): Event {
    match kind
    case Joining(client) => JoinRoom(client, name)
    case Sending(author, text, date) => SendText(TextMsg(author, text, name, date))
    case Reading(client, since) => HistoryRequest(client, name, since)
  }

  /** Any request, started on an idle server and left alone for twelve steps, is over: failed exactly if the chat
      model says that an exception leaves it, and the tables and channel objects are what the chat model makes of
      the whole request. */
  lemma AloneIsAtomic(s: Shared, users: map<Id, UserView>, kind: Kind, name: string)
    requires Filed(s) && !s.locked && s.threads == []
    ensures var known := kind.Joining? && kind.client in users;
      var s' := Alone(Step(s, Begin(kind, name)), known, 12);
      && |s'.threads| == 1 && Filed(s')
      && (if OpenChannel(ServerOf(s, users), name).id.None? then s'.threads[0].pc.Failed? else s'.threads[0].pc.Done?)
      && ServerOf(s', users) == Served(ServerOf(s, users), EventOf(kind, name))
  {
    hide Alone, OpenChannel, HasChannel, ServerOf, Served, Filed;
    var known := kind.Joining? && kind.client in users;
    var begun := Step(s, Begin(kind, name));
    assert begun.threads == [Thread(kind, name, AskHas)];
    OpensFrom(s, begun, begun, users, kind, name);
    var s', left;
    if HasChannel(s.db, name) {
      s', left := OpenExisting(begun, users, kind, name, known, 12);
    } else {
      s', left := OpenNew(begun, users, kind, name, known, 12);
    }
    OpensFrom(s, begun, s', users, kind, name);
    Finish(s, s', users, kind, name, left);
  }

  /** What is left once the request has its channel, or has failed. */
  lemma Finish(s: Shared, s': Shared, users: map<Id, UserView>, kind: Kind, name: string, left: nat)
    requires Filed(s) && Opens(s, s', users, kind, name) && left >= 5
    ensures var over := Alone(s', kind.Joining? && kind.client in users, left);
      && |over.threads| == 1 && Filed(over)
      && (if OpenChannel(ServerOf(s, users), name).id.None? then over.threads[0].pc.Failed?
          else over.threads[0].pc.Done?)
      && ServerOf(over, users) == Served(ServerOf(s, users), EventOf(kind, name))
  {
    hide Alone, OpenChannel, Subscribed, Recorded, HasChannel;
    var known := kind.Joining? && kind.client in users;
    var server := ServerOf(s, users);
    UsersKept(server, name);
    if s'.threads[0].pc.Failed? {
      OverStays(s', known, left);
    } else if known {
      JoinAlone(s', users, kind.client, name, OpenChannel(server, name).id.value, left);
    } else if kind.Sending? {
      SendAlone(s', users, kind, name, s'.threads[0].pc.obj, left);
    } else {
      NextStep(s', known, left);
      AtOne(s', Done(s'.threads[0].pc.obj));
      OverStays(Advance(s', 0, known), known, left - 1);
    }
  }

  lemma UsersKept(server: Server, name: string)
    ensures OpenChannel(server, name).server.users == server.users
  {
    hide HasChannel, GetChannelId;
  }
}
