/** Requests on several pool threads at once. Every database statement, every section under the manager's mutex and
    every access to a channel's member set is one step; any number of requests may be under way. */
module Interleaving {
  import opened Basics
  import opened DateText
  import opened Schema
  import opened ChatModel

  /** joinRoom, sendText or getHistory; the channel's name is kept beside it. */
  datatype Kind =
    | Joining(client: Id)
    | Sending(author: string, text: string, date: DateTime)
    | Reading(client: Id, since: DateTime)

  /** Where a request stands. Numbers obj name channel objects. */
  datatype Pc =
    | AskHas                               // db->hasChannel
    | AskId                                // db->getChannelId
    | Lookup(id: Id)                       // about to lock mutex_ and look into idChannels_
    | Loaded(id: Id, users: set<Id>)       // holds mutex_, has run the constructor's getChannelUsers
    | CreateAsk                            // createChannel: db->getChannelId
    | CreateInsert                         // createChannel: INSERT
    | CreateId                             // createChannel: db->getChannelId again
    | Build(id: Id)                        // the constructor, outside mutex_
    | Overwrite(obj: nat)                  // about to lock mutex_ and assign idChannels_[id]
    | Got(obj: nat)                        // createOrGetChannelByName has returned
    | Adding(obj: nat)                     // joinRoom: the client is known, about to call addUser
    | JoinId(obj: nat)                     // joinClientChannel: db->getChannelId
    | JoinHas(obj: nat, id: Id)            // joinClientChannel: hasChannelClient
    | JoinInsert(obj: nat, id: Id)         // joinClientChannel: INSERT
    | Visiting(obj: nat)                   // write: about to loop over idUsers_
    | Writing(obj: nat, visited: set<Id>)  // write has visited these members, addMsgHistory: db->getClientId
    | Storing(obj: nat, author: Id)        // addMsgHistory: INSERT
    | Done(obj: nat)                       // a history request only reads once it has its channel
    | Failed                               // an exception left the request

  datatype Thread = Thread(kind: Kind, name: string, pc: Pc)

  datatype ChannelObject = ChannelObject(id: Id, name: string, users: set<Id>)

  datatype Shared = Shared(
    db: Tables,
    objs: seq<ChannelObject>,
    installed: map<Id, nat>,
    locked: bool,
    threads: seq<Thread>)

  datatype Move = Begin(kind: Kind, name: string) | Go(thread: nat, known: bool)

  function At(s: Shared, t: nat, pc: Pc): Shared
    requires t < |s.threads|
  {
    s.(threads := s.threads[t := s.threads[t].(pc := pc)])
  }

  function NewObject(s: Shared, o: ChannelObject): Shared { s.(objs := s.objs + [o]) }

  function AddMember(s: Shared, obj: nat, client: Id): Shared
    requires obj < |s.objs|
  {
    s.(objs := s.objs[obj := s.objs[obj].(users := s.objs[obj].users + {client})])
  }

  /** One step of a thread; a thread that waits for the mutex, or is done, stays. known says whether getUser finds
      the client of a joining request. */
  function Advance(s: Shared, t: nat, known: bool): Shared
    requires t < |s.threads|
  {
    var th := s.threads[t];
    match th.pc
    case AskHas => At(s, t, if HasChannel(s.db, th.name) then AskId else CreateAsk)
    case AskId => At(s, t, Lookup(GetChannelId(s.db, th.name)))
    case Lookup(id) =>
      if s.locked then s
      else if id in s.installed then At(s, t, Got(s.installed[id]))
      else if Refused(th.name, id) then At(s, t, Failed)
      else At(s, t, Loaded(id, Elements(GetChannelUsers(s.db, id)))).(locked := true)
    case Loaded(id, users) =>
      var s' := NewObject(s, ChannelObject(id, th.name, users));
      At(s', t, Got(|s.objs|)).(installed := s.installed[id := |s.objs|], locked := false)
    case CreateAsk =>
      var id := GetChannelId(s.db, th.name);
      At(s, t, if id == NO_ID then CreateInsert else Build(id))
    case CreateInsert => At(s, t, CreateId).(db := InsertChannel(s.db, th.name))
    case CreateId => At(s, t, Build(GetChannelId(s.db, th.name)))
    case Build(id) =>
      if Refused(th.name, id) then At(s, t, Failed)
      else At(NewObject(s, ChannelObject(id, th.name, Elements(GetChannelUsers(s.db, id)))), t, Overwrite(|s.objs|))
    case Overwrite(obj) =>
      if s.locked || obj >= |s.objs| then s
      else At(s, t, Got(obj)).(installed := s.installed[s.objs[obj].id := obj])
    case Got(obj) =>
      At(s, t, if th.kind.Joining? && known then Adding(obj) else if th.kind.Sending? then Visiting(obj) else Done(obj))
    case Adding(obj) =>
      if obj >= |s.objs| || !th.kind.Joining? then s
      else At(AddMember(s, obj, th.kind.client), t, JoinId(obj))
    case JoinId(obj) => At(s, t, JoinHas(obj, GetChannelId(s.db, th.name)))
    case JoinHas(obj, id) =>
      if !th.kind.Joining? then s
      else At(s, t, if HasChannelClient(s.db, id, th.kind.client) then Done(obj) else JoinInsert(obj, id))
    case JoinInsert(obj, id) =>
      if !th.kind.Joining? then s
      else At(s, t, Done(obj)).(db := InsertSubscription(s.db, th.kind.client, id))
    case Visiting(obj) =>
      if obj >= |s.objs| || !th.kind.Sending? then s
      else At(s, t, Writing(obj, s.objs[obj].users))
    case Writing(obj, _) =>
      if !th.kind.Sending? then s
      else At(s, t, Storing(obj, GetClientId(s.db, th.kind.author)))
    case Storing(obj, author) =>
      if !th.kind.Sending? then s
      else At(s, t, Done(obj)).(db := InsertHistory(s.db, author, th.name, th.kind.date, th.kind.text))
    case Done(_) => s
    case Failed => s
  }

  function Step(s: Shared, move: Move): Shared {
    match move
    case Begin(kind, name) => s.(threads := s.threads + [Thread(kind, name, AskHas)])
    case Go(t, known) => if t < |s.threads| then Advance(s, t, known) else s
  }

  function RunFrom(s: Shared, moves: seq<Move>): Shared {
    if moves == [] then s else Step(RunFrom(s, moves[..|moves| - 1]), moves[|moves| - 1])
  }

  lemma RunNothing(s: Shared)
    ensures RunFrom(s, []) == s
  {
  }

  /** One more move of a run. */
  lemma Then(s: Shared, moves: seq<Move>, move: Move) returns (longer: seq<Move>)
    ensures longer == moves + [move] && RunFrom(s, longer) == Step(RunFrom(s, moves), move)
  {
    longer := moves + [move];
    assert longer[..|longer| - 1] == moves;
  }

  lemma {:induction false} RunAppend(s: Shared, a: seq<Move>, b: seq<Move>)
    ensures RunFrom(s, a + b) == RunFrom(RunFrom(s, a), b)
  {
    if b == [] {
      assert a + b == a;
    } else {
      var n := |b| - 1;
      assert (a + b)[..|a| + n] == a + b[..n];
      RunAppend(s, a, b[..n]);
    }
  }

  /** While a request holds mutex_, no other request changes idChannels_ or frees the mutex, on any name. */
  lemma MutexExcludes(s: Shared, t: nat, known: bool)
    requires t < |s.threads| && s.locked && !s.threads[t].pc.Loaded?
    ensures Advance(s, t, known).installed == s.installed && Advance(s, t, known).locked
  {
    hide HasChannel, GetChannelId, GetChannelUsers, InsertChannel, InsertHistory, InsertSubscription;
  }

  // ---------- coherence ----------

  /** The name has one row, under an id of its own. */
  predicate Settled(t: Tables, name: string) {
    && name != "" && GetChannelId(t, name) != NO_ID
    && HasChannel(t, name) && GetChannelName(t, GetChannelId(t, name)) == name
  }

  /** A join past addUser and not past the INSERT. */
  predicate PendingAt(s: Shared, i: nat, id: Id, client: Id) {
    && i < |s.threads| && s.threads[i].kind == Joining(client)
    && (s.threads[i].pc.JoinId? || s.threads[i].pc.JoinHas? || s.threads[i].pc.JoinInsert?)
    && GetChannelId(s.db, s.threads[i].name) == id
  }

  ghost predicate Pending(s: Shared, id: Id, client: Id) {
    exists i: nat :: PendingAt(s, i, id, client)
  }

  /** An installed object holds exactly the distinct subscribers of its id and the clients with a pending join. */
  ghost predicate MembersCoherent(s: Shared) {
    && (forall id :: id in s.installed ==> s.installed[id] < |s.objs|)
    && (forall id, client :: id in s.installed ==>
          (client in s.objs[s.installed[id]].users <==> client in Members(s.db, id) || Pending(s, id, client)))
  }

  predicate ObjectsFiled(s: Shared) {
    forall id :: id in s.installed ==>
      && s.installed[id] < |s.objs| && s.objs[s.installed[id]].id == id
      && s.objs[s.installed[id]].name == GetChannelName(s.db, id)
  }

  /** What is known of a thread on a settled name. */
  ghost predicate ThreadOk(s: Shared, th: Thread) {
    var id := GetChannelId(s.db, th.name);
    && Settled(s.db, th.name)
    && match th.pc
       case AskHas => true
       case AskId => true
       case Lookup(i) => i == id
       case Loaded(i, users) => i == id && s.locked && id !in s.installed && users == Members(s.db, id)
       case Got(obj) => id in s.installed && s.installed[id] == obj
       case Adding(obj) => id in s.installed && s.installed[id] == obj && th.kind.Joining?
       case JoinId(obj) => id in s.installed && s.installed[id] == obj && th.kind.Joining?
       case JoinHas(obj, i) => i == id && id in s.installed && s.installed[id] == obj && th.kind.Joining?
       case JoinInsert(obj, i) => i == id && id in s.installed && s.installed[id] == obj && th.kind.Joining?
       case Visiting(obj) => id in s.installed && s.installed[id] == obj && th.kind.Sending?
       case Writing(obj, _) => id in s.installed && s.installed[id] == obj && th.kind.Sending?
       case Storing(obj, _) => id in s.installed && s.installed[id] == obj && th.kind.Sending?
       case Done(obj) => id in s.installed && s.installed[id] == obj
       case _ => false
  }

  ghost predicate ThreadsOk(s: Shared) {
    forall i :: 0 <= i < |s.threads| ==> ThreadOk(s, s.threads[i])
  }

  /** The mutex has at most one holder, and a held mutex has a holder. */
  predicate OneHolder(s: Shared) {
    && (forall i, j ::
          0 <= i < |s.threads| && 0 <= j < |s.threads| && s.threads[i].pc.Loaded? && s.threads[j].pc.Loaded? ==> i == j)
    && (s.locked ==> exists i :: 0 <= i < |s.threads| && s.threads[i].pc.Loaded?)
  }

  ghost predicate Inv(s: Shared) {
    MembersCoherent(s) && ObjectsFiled(s) && ThreadsOk(s) && OneHolder(s)
  }

  /** No request under way; every installed object is what its constructor would build. */
  ghost predicate Idle(s: Shared) {
    && s.threads == [] && !s.locked && ObjectsFiled(s)
    && forall id :: id in s.installed ==> s.objs[s.installed[id]].users == Members(s.db, id)
  }

  lemma IdleInv(s: Shared)
    requires Idle(s)
    ensures Inv(s)
  {
  }

  lemma IdleHasNoThreads(s: Shared)
    requires Idle(s)
    ensures s.threads == []
  {
  }

  /** The channel object a request has been given. */
  function GivenObject(pc: Pc): Option<nat> {
    match pc
    case Got(obj) => Some(obj)
    case Adding(obj) => Some(obj)
    case JoinId(obj) => Some(obj)
    case JoinHas(obj, _) => Some(obj)
    case JoinInsert(obj, _) => Some(obj)
    case Visiting(obj) => Some(obj)
    case Writing(obj, _) => Some(obj)
    case Storing(obj, _) => Some(obj)
    case Done(obj) => Some(obj)
    case _ => None
  }

  // ---------- each step keeps the invariant ----------

  predicate IsPendingPc(pc: Pc) { pc.JoinId? || pc.JoinHas? || pc.JoinInsert? }

  /** Moving one thread between points that are both pending joins or both not, without touching the mutex. */
  lemma QuietStep(s: Shared, t: nat, pc: Pc)
    requires Inv(s) && t < |s.threads|
    requires IsPendingPc(s.threads[t].pc) <==> IsPendingPc(pc)
    requires !s.threads[t].pc.Loaded? && !pc.Loaded?
    requires ThreadOk(s, s.threads[t].(pc := pc))
    ensures Inv(At(s, t, pc))
  {
    hide Members, GetChannelId, Settled, GetChannelName;
    var s' := At(s, t, pc);
    forall id, client ensures Pending(s', id, client) <==> Pending(s, id, client) {
      forall i: nat ensures PendingAt(s', i, id, client) <==> PendingAt(s, i, id, client) { }
    }
    forall i | 0 <= i < |s'.threads| ensures ThreadOk(s', s'.threads[i]) {
      assert ThreadOk(s, s'.threads[i]);
    }
    OneHolderKept(s, s');
  }

  lemma OneHolderKept(s: Shared, s': Shared)
    requires OneHolder(s) && s'.locked == s.locked && |s'.threads| == |s.threads|
    requires forall i :: 0 <= i < |s.threads| ==> (s.threads[i].pc.Loaded? <==> s'.threads[i].pc.Loaded?)
    ensures OneHolder(s')
  {
  }

  lemma BeginKeeps(s: Shared, kind: Kind, name: string)
    requires Inv(s) && Settled(s.db, name)
    ensures Inv(Step(s, Begin(kind, name)))
  {
    hide Members, GetChannelId, Settled, GetChannelName;
    var s' := Step(s, Begin(kind, name));
    forall id, client ensures Pending(s', id, client) <==> Pending(s, id, client) {
      forall i: nat ensures PendingAt(s', i, id, client) <==> PendingAt(s, i, id, client) { }
    }
    forall i | 0 <= i < |s'.threads| ensures ThreadOk(s', s'.threads[i]) {
      if i < |s.threads| { assert ThreadOk(s, s.threads[i]); }
    }
    assert forall i :: 0 <= i < |s.threads| ==> s'.threads[i] == s.threads[i];
    if s.locked {
      var i :| 0 <= i < |s.threads| && s.threads[i].pc.Loaded?;
      assert s'.threads[i].pc.Loaded?;
    }
  }

  /** Taking the mutex and reading the members of a channel that is not installed. */
  lemma LoadKeeps(s: Shared, t: nat, id: Id)
    requires Inv(s) && t < |s.threads| && s.threads[t].pc == Lookup(id) && !s.locked && id !in s.installed
    ensures Inv(At(s, t, Loaded(id, Elements(GetChannelUsers(s.db, id)))).(locked := true))
  {
    hide Members, GetChannelId, Settled, GetChannelName;
    ChannelUsersAreMembers(s.db, id);
    var s' := At(s, t, Loaded(id, Elements(GetChannelUsers(s.db, id)))).(locked := true);
    NoHolder(s);
    assert ThreadOk(s, s.threads[t]);
    forall i, client ensures Pending(s', i, client) <==> Pending(s, i, client) {
      forall k: nat ensures PendingAt(s', k, i, client) <==> PendingAt(s, k, i, client) { }
    }
    forall i | 0 <= i < |s'.threads| ensures ThreadOk(s', s'.threads[i]) {
      assert ThreadOk(s, s.threads[i]);
    }
    assert s'.threads[t].pc.Loaded?;
  }

  lemma NoHolder(s: Shared)
    requires ThreadsOk(s) && !s.locked
    ensures forall i :: 0 <= i < |s.threads| ==> !s.threads[i].pc.Loaded?
  {
    hide Members, GetChannelId, Settled;
    forall i | 0 <= i < |s.threads| ensures !s.threads[i].pc.Loaded? { assert ThreadOk(s, s.threads[i]); }
  }

  /** No join is pending on a channel that is not installed. */
  lemma PendingIsInstalled(s: Shared, id: Id, client: Id)
    requires ThreadsOk(s) && Pending(s, id, client)
    ensures id in s.installed
  {
    hide Members, GetChannelId, Settled;
    var i: nat :| PendingAt(s, i, id, client);
    assert ThreadOk(s, s.threads[i]);
  }

  /** The state after a loading thread installs its object. */
  function Installed(s: Shared, t: nat): Shared
    requires t < |s.threads| && s.threads[t].pc.Loaded?
  {
    var th, obj := s.threads[t], |s.objs|;
    s.(objs := s.objs + [ChannelObject(th.pc.id, th.name, th.pc.users)], installed := s.installed[th.pc.id := obj],
       locked := false, threads := s.threads[t := th.(pc := Got(obj))])
  }

  lemma InstalledObjects(s: Shared, t: nat)
    requires MembersCoherent(s) && ObjectsFiled(s) && t < |s.threads| && s.threads[t].pc.Loaded?
    requires var th := s.threads[t];
      && th.pc.id !in s.installed && th.pc.users == Members(s.db, th.pc.id) && GetChannelName(s.db, th.pc.id) == th.name
      && forall client :: !Pending(s, th.pc.id, client)
    ensures MembersCoherent(Installed(s, t)) && ObjectsFiled(Installed(s, t))
  {
    hide Members, GetChannelId, GetChannelName;
    var s' := Installed(s, t);
    forall i, client ensures Pending(s', i, client) <==> Pending(s, i, client) {
      forall k: nat ensures PendingAt(s', k, i, client) <==> PendingAt(s, k, i, client) { }
    }
    hide Pending;
  }

  lemma InstalledThreads(s: Shared, t: nat)
    requires ThreadsOk(s) && OneHolder(s) && t < |s.threads| && s.threads[t].pc.Loaded?
    requires s.threads[t].pc.id !in s.installed
    ensures ThreadsOk(Installed(s, t)) && OneHolder(Installed(s, t))
  {
    hide Members, GetChannelId, Settled;
    var s' := Installed(s, t);
    forall i | 0 <= i < |s'.threads| ensures ThreadOk(s', s'.threads[i]) && !s'.threads[i].pc.Loaded? {
      assert ThreadOk(s, s.threads[i]) && ThreadOk(s, s.threads[t]);
      if i != t { assert !s.threads[i].pc.Loaded?; }
    }
  }

  lemma LoadedFacts(s: Shared, t: nat)
    requires Inv(s) && t < |s.threads| && s.threads[t].pc.Loaded?
    ensures var th := s.threads[t];
      && th.pc.id !in s.installed && th.pc.users == Members(s.db, th.pc.id) && GetChannelName(s.db, th.pc.id) == th.name
      && forall client :: !Pending(s, th.pc.id, client)
  {
    assert ThreadOk(s, s.threads[t]);
    hide Members, GetChannelId, GetChannelName, Pending, ThreadOk;
    forall client ensures !Pending(s, s.threads[t].pc.id, client) {
      if Pending(s, s.threads[t].pc.id, client) { PendingIsInstalled(s, s.threads[t].pc.id, client); }
    }
  }

  /** Installing the object: its members were read while no join could be pending on it. */
  lemma InstallKeeps(s: Shared, t: nat)
    requires Inv(s) && t < |s.threads| && s.threads[t].pc.Loaded?
    ensures Inv(Installed(s, t))
  {
    hide MembersCoherent, ObjectsFiled, ThreadsOk, OneHolder, Members, GetChannelName, Pending;
    LoadedFacts(s, t);
    InstalledObjects(s, t);
    InstalledThreads(s, t);
  }

  lemma PendingBegins(s: Shared, t: nat, obj: nat, client: Id)
    requires t < |s.threads| && !IsPendingPc(s.threads[t].pc) && s.threads[t].kind == Joining(client)
    ensures var s' := At(s, t, JoinId(obj));
      var id := GetChannelId(s.db, s.threads[t].name);
      forall i, c :: Pending(s', i, c) <==> Pending(s, i, c) || (i == id && c == client)
  {
    hide GetChannelId;
    var s' := At(s, t, JoinId(obj));
    var id := GetChannelId(s.db, s.threads[t].name);
    assert PendingAt(s', t, id, client);
    forall i, c ensures Pending(s', i, c) <==> Pending(s, i, c) || (i == id && c == client) {
      forall k: nat ensures PendingAt(s', k, i, c) <==> PendingAt(s, k, i, c) || (k == t && i == id && c == client) { }
      if Pending(s, i, c) {
        var k: nat :| PendingAt(s, k, i, c);
        assert PendingAt(s', k, i, c);
      }
    }
  }

  /** What is known of a thread depends on the tables, the directory and the mutex alone. */
  lemma SameThreadOk(s: Shared, s': Shared, th: Thread)
    requires s'.db == s.db && s'.installed == s.installed && s'.locked == s.locked
    ensures ThreadOk(s', th) <==> ThreadOk(s, th)
  {
    hide Settled, Members;
  }

  lemma AddMembersCoherent(s: Shared, obj: nat, id: Id, client: Id, s': Shared)
    requires MembersCoherent(s) && ObjectsFiled(s) && obj < |s.objs| && id in s.installed && s.installed[id] == obj
    requires s'.db == s.db && s'.installed == s.installed && s'.objs == AddMember(s, obj, client).objs
    requires forall i, c :: Pending(s', i, c) <==> Pending(s, i, c) || (i == id && c == client)
    ensures MembersCoherent(s') && ObjectsFiled(s')
  {
    hide Members, Pending, GetChannelName;
    forall i | i in s.installed ensures s.installed[i] == obj <==> i == id { }
  }

  lemma ThreadReplaced(s: Shared, s': Shared, t: nat, th: Thread)
    requires ThreadsOk(s) && t < |s.threads| && s'.threads == s.threads[t := th] && ThreadOk(s, th)
    requires s'.db == s.db && s'.installed == s.installed && s'.locked == s.locked
    ensures ThreadsOk(s')
  {
    hide ThreadOk;
    forall i | 0 <= i < |s'.threads| ensures ThreadOk(s', s'.threads[i]) {
      assert ThreadOk(s, s.threads[i]);
      SameThreadOk(s, s', s'.threads[i]);
    }
  }

  /** A request past createOrGetChannelByName holds the installed object of its name. */
  lemma GivenIsInstalled(t: Tables, s: Shared, i: nat)
    requires Inv(s) && i < |s.threads| && GivenObject(s.threads[i].pc).Some? && t.channels == s.db.channels
    ensures var th := s.threads[i];
      var id, obj := GetChannelId(t, th.name), GivenObject(th.pc).value;
      && id in s.installed && s.installed[id] == obj && obj < |s.objs|
      && s.objs[obj].name == th.name && s.objs[obj].id == id
      && (th.pc.Adding? ==> th.kind.Joining? && ThreadOk(s, th.(pc := JoinId(obj))))
  {
    var th := s.threads[i];
    assert ThreadOk(s, th) && ObjectsFiled(s);
    hide Members, GetChannelId, GetChannelName, Inv;
    SameChannelTable(t, s.db, th.name, NO_ID);
  }

  /** addUser: the member appears in the object and as a pending join at once. */
  lemma AddKeeps(s: Shared, t: nat)
    requires Inv(s) && t < |s.threads| && s.threads[t].pc.Adding?
    ensures Inv(Advance(s, t, true)) && Advance(s, t, false) == Advance(s, t, true)
  {
    hide Members, GetChannelId, GetChannelName, Settled, Pending, PendingAt, MembersCoherent, ObjectsFiled, ThreadOk,
         ThreadsOk, OneHolder;
    GivenIsInstalled(s.db, s, t);
    var th := s.threads[t];
    var id, obj, client := GetChannelId(s.db, th.name), th.pc.obj, th.kind.client;
    var added := AddMember(s, obj, client);
    var s' := At(added, t, JoinId(obj));
    assert Advance(s, t, true) == s' == Advance(s, t, false);
    forall i, c ensures Pending(added, i, c) <==> Pending(s, i, c) { SamePendingAt(added, s, i, c); }
    PendingBegins(added, t, obj, client);
    AddMembersCoherent(s, obj, id, client, s');
    OneHolderKept(s, s');
    ThreadReplaced(s, s', t, th.(pc := JoinId(obj)));
  }

  lemma SamePendingAt(a: Shared, b: Shared, id: Id, client: Id)
    requires a.threads == b.threads && a.db == b.db
    ensures Pending(a, id, client) <==> Pending(b, id, client)
  {
    assert forall i: nat :: PendingAt(a, i, id, client) <==> PendingAt(b, i, id, client);
  }

  /** Tables that differ only in subscriptions and history show the same channels. */
  lemma SameChannelTable(t: Tables, t': Tables, name: string, id: Id)
    requires t'.channels == t.channels
    ensures GetChannelId(t', name) == GetChannelId(t, name)
    ensures GetChannelName(t', id) == GetChannelName(t, id)
    ensures Settled(t', name) <==> Settled(t, name)
  {
    assert ChannelsByName(t', name) == ChannelsByName(t, name);
    assert ChannelsById(t', id) == ChannelsById(t, id);
    var own := GetChannelId(t, name);
    assert ChannelsById(t', own) == ChannelsById(t, own);
  }

  lemma MembersAfterInsert(t: Tables, client: Id, channel: Id, id: Id)
    ensures Members(InsertSubscription(t, client, channel), id) ==
              Members(t, id) + if id == channel then {client} else {}
  {
    var t' := InsertSubscription(t, client, channel);
    var row := SubscriptionRow(client, channel);
    assert t'.subscriptions == t.subscriptions + [row];
    forall u ensures u in Members(t', id) <==> u in Members(t, id) || (id == channel && u == client) {
      assert u in Members(t, id) <==> SubscriptionRow(u, id) in t.subscriptions;
      assert u in Members(t', id) <==> SubscriptionRow(u, id) in t'.subscriptions;
    }
  }

  /** Threads, objects and pending joins look the same over tables with the same channels, up to what a loading
      thread has read. */
  lemma SameChannelsOk(s: Shared, db: Tables)
    requires ThreadsOk(s) && ObjectsFiled(s) && db.channels == s.db.channels
    requires forall i :: i !in s.installed ==> Members(db, i) == Members(s.db, i)
    ensures ThreadsOk(s.(db := db)) && ObjectsFiled(s.(db := db))
    ensures forall i: nat, id, c :: PendingAt(s.(db := db), i, id, c) <==> PendingAt(s, i, id, c)
  {
    hide Members, GetChannelId, GetChannelName, Settled;
    var s' := s.(db := db);
    forall name ensures GetChannelId(db, name) == GetChannelId(s.db, name) && (Settled(db, name) <==>
        Settled(s.db, name)) {
      SameChannelTable(s.db, db, name, NO_ID);
    }
    forall i ensures GetChannelName(db, i) == GetChannelName(s.db, i) { SameChannelTable(s.db, db, "", i); }
    forall i | 0 <= i < |s.threads| ensures ThreadOk(s', s'.threads[i]) { assert ThreadOk(s, s.threads[i]); }
  }

  lemma PendingEnds(s: Shared, t: nat, client: Id)
    requires t < |s.threads| && IsPendingPc(s.threads[t].pc) && s.threads[t].kind == Joining(client)
    ensures var s' := At(s, t, Done(s.threads[t].pc.obj));
      var id := GetChannelId(s.db, s.threads[t].name);
      forall i, c :: Pending(s', i, c) || (i == id && c == client) <==> Pending(s, i, c)
  {
    hide GetChannelId;
    var s' := At(s, t, Done(s.threads[t].pc.obj));
    var id := GetChannelId(s.db, s.threads[t].name);
    assert PendingAt(s, t, id, client);
    forall i, c ensures Pending(s', i, c) || (i == id && c == client) <==> Pending(s, i, c) {
      forall k: nat ensures PendingAt(s', k, i, c) <==> k != t && PendingAt(s, k, i, c) { }
      if Pending(s, i, c) {
        var k: nat :| PendingAt(s, k, i, c);
        assert k == t || PendingAt(s', k, i, c);
      }
    }
  }

  lemma PendingToDone(s: Shared, th: Thread)
    requires ThreadOk(s, th) && IsPendingPc(th.pc)
    ensures ThreadOk(s, th.(pc := Done(th.pc.obj))) && GetChannelId(s.db, th.name) in s.installed
  {
    hide Members, Settled;
  }

  lemma EndMembersCoherent(s: Shared, s': Shared, id: Id, client: Id)
    requires MembersCoherent(s) && s'.objs == s.objs && s'.installed == s.installed
    requires client in Members(s'.db, id)
    requires forall i :: Members(s'.db, i) == Members(s.db, i) + if i == id then {client} else {}
    requires forall i, c :: Pending(s', i, c) || (i == id && c == client) <==> Pending(s, i, c)
    ensures MembersCoherent(s')
  {
    hide Members, Pending;
    forall i, c | i in s'.installed
      ensures c in s'.objs[s'.installed[i]].users <==> c in Members(s'.db, i) || Pending(s', i, c)
    {
      assert Members(s'.db, i) == Members(s.db, i) + if i == id then {client} else {};
      assert c in Members(s'.db, i) <==> c in Members(s.db, i) || (i == id && c == client);
      assert Pending(s, i, c) <==> Pending(s', i, c) || (i == id && c == client);
    }
  }

  /** A join that ends, when its client is a subscriber in the new tables: the INSERT, or finding the row. */
  lemma JoinEnds(s: Shared, t: nat, db: Tables)
    requires Inv(s) && t < |s.threads| && IsPendingPc(s.threads[t].pc) && s.threads[t].kind.Joining?
    requires db.channels == s.db.channels
    requires var id, client := GetChannelId(s.db, s.threads[t].name), s.threads[t].kind.client;
      && client in Members(db, id)
      && forall i :: Members(db, i) == Members(s.db, i) + if i == id then {client} else {}
    ensures Inv(At(s, t, Done(s.threads[t].pc.obj)).(db := db))
  {
    hide Members, GetChannelId, GetChannelName, Settled, Pending, PendingAt, ThreadsOk, ThreadOk, ObjectsFiled,
         MembersCoherent;
    var th := s.threads[t];
    var id, client := GetChannelId(s.db, th.name), th.kind.client;
    var over := s.(db := db);
    var s' := At(over, t, Done(th.pc.obj));
    EveryThreadOk(s, t);
    PendingToDone(s, th);
    SameChannelsOk(s, db);
    forall i, c ensures Pending(over, i, c) <==> Pending(s, i, c) { SamePending(over, s, i, c); }
    SameChannelTable(s.db, db, th.name, id);
    PendingEnds(over, t, client);
    EndMembersCoherent(s, s', id, client);
    OneHolderKept(s, s');
    EveryThreadOk(over, t);
    PendingToDone(over, th);
    ThreadReplaced(over, s', t, th.(pc := Done(th.pc.obj)));
    SameFiled(over, s');
  }

  /** The INSERT of a message changes neither channels nor subscriptions. */
  lemma StoreKeeps(s: Shared, t: nat)
    requires Inv(s) && t < |s.threads| && s.threads[t].pc.Storing? && s.threads[t].kind.Sending?
    ensures Inv(Advance(s, t, true)) && Advance(s, t, true) == Advance(s, t, false)
    ensures Advance(s, t, true).db.channels == s.db.channels
  {
    hide Members, GetChannelId, GetChannelName, Settled, Pending, PendingAt, ThreadsOk, ThreadOk, ObjectsFiled,
         MembersCoherent, OneHolder, IsCalendarDate;
    var th := s.threads[t];
    var db := Advance(s, t, true).db;
    var over := s.(db := db);
    forall i ensures Members(db, i) == Members(s.db, i) { SameMembers(s.db, db, i); }
    SameChannelsOk(s, db);
    forall i, c ensures Pending(over, i, c) <==> Pending(s, i, c) { SamePending(over, s, i, c); }
    assert MembersCoherent(over) by { SameMembersCoherent(s, over); }
    assert OneHolder(over) by { OneHolderKept(s, over); }
    assert Inv(over);
    EveryThreadOk(over, t);
    StoringToDone(over, th);
    QuietStep(over, t, Done(th.pc.obj));
  }

  lemma SameMembers(t: Tables, t': Tables, id: Id)
    requires t'.subscriptions == t.subscriptions
    ensures Members(t', id) == Members(t, id)
  {
  }

  lemma SameMembersCoherent(s: Shared, s': Shared)
    requires MembersCoherent(s) && s'.objs == s.objs && s'.installed == s.installed
    requires forall i :: Members(s'.db, i) == Members(s.db, i)
    requires forall i, c :: Pending(s', i, c) <==> Pending(s, i, c)
    ensures MembersCoherent(s')
  {
    hide Members, Pending;
  }

  lemma StoringToDone(s: Shared, th: Thread)
    requires ThreadOk(s, th) && th.pc.Storing?
    ensures ThreadOk(s, th.(pc := Done(th.pc.obj)))
  {
    hide Members, Settled;
  }

  lemma EveryThreadOk(s: Shared, t: nat)
    requires ThreadsOk(s) && t < |s.threads|
    ensures ThreadOk(s, s.threads[t])
  {
    hide ThreadOk;
  }

  lemma SameFiled(s: Shared, s': Shared)
    requires ObjectsFiled(s) && s'.db == s.db && s'.installed == s.installed && s'.objs == s.objs
    ensures ObjectsFiled(s')
  {
  }

  lemma SamePending(a: Shared, b: Shared, id: Id, client: Id)
    requires forall i: nat :: PendingAt(a, i, id, client) <==> PendingAt(b, i, id, client)
    ensures Pending(a, id, client) <==> Pending(b, id, client)
  {
  }

  /** The steps of createOrGetChannelByName. */
  lemma OpeningKeeps(s: Shared, t: nat, known: bool)
    requires Inv(s) && t < |s.threads| && GivenObject(s.threads[t].pc).None?
    ensures Inv(Advance(s, t, known)) && Advance(s, t, known).db == s.db
  {
    hide Members, Inv, GetChannelId, GetChannelName, GetChannelUsers, Settled;
    var th := s.threads[t];
    InvThreadOk(s, t);
    SettledHas(s.db, th.name);
    hide HasChannel;
    match th.pc
    case AskHas => QuietStep(s, t, AskId);
    case AskId => QuietStep(s, t, Lookup(GetChannelId(s.db, th.name)));
    case Lookup(id) =>
      if !s.locked {
        if id in s.installed { QuietStep(s, t, Got(s.installed[id])); } else { LoadKeeps(s, t, id); }
      }
    case Loaded(id, users) =>
      InstallKeeps(s, t);
      assert Advance(s, t, known) == Installed(s, t);
  }

  lemma InvThreadOk(s: Shared, t: nat)
    requires Inv(s) && t < |s.threads|
    ensures ThreadOk(s, s.threads[t])
  {
    hide ThreadOk;
  }

  /** createOrGetChannelByName has returned. */
  lemma GotKeeps(s: Shared, t: nat, known: bool)
    requires Inv(s) && t < |s.threads| && s.threads[t].pc.Got?
    ensures Inv(Advance(s, t, known)) && Advance(s, t, known).db == s.db
  {
    hide Members, Inv, GetChannelId, Settled;
    InvThreadOk(s, t);
    QuietStep(s, t, Advance(s, t, known).threads[t].pc);
  }

  /** The steps of joinClientChannel. */
  lemma JoiningKeeps(s: Shared, t: nat, known: bool)
    requires Inv(s) && t < |s.threads| && IsPendingPc(s.threads[t].pc)
    ensures Inv(Advance(s, t, known)) && Advance(s, t, known).db.channels == s.db.channels
  {
    hide Members, Inv, GetChannelId, Settled, HasChannelClient;
    var th := s.threads[t];
    InvThreadOk(s, t);
    match th.pc
    case JoinId(obj) => QuietStep(s, t, JoinHas(obj, GetChannelId(s.db, th.name)));
    case JoinHas(obj, id) =>
      if HasChannelClient(s.db, id, th.kind.client) {
        SubscriberIsMember(s.db, th.kind.client, id);
        JoinEnds(s, t, s.db);
      } else {
        QuietStep(s, t, JoinInsert(obj, id));
      }
    case JoinInsert(obj, id) =>
      var db := InsertSubscription(s.db, th.kind.client, id);
      forall i ensures Members(db, i) == Members(s.db, i) + if i == id then {th.kind.client} else {} {
        MembersAfterInsert(s.db, th.kind.client, id, i);
      }
      JoinEnds(s, t, db);
  }

  /** The loop of write and the look-up of addMsgHistory. */
  lemma WritingKeeps(s: Shared, t: nat, known: bool)
    requires Inv(s) && t < |s.threads| && (s.threads[t].pc.Visiting? || s.threads[t].pc.Writing?)
    ensures Inv(Advance(s, t, known)) && Advance(s, t, known).db == s.db
  {
    hide Members, Inv, GetChannelId, GetClientId, Settled;
    var th := s.threads[t];
    InvThreadOk(s, t);
    GivenIsInstalled(s.db, s, t);
    if th.pc.Visiting? {
      QuietStep(s, t, Writing(th.pc.obj, s.objs[th.pc.obj].users));
    } else {
      QuietStep(s, t, Storing(th.pc.obj, GetClientId(s.db, th.kind.author)));
    }
  }

  lemma SenderStores(s: Shared, t: nat)
    requires Inv(s) && t < |s.threads| && s.threads[t].pc.Storing?
    ensures s.threads[t].kind.Sending?
  {
    hide Inv, Settled, Members, GetChannelId;
    InvThreadOk(s, t);
  }

  /** The steps after createOrGetChannelByName. */
  lemma AfterOpeningKeeps(s: Shared, t: nat, known: bool)
    requires Inv(s) && t < |s.threads| && GivenObject(s.threads[t].pc).Some?
    ensures Inv(Advance(s, t, known))
    ensures Advance(s, t, known).db.channels == s.db.channels
  {
    hide Inv;
    var pc := s.threads[t].pc;
    if pc.Got? { hide Advance; GotKeeps(s, t, known); }
    else if pc.Adding? { AddKeeps(s, t); hide Advance; AddingKeepsTables(s, t, known); }
    else if IsPendingPc(pc) { hide Advance; JoiningKeeps(s, t, known); }
    else if pc.Visiting? || pc.Writing? { hide Advance; WritingKeeps(s, t, known); }
    else if pc.Storing? { hide Advance; SenderStores(s, t); StoreKeeps(s, t); }
  }

  lemma AddingKeepsTables(s: Shared, t: nat, known: bool)
    requires t < |s.threads| && s.threads[t].pc.Adding?
    ensures Advance(s, t, known).db == s.db
  {
  }

  lemma AdvanceKeeps(s: Shared, t: nat, known: bool)
    requires Inv(s) && t < |s.threads|
    ensures Inv(Advance(s, t, known))
    ensures Advance(s, t, known).db.channels == s.db.channels
  {
    hide Inv, Advance;
    if GivenObject(s.threads[t].pc).None? { OpeningKeeps(s, t, known); } else { AfterOpeningKeeps(s, t, known); }
  }

  lemma SettledHas(t: Tables, name: string)
    requires Settled(t, name)
    ensures HasChannel(t, name) && !Refused(name, GetChannelId(t, name))
  {
  }

  lemma SubscriberIsMember(t: Tables, client: Id, id: Id)
    requires HasChannelClient(t, id, client)
    ensures client in Members(t, id)
    ensures forall i :: Members(t, i) == Members(t, i) + if i == id then {client} else {}
  {
    assert SubscriptionRow(client, id) in t.subscriptions;
  }

  // ---------- every interleaving ----------

  /** Every request begun names a channel that has its row already. */
  predicate NamesSettled(t: Tables, moves: seq<Move>) {
    forall m :: m in moves && m.Begin? ==> Settled(t, m.name)
  }

  lemma NamesSettledInit(t: Tables, a: seq<Move>, b: seq<Move>)
    requires NamesSettled(t, a + b)
    ensures NamesSettled(t, a)
  {
    hide Settled;
    assert forall m :: m in a ==> m in a + b;
  }

  /** Names stay settled while the channel rows stay. */
  lemma NamesSettledRest(t: Tables, t': Tables, a: seq<Move>, b: seq<Move>)
    requires NamesSettled(t, a + b) && t'.channels == t.channels
    ensures NamesSettled(t', b)
  {
    hide Settled;
    forall m | m in b && m.Begin? ensures Settled(t', m.name) {
      assert m in a + b;
      SameChannelTable(t, t', m.name, NO_ID);
    }
  }

  lemma {:induction false} RunKeeps(s: Shared, moves: seq<Move>)
    requires Inv(s) && NamesSettled(s.db, moves)
    ensures Inv(RunFrom(s, moves))
    ensures RunFrom(s, moves).db.channels == s.db.channels
  {
    if moves != [] {
      var n := |moves| - 1;
      var init, move := moves[..n], moves[n];
      assert move in moves && forall m :: m in init ==> m in moves;
      RunKeeps(s, init);
      var mid := RunFrom(s, init);
      hide Inv, RunFrom, Settled;
      match move
      case Begin(kind, name) =>
        SameChannelTable(s.db, mid.db, name, NO_ID);
        BeginKeeps(mid, kind, name);
      case Go(t, known) => if t < |mid.threads| { AdvanceKeeps(mid, t, known); }
    }
  }

  /** Coherence. Start with any installed channels that agree with the tables and let any number of joinRoom,
      sendText and getHistory requests interleave in any way, on names that already have their row. At every point
      an installed channel's members are exactly its distinct subscribers and the clients whose join is past
      addUser but not past the INSERT, and no join is pending on a channel that is not installed. */
  lemma CoherentInEveryInterleaving(s: Shared, moves: seq<Move>, id: Id, client: Id)
    requires Idle(s) && NamesSettled(s.db, moves)
    ensures var s' := RunFrom(s, moves);
      && (id in s'.installed ==>
            && s'.installed[id] < |s'.objs|
            && (client in s'.objs[s'.installed[id]].users <==> client in Members(s'.db, id) || Pending(s', id, client)))
      && (Pending(s', id, client) ==> id in s'.installed)
  {
    hide Members, Pending, RunFrom;
    IdleInv(s);
    RunKeeps(s, moves);
    var s' := RunFrom(s, moves);
    if Pending(s', id, client) { PendingIsInstalled(s', id, client); }
  }

  /** Once every request is over, each installed object is again what its constructor would build. */
  lemma {:induction false} AtRestExact(s: Shared, moves: seq<Move>, id: Id)
    requires Idle(s) && NamesSettled(s.db, moves)
    requires forall th :: th in RunFrom(s, moves).threads ==> th.pc.Done?
    requires id in RunFrom(s, moves).installed
    ensures var s' := RunFrom(s, moves);
      && s'.installed[id] < |s'.objs|
      && var o := s'.objs[s'.installed[id]];
      ChannelView(o.name, o.users) == Built(s'.db, GetChannelName(s'.db, id), id)
  {
    hide Members, RunFrom, GetChannelUsers, GetChannelId, GetChannelName;
    IdleInv(s);
    RunKeeps(s, moves);
    var s' := RunFrom(s, moves);
    ChannelUsersAreMembers(s'.db, id);
    forall client ensures !Pending(s', id, client) {
      forall i: nat | i < |s'.threads| ensures !PendingAt(s', i, id, client) { assert s'.threads[i] in s'.threads; }
    }
    assert s'.objs[s'.installed[id]].users == Members(s'.db, id);
  }

  // ---------- one object per channel ----------

  lemma AdvanceInstalls(s: Shared, t: nat, known: bool)
    requires Inv(s) && t < |s.threads|
    ensures Extends(s.installed, Advance(s, t, known).installed)
  {
    hide Inv, GetChannelId, GetChannelUsers, GetClientId, HasChannel, HasChannelClient, InsertHistory, InsertChannel;
    NoOverwrite(s, t);
  }

  lemma NoOverwrite(s: Shared, t: nat)
    requires Inv(s) && t < |s.threads|
    ensures !s.threads[t].pc.Overwrite?
    ensures s.threads[t].pc.Loaded? ==> s.threads[t].pc.id !in s.installed
  {
    hide Inv, Settled, Members, GetChannelId;
    InvThreadOk(s, t);
  }

  /** An entry of the directory is kept as it is. */
  predicate Extends(a: map<Id, nat>, b: map<Id, nat>) {
    forall id :: id in a ==> id in b && b[id] == a[id]
  }

  lemma StepInstalls(s: Shared, move: Move)
    requires Inv(s)
    ensures Extends(s.installed, Step(s, move).installed)
  {
    hide Inv, Advance;
    match move
    case Begin(_, _) =>
    case Go(t, known) => if t < |s.threads| { AdvanceInstalls(s, t, known); }
  }

  lemma {:induction false} NeverReplaced(s: Shared, moves: seq<Move>, more: seq<Move>)
    requires Inv(s) && NamesSettled(s.db, moves + more)
    ensures Extends(RunFrom(s, moves).installed, RunFrom(s, moves + more).installed)
  {
    hide Inv, RunFrom, Step;
    if more == [] {
      assert moves + more == moves;
    } else {
      var n := |more| - 1;
      var init := moves + more[..n];
      assert (moves + more)[..|moves| + n] == init;
      assert forall m :: m in init ==> m in moves + more;
      NeverReplaced(s, moves, more[..n]);
      RunKeeps(s, init);
      RunSnoc(s, moves + more);
      StepInstalls(RunFrom(s, init), more[n]);
    }
  }

  lemma RunSnoc(s: Shared, moves: seq<Move>)
    requires moves != []
    ensures RunFrom(s, moves) == Step(RunFrom(s, moves[..|moves| - 1]), moves[|moves| - 1])
  {
  }

  /** One object per channel. In every such interleaving two requests for the same name, at whatever times they are
      looked at, have been given the same channel object, and it carries that name and the id of its row. */
  lemma OneObjectPerChannel(s: Shared, moves: seq<Move>, more: seq<Move>, i: nat, j: nat)
    requires Idle(s) && NamesSettled(s.db, moves + more)
    requires i < |RunFrom(s, moves).threads| && j < |RunFrom(s, moves + more).threads|
    requires var a, b := RunFrom(s, moves).threads[i], RunFrom(s, moves + more).threads[j];
      a.name == b.name && GivenObject(a.pc).Some? && GivenObject(b.pc).Some?
    ensures var s' := RunFrom(s, moves + more);
      var a, b := RunFrom(s, moves).threads[i], s'.threads[j];
      && GivenObject(a.pc) == GivenObject(b.pc)
      && GivenObject(b.pc).value < |s'.objs|
      && s'.objs[GivenObject(b.pc).value].name == b.name
      && s'.objs[GivenObject(b.pc).value].id == GetChannelId(s.db, b.name)
  {
    hide RunFrom, Inv, Idle, Settled, GetChannelId;
    IdleInv(s);
    assert forall m :: m in moves ==> m in moves + more;
    RunKeeps(s, moves);
    RunKeeps(s, moves + more);
    NeverReplaced(s, moves, more);
    var before, after := RunFrom(s, moves), RunFrom(s, moves + more);
    GivenIsInstalled(s.db, before, i);
    GivenIsInstalled(s.db, after, j);
  }

  // ---------- what one step does ----------

  /** What one step of a thread does to itself. */
  lemma StepOfThread(s: Shared, t: nat, known: bool)
    requires t < |s.threads|
    ensures var s' := Advance(s, t, known);
      && s'.threads == s.threads[t := s'.threads[t]]
      && s'.threads[t].kind == s.threads[t].kind && s'.threads[t].name == s.threads[t].name
      && (s.threads[t].pc.Done? || s.threads[t].pc.Failed? ==> s' == s)
      && (s.threads[t].pc.JoinInsert? && s.threads[t].kind.Joining? ==> s'.threads[t].pc.Done?)
  {
    hide HasChannel, GetChannelId, GetClientId, GetChannelUsers, HasChannelClient, InsertSubscription, InsertChannel,
         InsertHistory;
    match s.threads[t].pc
    case Loaded(_, _) =>
    case Build(_) =>
    case Overwrite(_) =>
    case Adding(_) =>
    case JoinInsert(_, _) =>
    case Storing(_, _) =>
    case _ =>
  }

  /** What one step of a thread does to the subscriptions. */
  lemma StepOfSubscriptions(s: Shared, t: nat, known: bool)
    requires t < |s.threads|
    ensures var s', th := Advance(s, t, known), s.threads[t];
      if th.pc.JoinInsert? && th.kind.Joining?
      then s'.db == InsertSubscription(s.db, th.kind.client, th.pc.id)
      else s'.db.subscriptions == s.db.subscriptions
  {
    hide HasChannel, GetChannelId, GetClientId, GetChannelUsers, HasChannelClient, InsertSubscription, InsertChannel,
         InsertHistory;
    var th := s.threads[t];
    if th.pc.CreateInsert? { OtherInserts(s.db, th.name, NO_ID, DEFAULT_DATE, ""); }
    else if th.pc.Storing? && th.kind.Sending? {
      OtherInserts(s.db, th.name, th.pc.author, th.kind.date, th.kind.text);
    }
    else if th.pc.Adding? { AddingKeepsTables(s, t, known); }
  }

  lemma OtherInserts(t: Tables, name: string, author: Id, date: DateTime, text: string)
    ensures InsertChannel(t, name).subscriptions == t.subscriptions
    ensures InsertHistory(t, author, name, date, text).subscriptions == t.subscriptions
  {
  }

  /** Subscribers stay subscribers, and objects keep their members. */
  lemma StepGrows(s: Shared, t: nat, known: bool, id: Id)
    requires t < |s.threads|
    ensures Members(s.db, id) <= Members(Advance(s, t, known).db, id)
    ensures |s.objs| <= |Advance(s, t, known).objs|
    ensures forall j :: 0 <= j < |s.objs| ==> s.objs[j].users <= Advance(s, t, known).objs[j].users
  {
    hide Members, Advance, InsertSubscription;
    StepOfSubscriptions(s, t, known);
    var s', th := Advance(s, t, known), s.threads[t];
    if th.pc.JoinInsert? && th.kind.Joining? {
      MembersAfterInsert(s.db, th.kind.client, th.pc.id, id);
    } else {
      SameMembers(s.db, s'.db, id);
    }
    StepOfObjects(s, t, known);
  }

  lemma StepOfObjects(s: Shared, t: nat, known: bool)
    requires t < |s.threads|
    ensures |s.objs| <= |Advance(s, t, known).objs|
    ensures forall j :: 0 <= j < |s.objs| ==> s.objs[j].users <= Advance(s, t, known).objs[j].users
  {
    hide HasChannel, GetChannelId, GetClientId, GetChannelUsers, HasChannelClient, InsertSubscription, InsertChannel,
         InsertHistory;
    match s.threads[t].pc
    case Loaded(_, _) =>
    case Build(_) =>
    case Overwrite(_) =>
    case Adding(_) =>
    case _ =>
  }
}
