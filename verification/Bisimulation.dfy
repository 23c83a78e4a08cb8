/** Storage and the PostgreSQL tables answer alike, up to a renaming of ids. */
module Bisimulation {
  import opened Basics
  import opened Schema
  import opened InMemoryStorage
  import opened Recovery

  /** The operations both implementations complete. */
  datatype Op = Reg(login: string, password: string) | Auth(login: string, password: string)
              | Has(name: string) | Create(name: string)

  /** Has is answered 1 or 0; the others with an id or 0. */
  function PgStep(t: Tables, op: Op): (Tables, nat) {
    match op
    case Reg(login, password) => CheckRegUser(t, login, password)
    case Auth(login, password) => (t, CheckAuthUser(t, login, password))
    case Has(name) => (t, if HasChannel(t, name) then 1 else 0)
    case Create(name) => CreateChannel(t, name)
  }

  function MapStep(s: Maps, op: Op): (Maps, nat) {
    match op
    case Reg(login, password) => RegUser(s, login, password)
    case Auth(login, password) => (s, AuthUser(s, login, password))
    case Has(name) => (s, if KnowsChannel(s, name) then 1 else 0)
    case Create(name) => MakeChannel(s, name)
  }

  function PgRun(ops: seq<Op>): Tables {
    if ops == [] then EMPTY_TABLES else PgStep(PgRun(ops[..|ops| - 1]), ops[|ops| - 1]).0
  }

  function MapRun(ops: seq<Op>): Maps {
    if ops == [] then NO_MAPS else MapStep(MapRun(ops[..|ops| - 1]), ops[|ops| - 1]).0
  }

  function PgAnswer(ops: seq<Op>, i: nat): nat
    requires i < |ops|
  {
    PgStep(PgRun(ops[..i]), ops[i]).1
  }

  function MapAnswer(ops: seq<Op>, i: nat): nat
    requires i < |ops|
  {
    MapStep(MapRun(ops[..i]), ops[i]).1
  }

  predicate OnUsers(op: Op) { op.Reg? || op.Auth? }

  /** Both fail or both succeed at every operation, has-answers are equal, and the ids handed out by one side
      correspond one to one to those of the other, separately for users and for channels. */
  ghost predicate Alike(ops: seq<Op>) {
    && (forall i :: 0 <= i < |ops| ==> (PgAnswer(ops, i) == 0 <==> MapAnswer(ops, i) == 0))
    && (forall i :: 0 <= i < |ops| && ops[i].Has? ==> PgAnswer(ops, i) == MapAnswer(ops, i))
    && (forall i, j :: 0 <= i < |ops| && 0 <= j < |ops| && OnUsers(ops[i]) && OnUsers(ops[j]) ==>
          (PgAnswer(ops, i) == PgAnswer(ops, j) <==> MapAnswer(ops, i) == MapAnswer(ops, j)))
    && (forall i, j :: 0 <= i < |ops| && 0 <= j < |ops| && ops[i].Create? && ops[j].Create? ==>
          (PgAnswer(ops, i) == PgAnswer(ops, j) <==> MapAnswer(ops, i) == MapAnswer(ops, j)))
  }

  // ---------- related states ----------

  predicate HasLogin(t: Tables, login: string) { exists c :: c in t.clients && c.login == login }

  predicate HasName(t: Tables, name: string) { exists c :: c in t.channels && c.name == name }

  predicate UsersRelated(t: Tables, s: Maps) {
    && (forall c :: c in t.clients ==>
          && c.login in s.userIds && s.userIds[c.login] in s.settings
          && s.settings[s.userIds[c.login]] == InputSettings(c.login, c.password))
    && (forall login :: login in s.userIds ==> HasLogin(t, login))
  }

  predicate ChannelsRelated(t: Tables, s: Maps) {
    && (forall c :: c in t.channels ==> c.name in s.channelIds)
    && (forall name :: name in s.channelIds ==> HasName(t, name))
  }

  predicate Related(t: Tables, s: Maps) {
    && ClientsSound(t) && ChannelsSound(t) && Consistent(s)
    && UsersRelated(t, s) && ChannelsRelated(t, s)
  }

  /** The operation inserts nothing that the columns refuse. */
  predicate Accepted(s: Maps, op: Op) {
    match op
    case Reg(login, password) => login in s.userIds || (FitsName(login) && FitsName(password))
    case Create(name) => name in s.channelIds || FitsName(name)
    case _ => true
  }

  /** A user id answered by both sides names the same login. */
  ghost predicate SameUser(t: Tables, s: Maps, pg: nat, mem: nat) {
    exists c :: c in t.clients && c.id == pg && c.login in s.userIds && s.userIds[c.login] == mem
  }

  ghost predicate SameChannel(t: Tables, s: Maps, pg: nat, mem: nat) {
    exists c :: c in t.channels && c.id == pg && c.name in s.channelIds && s.channelIds[c.name] == mem
  }

  lemma RegStep(t: Tables, s: Maps, login: string, password: string)
    requires Related(t, s)
    ensures var op := Reg(login, password);
      var (t', pg) := PgStep(t, op);
      var (s', mem) := MapStep(s, op);
      && (Accepted(s, op) <==> (pg == 0 <==> mem == 0))
      && (Accepted(s, op) ==> Related(t', s') && (pg != 0 ==> SameUser(t', s', pg, mem)))
  {
    Registered(t, login, password);
    ClientIdFound(t, login);
    if GetClientId(t, login) == NO_ID { NewLogin(t, s, login); }
    if GetClientId(t, login) == NO_ID && FitsName(login) && FitsName(password) {
      RegisteredRelated(t, s, login, password);
    } else if GetClientId(t, login) != NO_ID {
      var c :| c in t.clients && c.login == login && c.id == GetClientId(t, login);
      assert login in s.userIds;
    }
  }

  lemma RegisteredRelated(t: Tables, s: Maps, login: string, password: string)
    requires Related(t, s) && GetClientId(t, login) == NO_ID && FitsName(login) && FitsName(password)
    ensures login !in s.userIds
    ensures Related(InsertClient(t, login, password), RegUser(s, login, password).0)
    ensures SameUser(InsertClient(t, login, password), RegUser(s, login, password).0, t.nextClient, s.counter + 1)
  {
    hide GetChannelId, GetClientId, HasName, UsersRelated, ChannelsSound, ClientsSound, Consistent;
    var t', s' := InsertClient(t, login, password), RegUser(s, login, password).0;
    NewLogin(t, s, login);
    assert ClientRow(t.nextClient, login, password) in t'.clients;
    ClientRowAdded(t, login, password);
    NewUserRelated(t, s, login, password);
    SameRowsRelated(t, t', s, s');
    NewUserConsistent(s, login, password);
  }

  lemma NewLogin(t: Tables, s: Maps, login: string)
    requires ClientsSound(t) && UsersRelated(t, s) && GetClientId(t, login) == NO_ID
    ensures login !in s.userIds && !HasLogin(t, login)
  {
    hide GetClientId;
    ClientIdFound(t, login);
  }

  lemma NewUserRelated(t: Tables, s: Maps, login: string, password: string)
    requires UsersRelated(t, s) && Consistent(s) && login !in s.userIds && !HasLogin(t, login)
    requires FitsName(login) && FitsName(password)
    ensures UsersRelated(InsertClient(t, login, password), RegUser(s, login, password).0)
  {
    var t', s' := InsertClient(t, login, password), RegUser(s, login, password).0;
    var row := ClientRow(t.nextClient, login, password);
    assert t'.clients == t.clients + [row] && row in t'.clients;
    assert forall c :: c in t.clients ==> c in t'.clients && c.login != login && s.userIds[c.login] <= s.counter;
    forall other | other in s'.userIds ensures HasLogin(t', other) {
      if other == login {
        assert row in t'.clients && row.login == other;
      } else {
        var c :| c in t.clients && c.login == other;
        assert c in t'.clients;
      }
    }
  }

  lemma NewUserConsistent(s: Maps, login: string, password: string)
    requires Consistent(s)
    ensures Consistent(RegUser(s, login, password).0)
  {
  }

  /** The channel side does not notice new users, nor the user side new channels. */
  lemma SameRowsRelated(t: Tables, t': Tables, s: Maps, s': Maps)
    ensures t'.channels == t.channels && t'.nextChannel == t.nextChannel && s'.channelIds == s.channelIds ==>
              (ChannelsRelated(t, s) ==> ChannelsRelated(t', s')) && (ChannelsSound(t) ==> ChannelsSound(t'))
    ensures t'.clients == t.clients && t'.nextClient == t.nextClient ==>
              s'.userIds == s.userIds && s'.settings == s.settings ==>
              (UsersRelated(t, s) ==> UsersRelated(t', s')) && (ClientsSound(t) ==> ClientsSound(t'))
  {
  }

  lemma AuthStep(t: Tables, s: Maps, login: string, password: string)
    requires Related(t, s)
    ensures var pg, mem := CheckAuthUser(t, login, password), AuthUser(s, login, password);
      (pg == 0 <==> mem == 0) && (pg != 0 ==> SameUser(t, s, pg, mem))
  {
    hide CheckAuthUser, GetClientId;
    Authorised(t, login, password);
    ClientIdFound(t, login);
    var pg := CheckAuthUser(t, login, password);
    if pg != 0 {
      assert ClientRow(pg, login, password) in t.clients;
    } else if login in s.userIds {
      var c :| c in t.clients && c.login == login && c.id == GetClientId(t, login);
    }
  }

  lemma CreateStep(t: Tables, s: Maps, name: string)
    requires Related(t, s)
    ensures var op := Create(name);
      var (t', pg) := PgStep(t, op);
      var (s', mem) := MapStep(s, op);
      && (Accepted(s, op) <==> (pg == 0 <==> mem == 0))
      && (Accepted(s, op) ==> Related(t', s') && (pg != 0 ==> SameChannel(t', s', pg, mem)))
  {
    hide GetClientId, GetChannelId, UsersRelated, ClientsSound;
    ChannelIdFound(t, name);
    if GetChannelId(t, name) != NO_ID {
      assert ChannelRow(GetChannelId(t, name), name) in t.channels;
    } else {
      NewName(t, s, name);
      if FitsName(name) { CreatedRelated(t, s, name); }
    }
  }

  lemma NewName(t: Tables, s: Maps, name: string)
    requires ChannelsSound(t) && ChannelsRelated(t, s) && GetChannelId(t, name) == NO_ID
    ensures name !in s.channelIds && !HasName(t, name)
  {
    hide GetChannelId;
    ChannelIdFound(t, name);
  }

  lemma CreatedRelated(t: Tables, s: Maps, name: string)
    requires Related(t, s) && GetChannelId(t, name) == NO_ID && FitsName(name)
    ensures name !in s.channelIds && GetChannelId(InsertChannel(t, name), name) == t.nextChannel
    ensures Related(InsertChannel(t, name), MakeChannel(s, name).0)
    ensures SameChannel(InsertChannel(t, name), MakeChannel(s, name).0, t.nextChannel, s.counter + 1)
  {
    hide GetClientId, GetChannelId, HasLogin, UsersRelated, ClientsSound, Consistent;
    var t', s' := InsertChannel(t, name), MakeChannel(s, name).0;
    var row := ChannelRow(t.nextChannel, name);
    assert t'.channels == t.channels + [row] && row in t'.channels;
    NewName(t, s, name);
    assert ChannelsSound(t') by { assert forall c :: c in t.channels ==> c.name != name; }
    ChannelByName(t', row);
    NewChannelRelated(t, s, name);
    SameRowsRelated(t, t', s, s');
    NewChannelConsistent(s, name);
  }

  lemma NewChannelRelated(t: Tables, s: Maps, name: string)
    requires ChannelsRelated(t, s) && name !in s.channelIds && FitsName(name)
    ensures ChannelsRelated(InsertChannel(t, name), MakeChannel(s, name).0)
  {
    var t', s' := InsertChannel(t, name), MakeChannel(s, name).0;
    var row := ChannelRow(t.nextChannel, name);
    assert t'.channels == t.channels + [row] && row in t'.channels;
    forall other | other in s'.channelIds ensures HasName(t', other) {
      if other == name {
        assert row in t'.channels && row.name == other;
      } else {
        var c :| c in t.channels && c.name == other;
        assert c in t'.channels;
      }
    }
  }

  lemma NewChannelConsistent(s: Maps, name: string)
    requires Consistent(s)
    ensures Consistent(MakeChannel(s, name).0)
  {
  }

  /** One operation from related states: both sides agree on success exactly when it is accepted, and then the
      states stay related and the ids handed out name the same account or channel. */
  lemma StepAlike(t: Tables, s: Maps, op: Op)
    requires Related(t, s)
    ensures var (t', pg) := PgStep(t, op);
      var (s', mem) := MapStep(s, op);
      && (Accepted(s, op) <==> (pg == 0 <==> mem == 0))
      && (Accepted(s, op) ==> Related(t', s'))
      && (Accepted(s, op) && pg != 0 && OnUsers(op) ==> SameUser(t', s', pg, mem))
      && (Accepted(s, op) && pg != 0 && op.Create? ==> SameChannel(t', s', pg, mem))
      && (op.Has? ==> pg == mem)
  {
    hide CheckRegUser, CheckAuthUser, CreateChannel, RegUser, AuthUser, MakeChannel, Related, SameUser, SameChannel,
         HasChannel;
    match op
    case Reg(login, password) => RegStep(t, s, login, password);
    case Auth(login, password) => AuthStep(t, s, login, password);
    case Has(name) => HasStep(t, s, name);
    case Create(name) => CreateStep(t, s, name);
  }

  lemma HasStep(t: Tables, s: Maps, name: string)
    requires Related(t, s)
    ensures HasChannel(t, name) <==> KnowsChannel(s, name)
  {
    ChannelIdFound(t, name);
  }

  // ---------- whole sequences ----------

  /** No registration or creation inserts an over-long string: a created name fits, a registered login fits, and
      the password of the first registration of a login fits. */
  ghost predicate AllFit(ops: seq<Op>) {
    forall i :: 0 <= i < |ops| ==> FitsAt(ops, i)
  }

  ghost predicate FitsAt(ops: seq<Op>, i: nat)
    requires i < |ops|
  {
    match ops[i]
    case Reg(login, password) => FitsName(login) && (FitsName(password) || RegBefore(ops, i, login))
    case Create(name) => FitsName(name)
    case _ => true
  }

  ghost predicate RegBefore(ops: seq<Op>, i: nat, login: string)
    requires i <= |ops|
  {
    exists j :: 0 <= j < i && ops[j].Reg? && ops[j].login == login
  }

  ghost predicate CreatedBefore(ops: seq<Op>, i: nat, name: string)
    requires i <= |ops|
  {
    exists j :: 0 <= j < i && ops[j].Create? && ops[j].name == name
  }

  /** Storage knows exactly the logins and names that were given to it. */
  lemma {:induction false} MapKeys(ops: seq<Op>, text: string)
    ensures text in MapRun(ops).userIds <==> RegBefore(ops, |ops|, text)
    ensures text in MapRun(ops).channelIds <==> CreatedBefore(ops, |ops|, text)
  {
    if ops != [] {
      var n := |ops| - 1;
      var init, op := ops[..n], ops[n];
      MapKeys(init, text);
      PrefixFacts(ops, n, text);
      assert RegBefore(ops, n + 1, text) <==> RegBefore(ops, n, text) || (op.Reg? && op.login == text);
      assert CreatedBefore(ops, n + 1, text) <==> CreatedBefore(ops, n, text) || (op.Create? && op.name == text);
    }
  }

  lemma PrefixFacts(ops: seq<Op>, n: nat, text: string)
    requires n <= |ops|
    ensures RegBefore(ops[..n], n, text) <==> RegBefore(ops, n, text)
    ensures CreatedBefore(ops[..n], n, text) <==> CreatedBefore(ops, n, text)
  {
    assert forall j :: 0 <= j < n ==> ops[..n][j] == ops[j];
  }

  lemma AcceptedAt(ops: seq<Op>, i: nat)
    requires i < |ops| && forall j :: 0 <= j < i ==> FitsAt(ops, j)
    ensures Accepted(MapRun(ops[..i]), ops[i]) <==> FitsAt(ops, i)
  {
    hide MapRun;
    var text :=
      match ops[i]
      case Reg(login, _) => login
      case Auth(login, _) => login
      case Has(name) => name
      case Create(name) => name;
    MapKeys(ops[..i], text);
    PrefixFacts(ops, i, text);
    if RegBefore(ops, i, text) {
      var j :| 0 <= j < i && ops[j].Reg? && ops[j].login == text;
      assert FitsAt(ops, j);
    }
    if CreatedBefore(ops, i, text) {
      var j :| 0 <= j < i && ops[j].Create? && ops[j].name == text;
      assert FitsAt(ops, j);
    }
  }

  lemma {:induction false} RunsRelated(ops: seq<Op>)
    requires AllFit(ops)
    ensures Related(PgRun(ops), MapRun(ops))
  {
    if ops != [] {
      hide PgStep, MapStep;
      var n := |ops| - 1;
      AllFitPrefix(ops, n);
      RunsRelated(ops[..n]);
      AcceptedAt(ops, n);
      StepAlike(PgRun(ops[..n]), MapRun(ops[..n]), ops[n]);
    }
  }

  lemma AllFitPrefix(ops: seq<Op>, n: nat)
    requires n <= |ops| && forall j :: 0 <= j < n ==> FitsAt(ops, j)
    ensures AllFit(ops[..n])
  {
    forall i | 0 <= i < n ensures FitsAt(ops[..n], i) {
      assert FitsAt(ops, i);
      if ops[i].Reg? {
        PrefixFacts(ops, i, ops[i].login);
        PrefixFacts(ops[..n], i, ops[i].login);
        assert ops[..n][..i] == ops[..i];
      }
    }
  }

  /** Rows and map entries are never changed or removed. */
  lemma OnlyGrows(t: Tables, s: Maps, op: Op)
    ensures t.clients <= PgStep(t, op).0.clients && t.channels <= PgStep(t, op).0.channels
    ensures forall login :: login in s.userIds ==>
              login in MapStep(s, op).0.userIds && MapStep(s, op).0.userIds[login] == s.userIds[login]
    ensures forall name :: name in s.channelIds ==>
              name in MapStep(s, op).0.channelIds && MapStep(s, op).0.channelIds[name] == s.channelIds[name]
  {
    hide GetClientId, GetChannelId, CheckAuthUser, HasChannel;
  }

  lemma {:induction false} AnswersNameSame(ops: seq<Op>, i: nat)
    requires AllFit(ops) && i < |ops| && PgAnswer(ops, i) != 0
    ensures OnUsers(ops[i]) ==> SameUser(PgRun(ops), MapRun(ops), PgAnswer(ops, i), MapAnswer(ops, i))
    ensures ops[i].Create? ==> SameChannel(PgRun(ops), MapRun(ops), PgAnswer(ops, i), MapAnswer(ops, i))
  {
    hide PgStep, MapStep, Related;
    var n := |ops| - 1;
    var init := ops[..n];
    AllFitPrefix(ops, n);
    RunsRelated(init);
    if i == n {
      AcceptedAt(ops, n);
      StepAlike(PgRun(init), MapRun(init), ops[n]);
    } else {
      assert init[..i] == ops[..i];
      AnswersNameSame(init, i);
      OnlyGrows(PgRun(init), MapRun(init), ops[n]);
      StillSame(PgRun(init), PgRun(ops), MapRun(init), MapRun(ops), PgAnswer(ops, i), MapAnswer(ops, i));
    }
  }

  lemma StillSame(t: Tables, t': Tables, s: Maps, s': Maps, pg: nat, mem: nat)
    requires t.clients <= t'.clients && t.channels <= t'.channels
    requires forall login :: login in s.userIds ==> login in s'.userIds && s'.userIds[login] == s.userIds[login]
    requires forall name :: name in s.channelIds ==> name in s'.channelIds && s'.channelIds[name] == s.channelIds[name]
    ensures SameUser(t, s, pg, mem) ==> SameUser(t', s', pg, mem)
    ensures SameChannel(t, s, pg, mem) ==> SameChannel(t', s', pg, mem)
  {
    assert forall c :: c in t.clients ==> c in t'.clients;
    assert forall c :: c in t.channels ==> c in t'.channels;
  }

  /** In related states the correspondence of ids is one to one. */
  lemma OneToOne(t: Tables, s: Maps, a: nat, x: nat, b: nat, y: nat)
    requires Related(t, s)
    ensures SameUser(t, s, a, x) && SameUser(t, s, b, y) ==> (a == b <==> x == y)
    ensures SameChannel(t, s, a, x) && SameChannel(t, s, b, y) ==> (a == b <==> x == y)
  {
    hide GetClientId, GetChannelId;
    if SameUser(t, s, a, x) && SameUser(t, s, b, y) {
      var c :| c in t.clients && c.id == a && c.login in s.userIds && s.userIds[c.login] == x;
      var d :| d in t.clients && d.id == b && d.login in s.userIds && s.userIds[d.login] == y;
      ClientById(t, c);
      ClientById(t, d);
      ClientByLogin(t, c);
      ClientByLogin(t, d);
    }
    if SameChannel(t, s, a, x) && SameChannel(t, s, b, y) {
      var c :| c in t.channels && c.id == a && c.name in s.channelIds && s.channelIds[c.name] == x;
      var d :| d in t.channels && d.id == b && d.name in s.channelIds && s.channelIds[d.name] == y;
      if c.id == d.id { ChannelRowUnique(t, c, d); }
      if c.name == d.name { ChannelByName(t, c); ChannelByName(t, d); }
    }
  }

  lemma FitImpliesAlike(ops: seq<Op>)
    requires AllFit(ops)
    ensures Alike(ops)
  {
    hide PgStep, MapStep, Related, SameUser, SameChannel, PgRun, MapRun;
    forall i | 0 <= i < |ops|
      ensures PgAnswer(ops, i) == 0 <==> MapAnswer(ops, i) == 0
      ensures ops[i].Has? ==> PgAnswer(ops, i) == MapAnswer(ops, i)
    {
      AllFitPrefix(ops, i);
      RunsRelated(ops[..i]);
      AcceptedAt(ops, i);
      StepAlike(PgRun(ops[..i]), MapRun(ops[..i]), ops[i]);
    }
    RunsRelated(ops);
    forall i, j | 0 <= i < |ops| && 0 <= j < |ops| &&
        ((OnUsers(ops[i]) && OnUsers(ops[j])) || (ops[i].Create? && ops[j].Create?))
      ensures PgAnswer(ops, i) == PgAnswer(ops, j) <==> MapAnswer(ops, i) == MapAnswer(ops, j)
    {
      if PgAnswer(ops, i) != 0 && PgAnswer(ops, j) != 0 {
        AnswersNameSame(ops, i);
        AnswersNameSame(ops, j);
        OneToOne(PgRun(ops), MapRun(ops), PgAnswer(ops, i), MapAnswer(ops, i), PgAnswer(ops, j), MapAnswer(ops, j));
      }
    }
  }

  lemma {:induction false} FirstMisfit(ops: seq<Op>, n: nat) returns (i: nat)
    requires n < |ops| && !FitsAt(ops, n)
    ensures i <= n && !FitsAt(ops, i) && forall j :: 0 <= j < i ==> FitsAt(ops, j)
  {
    if k: nat :| k < n && !FitsAt(ops, k) {
      i := FirstMisfit(ops, k);
    } else {
      i := n;
    }
  }

  /** Bisimulation. On any sequence of registrations, authorisations, channel look-ups and channel creations the
      tables and Storage answer alike, up to a one-to-one renaming of ids, if and only if no registration or
      creation inserts a string that is too long for its column. */
  lemma AnswersAlike(ops: seq<Op>)
    ensures Alike(ops) <==> AllFit(ops)
  {
    hide PgStep, MapStep, Related, PgRun, MapRun;
    if AllFit(ops) {
      FitImpliesAlike(ops);
    } else {
      var n :| 0 <= n < |ops| && !FitsAt(ops, n);
      var i := FirstMisfit(ops, n);
      AllFitPrefix(ops, i);
      RunsRelated(ops[..i]);
      AcceptedAt(ops, i);
      StepAlike(PgRun(ops[..i]), MapRun(ops[..i]), ops[i]);
      assert !(PgAnswer(ops, i) == 0 <==> MapAnswer(ops, i) == 0);
    }
  }

  /** The shortest disagreement: a channel name too long for its column. */
  lemma LongNameDiffers(name: string)
    requires |name| > NAME_LIMIT
    ensures !Alike([Create(name)])
    ensures PgAnswer([Create(name)], 0) == 0 && MapAnswer([Create(name)], 0) != 0
  {
    hide Alike;
    assert !FitsAt([Create(name)], 0);
    AnswersAlike([Create(name)]);
    assert [Create(name)][..0] == [];
    assert PgRun([]) == EMPTY_TABLES && MapRun([]) == NO_MAPS;
  }
}
