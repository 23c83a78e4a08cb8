/** The four relational tables and the statements issued against them, one atomic operation each. */
module Schema {
  import opened Basics
  import opened DateText

  const NAME_LIMIT := 32    // varchar(32)
  const TEXT_LIMIT := 255   // varchar(255)

  datatype ClientRow = ClientRow(id: Id, login: string, password: string)
  datatype ChannelRow = ChannelRow(id: Id, name: string)
  datatype HistoryRow = HistoryRow(client: Id, channel: string, stamp: string, text: string)
  datatype SubscriptionRow = SubscriptionRow(client: Id, channel: Id)

  /** The serial columns draw from nextClient and nextChannel. */
  datatype Tables = Tables(
    clients: seq<ClientRow>,
    channels: seq<ChannelRow>,
    history: seq<HistoryRow>,
    subscriptions: seq<SubscriptionRow>,
    nextClient: Id,
    nextChannel: Id)

  const EMPTY_TABLES := Tables([], [], [], [], 1, 1)

  datatype TextMsg = TextMsg(author: string, text: string, channel: string, date: DateTime)

  predicate FitsName(s: string) { |s| <= NAME_LIMIT }

  predicate FitsText(s: string) { |s| <= TEXT_LIMIT }

  lemma ColumnLimits(s: string)
    ensures FitsName(s) <==> |s| <= 32
    ensures FitsText(s) <==> |s| <= 255
  {
  }

  // ---------- single statements ----------

  function ClientsByLogin(t: Tables, login: string): seq<ClientRow> {
    Where(t.clients, (c: ClientRow) => c.login == login)
  }

  function ClientsById(t: Tables, id: Id): seq<ClientRow> {
    Where(t.clients, (c: ClientRow) => c.id == id)
  }

  function ChannelsByName(t: Tables, name: string): seq<ChannelRow> {
    Where(t.channels, (c: ChannelRow) => c.name == name)
  }

  function ChannelsById(t: Tables, id: Id): seq<ChannelRow> {
    Where(t.channels, (c: ChannelRow) => c.id == id)
  }

  function HistoryOf(t: Tables, channel: string): seq<HistoryRow> {
    Where(t.history, (h: HistoryRow) => h.channel == channel)
  }

  function HistoryBy(t: Tables, client: Id): seq<HistoryRow> {
    Where(t.history, (h: HistoryRow) => h.client == client)
  }

  function SubscriptionsOf(t: Tables, channel: Id): seq<SubscriptionRow> {
    Where(t.subscriptions, (s: SubscriptionRow) => s.channel == channel)
  }

  function InsertClient(t: Tables, login: string, password: string): Tables {
    if FitsName(login) && FitsName(password)
    then t.(clients := t.clients + [ClientRow(t.nextClient, login, password)], nextClient := t.nextClient + 1)
    else t
  }

  function InsertChannel(t: Tables, name: string): Tables {
    if FitsName(name)
    then t.(channels := t.channels + [ChannelRow(t.nextChannel, name)], nextChannel := t.nextChannel + 1)
    else t
  }

  /** The row is refused for an unknown client, an over-long name or text, or an impossible date. */
  function InsertHistory(t: Tables, client: Id, channel: string, date: DateTime, text: string): Tables {
    if ClientsById(t, client) != [] && FitsName(channel) && FitsText(text) && IsCalendarDate(date)
    then t.(history := t.history + [HistoryRow(client, channel, Print(date), text)])
    else t
  }

  function InsertSubscription(t: Tables, client: Id, channel: Id): Tables {
    t.(subscriptions := t.subscriptions + [SubscriptionRow(client, channel)])
  }

  // ---------- the database interface ----------

  function GetClientId(t: Tables, login: string): Id {
    var r := ClientsByLogin(t, login);
    if r != [] then r[0].id else NO_ID
  }

  function GetClientName(t: Tables, id: Id): string {
    var r := ClientsById(t, id);
    if r != [] then r[0].login else ""
  }

  function GetChannelId(t: Tables, name: string): Id {
    var r := ChannelsByName(t, name);
    if r != [] then r[0].id else NO_ID
  }

  function GetChannelName(t: Tables, id: Id): string {
    var r := ChannelsById(t, id);
    if r != [] then r[0].name else ""
  }

  predicate HasChannel(t: Tables, name: string) { ChannelsByName(t, name) != [] }

  function CheckRegUser(t: Tables, login: string, password: string): (Tables, Id) {
    if GetClientId(t, login) == NO_ID then
      var t' := InsertClient(t, login, password);
      (t', GetClientId(t', login))
    else (t, NO_ID)
  }

  function CheckAuthUser(t: Tables, login: string, password: string): Id {
    var r := ClientsByLogin(t, login);
    if r != [] && r[0].password == password then r[0].id else NO_ID
  }

  function CreateChannel(t: Tables, name: string): (Tables, Id) {
    if GetChannelId(t, name) == NO_ID then
      var t' := InsertChannel(t, name);
      (t', GetChannelId(t', name))
    else (t, GetChannelId(t, name))
  }

  predicate HasChannelClient(t: Tables, channel: Id, client: Id) {
    SubscriptionRow(client, channel) in t.subscriptions
  }

  function JoinClientChannel(t: Tables, client: Id, name: string): Tables {
    var channel := GetChannelId(t, name);
    if HasChannelClient(t, channel, client) then t else InsertSubscription(t, client, channel)
  }

  function AddMsgHistory(t: Tables, m: TextMsg): Tables {
    InsertHistory(t, GetClientId(t, m.author), m.channel, m.date, m.text)
  }

  /** A stamp that get_time cannot read leaves struct tm unset; the zero date stands for that. */
  function ReadStamp(stamp: string): DateTime {
    match Parse(stamp)
    case Some(d) => d
    case None => DateTime(0, 0, 0, 0, 0, 0)
  }

  function ToMsg(t: Tables, channel: string, h: HistoryRow): TextMsg {
    TextMsg(GetClientName(t, h.client), h.text, channel, ReadStamp(h.stamp))
  }

  function GetHistory(t: Tables, channel: Id): seq<TextMsg> {
    var name := GetChannelName(t, channel);
    Column(HistoryOf(t, name), (h: HistoryRow) => ToMsg(t, name, h))
  }

  function GetChannelUsers(t: Tables, channel: Id): seq<Id> {
    Distinct(Column(SubscriptionsOf(t, channel), (s: SubscriptionRow) => s.client))
  }

  function GetUserNameChannels(t: Tables, client: Id): seq<string> {
    Distinct(Column(HistoryBy(t, client), (h: HistoryRow) => h.channel))
  }

  function GetCurrentChannels(t: Tables): map<Id, string> {
    map id | id in (set r | r in t.channels :: r.id) :: GetChannelName(t, id)
  }

  // ---------- what every run keeps ----------

  predicate ClientsSound(t: Tables) {
    && t.nextClient >= 1
    && (forall c :: c in t.clients ==> 1 <= c.id < t.nextClient)
    && (forall i, j :: 0 <= i < j < |t.clients| ==>
          t.clients[i].id != t.clients[j].id && t.clients[i].login != t.clients[j].login)
  }

  predicate ChannelsSound(t: Tables) {
    && t.nextChannel >= 1
    && (forall c :: c in t.channels ==> 1 <= c.id < t.nextChannel && FitsName(c.name))
    && (forall i, j :: 0 <= i < j < |t.channels| ==>
          t.channels[i].id != t.channels[j].id && t.channels[i].name != t.channels[j].name)
  }

  predicate HasClientRow(t: Tables, id: Id) { exists c :: c in t.clients && c.id == id }

  predicate HasChannelRowId(t: Tables, id: Id) { exists r :: r in t.channels && r.id == id }

  predicate HistorySound(t: Tables) {
    forall h :: h in t.history ==> HasClientRow(t, h.client)
  }

  predicate SubscriptionsSound(t: Tables) {
    && NoDuplicates(t.subscriptions)
    && (forall s :: s in t.subscriptions ==> HasClientRow(t, s.client) && HasChannelRowId(t, s.channel))
  }

  predicate Sound(t: Tables) {
    ClientsSound(t) && ChannelsSound(t) && HistorySound(t) && SubscriptionsSound(t)
  }

  // ---------- reading the tables ----------

  lemma ClientByLogin(t: Tables, c: ClientRow)
    requires ClientsSound(t) && c in t.clients
    ensures ClientsByLogin(t, c.login) != [] && ClientsByLogin(t, c.login)[0] == c
    ensures GetClientId(t, c.login) == c.id != NO_ID
  {
    var r := ClientsByLogin(t, c.login);
    assert c in r;
    assert r[0] in r;
  }

  lemma ClientById(t: Tables, c: ClientRow)
    requires ClientsSound(t) && c in t.clients
    ensures ClientsById(t, c.id) != [] && ClientsById(t, c.id)[0] == c
    ensures GetClientName(t, c.id) == c.login
  {
    var r := ClientsById(t, c.id);
    assert c in r;
    assert r[0] in r;
  }

  lemma ChannelByName(t: Tables, c: ChannelRow)
    requires ChannelsSound(t) && c in t.channels
    ensures HasChannel(t, c.name) && GetChannelId(t, c.name) == c.id != NO_ID
  {
    var r := ChannelsByName(t, c.name);
    assert c in r;
    assert r[0] in r;
  }

  /** The primary key of the channels table. */
  predicate ChannelKeys(t: Tables) {
    forall i, j :: 0 <= i < j < |t.channels| ==> t.channels[i].id != t.channels[j].id
  }

  lemma ChannelById(t: Tables, c: ChannelRow)
    requires ChannelKeys(t) && c in t.channels
    ensures GetChannelName(t, c.id) == c.name
  {
    var r := ChannelsById(t, c.id);
    assert c in r;
    assert r[0] in r;
  }

  /** The id found for a login belongs to a row of that login; no id means no row. */
  lemma ClientIdFound(t: Tables, login: string)
    requires ClientsSound(t)
    ensures GetClientId(t, login) != NO_ID ==>
      exists c :: c in t.clients && c.login == login && c.id == GetClientId(t, login)
    ensures GetClientId(t, login) == NO_ID <==> forall c :: c in t.clients ==> c.login != login
  {
    var r := ClientsByLogin(t, login);
    if r != [] {
      assert r[0] in r && r[0] in t.clients;
    }
    assert forall c :: c in t.clients && c.login == login ==> c in r;
  }

  lemma ChannelIdFound(t: Tables, name: string)
    requires ChannelsSound(t)
    ensures GetChannelId(t, name) != NO_ID ==> ChannelRow(GetChannelId(t, name), name) in t.channels
    ensures GetChannelId(t, name) == NO_ID <==> forall c :: c in t.channels ==> c.name != name
    ensures HasChannel(t, name) <==> GetChannelId(t, name) != NO_ID
  {
    var r := ChannelsByName(t, name);
    if r != [] {
      assert r[0] in r && r[0] in t.channels;
      assert r[0] == ChannelRow(r[0].id, name);
    }
    assert forall c :: c in t.channels && c.name == name ==> c in r;
  }

  /** getClientName undoes getClientId for every registered login, and the other way round for every id. */
  lemma ClientNameInvertsId(t: Tables, login: string, id: Id)
    requires ClientsSound(t)
    ensures GetClientId(t, login) != NO_ID ==> GetClientName(t, GetClientId(t, login)) == login
    ensures ClientsById(t, id) != [] ==> GetClientId(t, GetClientName(t, id)) == id
  {
    ClientIdFound(t, login);
    if GetClientId(t, login) != NO_ID {
      var c :| c in t.clients && c.login == login && c.id == GetClientId(t, login);
      ClientById(t, c);
    }
    if ClientsById(t, id) != [] {
      var c := ClientsById(t, id)[0];
      assert c in ClientsById(t, id);
      ClientByLogin(t, c);
    }
  }

  /** The members of a channel according to the subscriptions table. */
  ghost function Members(t: Tables, channel: Id): set<Id> {
    set s | s in t.subscriptions && s.channel == channel :: s.client
  }

  lemma ChannelUsersAreMembers(t: Tables, channel: Id)
    ensures Elements(GetChannelUsers(t, channel)) == Members(t, channel)
  {
    var rows := SubscriptionsOf(t, channel);
    var col := Column(rows, (s: SubscriptionRow) => s.client);
    forall u ensures u in col <==> u in Members(t, channel) {
      if u in col {
        var i :| 0 <= i < |col| && col[i] == u;
        assert rows[i] in rows;
      }
      if u in Members(t, channel) {
        var s :| s in t.subscriptions && s.channel == channel && s.client == u;
        assert s in rows;
        var i :| 0 <= i < |rows| && rows[i] == s;
        assert col[i] == u;
      }
    }
    assert Elements(col) == Members(t, channel);
  }

  /** The names listed for a client are those of its history rows. */
  lemma ListedNames(t: Tables, client: Id)
    ensures forall name :: name in GetUserNameChannels(t, client) <==>
              exists h :: h in t.history && h.client == client && h.channel == name
  {
    var rows := HistoryBy(t, client);
    var col := Column(rows, (h: HistoryRow) => h.channel);
    assert forall name :: name in Distinct(col) <==> name in Elements(Distinct(col));
    forall name ensures name in col <==> exists h :: h in t.history && h.client == client && h.channel == name {
      if name in col {
        var i :| 0 <= i < |col| && col[i] == name;
        assert rows[i] in rows;
      }
      if h :| h in t.history && h.client == client && h.channel == name {
        var i :| 0 <= i < |rows| && rows[i] == h;
        assert col[i] == name;
      }
    }
  }
}
