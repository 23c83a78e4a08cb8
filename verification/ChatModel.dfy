/** The chat server as a sequential state machine: one event is one whole request, a session that closes, or a
    restart of the process over the same database. */
module ChatModel {
  import opened Basics
  import opened DateText
  import opened Schema

  datatype ChannelView = ChannelView(name: string, users: set<Id>)
  datatype UserView = UserView(id: Id, login: string, password: string, session: Session)

  /** The tables, the channel objects of ChannelsManager and the user objects of UserManager. */
  datatype Server = Server(db: Tables, channels: map<Id, ChannelView>, users: map<Id, UserView>)

  datatype Event =
    | Registration(session: Session, login: string, password: string)
    | Authorisation(session: Session, login: string, password: string)
    | JoinRoom(client: Id, channel: string)
    | SendText(message: TextMsg)
    | HistoryRequest(client: Id, channel: string, since: DateTime)
    | ChannelsRequest(client: Id)
    | SessionClosed(session: Session)
    | Restart

  /** Stopped: the constructor of ChannelsManager threw, so main has left. */
  datatype World = Running(server: Server, closed: set<Session>) | Stopped(db: Tables)

  const BOOT := Running(Server(EMPTY_TABLES, map[], map[]), {})

  datatype Payload =
    | RegistrationResponse(id: Id)
    | AuthorisationResponse(id: Id)
    | JoinRoomResponse(channel: string)
    | EchoResponse(message: TextMsg)
    | HistoryResponse(channel: string, messages: seq<TextMsg>)
    | ChannelsResponse(channels: seq<string>)
    | EmptyBuffer

  /** One call of ISession::write, made on behalf of a user. */
  datatype SessionWrite = SessionWrite(user: Id, to: Session, payload: Payload)

  /** The value of DateTime(); no proof depends on which date it is. */
  const DEFAULT_DATE := DateTime(0, 0, 0, 0, 0, 0)

  // ---------- channels ----------

  /** The constructor of Channel over the current tables. */
  function Built(t: Tables, name: string, id: Id): ChannelView {
    ChannelView(name, Elements(GetChannelUsers(t, id)))
  }

  /** The constructor of Channel throws for these arguments. */
  predicate Refused(name: string, id: Id) { name == "" || id == NO_ID }

  /** A channel of this name can be created and named. */
  predicate UsableName(name: string) { name != "" && FitsName(name) }

  /** The outcome of createOrGetChannelByName: the channel's id, or None when an exception leaves it. */
  datatype Opened = Opened(server: Server, id: Option<Id>)

  function Install(s: Server, name: string, id: Id): (o: Opened)
    ensures o.id.Some? ==> o.id.value in o.server.channels
  {
    if Refused(name, id) then Opened(s, None)
    else Opened(s.(channels := s.channels[id := Built(s.db, name, id)]), Some(id))
  }

  function OpenChannel(s: Server, name: string): (o: Opened)
    ensures o.id.Some? ==> o.id.value in o.server.channels
  {
    if HasChannel(s.db, name) then
      var id := GetChannelId(s.db, name);
      if id in s.channels then Opened(s, Some(id)) else Install(s, name, id)
    else
      var (db, id) := CreateChannel(s.db, name);
      Install(s.(db := db), name, id)
  }

  function WithUser(c: ChannelView, user: Id): ChannelView { c.(users := c.users + {user}) }

  /** createChannelFromDb; None when the constructor of some channel throws. */
  function Recover(t: Tables): Option<map<Id, ChannelView>> {
    var rows := GetCurrentChannels(t);
    if exists id :: id in rows && Refused(rows[id], id) then None
    else Some(map id | id in rows :: Built(t, rows[id], id))
  }

  // ---------- users ----------

  /** UserManager::push: an entry that exists only gets the new session. */
  function PushUser(users: map<Id, UserView>, u: UserView): map<Id, UserView> {
    if u.id in users then users[u.id := users[u.id].(session := u.session)] else users[u.id := u]
  }

  function Login(s: Server, session: Session, login: string, password: string, id: Id): Server {
    if id == NO_ID then s
    else s.(users := PushUser(s.users, UserView(id, login, password, session)))
  }

  // ---------- one event ----------

  /** addUser on the channel object, then joinClientChannel on the table. */
  function Subscribed(s: Server, id: Id, client: Id, channel: string): Server
    requires id in s.channels
  {
    Server(JoinClientChannel(s.db, client, channel), s.channels[id := WithUser(s.channels[id], client)], s.users)
  }

  function Recorded(s: Server, message: TextMsg): Server {
    Server(AddMsgHistory(s.db, message), s.channels, s.users)
  }

  function Served(s: Server, e: Event): Server
    requires !e.Restart? && !e.SessionClosed?
  {
    match e
    case Registration(session, login, password) =>
      var (db, id) := CheckRegUser(s.db, login, password);
      Login(s.(db := db), session, login, password, id)
    case Authorisation(session, login, password) =>
      Login(s, session, login, password, CheckAuthUser(s.db, login, password))
    case JoinRoom(client, channel) =>
      var o := OpenChannel(s, channel);
      if o.id.None? || client !in o.server.users then o.server
      else Subscribed(o.server, o.id.value, client, channel)
    case SendText(message) =>
      var o := OpenChannel(s, message.channel);
      if o.id.None? then o.server else Recorded(o.server, message)
    case HistoryRequest(client, channel, since) => OpenChannel(s, channel).server
    case ChannelsRequest(client) => s
  }

  function Apply(w: World, e: Event): World {
    match w
    case Stopped(db) => w
    case Running(s, closed) =>
      match e
      case SessionClosed(session) => Running(s, closed + {session})
      case Restart =>
        (match Recover(s.db)
         case None => Stopped(s.db)
         case Some(channels) => Running(Server(s.db, channels, map[]), closed))
      case _ => Running(Served(s, e), closed)
  }

  function Database(w: World): Tables { if w.Running? then w.server.db else w.db }

  /** The client id a registration or authorisation is answered with. */
  function Answer(w: World, e: Event): Id {
    if w.Stopped? then NO_ID
    else match e
      case Registration(_, login, password) => CheckRegUser(w.server.db, login, password).1
      case Authorisation(_, login, password) => CheckAuthUser(w.server.db, login, password)
      case _ => NO_ID
  }

  // ---------- session writes ----------

  /** Those of these members that have a user object with a living session. */
  function Living(members: set<Id>, users: map<Id, UserView>, closed: set<Session>): set<Id> {
    set u | u in members && u in users && users[u].session !in closed
  }

  function Recipients(s: Server, closed: set<Session>, channel: Id): set<Id>
    requires channel in s.channels
  {
    Living(s.channels[channel].users, s.users, closed)
  }

  /** Channel::write hands the one serialised buffer to the recipients in some order; it is moved out at the
      first of them, so the others are handed what is left, an empty buffer. */
  ghost predicate IsBroadcast(out: seq<SessionWrite>, users: map<Id, UserView>, to: set<Id>, payload: Payload) {
    && NoDuplicates(Column(out, (x: SessionWrite) => x.user))
    && Elements(Column(out, (x: SessionWrite) => x.user)) == to
    && (forall i :: 0 <= i < |out| ==>
          && out[i].user in users && out[i].to == users[out[i].user].session
          && out[i].payload == if i == 0 then payload else EmptyBuffer)
  }

  lemma NoBroadcast(users: map<Id, UserView>, payload: Payload)
    ensures IsBroadcast([], users, {}, payload)
  {
  }

  /** One more recipient. */
  lemma BroadcastMore(out: seq<SessionWrite>, users: map<Id, UserView>, to: set<Id>, payload: Payload, id: Id)
    requires IsBroadcast(out, users, to, payload) && id !in to && id in users
    ensures IsBroadcast(
              out + [SessionWrite(id, users[id].session, if out == [] then payload else EmptyBuffer)],
              users, to + {id}, payload)
  {
    var more := SessionWrite(id, users[id].session, if out == [] then payload else EmptyBuffer);
    var a := Column(out, (x: SessionWrite) => x.user);
    var b := Column(out + [more], (x: SessionWrite) => x.user);
    assert b == a + [id];
    ElementsSnoc(a, id);
    forall i | 0 <= i < |a| ensures a[i] != id { assert a[i] in Elements(a); }
  }

  predicate Wanted(since: DateTime, m: TextMsg) { since == DEFAULT_DATE || Earlier(since, m.date) }

  function Since(history: seq<TextMsg>, since: DateTime): seq<TextMsg> {
    Where(history, (m: TextMsg) => Wanted(since, m))
  }

  function WriteTo(u: UserView, closed: set<Session>, payload: Payload): seq<SessionWrite> {
    if u.session in closed then [] else [SessionWrite(u.id, u.session, payload)]
  }

  function HistoryReply(s: Server, closed: set<Session>, channel: Id, client: Id, since: DateTime): seq<SessionWrite>
    requires channel in s.channels
  {
    var messages := Since(GetHistory(s.db, channel), since);
    if client !in s.channels[channel].users || client !in s.users || messages == [] then []
    else WriteTo(s.users[client], closed, HistoryResponse(s.channels[channel].name, messages))
  }

  function JoinReply(s: Server, closed: set<Session>, channel: Id, client: Id): seq<SessionWrite>
    requires channel in s.channels
  {
    if client !in s.users || client in s.channels[channel].users then []
    else WriteTo(s.users[client], closed, JoinRoomResponse(s.channels[channel].name))
  }

  /** The session writes an event may issue. */
  ghost predicate Outputs(w: World, e: Event, out: seq<SessionWrite>) {
    if w.Stopped? then out == []
    else
      var s := w.server;
      match e
      case Registration(session, _, _) =>
        out == if session in w.closed then []
               else [SessionWrite(Answer(w, e), session, RegistrationResponse(Answer(w, e)))]
      case Authorisation(session, _, _) =>
        out == if session in w.closed then []
               else [SessionWrite(Answer(w, e), session, AuthorisationResponse(Answer(w, e)))]
      case JoinRoom(client, channel) =>
        var o := OpenChannel(s, channel);
        if o.id.None? then out == []
        else out == JoinReply(o.server, w.closed, o.id.value, client)
      case SendText(message) =>
        var o := OpenChannel(s, message.channel);
        if o.id.None? then out == []
        else IsBroadcast(out, o.server.users, Recipients(o.server, w.closed, o.id.value), EchoResponse(message))
      case HistoryRequest(client, channel, since) =>
        var o := OpenChannel(s, channel);
        if o.id.None? then out == []
        else out == HistoryReply(o.server, w.closed, o.id.value, client, since)
      case ChannelsRequest(client) =>
        if client !in s.users then out == []
        else out == WriteTo(s.users[client], w.closed, ChannelsResponse(GetUserNameChannels(s.db, client)))
      case SessionClosed(_) => out == []
      case Restart => out == []
  }

  // ---------- runs ----------

  /** The world after a sequence of events since the very first start over empty tables. */
  function Run(events: seq<Event>): World {
    if events == [] then BOOT
    else Apply(Run(events[..|events| - 1]), events[|events| - 1])
  }

  function AnswerAt(events: seq<Event>, i: nat): Id
    requires i < |events|
  {
    Answer(Run(events[..i]), events[i])
  }

  /** The channel name a request makes the server open. */
  function NamedChannel(e: Event): Option<string> {
    match e
    case JoinRoom(_, channel) => Some(channel)
    case SendText(m) => Some(m.channel)
    case HistoryRequest(_, channel, _) => Some(channel)
    case _ => None
  }
}
