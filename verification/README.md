# GatewayServer: a Dafny model of the chat gateway

GatewayServer is a chat server. Clients register or log in, join channels, send texts and poll the history of a
channel; everything durable lives in four PostgreSQL tables, and the server keeps caches of them in memory. This
project models that server and proves what it keeps over every run, under every interleaving, and where it does not
keep it, exactly when.

## How the model is built

| layer | modules | what it holds |
|---|---|---|
| tables | `Basics`, `DateText`, `Schema` | rows as sequences, serial ids from 1, each SQL statement one atomic function, the printed and parsed date |
| objects | `PgDatabase`, `Users`, `Channels`, `Managers`, `Engine` | the program's classes with their fields and loops; each method is proved to be the table function or chat event of its name |
| chat server over runs | `ChatModel`, `Recovery`, `Accounts`, `Delivery`, `HistoryRoundTrip`, `Responses`, `Sync` | a run is any sequence of requests, closed sessions and restarts since the first start over empty tables |
| requests on several threads | `Interleaving`, `Broadcasting`, `AtomicRequests`, `CreationRace`, `JoinRace`, `RegistrationRace` | every database statement, section under `mutex_` and access to a member set is one step of one of any number of requests |
| second database | `InMemoryStorage`, `Bisimulation` | `Storage` and its comparison with the tables |
| task queue | `TaskQueue`, `Shutdown`, `ThreadSafeQueueClass` | any number of workers, spurious wake-ups, throwing tasks, the destructor |
| sessions and pool | `Framing`, `Wire`, `SharedQueue`, `WorkersPool` | the read loop, the serialised writer, any number of writers on one task queue, the pool's counter and threads |

A handler of `Engine.QueryEngine` is proved to change the state as `ChatModel.Served` says and to write what
`ChatModel.Outputs` allows; the theorems over runs are about those two. `AtomicRequests.AloneIsAtomic` closes the gap on
the other side: a request run alone through the fine steps of `Interleaving` does what `ChatModel` says the whole
request does, and `RegistrationRace.AloneIsAtomic` says the same of a registration. `SharedQueue.EachSocketRefines` ties
the writer of one session to the task queue that all sessions share.

An exception that leaves a request is an explicit outcome (`None`, `null` or `Failed`). A session is a number that may
be in the set `closed`; a weak pointer to it can be locked exactly when it is not. Predicates over runs such as
`HasJoined`, `IsAccount` and `StoredTexts` speak of the events and their answers, not of the server's state, so that a
theorem says what a client could have observed.

Hypotheses that the code forces are not assumed away; each is turned into an exact condition:

- A request that names the empty channel fails, but leaves a row in `channels`. From then on every restart of the
  server throws (`Recovery.UnnamedRow`, `Recovery.RestartIsExact`, and `Recovery.EmptyNameStops` for the shortest run).
- `Channel::write` moves its one buffer into the first session write, so the other recipients are handed an empty
  vector. A text reaches everybody it should exactly when at most one client is to be reached
  (`Delivery.TextArrivesForAll`); `Delivery.TextLost` is a run in which it does not.
- The create branch of `createOrGetChannelByName` checks and then acts outside `mutex_`. Every interleaving on a name
  ends coherent, with one object for all, exactly when the name has its row already or at most one request on it is
  under way at a time (`CreationRace.CoherentIffNoOverlap`); otherwise a member can be lost until the next restart
  (`CreationRace.MemberLost`).
- `checkRegUser` checks and then acts, and no constraint keeps logins apart. Two overlapping registrations of a login
  can both be answered with the first one's id, which hands its account to the second one's session
  (`RegistrationRace.AccountHandedOver`). Registrations get accounts of their own in every interleaving exactly when at
  most one is under way per login (`RegistrationRace.OwnAccountsIffNoOverlap`).
- `joinClientChannel` checks and then acts too. A client gets at most one subscription row in every interleaving
  exactly when at most one join of it is under way at a time or it is subscribed already
  (`JoinRace.OneRowIffNoOverlap`).
- A worker that has popped a write waits for the mutex of its socket. One client that stops reading can therefore
  stall the writes to everybody: exactly when every worker waits for a busy socket (`SharedQueue.StalledExactly`,
  `SharedQueue.OneClientStallsAll`).
- `quit_` is stored without `cv_mutex_`. The worker that stands between its predicate check and its block when
  `notify_all` comes sleeps for ever, unless a spurious wake-up saves it; there is at most one (`Shutdown.WhoExits`,
  `Shutdown.AtMostOneMisses`).
- A task that throws is never subtracted from `counter_` (`WorkersPool.CounterLeaks`, `WorkersPool.OneThrowLeaks`).
- Several queue workers can swap two messages to one session (`Wire.OrderIffOneWorker`); the server starts four
  (src/app/gateway/main.cpp:83).
- A member that polls since the largest date received gets exactly what is new when the new messages are dated later
  and that date is not `DateTime()`, and only then (`Sync.PollsReturnWhatIsNew`). Of two texts in one second the later
  one can be lost to it (`Sync.SecondTextLost`).
- `Storage` accepts strings that the columns refuse (`Bisimulation.LongNameDiffers`); otherwise the two databases
  answer alike (`Bisimulation.AnswersAlike`).
- A join is confirmed only the first time ever, not again after a restart (`Delivery.JoinConfirmedOnce`).
- The list of a user's channels holds those it has stored a text in, not those it joined
  (`HistoryRoundTrip.ListedChannels`).

## Model

| member | source | states |
|---|---|---|
| `Interleaving.CoherentInEveryInterleaving` | src/sdk/channels/ChannelsManager.cpp:50-73 | In every interleaving of any number of joinRoom, sendText and getHistory requests on names that have their row, an installed channel's members are at every point exactly its distinct subscribers and the clients past addUser but not past the INSERT, and no join is pending on a channel that is not installed |
| `Interleaving.AtRestExact` | src/sdk/channels/Channel.cpp:41-66 | Once all those requests are over, each installed object is what the constructor of Channel would build from the tables now |
| `Interleaving.RunKeeps` | src/sdk/engine/QueryEngine.cpp:116-129 | Every such run keeps the full invariant: members, filing of the objects, what each thread may rely on at its point, at most one holder of the mutex |
| `Interleaving.NeverReplaced` | src/sdk/channels/ChannelsManager.cpp:62-72 | An entry of idChannels_ is never replaced once set, over any continuation of such a run |
| `Interleaving.OneObjectPerChannel` | src/sdk/channels/ChannelsManager.cpp:56-73 | In every interleaving of requests on names that have their row, two requests for one name, looked at whenever they have their channel, hold the same object, with that name and the id of its row |
| `Interleaving.MutexExcludes` | src/sdk/channels/ChannelsManager.cpp:59-72 | While one request holds mutex_ no step of another changes idChannels_ or frees the mutex, on any names |
| `Broadcasting.BroadcastVisits` | src/sdk/channels/Channel.cpp:122-132 | In every interleaving of requests on names that have their row, a broadcast writes, whatever users are known and sessions closed, to every known client with a living session that was subscribed at some time before its loop over the members, and to nobody that is not known, living, and subscribed or past addUser |
| `AtomicRequests.AloneIsAtomic` | src/sdk/engine/QueryEngine.cpp:80-159 | A joinRoom, sendText or getHistory begun on an idle server and left alone is over after at most twelve steps; tables (the stored message included), channel objects and exceptions are those of the whole request in the chat model, whether the channel is installed, only in the tables, or new |
| `CreationRace.CoherentIffRowExists` | src/sdk/channels/ChannelsManager.cpp:74-84 | From any idle state whose channel rows have names and ids of their own, duplicate subscriptions allowed: all interleavings on a name leave every installed channel with exactly its subscribers, if and only if the name has its row |
| `CreationRace.CoherentIffNoOverlap` | src/sdk/channels/ChannelsManager.cpp:50-86 | From such a state: every interleaving with at most n requests on the name under way at a time leaves every installed channel with exactly its subscribers and all requests on one object, if and only if n is at most one or the name has its row |
| `CreationRace.MemberLost` | src/sdk/channels/ChannelsManager.cpp:77-81 | The run that breaks it: a join and a poll on a new name, after which the client is subscribed in the table and missing from the installed object, and the two requests hold different objects |
| `CreationRace.OneObjectIffRowExists` | src/sdk/channels/ChannelsManager.cpp:56-84 | From such a state: all requests on a name hold one object in every interleaving, if and only if the name has its row |
| `JoinRace.OneRowIffNoOverlap` | src/sdk/database/WrapperPg.cpp:310-328 | From any idle state with at most one row of the client, on names that have their row: every interleaving with at most n joins of a name by the client under way at a time leaves at most one subscription row, if and only if n is at most one or the row is there already |
| `JoinRace.RowsAtMostJoins` | src/sdk/database/WrapperPg.cpp:315-320 | In every interleaving on names that have their row a client gets at most as many new subscription rows for a channel as it began joins |
| `JoinRace.SubscriberKeepsRows` | src/sdk/database/WrapperPg.cpp:316-318 | A subscribed client with no join before its INSERT never gets another row, in any interleaving |
| `JoinRace.TwoRows` | src/sdk/database/WrapperPg.cpp:315-320 | The run of two overlapping joins that leaves two rows |
| `RegistrationRace.OwnAccountsIffNoOverlap` | src/sdk/database/WrapperPg.cpp:131-147 | Different answered registrations of a login get different ids in every interleaving with at most n of them under way at a time, if and only if n is at most one, the login is taken, or it is too long for its column |
| `RegistrationRace.IdsFollowLogins` | src/sdk/database/WrapperPg.cpp:41-56 | In every interleaving of any registrations two answered ones have the same id exactly if they are for the same login, provided that rows are read in table order |
| `RegistrationRace.AccountHandedOver` | src/sdk/engine/QueryEngine.cpp:26-36 | The run of two overlapping registrations that, with rows read in table order, are both answered with the first one's id: only the first password authenticates afterwards, and the user object writes to the second session |
| `RegistrationRace.AloneIsAtomic` | src/sdk/engine/QueryEngine.cpp:20-49 | A registration that runs alone through these steps leaves the tables, the directory and the answer of the whole request in the chat model |
| `Recovery.RestartIsExact` | src/sdk/channels/ChannelsManager.cpp:37-48 | At any point of any run a fresh ChannelsManager over the tables rebuilds the very map of id to name and member set that is in memory, unless some request named the empty channel; then its constructor throws |
| `Recovery.UnnamedRow` | src/sdk/channels/Channel.cpp:17-22 | There is an unnamed channel row exactly when some request named the empty channel, and the server is stopped exactly when it was restarted after one |
| `Recovery.ChannelRowsAreNamed` | src/sdk/channels/ChannelsManager.cpp:74-84 | After any run there is a channel row of a name exactly if it fits its column and some joinRoom, sendText or getHistory, of whatever client, named it while the server was running |
| `Recovery.EmptyNameStops` | src/sdk/channels/ChannelsManager.cpp:77-78 | One join of the empty channel and a restart stop the server |
| `Recovery.RunCoherent` | src/sdk/channels/ChannelsManager.cpp:50-86 | Every run keeps: channel objects are exactly the named rows with their subscribers, user objects belong to rows, and the tables satisfy their keys and references |
| `Recovery.RecoverIsCoherent` | src/sdk/channels/ChannelsManager.cpp:37-48 | Over sound tables createChannelFromDb throws exactly if there is an unnamed row, and otherwise its cache agrees with the tables |
| `Recovery.CoherentIsUnique` | src/sdk/channels/ChannelsManager.cpp:37-48 | The tables determine the cache: two caches that agree with them are equal |
| `Accounts.RegistrationExact` | src/sdk/database/WrapperPg.cpp:124-154 | After any run a registration is answered with an id exactly if the login was never registered and both strings fit, and that id is greater than every id handed out before |
| `Accounts.AuthorisationExact` | src/sdk/database/WrapperPg.cpp:156-186 | After any run auth returns an id exactly if a registration of that login with that password was answered with that id |
| `Accounts.AccountsAreDistinct` | src/sdk/database/WrapperPg.cpp:41-56 | Two answered registrations of a run have different logins and growing ids |
| `Accounts.ClientsAreAccounts` | src/sdk/database/WrapperPg.cpp:131-147 | After any run the client rows are exactly the answered registrations |
| `Accounts.LoginTakenIsRow` | src/sdk/database/WrapperPg.cpp:41-56 | getClientId finds a login exactly if one of its registrations was answered |
| `Delivery.TextReaches` | src/sdk/channels/Channel.cpp:113-131 | Over runs with restarts: a text issues exactly one session write for each client that joined the channel, logged in since the last restart and whose latest session is alive, to that session, and none for anybody else |
| `Delivery.OneWriteCarriesText` | src/sdk/channels/Channel.cpp:120-132 | If any write is issued exactly one of them carries the text; the others are empty |
| `Delivery.TextArrivesForAll` | src/sdk/channels/Channel.cpp:120-132 | Every client that should be reached is handed the text if and only if there is at most one such client |
| `Delivery.TextLost` | src/sdk/channels/Channel.cpp:130 | A run after which two clients are reached, and in which, whatever the order of the session writes, one of them is written to without getting the text |
| `Delivery.SomeOutput` | src/sdk/channels/Channel.cpp:113-131 | After any run there are session writes that a text may issue, so the theorems about them speak of something |
| `Delivery.TwoReached` | src/sdk/engine/QueryEngine.cpp:116-129 | After two registrations and two joins exactly those two clients are reached |
| `Delivery.Directory` | src/sdk/channels/users/UserManager.cpp:38-54 | The keys of idClients_ are exactly the ids that registered or authenticated since the last start, each with its own id and the session of its latest success; a stopped server knows nobody |
| `Delivery.DirectoryRows` | src/sdk/engine/QueryEngine.cpp:28-36 | Each entry of idClients_ is the client row of its id, login and password included |
| `Delivery.SubscriptionsAreJoins` | src/sdk/engine/QueryEngine.cpp:116-129 | After any run a client is subscribed to a name exactly if it joined it while known to the running server |
| `Delivery.ClosedSessions` | src/sdk/channels/Channel.cpp:129-131 | While the server runs, a session is dead exactly if it was closed at some time of the run |
| `Delivery.JoinConfirmedOnce` | src/sdk/channels/Channel.cpp:48-64 | A join is answered exactly for a usable name, a logged-in client with a living session, and one that never joined that channel before, restarts included |
| `HistoryRoundTrip.HistoryRoundTrips` | src/sdk/channels/Channel.cpp:68-110 | After any run a history request is answered exactly for a reached client for which something is new, once, and holds as a multiset exactly the texts stored for that name and wanted, author, text, channel and date unchanged (which dates are wanted: Responses.PollByDate) |
| `HistoryRoundTrip.HistoryIsStoredTexts` | src/sdk/database/WrapperPg.cpp:356-392 | The rows of a name read back as exactly the texts sent to it by authors registered at the time with a date and lengths the columns accept |
| `HistoryRoundTrip.AddedReadsBack` | src/sdk/database/WrapperPg.cpp:330-354 | A message that addMsgHistory accepts reads back with every field; a refused one, such as one by an unknown author, changes nothing |
| `HistoryRoundTrip.ReadBackStable` | src/sdk/database/WrapperPg.cpp:101-121 | Later registrations do not change how stored rows read |
| `HistoryRoundTrip.ListedChannels` | src/sdk/database/WrapperPg.cpp:188-206 | A list that is sent contains a name exactly if the user authored a text stored under it (when it is sent, and to whom: Responses.ListSent) |
| `Responses.RegistrationAnswered` | src/sdk/engine/QueryEngine.cpp:45-48 | Over runs with restarts: a registration on a running server from a living session gets exactly one write, a RegistrationResponse to that session, and otherwise none; its id is non-zero exactly if the login was never registered and both strings have at most 32 characters; that account then exists and its client is written to on that session; with zero no account is new |
| `Responses.AuthorisationAnswered` | src/sdk/engine/QueryEngine.cpp:73-76 | Likewise exactly one AuthorisationResponse to the living requesting session; its id is k exactly if login and password are those of account k, and zero if there is none |
| `Responses.ListSent` | src/sdk/engine/QueryEngine.cpp:98-114 | The list of channels is sent exactly to a client that has logged in since the last restart and whose latest session is alive, once, to that session, with no name twice |
| `Responses.PollByDate` | src/sdk/channels/Channel.cpp:92-97 | Of the stored texts a reached client is returned all for DateTime(), and otherwise those of the next second or later, never one dated at or before the date it asked for; nothing else is returned, and nothing to anybody else |
| `Responses.OnlyLivingSessions` | src/sdk/channels/Channel.cpp:129-131 | After any run whatever is written goes to a session that was never closed: the requesting one for a login, otherwise that of the latest login of the client it is written for |
| `Responses.AfterRestart` | src/app/gateway/main.cpp:72-74 | After a restart the first request writes nothing unless it is a registration or an authorisation |
| `Responses.TextStored` | src/sdk/database/WrapperPg.cpp:330-354 | After any run a text adds one row at the end, with its author's id, its channel and text, and its date as text, exactly if the server runs, the author is registered, the channel's name has 1 to 32 characters, the text at most 255, and the date is one of the calendar; otherwise none |
| `Responses.MessageRow` | src/sdk/database/WrapperPg.cpp:341-346 | The inserted row: the id of the author's login, channel and text unchanged, and year, month, day, hours, minutes and seconds in their places of the stamp |
| `Schema.ColumnLimits` | env/pg/configure.sh:8-11 | A name has at most 32 characters and a text at most 255 |
| `Schema.ClientNameInvertsId` | src/sdk/database/WrapperPg.cpp:101-121 | getClientName and getClientId undo each other in both directions on registered clients |
| `Schema.ChannelIdFound` | src/sdk/database/WrapperPg.cpp:58-81 | getChannelId returns the id of a row with that name, zero exactly if there is none, and agrees with hasChannel |
| `Schema.ChannelById` | src/sdk/database/WrapperPg.cpp:83-99 | getChannelName gives the name of the row with that id |
| `Schema.ChannelUsersAreMembers` | src/sdk/database/WrapperPg.cpp:208-230 | getChannelUsers returns exactly the clients with a subscription row for the id |
| `Recovery.Registered` | src/sdk/database/WrapperPg.cpp:124-154 | checkRegUser over sound tables: the next serial id and its row for a free login that fits, zero and nothing changed otherwise |
| `Recovery.Authorised` | src/sdk/database/WrapperPg.cpp:156-186 | checkAuthUser over sound tables returns the id of the row with that login and password if there is one, and zero otherwise |
| `Recovery.Joined` | src/sdk/engine/QueryEngine.cpp:127-128 | addUser and the INSERT together add the client to the channel's subscribers and keep cache and tables in agreement |
| `Recovery.OpenedChannel` | src/sdk/channels/ChannelsManager.cpp:50-86 | Over a coherent server createOrGetChannelByName succeeds exactly for a usable name, returns its row's id and an object of that name, leaves an existing row's state alone and keeps coherence |
| `Sync.PollsReturnWhatIsNew` | src/sdk/channels/Channel.cpp:91-106 | Over any run with restarts, a member that polls after each section of the run, each time since the largest date in the replies it has received, gets each time, as a multiset, exactly the texts stored in that section, if and only if each section's texts are dated after all stored before and the largest date stored before is not DateTime() |
| `Sync.PollsReturnEverything` | src/sdk/engine/QueryEngine.cpp:80-96 | If the dates grow from poll to poll and never equal DateTime(), all replies together are, as a multiset, the full stored history of the channel, with no loss and no repeat |
| `Sync.SecondTextLost` | src/sdk/channels/Channel.cpp:94-97 | A client that polls after each of two texts sent in one second gets the first and never the second, although the second is stored |
| `Sync.TwoTextsPolled` | src/sdk/engine/QueryEngine.cpp:80-96 | Such polls exist: the client is reached each time and each poll has an outcome |
| `Sync.ReplyAt` | src/sdk/channels/Channel.cpp:91-106 | Each reply of such a run is, as a multiset, the stored history filtered by the largest date that exact replies would have given so far |
| `Sync.PollExactAsMultiset` | src/sdk/channels/Channel.cpp:94-97 | The date filter of one poll keeps, in whatever order, exactly the new messages if and only if they are later than all others |
| `DateText.ParsePrint` | src/sdk/database/WrapperPg.cpp:330-338 | The printed date parses back to the same fields exactly if every field is in the range its conversion accepts; the text then has 19 characters; every calendar date up to year 9999 qualifies (the text itself: DateText.PrintedText) |
| `DateText.PrintedText` | src/sdk/database/WrapperPg.cpp:332-338 | The printed text of every readable date: four digits of the year, two each of month, day, hours, minutes and seconds, at positions 0, 5, 8, 11, 14 and 17, with '-', '-', ' ', ':' and ':' between them |
| `DateText.ParseExact` | src/sdk/database/WrapperPg.cpp:372-378 | For any text at all: it is read as a date exactly if that date is readable and the text begins with the printed date |
| `DateText.ScanExact` | src/sdk/database/WrapperPg.cpp:376-377 | For any format and any text: the scan accepts exactly the texts that begin with what is printed for values in range, and returns those values |
| `DateText.ReadFields` | src/sdk/database/WrapperPg.cpp:376-378 | The struct tm read from a printed date holds the years since 1900, the months since January, and the other fields as they are |
| `DateText.EarlierIsChronological` | src/sdk/channels/Channel.cpp:94-97 | One date is less than another exactly if it is smaller in the first of year, month, day, hours, minutes and seconds in which they differ |
| `DateText.CalendarInSeconds` | env/pg/configure.sh:9 | The dates of the timestamp column in that order are the seconds from 0001-01-01 00:00:00 to 9999-12-31 23:59:59: each but the last has a next one, with nothing between |
| `DateText.MonthLengths` | env/pg/configure.sh:9 | The days of each month, leap years included |
| `DateText.ScanPut` | src/sdk/database/WrapperPg.cpp:372-378 | For any format of padded numbers and separators, scanning what was put gives the values back exactly if each is in range |
| `DateText.DecimalValue` | src/sdk/database/WrapperPg.cpp:332-338 | The digits a number is printed as have that number as their value |
| `Bisimulation.AnswersAlike` | src/sdk/database/Storage.cpp:16-77 | On every sequence of checkRegUser, checkAuthUser, hasChannel and createChannel the two databases fail and succeed together and hand out ids that correspond one to one, if and only if no over-long string is inserted |
| `Bisimulation.LongNameDiffers` | src/sdk/database/Storage.cpp:69-77 | A channel name longer than its column: the tables answer zero and Storage an id |
| `Bisimulation.StepAlike` | src/sdk/database/Storage.cpp:16-77 | One operation on related states: they agree on success exactly if the columns accept it, stay related, and name the same account or channel |
| `Bisimulation.RunsRelated` | src/sdk/database/WrapperPg.cpp:252-287 | Sequences that fit keep the maps and the tables related |
| `Bisimulation.AnswersNameSame` | src/sdk/database/Storage.cpp:27-49 | Two ids answered at one operation belong to the same login or channel name at the end of the sequence |
| `TaskQueue.HandOff` | src/sdk/common/ThreadSafeQueue.cpp:28-47 | Over every run and continuation: popped tasks followed by queued ones are the pushes in order, each popped task belongs to one worker, is running, finished or failed, and never runs again |
| `TaskQueue.RunExactlyOnce` | src/sdk/common/ThreadSafeQueue.cpp:35-45 | A popped task is in progress exactly while its one worker executes it |
| `TaskQueue.PushedInOrder` | src/sdk/common/ThreadSafeQueue.h:46-56 | The log of pushes is the pushes of the run that found the mutex free, in order |
| `TaskQueue.WorkIsConserved` | src/sdk/common/ThreadSafeQueue.cpp:30-34 | At every point of every run, if a worker sleeps, there are at most as many queued tasks as workers about to evaluate the predicate, and if any is queued one of those workers can take the oldest at once |
| `TaskQueue.QueueIsServed` | src/sdk/common/ThreadSafeQueue.cpp:28-47 | Before shutdown a queued task has a worker that can move towards it unless all workers are executing |
| `TaskQueue.RunNoWorkBehindSleeper` | src/sdk/common/ThreadSafeQueue.h:52-55 | The invariant behind it: also, a worker about to sleep sees an empty queue, at most one is, and none leaves before quit_ |
| `TaskQueue.NotifyWakes` | src/sdk/common/ThreadSafeQueue.h:52-55 | A push or notify wakes exactly one sleeping worker if there is one, notify_all every one |
| `Shutdown.ShutdownIsBounded` | src/sdk/common/ThreadSafeQueue.cpp:9-18 | Once quit_ is set every worker move uses up a budget of at most six moves per worker, in any interleaving with pushes and notifications |
| `Shutdown.OneMoreTaskEach` | src/sdk/common/ThreadSafeQueue.cpp:28-47 | Once quit_ is set each worker takes at most one more task, and only if it was past the loop test |
| `Shutdown.LastTaskTaken` | src/sdk/common/ThreadSafeQueue.cpp:31-38 | The bound is attained: a worker past the loop test still takes a queued task after quit_ is set |
| `Shutdown.FewMoreTasks` | src/sdk/common/ThreadSafeQueue.cpp:9-18 | All workers together take at most as many more tasks as workers are between their loop test and a pop |
| `Shutdown.WhoExits` | src/sdk/common/ThreadSafeQueue.cpp:9-18 | When the workers are left alone after notify_all until none can act, a worker sleeps for ever exactly if it stood between its predicate check and its block, and all others have exited |
| `Shutdown.AtMostOneMisses` | src/sdk/common/ThreadSafeQueue.cpp:31-34 | In every reachable state at most one worker is at that point |
| `Shutdown.NotificationCanBeMissed` | src/sdk/common/ThreadSafeQueue.cpp:11-12 | A run in which a single worker misses it and nothing short of a spurious wake-up can wake it |
| `Wire.WireIsWhole` | src/sdk/network/session/ClientSession.cpp:31-54 | With any number of workers, any order at the mutex and any chunking the bytes on the socket are whole messages followed by a prefix of the write in flight or, on a lost connection, of one that failed, and every pushed message is in exactly one place |
| `Wire.FailedNotDelivered` | src/sdk/network/session/ClientSession.cpp:35-45 | A message whose write failed was pushed and is not among those written completely |
| `Wire.DeliveredOnce` | src/sdk/network/session/ClientSession.cpp:24-54 | Each message is written completely at most once |
| `Wire.OrderIffOneWorker` | src/sdk/network/session/ClientSession.cpp:24-54 | Writes finish in push order in every run if and only if there is at most one worker |
| `Wire.Overtaking` | src/sdk/common/ThreadSafeQueue.cpp:35-41 | The run in which a second message overtakes the first, for two or more workers |
| `SharedQueue.EachSocketRefines` | src/sdk/common/ThreadSafeQueue.cpp:28-47 | With any number of sockets on one task queue, whose workers wait for the mutexes of their sockets, what each socket sees of any run is a run of its own writer with at most as many workers as the queue has |
| `SharedQueue.EachSocketWhole` | src/sdk/network/session/ClientSession.cpp:24-54 | So on every socket of such a run the bytes are whole messages followed by a prefix of the write in flight or, on a lost connection, of one that failed, and every message pushed for it is in exactly one place |
| `SharedQueue.StalledExactly` | src/sdk/network/session/ClientSession.cpp:31-50 | At any point of any such run before shutdown with a write queued, no worker can move until some write ends, if and only if every worker waits for a socket that is busy with another write |
| `SharedQueue.StallLasts` | src/sdk/network/session/ClientSession.cpp:31-45 | While every worker waits for one socket and its write does not end, nothing is popped from the queue for any socket, whatever else happens |
| `SharedQueue.OneClientStallsAll` | src/sdk/network/session/ClientSession.cpp:31-45 | With any number of workers there is a run in which they all wait for one socket while a message for another is queued |
| `Framing.RoundTrip` | src/sdk/network/session/ClientSession.cpp:87-114 | The bytes of any well-formed frames are dispatched as exactly those frames in order with nothing left over, and still come first when more bytes follow |
| `Framing.AnyChunking` | src/sdk/network/session/ClientSession.cpp:92-108 | The same however the bytes are cut into chunks |
| `Framing.BytesConserved` | src/sdk/network/session/ClientSession.cpp:87-114 | For any bytes at all: dispatched frames and the part read so far are the bytes received, each frame has the body length of its header, and some bytes are always owed |
| `Framing.FeedConcat` | src/sdk/network/session/ClientSession.cpp:92-108 | Receiving two pieces one after the other is receiving them together |
| `WorkersPool.PoolAccounting` | src/sdk/context/WorkersPool.h:46-56 | At every point of every run counter_ is the tasks being posted, queued, running and ended by an exception, never negative, and no thread has left before stop or the release of the work object |
| `WorkersPool.CounterLeaks` | src/sdk/context/WorkersPool.h:50-55 | With nothing posted, queued or running the counter is zero if and only if no task threw |
| `WorkersPool.OneThrowLeaks` | src/sdk/context/WorkersPool.h:50-55 | The run of one task that throws, with the counter at one and nothing left to run |
| `WorkersPool.StoppedStartsNothing` | src/sdk/context/WorkersPool.cpp:24-37 | Over any continuation after stop() no posted task starts: handlers stay queued and no more threads run a task than did then |
| `WorkersPool.WhoLeaves` | src/sdk/context/WorkersPool.cpp:39-56 | After any run an idle thread can leave run() when the work object is released, unless a handler is queued, and after stop() even then; nothing else changes |
| `Engine.QueryEngine.Reg` | src/sdk/engine/QueryEngine.cpp:20-49 | The new state and the response are those of the Registration event (see Responses.RegistrationAnswered) |
| `Engine.QueryEngine.Auth` | src/sdk/engine/QueryEngine.cpp:51-78 | The new state and the response are those of the Authorisation event (see Responses.AuthorisationAnswered) |
| `Engine.QueryEngine.GetHistory` | src/sdk/engine/QueryEngine.cpp:80-96 | The new state and the reply are those of the HistoryRequest event, exceptions included (see HistoryRoundTrip.HistoryRoundTrips and Responses.PollByDate) |
| `Engine.QueryEngine.GetChannels` | src/sdk/engine/QueryEngine.cpp:98-114 | The reply is that of the ChannelsRequest event and nothing changes (see Responses.ListSent) |
| `Engine.QueryEngine.JoinRoom` | src/sdk/engine/QueryEngine.cpp:116-129 | The new state and the reply are those of the JoinRoom event: also for an unknown client the channel is opened |
| `Engine.QueryEngine.SendText` | src/sdk/engine/QueryEngine.cpp:131-159 | The new state and the session writes are those of the SendText event |
| `Engine.QueryEngine.Remember` | src/sdk/engine/QueryEngine.cpp:28-36 | The directory afterwards has the user with the new session, and the login and password of its first success since the start |
| `Engine.QueryEngine.AddMember` | src/sdk/engine/QueryEngine.cpp:127-128 | Member set and subscription table change together, and the reply goes to a new member only |
| `Engine.QueryEngine.JoinOpened` | src/sdk/engine/QueryEngine.cpp:119-128 | A known client becomes a member and is subscribed; an unknown one changes nothing and gets no reply |
| `Managers.ChannelsManager.CreateOrGetChannelByName` | src/sdk/channels/ChannelsManager.cpp:50-86 | The returned object is the one filed under its id, the state is that of OpenChannel, also when the constructor throws after the row was inserted; no other entry changes |
| `Managers.ChannelsManager.CreateChannelFromDb` | src/sdk/channels/ChannelsManager.cpp:37-48 | It throws exactly when some row cannot be built, and otherwise installs the recovered map |
| `Managers.ChannelsManager.Start` | src/sdk/channels/ChannelsManager.cpp:12-17 | The constructor over a database is recovery, or its exception |
| `Managers.ChannelsManager.InstallChannel` | src/sdk/channels/ChannelsManager.cpp:77-81 | A new object is filed under its id, or nothing changes when its constructor throws |
| `Managers.ChannelsManager.JoinClientChannel` | src/sdk/channels/ChannelsManager.cpp:29-35 | The tables are those of the database's join |
| `Managers.ChannelsManager.GetUserNameChannels` | src/sdk/channels/ChannelsManager.cpp:19-27 | The names are those of the database's list |
| `Channels.Channel.constructor` | src/sdk/channels/Channel.cpp:24-36 | The loop loads exactly the distinct subscribers of the id |
| `Channels.Channel.Make` | src/sdk/channels/Channel.cpp:11-39 | An object is made exactly for a non-empty name and a non-zero id |
| `Channels.Channel.AddUser` | src/sdk/channels/Channel.cpp:41-66 | The client is a member afterwards, and is written to exactly if it is new, known and alive |
| `Channels.Channel.SendHistory` | src/sdk/channels/Channel.cpp:68-110 | One reply with the wanted part of the history exactly if the client is a known living member and that part is not empty (see Responses.PollByDate) |
| `Channels.Channel.Write` | src/sdk/channels/Channel.cpp:113-136 | One session write per live member, in some order, the first with the text and the rest empty; the message goes to the history |
| `Channels.CopySince` | src/sdk/channels/Channel.cpp:91-97 | The copied messages are the history filtered by the date, in order (see DateText.EarlierIsChronological) |
| `Users.UserManager.Push` | src/sdk/channels/users/UserManager.cpp:38-54 | A known id only gets the pushed session, an unknown one the pushed object; every other entry stays |
| `Users.UserManager.GetUser` | src/sdk/channels/users/UserManager.cpp:56-71 | The object filed under the id, or null exactly if there is none |
| `Users.UserManager.CheckRegUser` | src/sdk/channels/users/UserManager.cpp:18-26 | Tables and id are those of the database's registration; no user object appears yet |
| `Users.UserManager.CheckAuthUser` | src/sdk/channels/users/UserManager.cpp:28-36 | The id is that of the database's check; nothing changes |
| `Users.User.UpdateSession` | src/sdk/channels/users/User.h:16 | Only the session changes |
| `PgDatabase.WrapperPg.Connect` | src/sdk/database/WrapperPg.cpp:13-32 | A connection once made is kept |
| `PgDatabase.WrapperPg.GetClientId` | src/sdk/database/WrapperPg.cpp:41-56 | The id of the row with that login, zero if there is none or no connection (see Accounts.LoginTakenIsRow) |
| `PgDatabase.WrapperPg.GetChannelId` | src/sdk/database/WrapperPg.cpp:58-81 | The id of the row with that name, zero if there is none or no connection (see Schema.ChannelIdFound) |
| `PgDatabase.WrapperPg.GetChannelName` | src/sdk/database/WrapperPg.cpp:83-99 | The name of the row with that id, empty if there is none or no connection (see Schema.ChannelById) |
| `PgDatabase.WrapperPg.GetClientName` | src/sdk/database/WrapperPg.cpp:101-121 | The login of the row with that id, empty if there is none or no connection (see Schema.ClientNameInvertsId) |
| `PgDatabase.WrapperPg.CheckRegUser` | src/sdk/database/WrapperPg.cpp:124-154 | Tables and id are those of Schema.CheckRegUser (see Recovery.Registered); without a connection nothing happens |
| `PgDatabase.WrapperPg.CheckAuthUser` | src/sdk/database/WrapperPg.cpp:156-186 | The id is that of Schema.CheckAuthUser (see Recovery.Authorised), zero without a connection |
| `PgDatabase.WrapperPg.GetUserNameChannels` | src/sdk/database/WrapperPg.cpp:188-206 | Each channel name of the client's history rows exactly once (see HistoryRoundTrip.ListedChannels) |
| `PgDatabase.WrapperPg.GetChannelUsers` | src/sdk/database/WrapperPg.cpp:208-230 | Each subscriber of the channel exactly once |
| `PgDatabase.WrapperPg.HasChannel` | src/sdk/database/WrapperPg.cpp:232-250 | True exactly if connected and some row has the name |
| `PgDatabase.WrapperPg.CreateChannel` | src/sdk/database/WrapperPg.cpp:252-287 | Tables and id are those of Schema.CreateChannel: the existing id, a new row, or zero for an over-long name |
| `PgDatabase.WrapperPg.HasChannelClient` | src/sdk/database/WrapperPg.cpp:289-308 | True exactly if the pair is a subscription row |
| `PgDatabase.WrapperPg.JoinClientChannel` | src/sdk/database/WrapperPg.cpp:310-328 | One subscription row is added unless the pair is there already |
| `PgDatabase.WrapperPg.AddMsgHistory` | src/sdk/database/WrapperPg.cpp:330-354 | The row with the printed date is added unless a column or the foreign key refuses it (see Responses.MessageRow and DateText.PrintedText) |
| `PgDatabase.WrapperPg.GetHistory` | src/sdk/database/WrapperPg.cpp:356-392 | The loop turns each row of the channel's name into a message, in order |
| `PgDatabase.WrapperPg.GetCurrentChannels` | src/sdk/database/WrapperPg.cpp:394-415 | The loop builds the map from each row's id to its name |
| `InMemoryStorage.Storage.CheckRegUser` | src/sdk/database/Storage.cpp:16-25 | A fresh id for an unknown login, zero otherwise; ids and settings stay consistent |
| `InMemoryStorage.Storage.CheckAuthUser` | src/sdk/database/Storage.cpp:27-49 | The id exactly if the stored password is the given one; the branch of an id without settings is unreachable |
| `InMemoryStorage.Storage.HasChannel` | src/sdk/database/Storage.cpp:64-67 | True exactly if the name has an id |
| `InMemoryStorage.Storage.CreateChannel` | src/sdk/database/Storage.cpp:69-77 | The existing id or a fresh one; the maps stay consistent |
| `InMemoryStorage.GeneratorId.Generate` | src/sdk/database/Storage.h:18-20 | Each id is one more than the last |
| `ThreadSafeQueueClass.ThreadSafeQueue.Start` | src/sdk/common/ThreadSafeQueue.cpp:20-26 | It adds that many workers at their loop test; the exact hand-off and work conservation are kept |
| `ThreadSafeQueueClass.ThreadSafeQueue.Push` | src/sdk/common/ThreadSafeQueue.h:46-56 | The task goes last, some sleeping worker, if any, is woken, and nobody sleeps afterwards unless another worker is about to evaluate the predicate; both invariants are kept |
| `ThreadSafeQueueClass.ThreadSafeQueue.Test` | src/sdk/common/ThreadSafeQueue.cpp:30 | The Test move: into the critical section, or out of the loop once quit_ is set; the exact hand-off and work conservation are kept |
| `ThreadSafeQueueClass.ThreadSafeQueue.Check` | src/sdk/common/ThreadSafeQueue.cpp:31-38 | The popped task is the oldest queued and the next in the order of pushing; without one the queue is empty; both invariants are kept |
| `ThreadSafeQueueClass.ThreadSafeQueue.Block` | src/sdk/common/ThreadSafeQueue.cpp:32-34 | A worker falls asleep only over an empty queue and leaves the mutex free; both invariants are kept |
| `ThreadSafeQueueClass.ThreadSafeQueue.Finish` | src/sdk/common/ThreadSafeQueue.cpp:40-45 | The outcome is recorded for the first and only time, by the worker that popped the task, and no other worker runs it; both invariants are kept |
| `ThreadSafeQueueClass.ThreadSafeQueue.Leave` | src/sdk/common/ThreadSafeQueue.cpp:49-50 | Nobody leaves before quit_ is set; both invariants are kept |
| `ThreadSafeQueueClass.ThreadSafeQueue.Round` | src/sdk/common/ThreadSafeQueue.cpp:30-46 | One undisturbed round of the loop runs the oldest task to its end, whether it throws or not, and leaves the worker at its loop test |
| `ThreadSafeQueueClass.ThreadSafeQueue.Shutdown` | src/sdk/common/ThreadSafeQueue.cpp:9-12 | The destructor up to its joins: quit_ is set, nobody sleeps, and every other worker stands where it stood, so one may still be about to sleep; both invariants are kept |
| `Framing.ClientSession.Receive` | src/sdk/network/session/ClientSession.cpp:87-114 | Reads of exactly the owed bytes over a chunk of any size end in the state reached byte by byte |
| `Framing.ClientSession.HeaderError` | src/sdk/network/session/ClientSession.cpp:95-100 | A failed header read starts again and keeps what was dispatched |
| `Wire.SocketWriter.PushWrite` | src/sdk/network/session/ClientSession.cpp:24-29 | The message is queued last under the next number; each message stays in one place and the bytes stay whole |
| `Wire.SocketWriter.LockAndStart` | src/sdk/network/session/ClientSession.cpp:31-50 | When the mutex is taken and the write of a whole message begins, an unbroken connection carries exactly the delivered messages; the invariants of the wire are kept |
| `Wire.SocketWriter.Transfer` | src/sdk/network/session/ClientSession.cpp:47-50 | The socket carries the delivered messages followed by what was sent of the one write in flight; the invariants of the wire are kept |
| `Wire.SocketWriter.Handler` | src/sdk/network/session/ClientSession.cpp:35-45 | The mutex is free again whatever the outcome; after a success the socket carries exactly the delivered messages, this one included; the invariants of the wire are kept |
| `WorkersPool.WorkersPool.constructor` | src/sdk/context/WorkersPool.cpp:9-22 | The loop creates that many running threads, with the counter at zero and exact |
| `WorkersPool.WorkersPool.StartPost` | src/sdk/context/WorkersPool.h:46-50 | The counter grows before the hand-over; the accounting is kept and no thread is lost |
| `WorkersPool.WorkersPool.EndFunction` | src/sdk/context/WorkersPool.cpp:39-56 | The decrement happens only on return and never below zero, and an exception sends the thread round its loop; the accounting is kept and no thread is lost |
| `WorkersPool.WorkersPool.Join` | src/sdk/context/WorkersPool.cpp:28-33 | On a stopped pool a thread ends what it runs, which may post more tasks, and leaves; those posts stay queued and a throw is counted |
| `WorkersPool.WorkersPool.Destroy` | src/sdk/context/WorkersPool.cpp:24-37 | After the destructor's joins every thread is gone, and the counter it logs is exactly the posts that never ran, those of the last running tasks included, and the tasks that threw |

## Left out

- SQL text, quoting and libpq: each statement is a table function; a failed or lost connection after start, and the
  exception hasChannel then throws, are not modelled.
- A server without a connection: main leaves when connect fails (src/app/gateway/main.cpp:65-70), so the managers are
  modelled over a connected database; only `PgDatabase.WrapperPg` shows what it answers without one.
- PostgreSQL drawing a serial number for an insert it then refuses, and cutting over-long trailing blanks: ids here are
  consecutive and every over-long string is refused.
- Timestamps beyond year 9999, 24:00:00 and second 60, which PostgreSQL would accept or normalise: the model's column
  refuses them. `DateText.ParsePrint` itself covers every field value.
- `HistoryRoundTrip.HistoryRoundTrips`: claims a multiset, because a SELECT without ORDER BY promises no order.
- The external protocol library (DateTime, Header, MsgFactory): DateTime is a record of naturals in lexicographic
  order whose default is a constant no proof looks into; Header is an abstract codec with a body length; payloads are
  datatypes.
- A date that std::get_time cannot read leaves its struct tm unset; a zero date stands for it. No stored row has one.
- The width of ids: std::stoi on ids beyond int and the wrap-around of counters are not modelled.
- Weak pointers other than those to sessions: the queue, socket, managers and database are alive.
- C++ data races on unlocked containers: each container operation is one step. `Channel::addUser` is one step although
  it takes no lock.
- In `Interleaving` a broadcast visits all members in one step, although the code takes no lock while it loops, and the
  rows a history request reads are not a step: they change neither tables nor channels.
- The order of rows: a SELECT without ORDER BY promises none, but each look-up here takes the first matching row in
  table order. It matters only where two rows share a login or a channel name, which overlapping requests can bring
  about: to the equal ids in `RegistrationRace`, to the use of one id per name in `Interleaving`, and to nothing over the
  sequential runs, where logins and names are unique.
- Logins among the steps of `CreationRace`: the witness of an overlap lets a client be known when it joins, in a state
  where nobody may have been, because logins run alongside.
- Registrations among the steps of `Interleaving`, and authorisations among those of `RegistrationRace`: whether the
  user directory knows a client is an arbitrary bit of each joining step.
- In `SharedQueue` all sockets exist from the start, and writes are the only tasks of the queue, as in the program.
- `ThreadSafeQueueClass.ThreadSafeQueue.Start`: requires a queue that is not shutting down, as in the program, where a
  queue is started once; a store of false to quit_ after the destructor began is not modelled.
- Exceptions that are not derived from std::exception: they would end the process from a worker of the queue or pool.
- `Wire.SocketWriter.Handler`: an error completion is taken to mean that the connection is lost; unlocking the mutex
  from another thread than the locking one, which the code does, is taken to work; the message is taken to live until
  completion.
- `Framing.ClientSession.Receive`: the error code of a body read, which runRead does not look at, is not modelled.
- `Storage` joins, history and its stubs for getChannelId, getChannelUsers and getCurrentChannels: they differ from the
  tables on purpose or by omission.
- The switch in ClientSession::processRequest, `ChannelsManager::has` and `get`, AcceptProcess, Logger, program options
  and build files: dispatch, one-line look-ups and plumbing.
- The queue, writer and pool objects keep logs of pushes, pops and failures that the program does not have, and a
  thread's position in its loop is a field, because a thread here is the sequence of its atomic blocks.
