/** Registrations on several pool threads at once. checkRegUser checks and then acts, and the table does not keep
    logins apart; every database statement and the push into the user directory is one step. */
module RegistrationRace {
  import opened Basics
  import opened Schema
  import opened ChatModel

  /** Where a registration stands. */
  datatype Pc =
    | Looking               // checkRegUser: db->getClientId
    | Inserting             // checkRegUser: INSERT
    | Rereading             // checkRegUser: db->getClientId again
    | Pushing(id: Id)       // reg: about to push the user object
    | Answered(id: Id)      // reg: the response carries this id

  datatype Thread = Thread(session: Session, login: string, password: string, pc: Pc)

  datatype Shared = Shared(db: Tables, users: map<Id, UserView>, threads: seq<Thread>)

  datatype Move = Begin(session: Session, login: string, password: string) | Go(thread: nat)

  function At(s: Shared, t: nat, pc: Pc): Shared
    requires t < |s.threads|
  {
    s.(threads := s.threads[t := s.threads[t].(pc := pc)])
  }

  function Advance(s: Shared, t: nat): Shared
    requires t < |s.threads|
  {
    var th := s.threads[t];
    match th.pc
    case Looking => At(s, t, if GetClientId(s.db, th.login) == NO_ID then Inserting else Answered(NO_ID))
    case Inserting => At(s, t, Rereading).(db := InsertClient(s.db, th.login, th.password))
    case Rereading =>
      var id := GetClientId(s.db, th.login);
      At(s, t, if id == NO_ID then Answered(NO_ID) else Pushing(id))
    case Pushing(id) =>
      At(s, t, Answered(id)).(users := PushUser(s.users, UserView(id, th.login, th.password, th.session)))
    case Answered(_) => s
  }

  function Step(s: Shared, move: Move): Shared {
    match move
    case Begin(session, login, password) => s.(threads := s.threads + [Thread(session, login, password, Looking)])
    case Go(t) => if t < |s.threads| then Advance(s, t) else s
  }

  function RunFrom(s: Shared, moves: seq<Move>): Shared {
    if moves == [] then s else Step(RunFrom(s, moves[..|moves| - 1]), moves[|moves| - 1])
  }

  // ---------- ids follow logins ----------

  /** The primary key: ids are non-zero and each belongs to one row. Two rows may share a login. */
  predicate IdsSound(t: Tables) {
    && t.nextClient >= 1
    && (forall c :: c in t.clients ==> 1 <= c.id < t.nextClient)
    && (forall i, j :: 0 <= i < j < |t.clients| ==> t.clients[i].id != t.clients[j].id)
  }

  /** The id a registration has got from the table. */
  function GotId(pc: Pc): Id {
    match pc
    case Pushing(id) => id
    case Answered(id) => id
    case _ => NO_ID
  }

  predicate GotOwnId(t: Tables, th: Thread) { GotId(th.pc) != NO_ID ==> GotId(th.pc) == GetClientId(t, th.login) }

  ghost predicate Inv(s: Shared) {
    IdsSound(s.db) && forall i :: 0 <= i < |s.threads| ==> GotOwnId(s.db, s.threads[i])
  }

  /** A login without an id has no row. */
  lemma FreeHasNoRow(t: Tables, login: string)
    requires IdsSound(t)
    ensures GetClientId(t, login) == NO_ID <==> ClientsByLogin(t, login) == []
  {
    var rows := ClientsByLogin(t, login);
    if rows != [] { assert rows[0] in rows; }
  }

  /** An INSERT keeps the first row of every login. */
  lemma FirstRowStays(t: Tables, login: string, password: string, other: string)
    requires IdsSound(t)
    ensures var t' := InsertClient(t, login, password);
      && IdsSound(t')
      && (GetClientId(t, other) != NO_ID ==> GetClientId(t', other) == GetClientId(t, other))
      && (GetClientId(t, other) == NO_ID ==>
            GetClientId(t', other) ==
              if other == login && FitsName(login) && FitsName(password) then t.nextClient else NO_ID)
  {
    hide FitsName;
    var p := (c: ClientRow) => c.login == other;
    var row, rows := ClientRow(t.nextClient, login, password), ClientsByLogin(t, other);
    WhereSnoc(t.clients, row, p);
    hide Where;
    FreeHasNoRow(t, other);
    if rows != [] { assert rows[0] == (rows + [row])[0]; }
  }

  lemma StepInv(s: Shared, move: Move)
    requires Inv(s)
    ensures Inv(Step(s, move))
    ensures forall login :: GetClientId(s.db, login) != NO_ID ==>
        GetClientId(Step(s, move).db, login) == GetClientId(s.db, login)
  {
    hide GetClientId, InsertClient, IdsSound;
    var s' := Step(s, move);
    forall login ensures GetClientId(s.db, login) != NO_ID ==> GetClientId(s'.db, login) == GetClientId(s.db, login) {
      StepLogin(s, move, login);
    }
    assert IdsSound(s'.db) by { StepLogin(s, move, ""); }
    forall i | 0 <= i < |s'.threads| ensures GotOwnId(s'.db, s'.threads[i]) {
      if i < |s.threads| { assert GotOwnId(s.db, s.threads[i]); }
    }
  }

  lemma StepLogin(s: Shared, move: Move, login: string)
    requires IdsSound(s.db)
    ensures IdsSound(Step(s, move).db)
    ensures GetClientId(s.db, login) != NO_ID ==> GetClientId(Step(s, move).db, login) == GetClientId(s.db, login)
  {
    hide GetClientId, InsertClient, IdsSound;
    if move.Go? && move.thread < |s.threads| {
      var th := s.threads[move.thread];
      FirstRowStays(s.db, th.login, th.password, login);
    }
  }

  lemma {:induction false} RunInv(s: Shared, moves: seq<Move>)
    requires Inv(s)
    ensures Inv(RunFrom(s, moves))
  {
    if moves != [] {
      var n := |moves| - 1;
      RunInv(s, moves[..n]);
      StepInv(RunFrom(s, moves[..n]), moves[n]);
    }
  }

  /** Answered with an id. */
  predicate Successful(th: Thread) { th.pc.Answered? && th.pc.id != NO_ID }

  lemma IdsTellLogins(t: Tables, a: string, b: string)
    requires IdsSound(t) && GetClientId(t, a) != NO_ID && GetClientId(t, b) != NO_ID
    ensures GetClientId(t, a) == GetClientId(t, b) <==> a == b
  {
    var x, y := ClientsByLogin(t, a), ClientsByLogin(t, b);
    assert x[0] in x && y[0] in y;
  }

  /** In every interleaving two answered registrations have the same id exactly if they are for the same login: a
      second success on a login is never an account of its own. */
  lemma IdsFollowLogins(s: Shared, moves: seq<Move>, a: Thread, b: Thread)
    requires IdsSound(s.db) && s.threads == []
    requires a in RunFrom(s, moves).threads && b in RunFrom(s, moves).threads && Successful(a) && Successful(b)
    ensures a.pc.id == b.pc.id <==> a.login == b.login
  {
    hide GetClientId, IdsSound, RunFrom;
    RunInv(s, moves);
    var t := RunFrom(s, moves).db;
    assert GotOwnId(t, a) && GotOwnId(t, b);
    IdsTellLogins(t, a.login, b.login);
  }

  // ---------- at most one open registration per login ----------

  /** A registration of this login that is not answered yet. */
  predicate IsOpen(th: Thread, login: string) { th.login == login && !th.pc.Answered? }

  function OpenCount(s: Shared, login: string): nat { |Where(s.threads, (th: Thread) => IsOpen(th, login))| }

  /** At no time are more than n registrations of this login under way. */
  predicate AtMostOpen(s: Shared, moves: seq<Move>, login: string, n: nat) {
    forall k :: 0 <= k <= |moves| ==> OpenCount(RunFrom(s, moves[..k]), login) <= n
  }

  predicate SuccessOn(th: Thread, login: string) { th.login == login && Successful(th) }

  /** Different answered registrations of this login have different ids. */
  predicate AnswersDiffer(s: Shared, login: string) {
    forall i, j :: 0 <= i < j < |s.threads| && SuccessOn(s.threads[i], login) && SuccessOn(s.threads[j], login) ==>
      s.threads[i].pc.id != s.threads[j].pc.id
  }

  /** A registration that has passed the look-up with success. */
  predicate Candidate(th: Thread, login: string) {
    th.login == login && !th.pc.Looking? && th.pc != Answered(NO_ID)
  }

  /** At most one candidate, and none is through with its INSERT while the login has no row. */
  ghost predicate OneCandidate(s: Shared, login: string) {
    && (forall i, j ::
          0 <= i < |s.threads| && 0 <= j < |s.threads| &&
          Candidate(s.threads[i], login) && Candidate(s.threads[j], login) ==>
            i == j)
    && (GetClientId(s.db, login) == NO_ID ==>
          forall i :: 0 <= i < |s.threads| && s.threads[i].login == login ==> GotId(s.threads[i].pc) == NO_ID)
  }

  lemma StepOneCandidate(s: Shared, move: Move, login: string)
    requires Inv(s) && OneCandidate(s, login) && OpenCount(s, login) <= 1
    ensures OneCandidate(Step(s, move), login)
  {
    hide GetClientId, IdsSound, InsertClient, OpenCount;
    StepInv(s, move);
    var s' := Step(s, move);
    if move.Go? && move.thread < |s.threads| {
      var t, th := move.thread, s.threads[move.thread];
      if th.pc.Looking? && th.login == login && GetClientId(s.db, login) == NO_ID {
        forall i | 0 <= i < |s.threads| && i != t ensures !Candidate(s.threads[i], login) {
          if Candidate(s.threads[i], login) { OnlyOneOpen(s, i, t, login); }
        }
      }
      if th.pc.Inserting? { FirstRowStays(s.db, th.login, th.password, login); }
    }
  }

  lemma OnlyOneOpen(s: Shared, i: nat, j: nat, login: string)
    requires i < |s.threads| && j < |s.threads| && i != j && OpenCount(s, login) <= 1
    requires IsOpen(s.threads[i], login)
    ensures !IsOpen(s.threads[j], login)
  {
    if IsOpen(s.threads[j], login) {
      TwoPass(s.threads, (th: Thread) => IsOpen(th, login), if i < j then i else j, if i < j then j else i);
    }
  }

  lemma {:induction false} RunOneCandidate(s: Shared, moves: seq<Move>, login: string)
    requires Inv(s) && s.threads == [] && AtMostOpen(s, moves, login, 1)
    ensures OneCandidate(RunFrom(s, moves), login)
  {
    if moves != [] {
      hide OneCandidate, OpenCount, Inv, Step;
      var n := |moves| - 1;
      var init := moves[..n];
      assert forall k :: 0 <= k <= n ==> init[..k] == moves[..k];
      assert init == moves[..n];
      RunOneCandidate(s, init, login);
      RunInv(s, init);
      StepOneCandidate(RunFrom(s, init), moves[n], login);
    }
  }

  lemma OneCandidateDiffer(s: Shared, login: string)
    requires OneCandidate(s, login)
    ensures AnswersDiffer(s, login)
  {
    assert forall i :: 0 <= i < |s.threads| && SuccessOn(s.threads[i], login) ==> Candidate(s.threads[i], login);
  }

  // ---------- two open registrations ----------

  lemma Then(s: Shared, moves: seq<Move>, move: Move) returns (longer: seq<Move>)
    ensures longer == moves + [move] && RunFrom(s, longer) == Step(RunFrom(s, moves), move)
  {
    longer := moves + [move];
    assert longer[..|longer| - 1] == moves;
  }

  /** Two registrations of a free login pass the look-up before either inserts. Both are answered with the same id;
      the account keeps the first one's password, and its user object writes to the second one's session. */
  lemma AccountHandedOver(s: Shared, one: Session, two: Session, login: string, first: string, second: string)
    returns (moves: seq<Move>)
    requires IdsSound(s.db) && s.threads == []
    requires GetClientId(s.db, login) == NO_ID && FitsName(login) && FitsName(first)
    ensures var s', id := RunFrom(s, moves), s.db.nextClient;
      && s'.threads == [Thread(one, login, first, Answered(id)), Thread(two, login, second, Answered(id))]
      && id != NO_ID
      && CheckAuthUser(s'.db, login, first) == id
      && (second != first ==> CheckAuthUser(s'.db, login, second) == NO_ID)
      && id in s'.users && s'.users[id].session == two
      && (id !in s.users ==> s'.users[id].password == first)
  {
    hide GetClientId, CheckAuthUser, InsertClient, RunFrom, IdsSound;
    var t, id := s.db, s.db.nextClient;
    var t1 := InsertClient(t, login, first);
    var t2 := InsertClient(t1, login, second);
    FirstRowStays(t, login, first, login);
    FirstRowStays(t1, login, second, login);
    FreshId(t);
    assert RunFrom(s, []) == s by { NoMoves(s); }
    var a, b := Thread(one, login, first, Looking), Thread(two, login, second, Looking);
    moves := Then(s, [], Begin(one, login, first));
    moves := Then(s, moves, Begin(two, login, second));
    assert RunFrom(s, moves) == Shared(t, s.users, [a, b]);
    moves := Then(s, moves, Go(0));
    moves := Then(s, moves, Go(1));
    assert RunFrom(s, moves) == Shared(t, s.users, [a.(pc := Inserting), b.(pc := Inserting)]);
    moves := Then(s, moves, Go(0));
    moves := Then(s, moves, Go(1));
    assert RunFrom(s, moves) == Shared(t2, s.users, [a.(pc := Rereading), b.(pc := Rereading)]);
    moves := Then(s, moves, Go(0));
    moves := Then(s, moves, Go(1));
    assert RunFrom(s, moves) == Shared(t2, s.users, [a.(pc := Pushing(id)), b.(pc := Pushing(id))]);
    moves := Then(s, moves, Go(0));
    moves := Then(s, moves, Go(1));
    FirstPasswordStays(t, login, first, second);
  }

  lemma NoMoves(s: Shared)
    ensures RunFrom(s, []) == s
  {
  }

  lemma FreshId(t: Tables)
    requires IdsSound(t)
    ensures t.nextClient != NO_ID
  {
  }

  /** The first of two rows with the same login is the one that counts. */
  lemma FirstPasswordStays(t: Tables, login: string, first: string, second: string)
    requires GetClientId(t, login) == NO_ID && IdsSound(t) && FitsName(login) && FitsName(first)
    ensures var t2 := InsertClient(InsertClient(t, login, first), login, second);
      && CheckAuthUser(t2, login, first) == t.nextClient
      && (second != first ==> CheckAuthUser(t2, login, second) == NO_ID)
  {
    var t1 := InsertClient(t, login, first);
    var p := (c: ClientRow) => c.login == login;
    FreeHasNoRow(t, login);
    WhereSnoc(t.clients, ClientRow(t.nextClient, login, first), p);
    WhereSnoc(t1.clients, ClientRow(t1.nextClient, login, second), p);
  }

  lemma StepGrows(s: Shared, move: Move)
    ensures |s.threads| <= |Step(s, move).threads|
  {
    hide GetClientId, InsertClient, PushUser;
  }

  lemma RunSnoc(s: Shared, moves: seq<Move>)
    requires moves != []
    ensures RunFrom(s, moves) == Step(RunFrom(s, moves[..|moves| - 1]), moves[|moves| - 1])
  {
  }

  lemma {:induction false} ThreadsOnlyGrow(s: Shared, moves: seq<Move>, k: nat)
    requires k <= |moves|
    ensures |RunFrom(s, moves[..k]).threads| <= |RunFrom(s, moves).threads|
  {
    hide RunFrom, Step;
    if k == |moves| {
      assert moves[..k] == moves;
    } else {
      var n := |moves| - 1;
      assert moves[..n][..k] == moves[..k];
      ThreadsOnlyGrow(s, moves[..n], k);
      RunSnoc(s, moves);
      StepGrows(RunFrom(s, moves[..n]), moves[n]);
    }
  }

  lemma FewThreadsFewOpen(s: Shared, moves: seq<Move>, login: string)
    ensures AtMostOpen(s, moves, login, |RunFrom(s, moves).threads|)
  {
    hide RunFrom, IsOpen;
    forall k | 0 <= k <= |moves| ensures OpenCount(RunFrom(s, moves[..k]), login) <= |RunFrom(s, moves).threads| {
      ThreadsOnlyGrow(s, moves, k);
    }
  }

  // ---------- logins nobody can register ----------

  /** The login is taken and every registration of it fails at the look-up, or it is too long and never inserted. */
  ghost predicate Barren(s: Shared, login: string) {
    || (GetClientId(s.db, login) != NO_ID && forall th :: th in s.threads ==> !Candidate(th, login))
    || (GetClientId(s.db, login) == NO_ID && !FitsName(login)
        && forall th :: th in s.threads && th.login == login ==> GotId(th.pc) == NO_ID)
  }

  lemma StepBarren(s: Shared, move: Move, login: string)
    requires IdsSound(s.db) && Barren(s, login)
    ensures Barren(Step(s, move), login)
  {
    hide GetClientId, IdsSound, InsertClient;
    if move.Go? && move.thread < |s.threads| {
      var th := s.threads[move.thread];
      assert th in s.threads;
      FirstRowStays(s.db, th.login, th.password, login);
    }
  }

  lemma {:induction false} RunBarren(s: Shared, moves: seq<Move>, login: string)
    requires Inv(s) && Barren(s, login)
    ensures Barren(RunFrom(s, moves), login)
  {
    if moves != [] {
      hide Barren, Step;
      var n := |moves| - 1;
      RunBarren(s, moves[..n], login);
      RunInv(s, moves[..n]);
      StepBarren(RunFrom(s, moves[..n]), moves[n], login);
    }
  }

  lemma BarrenDiffer(s: Shared, login: string)
    requires Barren(s, login)
    ensures AnswersDiffer(s, login)
  {
    hide GetClientId;
    assert forall th :: th in s.threads ==> !SuccessOn(th, login);
  }

  /** Accounts of their own, exactly. From any state with no registration under way: in every interleaving in which at
      most n registrations of this login are under way at a time, different answered ones get different ids, if and
      only if n is at most one, the login is taken already, or it is too long to be registered at all. */
  lemma OwnAccountsIffNoOverlap(s: Shared, login: string, n: nat)
    requires IdsSound(s.db) && s.threads == []
    ensures (forall moves :: AtMostOpen(s, moves, login, n) ==> AnswersDiffer(RunFrom(s, moves), login)) <==>
              n <= 1 || GetClientId(s.db, login) != NO_ID || !FitsName(login)
  {
    hide GetClientId, IdsSound, RunFrom, AtMostOpen, AnswersDiffer, FitsName;
    if GetClientId(s.db, login) != NO_ID || !FitsName(login) {
      forall moves ensures AnswersDiffer(RunFrom(s, moves), login) {
        RunBarren(s, moves, login);
        BarrenDiffer(RunFrom(s, moves), login);
      }
    } else if n <= 1 {
      forall moves | AtMostOpen(s, moves, login, n) ensures AnswersDiffer(RunFrom(s, moves), login) {
        FewerOpen(s, moves, login, n, 1);
        RunOneCandidate(s, moves, login);
        OneCandidateDiffer(RunFrom(s, moves), login);
      }
    } else {
      EmptyFits();
      var moves := AccountHandedOver(s, 1, 2, login, "", "");
      FewThreadsFewOpen(s, moves, login);
      FewerOpen(s, moves, login, 2, n);
      assert !AnswersDiffer(RunFrom(s, moves), login) by { SameAnswer(RunFrom(s, moves), login); }
    }
  }

  lemma EmptyFits()
    ensures FitsName("")
  {
  }

  lemma FewerOpen(s: Shared, moves: seq<Move>, login: string, m: nat, n: nat)
    requires AtMostOpen(s, moves, login, m) && m <= n
    ensures AtMostOpen(s, moves, login, n)
  {
    hide OpenCount, RunFrom;
  }

  lemma SameAnswer(s: Shared, login: string)
    requires |s.threads| == 2 && SuccessOn(s.threads[0], login) && SuccessOn(s.threads[1], login)
    requires s.threads[0].pc == s.threads[1].pc
    ensures !AnswersDiffer(s, login)
  {
  }

  /** A registration that runs alone does what the chat model says the whole request does. */
  lemma AloneIsAtomic(s: Shared, channels: map<Id, ChannelView>, session: Session, login: string, password: string)
    requires s.threads == []
    ensures var s' := RunFrom(s, [Begin(session, login, password), Go(0), Go(0), Go(0), Go(0)]);
      var server, e := Server(s.db, channels, s.users), Registration(session, login, password);
      && |s'.threads| == 1 && s'.threads[0].pc == Answered(Answer(Running(server, {}), e))
      && Server(s'.db, channels, s'.users) == Served(server, e)
  {
    hide GetClientId, InsertClient, RunFrom;
    assert RunFrom(s, []) == s by { NoMoves(s); }
    var moves := Then(s, [], Begin(session, login, password));
    moves := Then(s, moves, Go(0));
    moves := Then(s, moves, Go(0));
    moves := Then(s, moves, Go(0));
    moves := Then(s, moves, Go(0));
    assert moves == [Begin(session, login, password), Go(0), Go(0), Go(0), Go(0)];
  }
}
