/** Incremental polling of a channel's history: the first poll asks since DateTime(), every later one since the
    largest date received so far. */
module Sync {
  import opened Basics
  import opened DateText
  import opened Schema
  import opened ChatModel
  import opened HistoryRoundTrip
  import opened Accounts
  import opened Delivery
  import opened Recovery

  /** The largest date among the received messages; DateTime() when there are none. */
  function Largest(received: seq<TextMsg>): DateTime {
    if received == [] then DEFAULT_DATE
    else
      var last := received[|received| - 1].date;
      var before := Largest(received[..|received| - 1]);
      if |received| == 1 || Earlier(before, last) then last else before
  }

  /** The replies to successive polls, when part k is what was stored between polls k-1 and k. */
  function Replies(stored: seq<seq<TextMsg>>): seq<seq<TextMsg>>
    ensures |Replies(stored)| == |stored|
  {
    if stored == [] then []
    else
      var before := Replies(stored[..|stored| - 1]);
      before + [Since(Flatten(stored), Largest(Flatten(before)))]
  }

  /** Every new message is dated after everything stored before, and the latest of those is not DateTime(). */
  predicate Later(earlier: seq<TextMsg>, fresher: seq<TextMsg>) {
    earlier == [] || (Largest(earlier) != DEFAULT_DATE && forall m :: m in fresher ==>
        Earlier(Largest(earlier), m.date))
  }

  lemma {:induction false} LargestIsMaximum(received: seq<TextMsg>)
    requires received != []
    ensures exists m :: m in received && m.date == Largest(received)
    ensures forall m :: m in received ==> !Earlier(Largest(received), m.date)
  {
    hide Earlier;
    var n := |received| - 1;
    var init, last := received[..n], received[n];
    assert last in received && received == init + [last];
    if n > 0 {
      LargestIsMaximum(init);
      var m :| m in init && m.date == Largest(init);
      assert m in received;
      forall x | x in received ensures !Earlier(Largest(received), x.date) {
        EarlierIsStrictTotalOrder(Largest(init), last.date, x.date);
        EarlierIsStrictTotalOrder(Largest(received), x.date, last.date);
        EarlierIsStrictTotalOrder(last.date, x.date, Largest(init));
        EarlierIsStrictTotalOrder(x.date, Largest(init), last.date);
        assert x in init || x == last;
      }
    } else {
      EarlierIsStrictTotalOrder(last.date, last.date, last.date);
    }
  }

  /** One poll by a client that has everything stored so far returns exactly what is new, if and only if the new
      messages are later. */
  lemma PollExact(earlier: seq<TextMsg>, fresher: seq<TextMsg>)
    ensures Since(earlier + fresher, Largest(earlier)) == fresher <==> Later(earlier, fresher)
  {
    hide Earlier;
    var since := Largest(earlier);
    var p := (m: TextMsg) => Wanted(since, m);
    WhereConcat(earlier, fresher, p);
    WhereAllOrNone(earlier, p);
    WhereAllOrNone(fresher, p);
    WhereAllOrNone(earlier + fresher, p);
    if earlier != [] {
      LargestIsMaximum(earlier);
      if since == DEFAULT_DATE {
        assert |Since(earlier + fresher, since)| == |earlier + fresher|;
      } else {
        assert Since(earlier + fresher, since) == Where(fresher, p);
        if Where(fresher, p) == fresher {
          forall m | m in fresher ensures Earlier(since, m.date) { assert m in Where(fresher, p); }
        }
      }
    } else {
      assert earlier + fresher == fresher;
    }
  }

  lemma RepliesInit(stored: seq<seq<TextMsg>>)
    requires stored != []
    ensures Replies(stored)[..|stored| - 1] == Replies(stored[..|stored| - 1])
  {
    hide Since, Largest, Flatten;
  }

  /** The last poll asks since the largest date in the replies before it. */
  lemma RepliesLast(stored: seq<seq<TextMsg>>)
    requires stored != []
    ensures var n := |stored| - 1;
      Replies(stored)[n] ==
        Since(Flatten(stored[..n]) + stored[n], Largest(Flatten(Replies(stored[..n]))))
  {
    hide Since, Largest;
  }

  /** Over any number of polls the replies are, part by part, exactly what was stored between the polls, with no
      loss and no repeat, if and only if every part is later than all parts before it. */
  lemma {:induction false} PollsExact(stored: seq<seq<TextMsg>>)
    ensures Replies(stored) == stored <==>
              forall k :: 0 <= k < |stored| ==> Later(Flatten(stored[..k]), stored[k])
  {
    hide Later, Largest, Since, Flatten, Replies;
    if stored != [] {
      var n := |stored| - 1;
      var init, last := stored[..n], stored[n];
      PollsExact(init);
      assert forall k :: 0 <= k < n ==> init[..k] == stored[..k] && init[k] == stored[k];
      RepliesInit(stored);
      RepliesLast(stored);
      PollExact(Flatten(init), last);
      SameByInit(Replies(stored), stored);
    }
  }

  /** Two lists of the same length are equal if all but the last and the last are. */
  lemma SameByInit<T>(a: seq<T>, b: seq<T>)
    requires |a| == |b| > 0
    ensures a == b <==> a[..|a| - 1] == b[..|b| - 1] && a[|a| - 1] == b[|b| - 1]
  {
    assert a == a[..|a| - 1] + [a[|a| - 1]] && b == b[..|b| - 1] + [b[|b| - 1]];
  }

  /** Dates grow from part to part and are never DateTime(). */
  predicate Growing(stored: seq<seq<TextMsg>>) {
    && (forall k, m :: 0 <= k < |stored| && m in stored[k] ==> m.date != DEFAULT_DATE)
    && (forall j, k, a, b :: 0 <= j < k < |stored| && a in stored[j] && b in stored[k] ==> Earlier(a.date, b.date))
  }

  /** Growing dates make every poll exact. */
  lemma {:induction false} GrowingDatesSuffice(stored: seq<seq<TextMsg>>)
    requires Growing(stored)
    ensures Replies(stored) == stored && Flatten(Replies(stored)) == Flatten(stored)
  {
    hide Earlier;
    forall k | 0 <= k < |stored| ensures Later(Flatten(stored[..k]), stored[k]) {
      var earlier := Flatten(stored[..k]);
      if earlier != [] {
        LargestIsMaximum(earlier);
        var m :| m in earlier && m.date == Largest(earlier);
        var j := PartOf(stored[..k], m);
        assert stored[..k][j] == stored[j];
      }
    }
    PollsExact(stored);
  }

  lemma {:induction false} PartOf<T>(parts: seq<seq<T>>, x: T) returns (j: nat)
    requires x in Flatten(parts)
    ensures j < |parts| && x in parts[j]
  {
    var n := |parts| - 1;
    if x in parts[n] { j := n; } else { j := PartOf(parts[..n], x); }
  }

  // ---------- polls in a run of the server ----------

  lemma {:induction false} StoredGrow(events: seq<Event>, more: seq<Event>, name: string)
    ensures StoredTexts(events, name) <= StoredTexts(events + more, name)
  {
    hide Storable;
    if more == [] {
      assert events + more == events;
    } else {
      var n := |more| - 1;
      assert (events + more)[..|events| + n] == events + more[..n];
      StoredGrow(events, more[..n], name);
    }
  }

  /** What each section of a run adds to the stored texts of a channel. */
  ghost function Parts(sections: seq<seq<Event>>, name: string): (parts: seq<seq<TextMsg>>)
    ensures |parts| == |sections|
    ensures Flatten(parts) == StoredTexts(Flatten(sections), name)
  {
    if sections == [] then []
    else
      var init := sections[..|sections| - 1];
      StoredGrow(Flatten(init), sections[|sections| - 1], name);
      var part := StoredTexts(Flatten(sections), name)[|StoredTexts(Flatten(init), name)|..];
      var parts := Parts(init, name) + [part];
      assert parts[..|parts| - 1] == Parts(init, name);
      parts
  }

  lemma PartsInit(sections: seq<seq<Event>>, name: string)
    requires sections != []
    ensures Parts(sections, name)[..|sections| - 1] == Parts(sections[..|sections| - 1], name)
  {
    hide StoredTexts, Flatten;
  }

  lemma {:induction false} PartsPrefix(sections: seq<seq<Event>>, name: string, k: nat)
    requires k <= |sections|
    ensures Parts(sections, name)[..k] == Parts(sections[..k], name)
  {
    hide Parts, Flatten, StoredTexts;
    if k < |sections| {
      var n := |sections| - 1;
      PartsPrefix(sections[..n], name, k);
      PartsInit(sections, name);
      assert sections[..n][..k] == sections[..k];
      assert Parts(sections, name)[..n][..k] == Parts(sections, name)[..k];
    } else {
      assert sections[..k] == sections && Parts(sections, name)[..k] == Parts(sections, name);
    }
  }

  /** The texts wanted by the poll after section k of a run are reply k over what the sections stored. */
  lemma {:induction false} PollInRun(sections: seq<seq<Event>>, name: string, k: nat)
    requires k < |sections|
    ensures var parts := Parts(sections, name);
      WantedTexts(Flatten(sections[..k + 1]), name, Largest(Flatten(Replies(parts[..k])))) == Replies(parts[..k + 1])[k]
  {
    hide Since, Largest, StoredTexts;
    var parts := Parts(sections, name);
    PartsPrefix(sections, name, k + 1);
    assert parts[..k + 1][..k] == parts[..k];
  }

  // ---------- the replies a member gets ----------

  /** The messages of a reply; a poll that is not answered brings none. */
  function Messages(out: seq<SessionWrite>): seq<TextMsg> {
    if out != [] && out[0].payload.HistoryResponse? then out[0].payload.messages else []
  }

  function Received(outs: seq<seq<SessionWrite>>): seq<TextMsg> { Flatten(Column(outs, Messages)) }

  /** A member polls after each section of a run, each time since the largest date it has received so far; outs are
      the session writes its polls issue. A section may begin with the request of the poll before it. */
  ghost predicate Polls(sections: seq<seq<Event>>, outs: seq<seq<SessionWrite>>, id: Id, name: string) {
    && |outs| == |sections|
    && forall k :: 0 <= k < |sections| ==> PolledAt(sections, outs, id, name, k)
  }

  ghost predicate PolledAt(sections: seq<seq<Event>>, outs: seq<seq<SessionWrite>>, id: Id, name: string, k: nat)
    requires k < |sections| == |outs|
  {
    var events := Flatten(sections[..k + 1]);
    && Reached(events, id, name)
    && Outputs(Run(events), HistoryRequest(id, name, Largest(Received(outs[..k]))), outs[k])
  }

  /** The largest date does not depend on the order of the messages. */
  lemma LargestOfMultiset(a: seq<TextMsg>, b: seq<TextMsg>)
    requires multiset(a) == multiset(b)
    ensures Largest(a) == Largest(b)
  {
    hide Largest, Earlier;
    assert forall m :: m in a <==> m in multiset(a);
    assert forall m :: m in b <==> m in multiset(b);
    if a == [] {
      assert |b| == |multiset(b)| == 0;
    } else {
      assert a[0] in b;
      LargestIsMaximum(a);
      LargestIsMaximum(b);
      EarlierIsStrictTotalOrder(Largest(a), Largest(b), Largest(a));
    }
  }

  lemma {:induction false} RepliesPrefix(stored: seq<seq<TextMsg>>, k: nat)
    requires k <= |stored|
    ensures Replies(stored)[..k] == Replies(stored[..k])
  {
    hide Replies;
    if k < |stored| {
      var n := |stored| - 1;
      RepliesPrefix(stored[..n], k);
      RepliesInit(stored);
      assert stored[..n][..k] == stored[..k];
      assert Replies(stored)[..n][..k] == Replies(stored)[..k];
    } else {
      assert stored[..k] == stored && Replies(stored)[..k] == Replies(stored);
    }
  }

  /** Whether a poll is exact does not depend on the order in which the reply is listed. */
  lemma PollExactAsMultiset(earlier: seq<TextMsg>, fresher: seq<TextMsg>)
    ensures multiset(Since(earlier + fresher, Largest(earlier))) == multiset(fresher) <==> Later(earlier, fresher)
  {
    hide Later, Since, Largest;
    PollExact(earlier, fresher);
    var got := Since(earlier + fresher, Largest(earlier));
    if multiset(got) == multiset(fresher) {
      assert |got| == |multiset(got)| == |fresher|;
      SinceOfSameSize(earlier, fresher);
    }
  }

  lemma SinceOfSameSize(earlier: seq<TextMsg>, fresher: seq<TextMsg>)
    requires |Since(earlier + fresher, Largest(earlier))| == |fresher|
    ensures Since(earlier + fresher, Largest(earlier)) == fresher
  {
    hide Earlier, Largest, Where;
    var since := Largest(earlier);
    var p := (m: TextMsg) => Wanted(since, m);
    WhereConcat(earlier, fresher, p);
    WhereAllOrNone(earlier + fresher, p);
    WhereAllOrNone(earlier, p);
    if since == DEFAULT_DATE {
      assert Since(earlier + fresher, since) == earlier + fresher;
      assert earlier == [];
    } else {
      if earlier != [] { LargestIsMaximum(earlier); }
      assert Where(earlier, p) == [];
      WhereSameSize(fresher, p);
    }
  }

  lemma {:induction false} WhereSameSize<T(!new)>(rows: seq<T>, p: T -> bool)
    requires |Where(rows, p)| == |rows|
    ensures Where(rows, p) == rows
  {
    if rows != [] {
      var init, last := rows[..|rows| - 1], rows[|rows| - 1];
      assert rows == init + [last];
      WhereSnoc(init, last, p);
      hide Where;
      WhereSameSize(init, p);
    }
  }

  /** The same messages part by part, in some order. */
  predicate SamePerPart(a: seq<seq<TextMsg>>, b: seq<seq<TextMsg>>) {
    |a| == |b| && forall k :: 0 <= k < |a| ==> multiset(a[k]) == multiset(b[k])
  }

  lemma {:induction false} FlattenSameParts(a: seq<seq<TextMsg>>, b: seq<seq<TextMsg>>)
    requires SamePerPart(a, b)
    ensures multiset(Flatten(a)) == multiset(Flatten(b))
  {
    if a != [] { FlattenSameParts(a[..|a| - 1], b[..|b| - 1]); }
  }

  /** Part by part, the replies a member gets are the filtered histories of Replies. */
  lemma {:induction false} ReplyAt(sections: seq<seq<Event>>, outs: seq<seq<SessionWrite>>, id: Id, name: string,
      k: nat)
    requires Polls(sections, outs, id, name) && k < |sections|
    ensures multiset(Messages(outs[k])) == multiset(Replies(Parts(sections, name))[k])
  {
    hide Replies, Parts, Flatten, Largest, Reached, Outputs, Run, WantedTexts;
    var parts := Parts(sections, name);
    forall j | 0 <= j < k ensures multiset(Messages(outs[j])) == multiset(Replies(parts)[j]) {
      ReplyAt(sections, outs, id, name, j);
    }
    RepliesPrefix(parts, k);
    RepliesPrefix(parts, k + 1);
    FlattenSameParts(Column(outs[..k], Messages), Replies(parts)[..k]);
    LargestOfMultiset(Received(outs[..k]), Flatten(Replies(parts[..k])));
    PollInRun(sections, name, k);
    assert PolledAt(sections, outs, id, name, k);
    HistoryRoundTrips(Flatten(sections[..k + 1]), id, name, Largest(Received(outs[..k])), outs[k]);
    assert Replies(parts[..k + 1])[k] == Replies(parts)[k];
  }

  lemma {:induction false} RepliesExactAsMultisets(stored: seq<seq<TextMsg>>)
    requires SamePerPart(Replies(stored), stored)
    ensures Replies(stored) == stored
  {
    hide Later, Largest, Since, Flatten, Replies, SamePerPart;
    if stored != [] {
      var n := |stored| - 1;
      var init, last := stored[..n], stored[n];
      RepliesInit(stored);
      SameButLast(Replies(stored), stored);
      RepliesExactAsMultisets(init);
      RepliesLast(stored);
      PollExactAsMultiset(Flatten(init), last);
      PollExact(Flatten(init), last);
      SameByInit(Replies(stored), stored);
    }
  }

  lemma SameButLast(a: seq<seq<TextMsg>>, b: seq<seq<TextMsg>>)
    requires SamePerPart(a, b) && a != []
    ensures SamePerPart(a[..|a| - 1], b[..|b| - 1]) && multiset(a[|a| - 1]) == multiset(b[|b| - 1])
  {
  }

  /** Incremental sync, exactly. Over any run with restarts, a member that polls at times when it can be reached, each
      time since the largest date received so far, gets each time exactly the texts stored since its last poll, every
      field unchanged, if and only if each time these are dated after everything stored before and the largest date
      stored before is not DateTime(). */
  lemma PollsReturnWhatIsNew(sections: seq<seq<Event>>, outs: seq<seq<SessionWrite>>, id: Id, name: string)
    requires Polls(sections, outs, id, name)
    ensures var parts := Parts(sections, name);
      (forall k :: 0 <= k < |outs| ==> multiset(Messages(outs[k])) == multiset(parts[k])) <==>
      (forall k :: 0 <= k < |parts| ==> Later(Flatten(parts[..k]), parts[k]))
  {
    hide Replies, Parts, Later, Messages, Polls, Flatten;
    var parts := Parts(sections, name);
    SameLengths(sections, outs, id, name);
    forall k | 0 <= k < |outs| ensures multiset(Messages(outs[k])) == multiset(Replies(parts)[k]) {
      ReplyAt(sections, outs, id, name, k);
    }
    PollsExact(parts);
    if forall k :: 0 <= k < |outs| ==> multiset(Messages(outs[k])) == multiset(parts[k]) {
      RepliesExactAsMultisets(parts);
    }
  }

  lemma SameLengths(sections: seq<seq<Event>>, outs: seq<seq<SessionWrite>>, id: Id, name: string)
    requires Polls(sections, outs, id, name)
    ensures |outs| == |sections|
  {
  }

  /** With dates that grow from poll to poll and never are DateTime(), all replies together are the full history of the
      channel, with no loss and no repeat. */
  lemma PollsReturnEverything(sections: seq<seq<Event>>, outs: seq<seq<SessionWrite>>, id: Id, name: string)
    requires Polls(sections, outs, id, name)
    requires Growing(Parts(sections, name))
    ensures multiset(Received(outs)) == multiset(StoredTexts(Flatten(sections), name))
  {
    hide Replies, Parts, Messages, Polls, Flatten, Growing, StoredTexts;
    var parts := Parts(sections, name);
    SameLengths(sections, outs, id, name);
    forall k | 0 <= k < |outs| ensures multiset(Messages(outs[k])) == multiset(Replies(parts)[k]) {
      ReplyAt(sections, outs, id, name, k);
    }
    GrowingDatesSuffice(parts);
    FlattenSameParts(Column(outs, Messages), parts);
  }

  // ---------- two texts in one second ----------

  const NOON := DateTime(2021, 6, 13, 12, 0, 0)
  const FIRST := TextMsg("ann", "first", "den", NOON)
  const SECOND := TextMsg("ann", "second", "den", NOON)

  /** A client joins and sends two texts in the same second, and polls after each. */
  const TWO_TEXTS: seq<seq<Event>> := [[ANN, JoinRoom(1, "den"), SendText(FIRST)], [SendText(SECOND)]]

  lemma TwoTextsRun()
    ensures Flatten(TWO_TEXTS[..0]) == [] && Flatten(TWO_TEXTS[..1]) == [ANN, JoinRoom(1, "den"), SendText(FIRST)]
    ensures Flatten(TWO_TEXTS[..2]) == [ANN, JoinRoom(1, "den"), SendText(FIRST), SendText(SECOND)]
    ensures TWO_TEXTS[..2] == TWO_TEXTS
  {
    assert TWO_TEXTS[..1][..0] == [] && TWO_TEXTS[..2][..1] == TWO_TEXTS[..1];
  }

  /** A run of requests alone does not stop the server. */
  lemma RunsOn(events: seq<Event>)
    requires forall e :: e in events ==> !e.Restart?
    ensures Run(events).Running?
  {
    hide Run, EverNamedEmpty;
    UnnamedRow(events);
  }

  /** Every text of ann after her registration is stored. */
  lemma AnnStores(events: seq<Event>, m: TextMsg)
    requires (forall e :: e in events ==> !e.Restart?) && events != [] && events[0] == ANN
    requires m.author == "ann" && m.channel == "den" && FitsText(m.text) && m.date == NOON
    ensures Storable(events, m)
  {
    hide Run, Answer;
    RunsOn(events);
    FirstRegistration();
    assert events[..0] == [] && AnswerAt(events, 0) == 1;
  }

  lemma StoredSnoc(init: seq<Event>, e: Event, name: string)
    ensures StoredTexts(init + [e], name) ==
              StoredTexts(init, name) +
              if e.SendText? && e.message.channel == name && Storable(init, e.message) then [e.message] else []
  {
    hide Storable;
    assert (init + [e])[..|init|] == init;
  }

  lemma FirstStored()
    ensures StoredTexts([ANN, JoinRoom(1, "den"), SendText(FIRST)], "den") == [FIRST]
  {
    hide Storable, FitsText;
    ShortTexts();
    var a, b := [ANN], [ANN, JoinRoom(1, "den")];
    assert a == [] + [ANN] && b == a + [JoinRoom(1, "den")];
    assert [ANN, JoinRoom(1, "den"), SendText(FIRST)] == b + [SendText(FIRST)];
    assert StoredTexts([], "den") == [];
    hide StoredTexts;
    StoredSnoc([], ANN, "den");
    StoredSnoc(a, JoinRoom(1, "den"), "den");
    StoredSnoc(b, SendText(FIRST), "den");
    AnnStores(b, FIRST);
  }

  lemma TwoTextsStored()
    ensures StoredTexts([ANN, JoinRoom(1, "den"), SendText(FIRST)], "den") == [FIRST]
    ensures StoredTexts([ANN, JoinRoom(1, "den"), SendText(FIRST), SendText(SECOND)], "den") == [FIRST, SECOND]
  {
    hide Storable, FitsText, StoredTexts;
    ShortTexts();
    FirstStored();
    var c := [ANN, JoinRoom(1, "den"), SendText(FIRST)];
    assert c + [SendText(SECOND)] == [ANN, JoinRoom(1, "den"), SendText(FIRST), SendText(SECOND)];
    StoredSnoc(c, SendText(SECOND), "den");
    AnnStores(c, SECOND);
    assert [FIRST] + [SECOND] == [FIRST, SECOND];
  }

  lemma ShortTexts()
    ensures FitsText("first") && FitsText("second")
  {
  }

  lemma TwoTextsParts()
    ensures Parts(TWO_TEXTS, "den") == [[FIRST], [SECOND]]
  {
    hide StoredTexts, TWO_TEXTS;
    TwoTextsRun();
    TwoTextsStored();
    var parts := Parts(TWO_TEXTS, "den");
    assert |TWO_TEXTS| == 2;
    PartsPrefix(TWO_TEXTS, "den", 0);
    PartsPrefix(TWO_TEXTS, "den", 1);
    PartsPrefix(TWO_TEXTS, "den", 2);
    assert parts == [parts[0], parts[1]];
    assert parts[..1] == [parts[0]];
    FlattenOne(parts[0]);
    FlattenTwo(parts[0], parts[1]);
    assert [FIRST, SECOND] == [FIRST] + [SECOND];
  }

  lemma FlattenOne<T>(a: seq<T>)
    ensures Flatten([a]) == a
  {
    assert [a][..0] == [];
  }

  lemma FlattenTwo<T>(a: seq<T>, b: seq<T>)
    ensures Flatten([a, b]) == a + b
  {
    assert [a, b][..1] == [a];
    FlattenOne(a);
  }

  lemma TwoTextsReached()
    ensures Reached([ANN, JoinRoom(1, "den"), SendText(FIRST)], 1, "den")
    ensures Reached([ANN, JoinRoom(1, "den"), SendText(FIRST), SendText(SECOND)], 1, "den")
  {
    hide Run, Answer;
    var a, b := [ANN], [ANN, JoinRoom(1, "den")];
    var c := [ANN, JoinRoom(1, "den"), SendText(FIRST)];
    var d := [ANN, JoinRoom(1, "den"), SendText(FIRST), SendText(SECOND)];
    FirstRegistration();
    LatestSnoc([], ANN, 1);
    LatestSnoc(a, JoinRoom(1, "den"), 1);
    LatestSnoc(b, SendText(FIRST), 1);
    LatestSnoc(c, SendText(SECOND), 1);
    assert [] + [ANN] == a && a + [JoinRoom(1, "den")] == b && b + [SendText(FIRST)] == c
        && c + [SendText(SECOND)] == d;
    assert c[..1] == a && d[..1] == a;
    hide LatestSession;
    assert JoinedAt(c, 1, 1, "den") && JoinedAt(d, 1, 1, "den");
  }

  /** Whatever happened before, a poll has an outcome. */
  lemma SomePoll(events: seq<Event>, id: Id, name: string, since: DateTime) returns (out: seq<SessionWrite>)
    ensures Outputs(Run(events), HistoryRequest(id, name, since), out)
  {
    hide Run, OpenChannel, HistoryReply;
    var w := Run(events);
    out := [];
    if w.Running? {
      var o := OpenChannel(w.server, name);
      if o.id.Some? { out := HistoryReply(o.server, w.closed, o.id.value, id, since); }
    }
  }

  /** The polls of this run exist. */
  lemma TwoTextsPolled() returns (outs: seq<seq<SessionWrite>>)
    ensures Polls(TWO_TEXTS, outs, 1, "den")
  {
    hide Run, Outputs, Reached, Largest, Flatten;
    TwoTextsRun();
    TwoTextsReached();
    var one := SomePoll(Flatten(TWO_TEXTS[..1]), 1, "den", Largest(Received([])));
    var two := SomePoll(Flatten(TWO_TEXTS[..2]), 1, "den", Largest(Received([one])));
    outs := [one, two];
    assert outs[..0] == [] && outs[..1] == [one];
    assert PolledAt(TWO_TEXTS, outs, 1, "den", 0) && PolledAt(TWO_TEXTS, outs, 1, "den", 1);
  }

  /** Two texts in one second: the client gets the first and never the second. */
  lemma SecondTextLost(outs: seq<seq<SessionWrite>>)
    requires Polls(TWO_TEXTS, outs, 1, "den")
    ensures Parts(TWO_TEXTS, "den") == [[FIRST], [SECOND]]
    ensures |outs| == 2 && Messages(outs[0]) == [FIRST] && Messages(outs[1]) == []
  {
    hide Polls, Parts, Replies, Messages, TWO_TEXTS;
    assert |TWO_TEXTS| == 2 by { TwoTextsRun(); }
    SameLengths(TWO_TEXTS, outs, 1, "den");
    TwoTextsParts();
    ReplyAt(TWO_TEXTS, outs, 1, "den", 0);
    ReplyAt(TWO_TEXTS, outs, 1, "den", 1);
    TwoTextsReplies();
    OneMessage(Messages(outs[0]), FIRST);
    assert |Messages(outs[1])| == |multiset(Messages(outs[1]))| == 0;
  }

  lemma OneMessage(messages: seq<TextMsg>, m: TextMsg)
    requires multiset(messages) == multiset([m])
    ensures messages == [m]
  {
    assert |messages| == |multiset(messages)| == 1;
    assert messages[0] in multiset(messages);
  }

  lemma TwoTextsReplies()
    ensures Replies([[FIRST], [SECOND]]) == [[FIRST], []]
  {
    var all := [[FIRST], [SECOND]];
    assert all[..1] == [[FIRST]] && [[FIRST]][..0] == [];
    RepliesLast([[FIRST]]);
    RepliesLast(all);
    RepliesInit([[FIRST]]);
    RepliesInit(all);
    FlattenOne([FIRST]);
    assert Flatten<TextMsg>([]) == [];
    hide Replies, Flatten, Earlier;
    PollExact([], [FIRST]);
    assert [] + [FIRST] == [FIRST];
    EarlierIsStrictTotalOrder(NOON, NOON, NOON);
    WhereAllOrNone([FIRST] + [SECOND], (m: TextMsg) => Wanted(NOON, m));
  }
}
