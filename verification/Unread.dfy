/**
 * The unread counter (internal/core/sync/live.go:218-296): what it counts, and
 * why it counts every new message once when the duplicate filter stands
 * before it.
 */
module Unread {

  import opened Dedup
  import opened Polling

  /**
   * What the drain loop sees: a message with the kind of its chat (none if it
   * is not known), a chat opened, the server's or the user's new unread count.
   */
  datatype Event =
    | Received(d: Delivered, typed: bool)
    | Opened(chatId: int)
    | Counted(chatId: int, unread: int)

  /** The open chat, and the unread counter of every chat row. */
  datatype Mirror = Mirror(open: int, unread: map<int, nat>)

  function WithRow(unread: map<int, nat>, chatId: int, typed: bool): map<int, nat> {
    if typed && chatId !in unread then unread[chatId := 0] else unread
  }

  /** The message row is written: its chat has a row and both ids are there. */
  predicate Saves(unread: map<int, nat>, m: Message) { m.chatId != 0 && m.id != 0 && m.chatId in unread }

  predicate Eligible(d: Delivered, open: int) {
    !d.edited && !d.m.outgoing && d.m.chatId != 0 && d.m.chatId != open
  }

  function Handled(s: Mirror, e: Event): Mirror {
    match e
    case Received(d, typed) =>
      var rows := WithRow(s.unread, d.m.chatId, typed);
      if Saves(rows, d.m) && Eligible(d, s.open)
      then Mirror(s.open, rows[d.m.chatId := rows[d.m.chatId] + 1])
      else Mirror(s.open, rows)
    case Opened(chatId) => s.(open := chatId)
    case Counted(chatId, n) => if chatId in s.unread then s.(unread := s.unread[chatId := if n < 0 then 0 else n]) else s
  }

  function Drained(s: Mirror, events: seq<Event>): Mirror {
    if events == [] then s else Handled(Drained(s, events[..|events| - 1]), events[|events| - 1])
  }

  class LiveService {
    var openChat: int
    var unread: map<int, nat>

    ghost function State(): Mirror
      reads this
    {
      Mirror(openChat, unread)
    }

    constructor (unread: map<int, nat>)
      ensures State() == Mirror(0, unread)
    {
      openChat, this.unread := 0, unread;
    }

    /** The row of the message's chat first, then the message, then the counter. */
    method Persist(d: Delivered, typed: bool)
      modifies this
      ensures State() == Handled(old(State()), Received(d, typed))
    {
      if typed && d.m.chatId !in unread { unread := unread[d.m.chatId := 0]; }
      var saved := d.m.chatId != 0 && d.m.id != 0 && d.m.chatId in unread;
      if !saved { return; }
      if d.edited || d.m.outgoing || d.m.chatId == 0 || d.m.chatId == openChat { return; }
      unread := unread[d.m.chatId := unread[d.m.chatId] + 1];
    }

    method Drain(events: seq<Event>)
      modifies this
      ensures State() == Drained(old(State()), events)
    {
      var i := 0;
      while i < |events|
        invariant 0 <= i <= |events|
        invariant State() == Drained(old(State()), events[..i])
      {
        assert events[..i + 1][..i] == events[..i];
        match events[i] {
          case Received(d, typed) => Persist(d, typed);
          case Opened(chatId) => openChat := chatId;
          case Counted(chatId, n) =>
            if chatId in unread { unread := unread[chatId := if n < 0 then 0 else n]; }
        }
        i := i + 1;
      }
      assert events[..|events|] == events;
    }
  }

  // ----- the counter as a count

  /** The chat on screen after some events. */
  function OpenAfter(open: int, events: seq<Event>): int {
    if events == [] then open
    else if events[|events| - 1].Opened? then events[|events| - 1].chatId
    else OpenAfter(open, events[..|events| - 1])
  }

  /** A message of this chat, of someone else and not an edit, while another chat is on screen. */
  predicate Missed(d: Delivered, c: int, screen: int) {
    d.m.chatId == c && c != 0 && d.m.id != 0 && !d.edited && !d.m.outgoing && c != screen
  }

  /** Messages of a chat among the events that a reader has not seen. */
  function Unseen(open: int, events: seq<Event>, c: int): nat {
    if events == [] then 0
    else
      var n := |events| - 1;
      var e := events[n];
      Unseen(open, events[..n], c) +
      if e.Received? && Missed(e.d, c, OpenAfter(open, events[..n])) then 1 else 0
  }

  predicate SetsNone(events: seq<Event>, c: int) {
    forall i :: 0 <= i < |events| ==> !(events[i].Counted? && events[i].chatId == c)
  }

  lemma {:induction false} DrainedJoin(s: Mirror, a: seq<Event>, b: seq<Event>)
    ensures Drained(s, a + b) == Drained(Drained(s, a), b)
    decreases |b|
  {
    if b == [] {
      assert a + b == a;
    } else {
      DrainedJoin(s, a, b[..|b| - 1]);
      assert (a + b)[..|a + b| - 1] == a + b[..|b| - 1];
    }
  }

  /** With no count from outside, a row's counter rises by the messages not seen. */
  lemma {:induction false} CountsUnseen(s: Mirror, events: seq<Event>, c: int)
    requires c in s.unread && SetsNone(events, c)
    ensures var t := Drained(s, events);
            t.open == OpenAfter(s.open, events) && c in t.unread && t.unread[c] == s.unread[c] + Unseen(s.open, events, c)
  {
    if events != [] {
      CountsUnseen(s, events[..|events| - 1], c);
    }
  }

  /**
   * The counter is the last count it was given plus the messages since that
   * were not the user's own, not edits, and not in the chat on screen.
   */
  lemma UnreadSinceLastCount(s: Mirror, before: seq<Event>, c: int, n: int, since: seq<Event>)
    requires c in Drained(s, before).unread && SetsNone(since, c)
    ensures var t := Drained(s, before + [Counted(c, n)] + since);
            c in t.unread
            && t.unread[c] == (if n < 0 then 0 else n) + Unseen(OpenAfter(s.open, before), since, c)
  {
    var counted := before + [Counted(c, n)];
    DrainedJoin(s, counted, since);
    assert counted[..|before|] == before;
    OpenIsOpen(s, before);
    CountsUnseen(Drained(s, counted), since, c);
  }

  lemma {:induction false} OpenIsOpen(s: Mirror, events: seq<Event>)
    ensures Drained(s, events).open == OpenAfter(s.open, events)
  {
    if events != [] { OpenIsOpen(s, events[..|events| - 1]); }
  }

  /**
   * A message makes a row for its chat if the kind of the chat is known, and
   * raises the counter of that row, and of no other, by one exactly when it is
   * somebody else's, not an edit, has an id, and its chat is not on screen.
   */
  lemma MessageCounts(s: Mirror, d: Delivered, typed: bool, c: int)
    ensures var t := Handled(s, Received(d, typed));
            var row := if c in s.unread then s.unread[c] else 0;
            t.open == s.open
            && (c in t.unread <==> c in s.unread || (typed && c == d.m.chatId))
            && (c in t.unread ==>
                  t.unread[c] == if c == d.m.chatId && c != 0 && d.m.id != 0 && !d.edited && !d.m.outgoing && c != s.open
                                 then row + 1 else row)
  {
  }

  /** A chat has a row when it had one, or once a message of it came with the kind of the chat known; none goes away. */
  lemma {:induction false} RowIff(s: Mirror, events: seq<Event>, c: int)
    ensures c in Drained(s, events).unread
            <==> c in s.unread || exists i :: 0 <= i < |events| && events[i].Received? && events[i].typed && events[i].d.m.chatId == c
  {
    if events != [] {
      var n := |events| - 1;
      RowIff(s, events[..n], c);
      if events[n].Received? { MessageCounts(Drained(s, events[..n]), events[n].d, events[n].typed, c); }
    }
  }

  // ----- behind the filter

  /** What reaches the bus's producers: a message, live or polled, a chat opened, a count. */
  datatype Arrival = Arrives(d: Delivered, typed: bool, polled: bool) | Opens(chatId: int) | Counts(chatId: int, n: int)

  /** Live edits and live messages without a chat never reach the filter. */
  predicate Filtered(a: Arrival) { a.Arrives? && !a.d.edited && (a.polled || a.d.m.chatId != 0) }

  /** The keys the filter has been asked about. */
  function Asked(arrivals: seq<Arrival>): seq<Key> {
    if arrivals == [] then []
    else
      var a := arrivals[|arrivals| - 1];
      Asked(arrivals[..|arrivals| - 1]) + if Filtered(a) then [KeyOf(a.d.m)] else []
  }

  /** What one arrival puts on the bus, given what the filter was asked before. */
  function Put(history: seq<Key>, a: Arrival, cap: nat): seq<Event> {
    match a
    case Opens(chatId) => [Opened(chatId)]
    case Counts(chatId, n) => [Counted(chatId, n)]
    case Arrives(d, typed, polled) =>
      if (!polled && d.m.chatId == 0) || (!d.edited && KeyOf(d.m) in Recent(history, cap)) then [] else [Received(d, typed)]
  }

  /** What the bus delivers of the arrivals from a given one on. */
  function OnBus(arrivals: seq<Arrival>, from: nat, cap: nat): seq<Event> {
    if |arrivals| <= from then []
    else
      var n := |arrivals| - 1;
      OnBus(arrivals[..n], from, cap) + Put(Asked(arrivals[..n]), arrivals[n], cap)
  }

  /** The messages among what the bus delivers. */
  function Messages(events: seq<Event>): seq<Delivered> {
    if events == [] then []
    else
      var e := events[|events| - 1];
      Messages(events[..|events| - 1]) + if e.Received? then [e.d] else []
  }

  lemma MessagesNext(events: seq<Event>, put: seq<Event>)
    requires |put| <= 1
    ensures Messages(events + put) == Messages(events) + if put != [] && put[0].Received? then [put[0].d] else []
  {
    if put == [] { assert events + put == events; } else { assert (events + put)[..|events|] == events; }
  }

  /** What one more arrival asks the filter and puts on the bus. */
  lemma BusNext(arrivals: seq<Arrival>, a: Arrival, cap: nat)
    ensures Asked(arrivals + [a]) == Asked(arrivals) + if Filtered(a) then [KeyOf(a.d.m)] else []
    ensures OnBus(arrivals + [a], 0, cap) == OnBus(arrivals, 0, cap) + Put(Asked(arrivals), a, cap)
  {
    hide Put;
    assert (arrivals + [a])[..|arrivals|] == arrivals;
  }

  /** The arrival that a live update makes, if it carries a message. */
  function Arriving(u: Carried, edited: bool, typed: bool): seq<Arrival> {
    match AsDelivered(u, edited) case None => [] case Some(d) => [Arrives(d, typed, false)]
  }

  /** PublishMessage asks the filter, and publishes, what the arrival it makes does. */
  lemma LiveArrives(arrivals: seq<Arrival>, u: Carried, edited: bool, typed: bool, cap: nat)
    ensures var more := arrivals + Arriving(u, edited, typed);
            Asked(more) == Asked(arrivals) + LiveKeys(u, edited)
            && Messages(OnBus(more, 0, cap)) == Messages(OnBus(arrivals, 0, cap)) + LivePassed(Asked(arrivals), cap, u, edited)
  {
    hide Recent, Asked, OnBus, Messages;
    match AsDelivered(u, edited) {
      case None => assert arrivals + Arriving(u, edited, typed) == arrivals;
      case Some(d) =>
        var a := Arrives(d, typed, false);
        BusNext(arrivals, a, cap);
        MessagesNext(OnBus(arrivals, 0, cap), Put(Asked(arrivals), a, cap));
    }
  }

  /** Messages handed to the filter by a tick, with whether their chats are known when they are drained. */
  function Polled(msgs: seq<Message>, typed: seq<bool>): seq<Arrival>
    requires |typed| == |msgs|
  {
    seq(|msgs|, i requires 0 <= i < |msgs| => Arrives(Delivered(msgs[i], false), typed[i], true))
  }

  /** A tick asks the filter, and publishes, what the polled arrivals do. */
  lemma {:induction false} TickArrives(arrivals: seq<Arrival>, msgs: seq<Message>, typed: seq<bool>, cap: nat)
    requires |typed| == |msgs|
    ensures var more := arrivals + Polled(msgs, typed);
            Asked(more) == Asked(arrivals) + Keys(msgs)
            && Messages(OnBus(more, 0, cap)) == Messages(OnBus(arrivals, 0, cap)) + Passed(Asked(arrivals), cap, msgs)
    decreases |msgs|
  {
    hide Recent, Asked, OnBus, Messages;
    if msgs == [] {
      assert arrivals + Polled(msgs, typed) == arrivals;
    } else {
      var n := |msgs| - 1;
      var rest := arrivals + Polled(msgs[..n], typed[..n]);
      var a := Arrives(Delivered(msgs[n], false), typed[n], true);
      assert arrivals + Polled(msgs, typed) == rest + [a];
      TickArrives(arrivals, msgs[..n], typed[..n], cap);
      BusNext(rest, a, cap);
      MessagesNext(OnBus(rest, 0, cap), Put(Asked(rest), a, cap));
    }
  }

  /** Every redelivery comes before cap other messages have. */
  predicate CloseTogether(arrivals: seq<Arrival>, cap: nat) {
    forall i :: 0 <= i < |arrivals| ==> Near(arrivals, i, cap)
  }

  predicate Near(arrivals: seq<Arrival>, i: nat, cap: nat)
    requires i < |arrivals|
  {
    Filtered(arrivals[i]) && KeyOf(arrivals[i].d.m) in Asked(arrivals[..i]) ==>
      |Since(Asked(arrivals[..i]), KeyOf(arrivals[i].d.m))| < cap
  }

  /** The chat on screen after some arrivals. */
  function OnScreen(open: int, arrivals: seq<Arrival>): int {
    if arrivals == [] then open
    else if arrivals[|arrivals| - 1].Opens? then arrivals[|arrivals| - 1].chatId
    else OnScreen(open, arrivals[..|arrivals| - 1])
  }

  /** The messages of a chat, from a given arrival on, that came for the first time and that a reader has not seen. */
  function NewUnseen(open: int, arrivals: seq<Arrival>, from: nat, c: int): nat {
    if |arrivals| <= from then 0
    else
      var n := |arrivals| - 1;
      var a := arrivals[n];
      NewUnseen(open, arrivals[..n], from, c) +
      if a.Arrives? && Missed(a.d, c, OnScreen(open, arrivals[..n]))
         && KeyOf(a.d.m) !in Asked(arrivals[..n]) then 1 else 0
  }

  lemma {:induction false} OnBusSplits(arrivals: seq<Arrival>, from: nat, cap: nat)
    requires from <= |arrivals|
    ensures OnBus(arrivals, 0, cap) == OnBus(arrivals[..from], 0, cap) + OnBus(arrivals, from, cap)
  {
    hide Put, Asked;
    if |arrivals| == from {
      assert arrivals[..from] == arrivals;
    } else {
      var rest := arrivals[..|arrivals| - 1];
      var put := Put(Asked(rest), arrivals[|arrivals| - 1], cap);
      OnBusSplits(rest, from, cap);
      assert rest[..from] == arrivals[..from];
      assert OnBus(rest, 0, cap) + put == OnBus(arrivals[..from], 0, cap) + (OnBus(rest, from, cap) + put);
    }
  }

  lemma {:induction false} ScreenOnBus(open: int, arrivals: seq<Arrival>, cap: nat)
    ensures OpenAfter(open, OnBus(arrivals, 0, cap)) == OnScreen(open, arrivals)
  {
    hide Recent, Asked;
    if arrivals != [] {
      var n := |arrivals| - 1;
      ScreenOnBus(open, arrivals[..n], cap);
      var put := Put(Asked(arrivals[..n]), arrivals[n], cap);
      var before := OnBus(arrivals[..n], 0, cap);
      if put == [] { assert before + put == before; } else { assert (before + put)[..|before|] == before; }
    }
  }

  lemma {:induction false} OpenJoin(open: int, a: seq<Event>, b: seq<Event>)
    ensures OpenAfter(open, a + b) == OpenAfter(OpenAfter(open, a), b)
    decreases |b|
  {
    if b == [] {
      assert a + b == a;
    } else {
      OpenJoin(open, a, b[..|b| - 1]);
      assert (a + b)[..|a + b| - 1] == a + b[..|b| - 1];
    }
  }

  /** Of messages that come close together, the bus delivers each first arrival and no other. */
  lemma FirstArrivalsPass(arrivals: seq<Arrival>, i: nat, cap: nat)
    requires cap > 0 && i < |arrivals| && Near(arrivals, i, cap) && Filtered(arrivals[i])
    ensures Put(Asked(arrivals[..i]), arrivals[i], cap)
            == if KeyOf(arrivals[i].d.m) in Asked(arrivals[..i]) then [] else [Received(arrivals[i].d, arrivals[i].typed)]
  {
    DuplicateIff(Asked(arrivals[..i]), cap, KeyOf(arrivals[i].d.m));
  }

  /** The redelivered messages of a chat, from a given arrival on, that come too late for the filter and are not seen. */
  function LateUnseen(open: int, arrivals: seq<Arrival>, from: nat, cap: nat, c: int): nat {
    if |arrivals| <= from then 0
    else
      var n := |arrivals| - 1;
      var a := arrivals[n];
      LateUnseen(open, arrivals[..n], from, cap, c) +
      if a.Arrives? && Missed(a.d, c, OnScreen(open, arrivals[..n]))
         && KeyOf(a.d.m) in Asked(arrivals[..n]) && |Since(Asked(arrivals[..n]), KeyOf(a.d.m))| >= cap then 1 else 0
  }

  /** What passes the filter: first arrivals, and redeliveries that come too late for it. */
  lemma PassesIff(arrivals: seq<Arrival>, i: nat, cap: nat)
    requires cap > 0 && i < |arrivals| && Filtered(arrivals[i])
    ensures var asked, key := Asked(arrivals[..i]), KeyOf(arrivals[i].d.m);
            Put(asked, arrivals[i], cap)
            == if key !in asked || |Since(asked, key)| >= cap then [Received(arrivals[i].d, arrivals[i].typed)] else []
  {
    DuplicateIff(Asked(arrivals[..i]), cap, KeyOf(arrivals[i].d.m));
  }

  /** What the filter is not asked about is nothing a reader missed. */
  lemma UnfilteredIsNotMissed(a: Arrival, c: int, screen: int)
    requires a.Arrives? && !Filtered(a)
    ensures !Missed(a.d, c, screen)
  {
  }

  lemma {:induction false} UnseenOnBus(open: int, arrivals: seq<Arrival>, from: nat, cap: nat, c: int)
    requires cap > 0 && from <= |arrivals|
    ensures Unseen(OnScreen(open, arrivals[..from]), OnBus(arrivals, from, cap), c)
            == NewUnseen(open, arrivals, from, c) + LateUnseen(open, arrivals, from, cap, c)
  {
    hide Recent, Asked, OnScreen, Since, Missed;
    if |arrivals| > from {
      var n := |arrivals| - 1;
      var rest := arrivals[..n];
      assert rest[..from] == arrivals[..from];
      UnseenOnBus(open, rest, from, cap, c);
      ScreenSince(open, rest, from, cap);
      if Filtered(arrivals[n]) {
        PassesIff(arrivals, n, cap);
      } else if arrivals[n].Arrives? {
        UnfilteredIsNotMissed(arrivals[n], c, OnScreen(open, rest));
      }
      UnseenPut(OnScreen(open, arrivals[..from]), OnBus(rest, from, cap), Put(Asked(rest), arrivals[n], cap), c);
    }
  }

  /** When redeliveries come close together none is late. */
  lemma {:induction false} NoneLate(open: int, arrivals: seq<Arrival>, from: nat, cap: nat, c: int)
    requires CloseTogether(arrivals, cap)
    ensures LateUnseen(open, arrivals, from, cap, c) == 0
  {
    hide Asked, OnScreen, Since;
    if |arrivals| > from {
      var n := |arrivals| - 1;
      assert Near(arrivals, n, cap);
      PrefixClose(arrivals, n, cap);
      NoneLate(open, arrivals[..n], from, cap, c);
    }
  }

  lemma UnseenPut(open: int, events: seq<Event>, put: seq<Event>, c: int)
    requires |put| <= 1
    ensures Unseen(open, events + put, c) == Unseen(open, events, c) +
            if put != [] && put[0].Received? && Missed(put[0].d, c, OpenAfter(open, events)) then 1 else 0
  {
    if put == [] { assert events + put == events; } else { assert (events + put)[..|events|] == events; }
  }

  lemma PrefixClose(arrivals: seq<Arrival>, n: nat, cap: nat)
    requires n <= |arrivals| && CloseTogether(arrivals, cap)
    ensures CloseTogether(arrivals[..n], cap)
  {
    forall i | 0 <= i < n ensures Near(arrivals[..n], i, cap) {
      assert Near(arrivals, i, cap) && arrivals[..n][..i] == arrivals[..i];
    }
  }

  lemma ScreenSince(open: int, arrivals: seq<Arrival>, from: nat, cap: nat)
    requires from <= |arrivals|
    ensures OpenAfter(OnScreen(open, arrivals[..from]), OnBus(arrivals, from, cap)) == OnScreen(open, arrivals)
  {
    ScreenOnBus(open, arrivals, cap);
    ScreenOnBus(open, arrivals[..from], cap);
    OnBusSplits(arrivals, from, cap);
    OpenJoin(open, OnBus(arrivals[..from], 0, cap), OnBus(arrivals, from, cap));
  }

  predicate CountsNone(arrivals: seq<Arrival>, from: nat, c: int) {
    forall i :: from <= i < |arrivals| ==> !(arrivals[i].Counts? && arrivals[i].chatId == c)
  }

  lemma {:induction false} BusSetsNone(arrivals: seq<Arrival>, from: nat, cap: nat, c: int)
    requires CountsNone(arrivals, from, c)
    ensures SetsNone(OnBus(arrivals, from, cap), c)
  {
    if |arrivals| > from { BusSetsNone(arrivals[..|arrivals| - 1], from, cap, c); }
  }

  /**
   * The counter of a chat is the last count it was given plus the new messages
   * since that its reader has not seen, each counted once, plus one for every
   * redelivery of an unseen message that comes after cap or more others.
   */
  lemma UnreadCountsArrivals(s: Mirror, arrivals: seq<Arrival>, i: nat, cap: nat, c: int)
    requires cap > 0
    requires i < |arrivals| && arrivals[i].Counts? && arrivals[i].chatId == c && CountsNone(arrivals, i + 1, c)
    requires c in Drained(s, OnBus(arrivals[..i], 0, cap)).unread
    ensures var t := Drained(s, OnBus(arrivals, 0, cap));
            c in t.unread
            && t.unread[c] == (if arrivals[i].n < 0 then 0 else arrivals[i].n)
                              + NewUnseen(s.open, arrivals, i + 1, c) + LateUnseen(s.open, arrivals, i + 1, cap, c)
  {
    hide Drained, Unseen, NewUnseen, LateUnseen, Recent;
    var before := OnBus(arrivals[..i], 0, cap);
    var since := OnBus(arrivals, i + 1, cap);
    OnBusSplits(arrivals, i + 1, cap);
    assert arrivals[..i + 1][..i] == arrivals[..i];
    assert OnBus(arrivals, 0, cap) == before + [Counted(c, arrivals[i].n)] + since;
    BusSetsNone(arrivals, i + 1, cap, c);
    UnreadSinceLastCount(s, before, c, arrivals[i].n, since);
    ScreenOnBus(s.open, arrivals[..i], cap);
    assert OnScreen(s.open, arrivals[..i + 1]) == OnScreen(s.open, arrivals[..i]);
    UnseenOnBus(s.open, arrivals, i + 1, cap, c);
  }

  /**
   * So when no redelivery is cap messages apart it counts each new message
   * once, whichever of the two paths brought it and however often.
   */
  lemma UnreadCountsNewMessages(s: Mirror, arrivals: seq<Arrival>, i: nat, cap: nat, c: int)
    requires cap > 0 && CloseTogether(arrivals, cap)
    requires i < |arrivals| && arrivals[i].Counts? && arrivals[i].chatId == c && CountsNone(arrivals, i + 1, c)
    requires c in Drained(s, OnBus(arrivals[..i], 0, cap)).unread
    ensures var t := Drained(s, OnBus(arrivals, 0, cap));
            c in t.unread
            && t.unread[c] == (if arrivals[i].n < 0 then 0 else arrivals[i].n) + NewUnseen(s.open, arrivals, i + 1, c)
  {
    hide Drained, OnBus, NewUnseen, LateUnseen, CloseTogether;
    UnreadCountsArrivals(s, arrivals, i, cap, c);
    NoneLate(s.open, arrivals, i + 1, cap, c);
  }
}
