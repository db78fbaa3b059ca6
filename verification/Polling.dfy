/**
 * The polling fallback and the publishing of live updates, both through one
 * duplicate filter (internal/tg/polling.go, internal/tg/polling_fetcher.go,
 * internal/tg/updates.go:245-281).
 */
module Polling {

  import opened Basics
  import opened Dedup

  datatype Message = Message(chatId: int, id: int, outgoing: bool)

  datatype Delivered = Delivered(m: Message, edited: bool)

  function KeyOf(m: Message): Key { Key(m.chatId, m.id) }

  class Bus {
    var delivered: seq<Delivered>

    constructor ()
      ensures delivered == []
    {
      delivered := [];
    }

    method Publish(d: Delivered)
      modifies this
      ensures delivered == old(delivered) + [d]
    {
      delivered := delivered + [d];
    }
  }

  /** What a live update carries: a message, one of Telegram's own lines, or neither. */
  datatype Carried = Plain(m: Message) | Service(m: Message) | Neither

  /** What would be published of it; a service line is never an edit. */
  function AsDelivered(u: Carried, edited: bool): Option<Delivered> {
    match u
    case Plain(m) => Some(Delivered(m, edited))
    case Service(m) => Some(Delivered(m, false))
    case Neither => None
  }

  /** The key it is filtered by, if it is. */
  function LiveKeys(u: Carried, edited: bool): seq<Key> {
    match AsDelivered(u, edited)
    case None => []
    case Some(d) => if d.edited || d.m.chatId == 0 then [] else [KeyOf(d.m)]
  }

  /** What is published of it, given the keys the filter has been asked about. */
  function LivePassed(history: seq<Key>, cap: nat, u: Carried, edited: bool): seq<Delivered> {
    match AsDelivered(u, edited)
    case None => []
    case Some(d) => if d.m.chatId == 0 || (!d.edited && KeyOf(d.m) in Recent(history, cap)) then [] else [d]
  }

  /**
   * Of a live update: a message or a service line with a chat is published
   * unless its key is recent; an edit of a message always is, and is not asked
   * about; a service line is no edit whatever it claims; the rest is dropped.
   */
  lemma LivePublishedIff(history: seq<Key>, cap: nat, m: Message, edited: bool)
    ensures LivePassed(history, cap, Plain(m), edited)
            == if m.chatId != 0 && (edited || Key(m.chatId, m.id) !in Recent(history, cap)) then [Delivered(m, edited)] else []
    ensures LivePassed(history, cap, Service(m), edited)
            == if m.chatId != 0 && Key(m.chatId, m.id) !in Recent(history, cap) then [Delivered(m, false)] else []
    ensures LivePassed(history, cap, Neither, edited) == [] && LiveKeys(Neither, edited) == []
    ensures LiveKeys(Plain(m), edited) == if m.chatId != 0 && !edited then [Key(m.chatId, m.id)] else []
    ensures LiveKeys(Service(m), edited) == if m.chatId != 0 then [Key(m.chatId, m.id)] else []
  {
    hide Recent;
  }

  /** A service line: the same filter, and no way around it. */
  method PublishService(filter: Dispatcher, bus: Bus, m: Message)
    requires filter.Valid()
    modifies filter, bus
    ensures filter.Valid()
    ensures filter.history == old(filter.history) + LiveKeys(Service(m), false)
    ensures bus.delivered == old(bus.delivered) + LivePassed(old(filter.history), filter.cap, Service(m), false)
  {
    if m.chatId == 0 { return; }
    var dup := filter.Seen(KeyOf(m));
    if dup { return; }
    bus.Publish(Delivered(m, false));
  }

  /** A live update: edits of messages pass unfiltered, an unknown chat is skipped. */
  method PublishMessage(filter: Dispatcher, bus: Bus, u: Carried, edited: bool)
    requires filter.Valid()
    modifies filter, bus
    ensures filter.Valid()
    ensures filter.history == old(filter.history) + LiveKeys(u, edited)
    ensures bus.delivered == old(bus.delivered) + LivePassed(old(filter.history), filter.cap, u, edited)
  {
    if !u.Plain? {
      if u.Service? { PublishService(filter, bus, u.m); }
      return;
    }
    var m := u.m;
    if m.chatId == 0 { return; }
    if !edited {
      var dup := filter.Seen(KeyOf(m));
      if dup { return; }
    }
    bus.Publish(Delivered(m, edited));
  }

  // ----- one poll of one chat

  datatype PolledChat = PolledChat(chatId: int, lastSeenId: int)

  /** The messages of a window above a mark, in their order. */
  function Above(window: seq<Message>, since: int): seq<Message> {
    if window == [] then []
    else
      var n := |window| - 1;
      Above(window[..n], since) + if window[n].id > since then [window[n]] else []
  }

  /** The highest id of a window, and never below the mark. */
  function Newest(window: seq<Message>, since: int): (r: int)
    ensures r >= since
    ensures forall m :: m in window ==> m.id <= r
    ensures r == since || exists i :: 0 <= i < |window| && window[i].id == r
  {
    if window == [] then since
    else
      var n := |window| - 1;
      assert window == window[..n] + [window[n]];
      var r := Newest(window[..n], since);
      if window[n].id > r then window[n].id
      else
        assert r != since ==> exists i :: 0 <= i < n && window[..n][i].id == r && window[i].id == r;
        r
  }

  lemma {:induction false} AboveHolds(window: seq<Message>, since: int)
    ensures forall m :: m in Above(window, since) <==> m in window && m.id > since
  {
    if window != [] {
      var n := |window| - 1;
      AboveHolds(window[..n], since);
      assert window == window[..n] + [window[n]];
    }
  }

  /** Above keeps each message above the mark, where it was, and no other. */
  lemma {:induction false} AboveKeeps(a: seq<Message>, m: Message, b: seq<Message>, since: int)
    ensures Above(a + [m] + b, since) == Above(a, since) + (if m.id > since then [m] else []) + Above(b, since)
    decreases |b|
  {
    var all := a + [m] + b;
    if b == [] {
      assert all[..|all| - 1] == a;
    } else {
      assert all[..|all| - 1] == a + [m] + b[..|b| - 1];
      AboveKeeps(a, m, b[..|b| - 1], since);
    }
  }

  method Latest(window: Option<seq<Message>>, since: int) returns (out: seq<Message>, newest: int, ok: bool)
    ensures ok == window.Some?
    ensures !ok ==> out == [] && newest == since
    ensures ok ==> out == Above(window.value, since) && newest == Newest(window.value, since)
  {
    newest, out := since, [];
    if window.None? { return out, newest, false; }
    var msgs := window.value;
    var i := 0;
    while i < |msgs|
      invariant 0 <= i <= |msgs|
      invariant out == Above(msgs[..i], since) && newest == Newest(msgs[..i], since)
    {
      assert msgs[..i + 1][..i] == msgs[..i];
      var m := msgs[i];
      if m.id > since {
        if m.id > newest { newest := m.id; }
        out := out + [m];
      }
      i := i + 1;
    }
    assert msgs[..|msgs|] == msgs;
    ok := true;
  }

  // ----- one tick

  function SinceMark(watermark: map<int, int>, c: PolledChat): int {
    if c.chatId in watermark && watermark[c.chatId] > c.lastSeenId then watermark[c.chatId] else c.lastSeenId
  }

  /** The watermarks after a tick, and the messages it handed to the filter. */
  datatype Round = Round(watermark: map<int, int>, polled: seq<Message>)

  function Ticked(watermark: map<int, int>, chats: seq<PolledChat>, windows: seq<Option<seq<Message>>>): Round
    requires |windows| == |chats|
  {
    if chats == [] then Round(watermark, [])
    else
      var n := |chats| - 1;
      var r := Ticked(watermark, chats[..n], windows[..n]);
      if windows[n].None? then r
      else
        var since := SinceMark(r.watermark, chats[n]);
        var newest := Newest(windows[n].value, since);
        Round(if newest > since then r.watermark[chats[n].chatId := newest] else r.watermark,
              r.polled + Above(windows[n].value, since))
  }

  function Keys(msgs: seq<Message>): seq<Key> {
    if msgs == [] then [] else Keys(msgs[..|msgs| - 1]) + [KeyOf(msgs[|msgs| - 1])]
  }

  /** What the filter lets through of messages handed to it one after another. */
  function Passed(history: seq<Key>, cap: nat, msgs: seq<Message>): seq<Delivered> {
    if msgs == [] then []
    else
      var n := |msgs| - 1;
      Passed(history, cap, msgs[..n]) +
      if KeyOf(msgs[n]) in Recent(history + Keys(msgs[..n]), cap) then [] else [Delivered(msgs[n], false)]
  }

  lemma {:induction false} PassedJoin(history: seq<Key>, cap: nat, a: seq<Message>, b: seq<Message>)
    ensures Keys(a + b) == Keys(a) + Keys(b)
    ensures Passed(history, cap, a + b) == Passed(history, cap, a) + Passed(history + Keys(a), cap, b)
    decreases |b|
  {
    hide Recent;
    if b == [] {
      assert a + b == a;
    } else {
      var n := |b| - 1;
      PassedJoin(history, cap, a, b[..n]);
      assert (a + b)[..|a + b| - 1] == a + b[..n];
      assert history + (Keys(a) + Keys(b[..n])) == history + Keys(a) + Keys(b[..n]);
    }
  }

  class PollingFallback {
    const bus: Bus
    const dedup: Dispatcher
    var watermark: map<int, int>

    constructor (bus: Bus, dedup: Dispatcher)
      ensures this.bus == bus && this.dedup == dedup && watermark == map[]
    {
      this.bus, this.dedup := bus, dedup;
      watermark := map[];
    }

    /** Hands messages to the filter and publishes those it has not seen. */
    method PublishNew(msgs: seq<Message>)
      requires dedup.Valid()
      modifies bus, dedup
      ensures dedup.Valid() && dedup.history == old(dedup.history) + Keys(msgs)
      ensures bus.delivered == old(bus.delivered) + Passed(old(dedup.history), dedup.cap, msgs)
    {
      hide Recent, Keys, Passed, Dispatcher.Valid;
      var i := 0;
      NoneHandedOver(old(dedup.history), dedup.cap, msgs[..0]);
      while i < |msgs|
        invariant 0 <= i <= |msgs| && dedup.Valid()
        invariant dedup.history == old(dedup.history) + Keys(msgs[..i])
        invariant bus.delivered == old(bus.delivered) + Passed(old(dedup.history), dedup.cap, msgs[..i])
      {
        PassedNext(old(dedup.history), dedup.cap, msgs, i);
        var dup := dedup.Seen(KeyOf(msgs[i]));
        if !dup { bus.Publish(Delivered(msgs[i], false)); }
        i := i + 1;
      }
      assert msgs[..|msgs|] == msgs;
    }

    method Tick(chats: seq<PolledChat>, windows: seq<Option<seq<Message>>>)
      requires |windows| == |chats| && dedup.Valid()
      modifies this, bus, dedup
      ensures var r := Ticked(old(watermark), chats, windows);
              watermark == r.watermark
              && dedup.Valid() && dedup.history == old(dedup.history) + Keys(r.polled)
              && bus.delivered == old(bus.delivered) + Passed(old(dedup.history), dedup.cap, r.polled)
    {
      hide Passed, Keys, Above, Newest, Ticked, Dispatcher.Valid;
      var i := 0;
      NothingTicked(watermark, chats[..0], windows[..0]);
      NoneHandedOver(old(dedup.history), dedup.cap, []);
      while i < |chats|
        invariant 0 <= i <= |chats| && dedup.Valid()
        invariant watermark == Ticked(old(watermark), chats[..i], windows[..i]).watermark
        invariant dedup.history == old(dedup.history) + Keys(Ticked(old(watermark), chats[..i], windows[..i]).polled)
        invariant bus.delivered == old(bus.delivered)
                                   + Passed(old(dedup.history), dedup.cap, Ticked(old(watermark), chats[..i], windows[..i]).polled)
      {
        TickedNext(old(watermark), chats, windows, i);
        ghost var before := Ticked(old(watermark), chats[..i], windows[..i]).polled;
        var c := chats[i];
        var since := SinceMark(watermark, c);
        var msgs, latest, ok := Latest(windows[i], since);
        if ok {
          PassedJoin(old(dedup.history), dedup.cap, before, msgs);
          PublishNew(msgs);
          if latest > since { watermark := watermark[c.chatId := latest]; }
        }
        i := i + 1;
      }
      assert chats[..|chats|] == chats && windows[..|windows|] == windows;
    }
  }

  lemma PassedNext(history: seq<Key>, cap: nat, msgs: seq<Message>, i: nat)
    requires i < |msgs|
    ensures Keys(msgs[..i + 1]) == Keys(msgs[..i]) + [KeyOf(msgs[i])]
    ensures Passed(history, cap, msgs[..i + 1]) == Passed(history, cap, msgs[..i]) +
                                                   if KeyOf(msgs[i]) in Recent(history + Keys(msgs[..i]), cap) then []
                                                   else [Delivered(msgs[i], false)]
  {
    assert msgs[..i + 1][..i] == msgs[..i];
  }

  lemma NoneHandedOver(history: seq<Key>, cap: nat, msgs: seq<Message>)
    requires msgs == []
    ensures Keys(msgs) == [] && Passed(history, cap, msgs) == []
  {
  }

  lemma NothingTicked(watermark: map<int, int>, chats: seq<PolledChat>, windows: seq<Option<seq<Message>>>)
    requires |windows| == |chats| == 0
    ensures Ticked(watermark, chats, windows) == Round(watermark, [])
  {
  }

  lemma TickedNext(watermark: map<int, int>, chats: seq<PolledChat>, windows: seq<Option<seq<Message>>>, i: nat)
    requires |windows| == |chats| && i < |chats|
    ensures var r := Ticked(watermark, chats[..i], windows[..i]);
            Ticked(watermark, chats[..i + 1], windows[..i + 1]) ==
            if windows[i].None? then r
            else
              var since := SinceMark(r.watermark, chats[i]);
              var newest := Newest(windows[i].value, since);
              Round(if newest > since then r.watermark[chats[i].chatId := newest] else r.watermark,
                    r.polled + Above(windows[i].value, since))
  {
    assert chats[..i + 1][..i] == chats[..i] && windows[..i + 1][..i] == windows[..i];
  }

  // ----- watermarks

  /** No watermark ever falls, and after a tick every chat that answered has one covering its window, or the store had. */
  lemma {:induction false} WatermarksNeverFall(watermark: map<int, int>, chats: seq<PolledChat>, windows: seq<Option<seq<Message>>>)
    requires |windows| == |chats|
    ensures var r := Ticked(watermark, chats, windows);
            forall c :: c in watermark ==> c in r.watermark && r.watermark[c] >= watermark[c]
    ensures var r := Ticked(watermark, chats, windows);
            forall i, m :: 0 <= i < |chats| && windows[i].Some? && m in windows[i].value
              ==> m.id <= SinceMark(r.watermark, chats[i])
  {
    if chats != [] {
      var n := |chats| - 1;
      var r := Ticked(watermark, chats[..n], windows[..n]);
      WatermarksNeverFall(watermark, chats[..n], windows[..n]);
      forall i, m | 0 <= i < n && windows[i].Some? && m in windows[i].value ensures m.id <= SinceMark(r.watermark, chats[i]) {
        assert windows[..n][i] == windows[i] && chats[..n][i] == chats[i];
      }
    }
  }

  /** The chats of a tick are different ones, and every window holds messages of its chat. */
  ghost predicate Apart(chats: seq<PolledChat>, windows: seq<Option<seq<Message>>>)
    requires |windows| == |chats|
  {
    && (forall i, j :: 0 <= i < j < |chats| ==> chats[i].chatId != chats[j].chatId)
    && (forall i, m :: 0 <= i < |chats| && windows[i].Some? && m in windows[i].value ==> m.chatId == chats[i].chatId)
  }

  /** The mark of a chat: the stored one, or the watermark if that is higher. */
  function MarkOf(watermark: map<int, int>, c: PolledChat): (mark: int)
    ensures mark >= c.lastSeenId && (c.chatId in watermark ==> mark >= watermark[c.chatId])
    ensures mark == c.lastSeenId || (c.chatId in watermark && mark == watermark[c.chatId])
  {
    SinceMark(watermark, c)
  }

  /** The watermarks of chats that are not polled stay. */
  lemma {:induction false} OthersStay(watermark: map<int, int>, chats: seq<PolledChat>, windows: seq<Option<seq<Message>>>, c: int)
    requires |windows| == |chats| && forall i :: 0 <= i < |chats| ==> chats[i].chatId != c
    ensures var r := Ticked(watermark, chats, windows);
            (c in r.watermark <==> c in watermark) && (c in watermark ==> r.watermark[c] == watermark[c])
  {
    if chats != [] { OthersStay(watermark, chats[..|chats| - 1], windows[..|chats| - 1], c); }
  }

  lemma ApartFront(chats: seq<PolledChat>, windows: seq<Option<seq<Message>>>)
    requires |windows| == |chats| > 0 && Apart(chats, windows)
    ensures Apart(chats[..|chats| - 1], windows[..|chats| - 1])
  {
  }

  /**
   * A tick hands over exactly the messages in the windows that answered whose
   * id is above the mark of their chat, and raises the mark of a chat to the
   * highest of them.
   */
  lemma {:induction false} TickHandsOverIff(watermark: map<int, int>, chats: seq<PolledChat>, windows: seq<Option<seq<Message>>>)
    requires |windows| == |chats| && Apart(chats, windows)
    ensures var r := Ticked(watermark, chats, windows);
            forall m :: m in r.polled <==>
              exists i :: 0 <= i < |chats| && windows[i].Some? && m in windows[i].value && m.id > MarkOf(watermark, chats[i])
  {
    if chats != [] {
      var n := |chats| - 1;
      var before := Ticked(watermark, chats[..n], windows[..n]);
      ApartFront(chats, windows);
      TickHandsOverIff(watermark, chats[..n], windows[..n]);
      OthersStay(watermark, chats[..n], windows[..n], chats[n].chatId);
      assert MarkOf(before.watermark, chats[n]) == MarkOf(watermark, chats[n]);
      if windows[n].Some? { AboveHolds(windows[n].value, MarkOf(watermark, chats[n])); }
      hide Above, Newest;
      var r := Ticked(watermark, chats, windows);
      forall m
        ensures m in r.polled <==>
                  exists i :: 0 <= i < |chats| && windows[i].Some? && m in windows[i].value && m.id > MarkOf(watermark, chats[i])
      {
        if m in before.polled {
          var i :| 0 <= i < n && windows[..n][i].Some? && m in windows[..n][i].value && m.id > MarkOf(watermark, chats[..n][i]);
          assert windows[i].Some? && m in windows[i].value && m.id > MarkOf(watermark, chats[i]);
        }
        if i :| 0 <= i < n && windows[i].Some? && m in windows[i].value && m.id > MarkOf(watermark, chats[i]) {
          assert windows[..n][i].Some? && m in windows[..n][i].value && m.id > MarkOf(watermark, chats[..n][i]);
        }
      }
    }
  }

  /** What a tick makes of the mark of one chat: the highest id of its window if that is above it. */
  lemma {:induction false} TickRaises(watermark: map<int, int>, chats: seq<PolledChat>, windows: seq<Option<seq<Message>>>, i: nat)
    requires |windows| == |chats| && Apart(chats, windows) && i < |chats|
    ensures var r := Ticked(watermark, chats, windows);
            var above := windows[i].Some? && exists m :: m in windows[i].value && m.id > MarkOf(watermark, chats[i]);
            if above then
              && chats[i].chatId in r.watermark
              && (forall m :: m in windows[i].value ==> m.id <= r.watermark[chats[i].chatId])
              && (exists m :: m in windows[i].value && m.id == r.watermark[chats[i].chatId])
            else
              && (chats[i].chatId in r.watermark <==> chats[i].chatId in watermark)
              && (chats[i].chatId in watermark ==> r.watermark[chats[i].chatId] == watermark[chats[i].chatId])
  {
    var n := |chats| - 1;
    ApartFront(chats, windows);
    if i < n {
      TickRaises(watermark, chats[..n], windows[..n], i);
    } else {
      OthersStay(watermark, chats[..n], windows[..n], chats[n].chatId);
    }
  }

  /** A tick hands over only messages above the mark their chat had before it. */
  lemma {:induction false} PolledAreNew(watermark: map<int, int>, chats: seq<PolledChat>, windows: seq<Option<seq<Message>>>, m: Message)
    requires |windows| == |chats|
    requires forall i, x :: 0 <= i < |chats| && windows[i].Some? && x in windows[i].value ==> x.chatId == chats[i].chatId
    requires m in Ticked(watermark, chats, windows).polled
    ensures m.chatId in watermark ==> m.id > watermark[m.chatId]
  {
    var n := |chats| - 1;
    var r := Ticked(watermark, chats[..n], windows[..n]);
    WatermarksNeverFall(watermark, chats[..n], windows[..n]);
    forall i, x | 0 <= i < n && windows[..n][i].Some? && x in windows[..n][i].value ensures x.chatId == chats[..n][i].chatId {
      assert windows[..n][i] == windows[i] && chats[..n][i] == chats[i];
    }
    if m in r.polled {
      PolledAreNew(watermark, chats[..n], windows[..n], m);
    } else {
      AboveHolds(windows[n].value, SinceMark(r.watermark, chats[n]));
    }
  }
}
