/**
 * What the prune may and may not delete: the exact lists a walk calls
 * complete, and the exact lists on which it is wrong to
 * (internal/core/sync/dialogs.go:163-315, internal/tg/dialogs.go:98-161).
 */
module DialogPrune {

  import opened Basics
  import opened Dialogs
  import opened DialogSync

  /** Every entry of the list decodes and has a date. */
  predicate Good(list: seq<Raw>) {
    forall i :: 0 <= i < |list| ==> Decodes(list[i]) && Dated(list[i])
  }

  lemma {:induction false} ChatsJoin(a: seq<Raw>, b: seq<Raw>, archived: bool)
    ensures Chats(a + b, archived) == Chats(a, archived) + Chats(b, archived)
    decreases |b|
  {
    hide Chats, Decoded;
    if b == [] {
      assert a + b == a;
      NoChats(archived);
      assert Chats(a, archived) + [] == Chats(a, archived);
    } else {
      var front, last := b[..|b| - 1], b[|b| - 1];
      ChatsJoin(a, front, archived);
      ChatsLast(a + front, last, archived);
      ChatsLast(front, last, archived);
      assert a + b == a + front + [last] && b == front + [last];
      assert Chats(a, archived) + Chats(front, archived) + Decoded(last, archived)
          == Chats(a, archived) + (Chats(front, archived) + Decoded(last, archived));
    }
  }

  function Decoded(r: Raw, archived: bool): seq<Chat> { if Decodes(r) then [ChatOf(r, archived)] else [] }

  lemma ChatsLast(front: seq<Raw>, last: Raw, archived: bool)
    ensures Chats(front + [last], archived) == Chats(front, archived) + Decoded(last, archived)
  {
    assert (front + [last])[..|front|] == front;
  }

  lemma NoChats(archived: bool)
    ensures Chats([], archived) == []
  {
  }

  lemma {:induction false} ChatsOfNone(raw: seq<Raw>, archived: bool)
    ensures Chats(raw, archived) == [] <==> forall i :: 0 <= i < |raw| ==> !Decodes(raw[i])
  {
    if raw != [] { ChatsOfNone(raw[..|raw| - 1], archived); }
  }

  /** What the page at a position decodes to ends where its cursor points. */
  lemma ChatsToReach(raw: seq<Raw>, archived: bool)
    ensures Chats(raw[..Reach(raw)], archived) == Chats(raw, archived)
  {
    hide Chats, Reach;
    var k := Reach(raw);
    ChatsOfNone(raw[k..], archived);
    ChatsJoin(raw[..k], raw[k..], archived);
    assert raw[..k] + raw[k..] == raw;
    assert Chats(raw[..k], archived) + [] == Chats(raw[..k], archived);
  }

  /** The position of the last page the walk asked for. */
  function LastPage(f: Folder, limit: nat, maxPages: nat, trouble: seq<Trouble>, pos: nat, page: nat): (p: nat)
    requires pos <= |f.list| && page <= maxPages && limit > 0
    ensures pos <= p <= |f.list|
    decreases maxPages - page
  {
    if page == maxPages || TroubleAt(trouble, page) == Cancelled || TroubleAt(trouble, page) == FetchFails then pos
    else if !Goes(f, limit, pos) || TroubleAt(trouble, page) == ContextEnds then pos
    else
      LastPage(f, limit, maxPages, trouble, pos + Reach(Batch(f.list, pos, limit)), page + 1)
  }

  /** What lies between a position and e, one page first. */
  lemma PageThenRest(f: Folder, limit: nat, pos: nat, e: nat)
    requires pos <= |f.list|
    requires pos + Reach(Batch(f.list, pos, limit)) <= e <= |f.list|
    ensures var raw := Batch(f.list, pos, limit);
            Chats(f.list[pos..e], f.number != 0)
            == Chats(raw, f.number != 0) + Chats(f.list[pos + Reach(raw)..e], f.number != 0)
  {
    hide Chats, Reach;
    var raw := Batch(f.list, pos, limit);
    var k := Reach(raw);
    ChatsToReach(raw, f.number != 0);
    assert raw[..k] == f.list[pos..pos + k];
    ChatsJoin(f.list[pos..pos + k], f.list[pos + k..e], f.number != 0);
    assert f.list[pos..pos + k] + f.list[pos + k..e] == f.list[pos..e];
  }

  /** A complete walk saw the list up to the end of its last page, and nothing after it. */
  lemma {:induction false} CompleteSees(f: Folder, limit: nat, maxPages: nat, trouble: seq<Trouble>, pos: nat, page: nat)
    requires pos <= |f.list| && page <= maxPages && limit > 0
    requires WalkFrom(f, limit, maxPages, trouble, pos, page).complete
    ensures var p := LastPage(f, limit, maxPages, trouble, pos, page);
            WalkFrom(f, limit, maxPages, trouble, pos, page).chats == Chats(f.list[pos..Min(p + limit, |f.list|)], f.number != 0)
    ensures var p := LastPage(f, limit, maxPages, trouble, pos, page); Ends(f, limit, p)
    decreases maxPages - page
  {
    hide Chats, WalkFrom, LastPage, Ends, Goes, Reach;
    if Goes(f, limit, pos) && page < maxPages {
      CompleteGoes(f, limit, maxPages, trouble, pos, page);
      var next := pos + Reach(Batch(f.list, pos, limit));
      CompleteSees(f, limit, maxPages, trouble, next, page + 1);
      PageThenRest(f, limit, pos, Min(LastPage(f, limit, maxPages, trouble, next, page + 1) + limit, |f.list|));
    } else {
      CompleteStops(f, limit, maxPages, trouble, pos, page);
    }
  }

  lemma CompleteGoes(f: Folder, limit: nat, maxPages: nat, trouble: seq<Trouble>, pos: nat, page: nat)
    requires pos <= |f.list| && page < maxPages && limit > 0 && Goes(f, limit, pos)
    requires WalkFrom(f, limit, maxPages, trouble, pos, page).complete
    ensures var raw := Batch(f.list, pos, limit);
            var next := pos + Reach(raw);
            next <= |f.list|
            && WalkFrom(f, limit, maxPages, trouble, next, page + 1).complete
            && WalkFrom(f, limit, maxPages, trouble, pos, page).chats
               == Chats(raw, f.number != 0) + WalkFrom(f, limit, maxPages, trouble, next, page + 1).chats
            && LastPage(f, limit, maxPages, trouble, pos, page) == LastPage(f, limit, maxPages, trouble, next, page + 1)
  {
    hide Chats, Goes, WalkFrom, Reach;
    WalkUnfolds(f, limit, maxPages, trouble, pos, page, []);
    AfterNothing(WalkFrom(f, limit, maxPages, trouble, pos, page));
    EmptyGoesNowhere(f, limit, pos);
  }

  lemma CompleteStops(f: Folder, limit: nat, maxPages: nat, trouble: seq<Trouble>, pos: nat, page: nat)
    requires pos <= |f.list| && page <= maxPages && limit > 0 && (page < maxPages ==> !Goes(f, limit, pos))
    requires WalkFrom(f, limit, maxPages, trouble, pos, page).complete
    ensures WalkFrom(f, limit, maxPages, trouble, pos, page).chats == Chats(Batch(f.list, pos, limit), f.number != 0)
    ensures LastPage(f, limit, maxPages, trouble, pos, page) == pos && Ends(f, limit, pos)
  {
    hide Chats, Goes;
  }

  lemma EmptyGoesNowhere(f: Folder, limit: nat, pos: nat)
    requires pos <= |f.list| && Goes(f, limit, pos)
    ensures Chats(Batch(f.list, pos, limit), f.number != 0) != []
  {
    ChatsOfNone(Batch(f.list, pos, limit), f.number != 0);
  }

  /** The last page of a complete walk: nothing decoded, or fewer than a page did. */
  predicate Ends(f: Folder, limit: nat, p: nat)
    requires p <= |f.list|
  {
    var n := |Chats(Batch(f.list, p, limit), f.number != 0)|;
    if n == 0 then f.number != 0 else n < limit && !Goes(f, limit, p)
  }

  /**
   * The page is full, though not every entry decoded, and it has no cursor to
   * go on with: no entry decoded at all, or the last one that did has no date.
   */
  predicate Blind(f: Folder, limit: nat, p: nat)
    requires p <= |f.list|
  {
    var raw := Batch(f.list, p, limit);
    |raw| == limit && !Declared(f.list, f.declares, limit, p)
    && (Reach(raw) == 0 || !Dated(raw[Reach(raw) - 1]))
  }

  /**
   * A walk that calls itself complete missed a chat exactly when its last
   * page was blind and a dialog after it decodes.
   */
  lemma CompleteMissesIff(f: Folder, limit: nat, maxPages: nat, trouble: seq<Trouble>)
    requires limit > 0 && WalkFrom(f, limit, maxPages, trouble, 0, 0).complete
    ensures var p := LastPage(f, limit, maxPages, trouble, 0, 0);
            WalkFrom(f, limit, maxPages, trouble, 0, 0).chats != Chats(f.list, f.number != 0)
            <==> Blind(f, limit, p) && exists i :: p + limit <= i < |f.list| && Decodes(f.list[i])
  {
    hide Goes, WalkFrom, Chats, Ends, Blind, LastPage;
    CompleteSees(f, limit, maxPages, trouble, 0, 0);
    var p := LastPage(f, limit, maxPages, trouble, 0, 0);
    var e := Min(p + limit, |f.list|);
    ChatsJoin(f.list[..e], f.list[e..], f.number != 0);
    assert f.list[..e] + f.list[e..] == f.list && f.list[0..e] == f.list[..e];
    ChatsOfNone(f.list[e..], f.number != 0);
    RestDecodes(f.list, e);
    if e < |f.list| { EndsBlind(f, limit, p); }
  }

  lemma RestDecodes(list: seq<Raw>, e: nat)
    requires e <= |list|
    ensures (forall i :: 0 <= i < |list[e..]| ==> !Decodes(list[e..][i])) <==> !(exists i :: e <= i < |list| && Decodes(list[i]))
  {
    if i :| e <= i < |list| && Decodes(list[i]) {
      assert Decodes(list[e..][i - e]);
    }
  }

  lemma EndsBlind(f: Folder, limit: nat, p: nat)
    requires p + limit < |f.list| && Ends(f, limit, p)
    ensures Blind(f, limit, p)
  {
    ChatsOfNone(Batch(f.list, p, limit), f.number != 0);
  }

  // ----- lists that decode and are dated

  lemma {:induction false} GoodChats(raw: seq<Raw>, archived: bool)
    requires Good(raw)
    ensures |Chats(raw, archived)| == |raw| && Reach(raw) == |raw|
  {
    if raw != [] { GoodChats(raw[..|raw| - 1], archived); }
  }

  /** On a good list a walk that calls itself complete saw every dialog, for every script of trouble. */
  lemma GoodCompleteSeesAll(f: Folder, limit: nat, maxPages: nat, trouble: seq<Trouble>)
    requires limit > 0 && Good(f.list)
    requires WalkFrom(f, limit, maxPages, trouble, 0, 0).complete
    ensures WalkFrom(f, limit, maxPages, trouble, 0, 0).chats == Chats(f.list, f.number != 0)
  {
    hide WalkFrom, Chats, LastPage, Goes, Ends;
    CompleteMissesIff(f, limit, maxPages, trouble);
    var p := LastPage(f, limit, maxPages, trouble, 0, 0);
    GoodChats(Batch(f.list, p, limit), true);
  }

  lemma {:induction false} WalkBounded(f: Folder, limit: nat, maxPages: nat, trouble: seq<Trouble>, pos: nat, page: nat)
    requires pos <= |f.list| && page <= maxPages && limit > 0
    ensures |WalkFrom(f, limit, maxPages, trouble, pos, page).chats| <= (maxPages - page) * limit
    decreases maxPages - page
  {
    hide Chats, Goes, Reach, WalkFrom;
    if page < maxPages {
      var raw := Batch(f.list, pos, limit);
      WalkUnfolds(f, limit, maxPages, trouble, pos, page, []);
      AfterNothing(WalkFrom(f, limit, maxPages, trouble, pos, page));
      OnePageLess(limit, maxPages - page);
      if pos + Reach(raw) <= |f.list| {
        WalkBounded(f, limit, maxPages, trouble, pos + Reach(raw), page + 1);
      }
    } else {
      NoPagesLeft(f, limit, maxPages, trouble, pos);
    }
  }

  lemma OnePageLess(limit: nat, pages: nat)
    requires pages > 0
    ensures pages * limit == limit + (pages - 1) * limit && (pages - 1) * limit >= 0
  {
  }

  lemma NoPagesLeft(f: Folder, limit: nat, maxPages: nat, trouble: seq<Trouble>, pos: nat)
    requires pos <= |f.list| && limit > 0
    ensures WalkFrom(f, limit, maxPages, trouble, pos, maxPages).chats == []
  {
  }

  /** A good list longer than the page cap is never called complete. */
  lemma LongListIncomplete(f: Folder, limit: nat, maxPages: nat, trouble: seq<Trouble>)
    requires limit > 0 && Good(f.list) && |f.list| > maxPages * limit
    ensures !WalkFrom(f, limit, maxPages, trouble, 0, 0).complete
  {
    hide WalkFrom, Chats;
    if WalkFrom(f, limit, maxPages, trouble, 0, 0).complete {
      GoodCompleteSeesAll(f, limit, maxPages, trouble);
      WalkBounded(f, limit, maxPages, trouble, 0, 0);
      GoodChats(f.list, f.number != 0);
    }
  }

  /** What is left of a list decides whether an undisturbed walk ends as complete. */
  predicate EndsInside(f: Folder, limit: nat, rest: nat, pages: nat)
    requires limit > 0
  {
    rest < pages * limit && (rest % limit != 0 || (f.number != 0 && (rest == 0 || !f.declares)))
  }

  /**
   * Exactly when a good list is called complete: it fits the cap, and its
   * length is no multiple of the page size. A main list that is one never is;
   * an archive that is one needs the empty page after it.
   */
  lemma {:induction false} GoodCompleteIff(f: Folder, limit: nat, maxPages: nat, pos: nat, page: nat)
    requires pos <= |f.list| && page <= maxPages && limit > 0 && Good(f.list)
    ensures WalkFrom(f, limit, maxPages, [], pos, page).complete
            <==> EndsInside(f, limit, |f.list| - pos, maxPages - page)
    decreases maxPages - page
  {
    hide Chats, WalkFrom, EndsInside;
    var rest := |f.list| - pos;
    if page < maxPages {
      WalkUnfolds(f, limit, maxPages, [], pos, page, []);
      AfterNothing(WalkFrom(f, limit, maxPages, [], pos, page));
      var raw := Batch(f.list, pos, limit);
      GoodChats(raw, f.number != 0);
      if Goes(f, limit, pos) {
        InsideGoes(f, limit, rest, maxPages - page);
        GoodCompleteIff(f, limit, maxPages, pos + limit, page + 1);
      } else {
        InsideStops(f, limit, rest, maxPages - page);
      }
    } else {
      CapReached(f, limit, maxPages, pos);
    }
  }

  lemma CapReached(f: Folder, limit: nat, maxPages: nat, pos: nat)
    requires pos <= |f.list| && limit > 0
    ensures !WalkFrom(f, limit, maxPages, [], pos, maxPages).complete && !EndsInside(f, limit, |f.list| - pos, 0)
  {
  }

  lemma InsideGoes(f: Folder, limit: nat, rest: nat, pages: nat)
    requires limit > 0 && pages > 0 && rest >= limit && (rest > limit || !f.declares)
    ensures EndsInside(f, limit, rest, pages) <==> EndsInside(f, limit, rest - limit, pages - 1)
  {
    var m := (pages - 1) * limit;
    assert pages * limit == m + limit;
    ModOf(rest, limit, (rest - limit) / limit + 1, (rest - limit) % limit);
    if rest == limit { ModOf(limit, limit, 1, 0); }
    ModOf(0, limit, 0, 0);
  }

  lemma InsideStops(f: Folder, limit: nat, rest: nat, pages: nat)
    requires limit > 0 && pages > 0 && (rest < limit || (rest == limit && f.declares))
    ensures EndsInside(f, limit, rest, pages) <==> rest < limit && (rest > 0 || f.number != 0)
  {
    var m := (pages - 1) * limit;
    assert pages * limit == m + limit && m >= 0;
    if rest < limit { ModOf(rest, limit, 0, rest); } else { ModOf(rest, limit, 1, 0); }
  }

  lemma ModOf(x: nat, n: nat, q: nat, r: nat)
    requires n > 0 && r < n && x == n * q + r
    ensures x % n == r
  {
    SameRemainder(n, q, r, x / n, x % n);
  }

  lemma SameRemainder(n: nat, q: nat, r: nat, p: nat, s: nat)
    requires r < n && s < n && n * q + r == n * p + s
    ensures r == s
  {
    if p < q { WholeGap(n, p, q); } else if q < p { WholeGap(n, q, p); }
  }

  lemma WholeGap(n: nat, p: nat, q: nat)
    requires p < q
    ensures n * q >= n * p + n
  {
    var d := q - p - 1;
    assert n * q == n * p + n + n * d;
    assert n * d >= 0;
  }

  // ----- the sync

  predicate ListedIn(f: Folder, id: int) { id in Ids(Chats(f.list, f.number != 0)) }

  predicate Listed(w: World, archivePages: nat, id: int) {
    ListedIn(MainFolder(w), id) || (archivePages > 0 && ListedIn(ArchiveFolder(w), id))
  }

  lemma {:induction false} SavedKeys(table: map<int, Chat>, chats: seq<Chat>, w: World)
    ensures table.Keys <= Saved(table, chats, w).Keys
    ensures forall id :: id in Saved(table, chats, w) ==> id in table || id in Ids(chats)
    decreases |chats|
  {
    if chats != [] {
      var n := |chats| - 1;
      SavedKeys(table, chats[..n], w);
      IdsJoin(chats[..n], [chats[n]]);
      assert chats[..n] + [chats[n]] == chats;
    }
  }

  /** On good lists, what both walks saw is what the server lists, if they were complete. */
  lemma BothWalksSeeAll(w: World, limit: nat, maxPages: nat, archivePages: nat)
    requires limit > 0 && Good(w.main) && Good(w.archive)
    requires var r := BothWalks(w, limit, maxPages, archivePages); r.complete && !r.failed
    ensures BothWalks(w, limit, maxPages, archivePages).chats
            == Chats(w.main, false) + if archivePages > 0 then Chats(w.archive, true) else []
  {
    hide WalkFrom, Chats;
    GoodCompleteSeesAll(MainFolder(w), limit, maxPages, w.mainTrouble);
    if archivePages > 0 { GoodCompleteSeesAll(ArchiveFolder(w), limit, archivePages, w.archiveTrouble); }
  }

  /** The walk's last page was blind, and the folder lists the chat only after it. */
  predicate HiddenIn(f: Folder, limit: nat, maxPages: nat, trouble: seq<Trouble>, id: int)
    requires limit > 0
  {
    var p := LastPage(f, limit, maxPages, trouble, 0, 0);
    Blind(f, limit, p) && id !in Ids(Chats(f.list[..Min(p + limit, |f.list|)], f.number != 0))
  }

  /** A complete walk saw a listed chat exactly when it was not hidden from it. */
  lemma WalkSeesIff(f: Folder, limit: nat, maxPages: nat, trouble: seq<Trouble>, id: int)
    requires limit > 0 && WalkFrom(f, limit, maxPages, trouble, 0, 0).complete
    ensures id in Ids(WalkFrom(f, limit, maxPages, trouble, 0, 0).chats)
            <==> ListedIn(f, id) && !HiddenIn(f, limit, maxPages, trouble, id)
  {
    hide Goes, WalkFrom, Chats, Ends, Blind, LastPage, Ids;
    CompleteSees(f, limit, maxPages, trouble, 0, 0);
    var p := LastPage(f, limit, maxPages, trouble, 0, 0);
    var e := Min(p + limit, |f.list|);
    ChatsJoin(f.list[..e], f.list[e..], f.number != 0);
    assert f.list[..e] + f.list[e..] == f.list && f.list[0..e] == f.list[..e];
    IdsJoin(Chats(f.list[..e], f.number != 0), Chats(f.list[e..], f.number != 0));
    if e < |f.list| {
      EndsBlind(f, limit, p);
    } else {
      assert f.list[..e] == f.list;
    }
  }

  /**
   * Saved Messages joins what was listed exactly when the server has it, no
   * chat seen has its id, and its row could be written.
   */
  lemma SelfAddedIff(w: World, seen: seq<Chat>)
    ensures AddsSelf(w, seen)
            <==> && w.self.Some? && w.self.value.id != 0 && !w.readOnly && w.self.value.id !in w.broken
                 && forall i :: 0 <= i < |seen| ==> seen[i].id != w.self.value.id
    ensures Kept(w, seen) == [] <==> seen == [] && !AddsSelf(w, seen)
  {
    if w.self.Some? && w.self.value.id in Ids(seen) {
      var i :| 0 <= i < |seen| && Ids(seen)[i] == w.self.value.id;
      assert seen[i].id == w.self.value.id;
    }
    forall i | 0 <= i < |seen| ensures seen[i].id in Ids(seen) { assert Ids(seen)[i] == seen[i].id; }
  }

  /**
   * A sync prunes exactly when neither walk failed, each reached the end of
   * its list, there is something to keep, and the table can be written.
   */
  lemma PrunesIff(w: World, limit: nat, maxPages: nat, archivePages: nat)
    requires limit > 0
    ensures var m := WalkFrom(Folder(w.main, w.declares, 0), limit, maxPages, w.mainTrouble, 0, 0);
            var a := WalkFrom(Folder(w.archive, w.declares, 1), limit, archivePages, w.archiveTrouble, 0, 0);
            var seen := m.chats + if archivePages > 0 then a.chats else [];
            Prunes(w, BothWalks(w, limit, maxPages, archivePages))
            <==> && !m.failed && m.complete && (archivePages > 0 ==> !a.failed && a.complete)
                 && !w.readOnly && !w.deleteFails
                 && (seen != [] || (w.self.Some? && w.self.value.id != 0 && w.self.value.id !in w.broken))
  {
    hide WalkFrom, Kept, AddsSelf;
    SelfAddedIff(w, BothWalks(w, limit, maxPages, archivePages).chats);
  }

  function ChatRow(table: map<int, Chat>, id: int): Option<Chat> { if id in table then Some(table[id]) else None }

  /**
   * The row of a chat the walks did not see: that of Saved Messages if it is
   * added, none after a prune, and otherwise what it was.
   */
  lemma UnseenRow(table: map<int, Chat>, w: World, limit: nat, maxPages: nat, archivePages: nat, id: int)
    requires limit > 0
    requires forall c :: c in BothWalks(w, limit, maxPages, archivePages).chats ==> c.id != id
    ensures var r := BothWalks(w, limit, maxPages, archivePages);
            ChatRow(AfterSync(table, w, r), id) ==
            if w.self.Some? && id == w.self.value.id && id != 0 && !r.failed && !w.readOnly && id !in w.broken then w.self
            else if Prunes(w, r) then None
            else ChatRow(table, id)
  {
    hide WalkFrom, BothWalks, Saved;
    var r := BothWalks(w, limit, maxPages, archivePages);
    SelfAddedIff(w, r.chats);
    UnlistedStays(table, r.chats, w, id);
  }

  lemma {:induction false} UnlistedStays(table: map<int, Chat>, cs: seq<Chat>, w: World, id: int)
    requires forall c :: c in cs ==> c.id != id
    ensures ChatRow(Saved(table, cs, w), id) == ChatRow(table, id)
    decreases |cs|
  {
    if cs != [] {
      assert cs[|cs| - 1] in cs;
      UnlistedStays(table, cs[..|cs| - 1], w, id);
    }
  }

  /**
   * For any lists: a row is removed exactly when the sync prunes, it is not
   * the Saved Messages row the sync adds, and every walked folder that lists
   * the chat has it behind the blind last page of its walk.
   */
  lemma SyncRemovesIff(table: map<int, Chat>, w: World, limit: nat, maxPages: nat, archivePages: nat, id: int)
    requires limit > 0 && id in table
    ensures var r := BothWalks(w, limit, maxPages, archivePages);
            id !in AfterSync(table, w, r) <==>
            Prunes(w, r)
            && !(w.self.Some? && id == w.self.value.id && id != 0 && id !in w.broken)
            && (ListedIn(MainFolder(w), id) ==> HiddenIn(MainFolder(w), limit, maxPages, w.mainTrouble, id))
            && (archivePages > 0 && ListedIn(ArchiveFolder(w), id) ==>
                  HiddenIn(ArchiveFolder(w), limit, archivePages, w.archiveTrouble, id))
  {
    hide WalkFrom, Chats, Saved, ListedIn, HiddenIn, MainFolder, ArchiveFolder, Ids;
    var r := BothWalks(w, limit, maxPages, archivePages);
    SavedKeys(table, r.chats, w);
    if Prunes(w, r) {
      WalkSeesIff(MainFolder(w), limit, maxPages, w.mainTrouble, id);
      if archivePages > 0 {
        WalkSeesIff(ArchiveFolder(w), limit, archivePages, w.archiveTrouble, id);
        IdsJoin(WalkFrom(MainFolder(w), limit, maxPages, w.mainTrouble, 0, 0).chats,
                WalkFrom(ArchiveFolder(w), limit, archivePages, w.archiveTrouble, 0, 0).chats);
      }
    }
  }

  /** No sync removes a chat that the server lists in a folder the sync walks. */
  lemma ListedSurvives(table: map<int, Chat>, w: World, limit: nat, maxPages: nat, archivePages: nat, id: int)
    requires limit > 0 && Good(w.main) && Good(w.archive)
    requires id in table && Listed(w, archivePages, id)
    ensures id in AfterSync(table, w, BothWalks(w, limit, maxPages, archivePages))
  {
    hide WalkFrom, Chats, BothWalks, Saved;
    var r := BothWalks(w, limit, maxPages, archivePages);
    SavedKeys(table, r.chats, w);
    if Prunes(w, r) {
      BothWalksSeeAll(w, limit, maxPages, archivePages);
      IdsJoin(Chats(w.main, false), if archivePages > 0 then Chats(w.archive, true) else []);
    }
  }

  /** When both walks are complete and the delete works, exactly the listed chats and Saved Messages survive. */
  lemma PruneIsExact(table: map<int, Chat>, w: World, limit: nat, maxPages: nat, archivePages: nat, id: int)
    requires limit > 0 && Good(w.main) && Good(w.archive) && id in table
    requires Prunes(w, BothWalks(w, limit, maxPages, archivePages))
    ensures var r := BothWalks(w, limit, maxPages, archivePages);
            id in AfterSync(table, w, r) <==>
            Listed(w, archivePages, id) || (w.self.Some? && id == w.self.value.id && id != 0 && id !in w.broken)
  {
    hide WalkFrom, Chats, BothWalks, Saved;
    var r := BothWalks(w, limit, maxPages, archivePages);
    SavedKeys(table, r.chats, w);
    BothWalksSeeAll(w, limit, maxPages, archivePages);
    IdsJoin(Chats(w.main, false), if archivePages > 0 then Chats(w.archive, true) else []);
  }

  /** Past the page cap, after a failure, or with nothing seen, nothing is removed. */
  lemma PastTheCapNothingGoes(table: map<int, Chat>, w: World, limit: nat, maxPages: nat, archivePages: nat)
    requires limit > 0 && Good(w.main)
    requires |w.main| > maxPages * limit || BothWalks(w, limit, maxPages, archivePages).failed
    ensures table.Keys <= AfterSync(table, w, BothWalks(w, limit, maxPages, archivePages)).Keys
  {
    hide WalkFrom, Chats, Saved;
    var r := BothWalks(w, limit, maxPages, archivePages);
    SavedKeys(table, r.chats, w);
    if |w.main| > maxPages * limit { LongListIncomplete(MainFolder(w), limit, maxPages, w.mainTrouble); }
  }

  /** The row of a chat is what the walks saw of it last, if its write worked, and says whether it is archived. */
  lemma RowIsAsListed(table: map<int, Chat>, w: World, limit: nat, maxPages: nat, archivePages: nat, k: nat)
    requires limit > 0
    requires var cs := BothWalks(w, limit, maxPages, archivePages).chats;
             k < |cs| && cs[k].id !in w.broken && !w.readOnly && forall j :: k < j < |cs| ==> cs[j].id != cs[k].id
    ensures var r := BothWalks(w, limit, maxPages, archivePages);
            r.chats[k].id in AfterSync(table, w, r) && AfterSync(table, w, r)[r.chats[k].id] == r.chats[k]
    ensures var r := BothWalks(w, limit, maxPages, archivePages);
            r.chats[k].archived <==> k >= |WalkFrom(MainFolder(w), limit, maxPages, w.mainTrouble, 0, 0).chats|
  {
    hide WalkFrom, SavedChats, BothWalks;
    var r := BothWalks(w, limit, maxPages, archivePages);
    LastWriteStays(table, r.chats, w.broken, k);
    KeptIds(w, r.chats, k);
    WalksMark(w, limit, maxPages, archivePages);
  }

  lemma {:induction false} LastWriteStays(table: map<int, Chat>, cs: seq<Chat>, broken: set<int>, k: nat)
    requires k < |cs| && cs[k].id !in broken && forall j :: k < j < |cs| ==> cs[j].id != cs[k].id
    ensures cs[k].id in SavedChats(table, cs, broken) && SavedChats(table, cs, broken)[cs[k].id] == cs[k]
    decreases |cs|
  {
    if k < |cs| - 1 { LastWriteStays(table, cs[..|cs| - 1], broken, k); }
  }

  lemma KeptIds(w: World, cs: seq<Chat>, k: nat)
    requires k < |cs|
    ensures cs[k].id in Kept(w, cs) && (AddsSelf(w, cs) ==> w.self.value.id != cs[k].id)
  {
    assert Ids(cs)[k] == cs[k].id;
    assert Kept(w, cs)[k] == cs[k].id;
  }

  predicate AllMarked(cs: seq<Chat>, archived: bool) {
    forall i :: 0 <= i < |cs| ==> cs[i].archived == archived
  }

  lemma {:induction false} ChatsMarked(raw: seq<Raw>, archived: bool)
    ensures AllMarked(Chats(raw, archived), archived)
  {
    if raw != [] { ChatsMarked(raw[..|raw| - 1], archived); }
  }

  lemma {:induction false} WalkMarks(f: Folder, limit: nat, maxPages: nat, trouble: seq<Trouble>, pos: nat, page: nat)
    requires pos <= |f.list| && page <= maxPages && limit > 0
    ensures AllMarked(WalkFrom(f, limit, maxPages, trouble, pos, page).chats, f.number != 0)
    decreases maxPages - page
  {
    hide Chats, Goes, Reach, WalkFrom, AllMarked;
    NoneMarked(f.number != 0);
    if page < maxPages {
      var raw := Batch(f.list, pos, limit);
      WalkUnfolds(f, limit, maxPages, trouble, pos, page, []);
      AfterNothing(WalkFrom(f, limit, maxPages, trouble, pos, page));
      ChatsMarked(raw, f.number != 0);
      assert [] + Chats(raw, f.number != 0) == Chats(raw, f.number != 0);
      if pos + Reach(raw) <= |f.list| {
        WalkMarks(f, limit, maxPages, trouble, pos + Reach(raw), page + 1);
        MarkedJoin(Chats(raw, f.number != 0), WalkFrom(f, limit, maxPages, trouble, pos + Reach(raw), page + 1).chats, f.number != 0);
      }
    } else {
      NoPagesLeft(f, limit, maxPages, trouble, pos);
    }
  }

  lemma NoneMarked(archived: bool)
    ensures AllMarked([], archived)
  {
  }

  lemma MarkedJoin(a: seq<Chat>, b: seq<Chat>, archived: bool)
    requires AllMarked(a, archived) && AllMarked(b, archived)
    ensures AllMarked(a + b, archived)
  {
  }

  lemma WalksMark(w: World, limit: nat, maxPages: nat, archivePages: nat)
    requires limit > 0
    ensures var cs := BothWalks(w, limit, maxPages, archivePages).chats;
            var n := |WalkFrom(MainFolder(w), limit, maxPages, w.mainTrouble, 0, 0).chats|;
            n <= |cs| && forall k :: 0 <= k < |cs| ==> (cs[k].archived <==> k >= n)
  {
    hide WalkFrom;
    WalkMarks(MainFolder(w), limit, maxPages, w.mainTrouble, 0, 0);
    WalkMarks(ArchiveFolder(w), limit, archivePages, w.archiveTrouble, 0, 0);
  }

  // ----- the peers

  function RowOf(table: map<int, Peer>, id: int): Option<Peer> { if id in table then Some(table[id]) else None }

  /** Nobody of that id among the peers from k on. */
  predicate NotFrom(ps: seq<Peer>, k: nat, id: int) { forall j :: k <= j < |ps| ==> ps[j].id != id }

  lemma PeerWritten(p: Peer, w: World)
    ensures PeerFails(p, w) <==> w.readOnly || p.id == 0 || p.id in w.brokenPeers
  {
  }

  /** The last peer of an id is the row it leaves, unless the write fails; an id that is not there keeps its row. */
  lemma {:induction false} LastPeerStays(table: map<int, Peer>, ps: seq<Peer>, w: World, id: int)
    ensures NotFrom(ps, 0, id) || w.readOnly || id == 0 || id in w.brokenPeers ==>
              RowOf(SavedPeers(table, ps, w), id) == RowOf(table, id)
    ensures forall k :: 0 <= k < |ps| && ps[k].id == id && NotFrom(ps, k + 1, id)
                        && !w.readOnly && id != 0 && id !in w.brokenPeers ==>
              RowOf(SavedPeers(table, ps, w), id) == Some(ps[k])
    decreases |ps|
  {
    hide PeerFails;
    if ps != [] {
      var n := |ps| - 1;
      LastPeerStays(table, ps[..n], w, id);
      PeerWritten(ps[n], w);
      if NotFrom(ps, 0, id) { assert NotFrom(ps[..n], 0, id); }
      forall k | 0 <= k < n && ps[k].id == id && NotFrom(ps, k + 1, id)
        ensures ps[..n][k] == ps[k] && NotFrom(ps[..n], k + 1, id) && ps[n].id != id
      {
      }
    }
  }

  /** The entry lists this chat with this peer. */
  predicate ListsBoth(r: Raw, archived: bool, c: Chat, p: Peer) {
    Decodes(r) && ChatOf(r, archived) == c && r.peer == Some(p)
  }

  predicate ListsPair(list: seq<Raw>, archived: bool, c: Chat, p: Peer) {
    exists r :: r in list && ListsBoth(r, archived, c, p)
  }

  predicate Paired(list: seq<Raw>, archived: bool, cs: seq<Chat>, ps: seq<Peer>) {
    |cs| == |ps| && forall k :: 0 <= k < |cs| ==> ListsPair(list, archived, cs[k], ps[k])
  }

  lemma PairedJoin(list: seq<Raw>, archived: bool, a: seq<Chat>, b: seq<Chat>, p: seq<Peer>, q: seq<Peer>)
    requires Paired(list, archived, a, p) && Paired(list, archived, b, q)
    ensures Paired(list, archived, a + b, p + q)
  {
    hide ListsPair;
  }

  lemma PairedWithin(raw: seq<Raw>, list: seq<Raw>, archived: bool, cs: seq<Chat>, ps: seq<Peer>)
    requires Paired(raw, archived, cs, ps) && forall r :: r in raw ==> r in list
    ensures Paired(list, archived, cs, ps)
  {
    hide ListsBoth;
    forall k | 0 <= k < |cs| ensures ListsPair(list, archived, cs[k], ps[k]) { assert ListsPair(raw, archived, cs[k], ps[k]); }
  }

  lemma {:induction false} PagePaired(raw: seq<Raw>, archived: bool)
    ensures Paired(raw, archived, Chats(raw, archived), Peers(raw))
    decreases |raw|
  {
    if raw != [] {
      var n := |raw| - 1;
      PagePaired(raw[..n], archived);
      PairedWithin(raw[..n], raw, archived, Chats(raw[..n], archived), Peers(raw[..n]));
      if Decodes(raw[n]) {
        assert raw[n] in raw && ListsBoth(raw[n], archived, ChatOf(raw[n], archived), raw[n].peer.value);
        assert ListsPair(raw, archived, ChatOf(raw[n], archived), raw[n].peer.value);
        PairedJoin(raw, archived, Chats(raw[..n], archived), [ChatOf(raw[n], archived)], Peers(raw[..n]), [raw[n].peer.value]);
      }
    }
  }

  /** What a walk saw and the peers it came upon go together, each pair from one entry of the list. */
  lemma {:induction false} WalkPaired(f: Folder, limit: nat, maxPages: nat, trouble: seq<Trouble>, pos: nat, page: nat)
    requires pos <= |f.list| && page <= maxPages && limit > 0
    ensures Paired(f.list, f.number != 0, WalkFrom(f, limit, maxPages, trouble, pos, page).chats,
                   WalkPeers(f, limit, maxPages, trouble, pos, page))
    decreases maxPages - page
  {
    hide Chats, Peers, Goes, Reach, WalkFrom, WalkPeers, Paired;
    var archived := f.number != 0;
    NonePaired(f.list, archived);
    if page < maxPages {
      var raw := Batch(f.list, pos, limit);
      WalkUnfolds(f, limit, maxPages, trouble, pos, page, []);
      AfterNothing(WalkFrom(f, limit, maxPages, trouble, pos, page));
      PeersUnfold(f, limit, maxPages, trouble, pos, page, []);
      PeersNone(map[], World([], [], false, [], [], None, 0, {}, {}, false, false), WalkPeers(f, limit, maxPages, trouble, pos, page));
      PagePaired(raw, archived);
      PairedWithin(raw, f.list, archived, Chats(raw, archived), Peers(raw));
      assert [] + Chats(raw, archived) == Chats(raw, archived) && [] + Peers(raw) == Peers(raw);
      if pos + Reach(raw) <= |f.list| {
        WalkPaired(f, limit, maxPages, trouble, pos + Reach(raw), page + 1);
        PairedJoin(f.list, archived, Chats(raw, archived), WalkFrom(f, limit, maxPages, trouble, pos + Reach(raw), page + 1).chats,
                   Peers(raw), WalkPeers(f, limit, maxPages, trouble, pos + Reach(raw), page + 1));
      }
    } else {
      NoPagesLeft(f, limit, maxPages, trouble, pos);
      PeersAll(f, limit, maxPages, trouble, pos, []);
    }
  }

  lemma NonePaired(list: seq<Raw>, archived: bool)
    ensures Paired(list, archived, [], [])
  {
  }

  /**
   * After any sync the row of a dialog a walk saw is the peer it was last
   * listed with, access hash included, unless that write failed; and then the
   * row is what it was.
   */
  lemma PeerIsAsListed(table: map<int, Peer>, w: World, limit: nat, maxPages: nat, archivePages: nat, k: nat)
    requires limit > 0
    requires var cs := BothWalks(w, limit, maxPages, archivePages).chats;
             k < |cs| && forall j :: k < j < |cs| ==> cs[j].id != cs[k].id
    ensures var c := BothWalks(w, limit, maxPages, archivePages).chats[k];
            var after := SavedPeers(table, SyncPeers(w, limit, maxPages, archivePages), w);
            if w.readOnly || c.id == 0 || c.id in w.brokenPeers then RowOf(after, c.id) == RowOf(table, c.id)
            else c.id in after && ListsPair(if c.archived then w.archive else w.main, c.archived, c, after[c.id])
  {
    hide WalkFrom, WalkPeers, SavedPeers;
    var m := WalkFrom(MainFolder(w), limit, maxPages, w.mainTrouble, 0, 0);
    var a := WalkFrom(ArchiveFolder(w), limit, archivePages, w.archiveTrouble, 0, 0);
    var ps := SyncPeers(w, limit, maxPages, archivePages);
    var cs := BothWalks(w, limit, maxPages, archivePages).chats;
    WalkPaired(MainFolder(w), limit, maxPages, w.mainTrouble, 0, 0);
    WalkPaired(ArchiveFolder(w), limit, archivePages, w.archiveTrouble, 0, 0);
    WalksMark(w, limit, maxPages, archivePages);
    forall j | 0 <= j < |cs|
      ensures j < |ps| && ListsPair(if cs[j].archived then w.archive else w.main, cs[j].archived, cs[j], ps[j]) && ps[j].id == cs[j].id
    {
      if j < |m.chats| { assert ListsPair(w.main, false, m.chats[j], ps[j]); }
      else { assert ListsPair(w.archive, true, a.chats[j - |m.chats|], ps[j]); }
    }
    assert Ids(cs)[k] == cs[k].id;
    assert ps[k].id == cs[k].id && NotFrom(ps, k + 1, cs[k].id) by {
      forall j | k < j < |ps| ensures ps[j].id != cs[k].id { assert j < |cs| ==> ps[j].id == cs[j].id; }
    }
    LastPeerStays(table, ps, w, cs[k].id);
  }

  /** Saved Messages' own peer is written when nobody listed it, even if its row cannot be; no other peer is touched. */
  lemma OtherPeersStay(table: map<int, Peer>, w: World, limit: nat, maxPages: nat, archivePages: nat, id: int)
    requires limit > 0 && id !in Ids(BothWalks(w, limit, maxPages, archivePages).chats)
    ensures var after := SavedPeers(table, SyncPeers(w, limit, maxPages, archivePages), w);
            RowOf(after, id) ==
            if w.self.Some? && w.self.value.id == id && id != 0 && !BothWalks(w, limit, maxPages, archivePages).failed
               && !w.readOnly && id !in w.brokenPeers
            then Some(Peer(id, w.self.value.kind, w.selfHash)) else RowOf(table, id)
  {
    hide WalkFrom, WalkPeers, SavedPeers;
    var ps := SyncPeers(w, limit, maxPages, archivePages);
    var r := BothWalks(w, limit, maxPages, archivePages);
    WalkPaired(MainFolder(w), limit, maxPages, w.mainTrouble, 0, 0);
    WalkPaired(ArchiveFolder(w), limit, archivePages, w.archiveTrouble, 0, 0);
    assert |ps| >= |r.chats|;
    var m := WalkFrom(MainFolder(w), limit, maxPages, w.mainTrouble, 0, 0);
    forall j | 0 <= j < |r.chats| ensures ps[j].id != id {
      assert Ids(r.chats)[j] == r.chats[j].id;
      if j < |m.chats| { assert ListsPair(w.main, false, r.chats[j], ps[j]); }
      else { assert ListsPair(w.archive, true, r.chats[j], ps[j]); }
    }
    LastPeerStays(table, ps, w, id);
    var n := |r.chats|;
    if |ps| > n && w.self.value.id == id {
      assert ps[n] == Peer(id, w.self.value.kind, w.selfHash) && NotFrom(ps, n + 1, id);
    } else {
      assert NotFrom(ps, 0, id);
    }
  }

  // ----- where the code does delete what the server lists

  const LISTED_TWO := Dialog(8, Some(Peer(2, Private, 0)), Some(100), 0)
  const ROW_TWO := Chat(2, Private, Some(100), 0, false)

  lemma ChatsOfTwo(a: Raw, b: Raw, archived: bool)
    ensures Chats([a, b], archived) == (if Decodes(a) then [ChatOf(a, archived)] else [])
                                       + (if Decodes(b) then [ChatOf(b, archived)] else [])
    ensures Chats([a], archived) == if Decodes(a) then [ChatOf(a, archived)] else []
  {
    assert [a, b][..1] == [a] && [a][..0] == [];
  }

  lemma ReachOfTwo(a: Raw, b: Raw)
    requires Decodes(a) && !Decodes(b)
    ensures Reach([a, b]) == 1
  {
    assert [a, b][..1] == [a];
  }

  /** Pages of two: the first holds an undated dialog and an entry that does not decode; chat 2 comes after. */
  function BlindWorld(): World {
    World([Dialog(7, Some(Peer(1, Private, 0)), None, 0), FolderEntry, LISTED_TWO],
      [], false, [], [], None, 0, {}, {}, false, false)
  }

  lemma BlindPageDeletes()
    ensures LISTED_TWO in BlindWorld().main && 2 !in AfterSync(map[2 := ROW_TWO], BlindWorld(), BothWalks(BlindWorld(), 2, 5, 0))
  {
    var w := BlindWorld();
    var c := ChatOf(w.main[0], false);
    BlindWalk(c);
    OneChatLeft(w, c);
  }

  lemma BlindWalk(c: Chat)
    requires c == ChatOf(BlindWorld().main[0], false)
    ensures BothWalks(BlindWorld(), 2, 5, 0) == Walked([c], true, false)
  {
    var w := BlindWorld();
    var first := w.main[0];
    assert Batch(w.main, 0, 2) == [first, FolderEntry];
    ChatsOfTwo(first, FolderEntry, false);
    ReachOfTwo(first, FolderEntry);
    hide Reach, Chats, Batch;
    assert WalkFrom(MainFolder(w), 2, 5, [], 0, 0) == Walked([c], true, false);
  }

  /** A complete walk that saw chat 1 alone leaves no row of chat 2. */
  lemma OneChatLeft(w: World, c: Chat)
    requires c.id == 1 && w.self.None? && w.broken == {} && !w.readOnly && !w.deleteFails
    ensures 2 !in AfterSync(map[2 := ROW_TWO], w, Walked([c], true, false))
  {
    assert Kept(w, [c]) == [1];
  }

  /** Pages of two: nothing on the archive's first page decodes, so it is taken for empty; chat 2 comes after. */
  function ArchiveWorld(): World {
    World([Dialog(7, Some(Peer(1, Private, 0)), Some(100), 0)], [FolderEntry, FolderEntry, LISTED_TWO],
      false, [], [], None, 0, {}, {}, false, false)
  }

  lemma UndecodedArchiveDeletes()
    ensures LISTED_TWO in ArchiveWorld().archive && 2 !in AfterSync(map[2 := ROW_TWO], ArchiveWorld(), BothWalks(ArchiveWorld(), 2, 5, 2))
  {
    var w := ArchiveWorld();
    var c := ChatOf(w.main[0], false);
    ShortMainWalk(c);
    EmptyArchiveWalk();
    hide WalkFrom, AfterSync;
    assert [c] + [] == [c];
    assert BothWalks(w, 2, 5, 2) == Walked([c], true, false);
    OneChatLeft(w, c);
  }

  lemma ShortMainWalk(c: Chat)
    requires c == ChatOf(ArchiveWorld().main[0], false)
    ensures WalkFrom(MainFolder(ArchiveWorld()), 2, 5, [], 0, 0) == Walked([c], true, false)
  {
    var w := ArchiveWorld();
    assert Batch(w.main, 0, 2) == [w.main[0]];
    ChatsOfTwo(w.main[0], w.main[0], false);
    hide Chats, Batch, Reach;
  }

  lemma EmptyArchiveWalk()
    ensures WalkFrom(ArchiveFolder(ArchiveWorld()), 2, 2, [], 0, 0) == Walked([], true, false)
  {
    var w := ArchiveWorld();
    assert Batch(w.archive, 0, 2) == [FolderEntry, FolderEntry];
    ChatsOfTwo(FolderEntry, FolderEntry, true);
    hide Chats, Batch, Reach;
  }

  // ----- the count

  /** The rows a sync writes: one for every chat seen whose write works, and that of Saved Messages if it is added. */
  lemma WrittenIs(w: World, r: Walked)
    ensures var stored := if w.readOnly then {} else set i | 0 <= i < |r.chats| && r.chats[i].id !in w.broken;
            Stored(r.chats, w) == |stored|
            && Written(w, r) == |stored| + if !r.failed && w.self.Some? && w.self.value.id != 0 && !w.readOnly
                                              && w.self.value.id !in w.broken
                                              && (forall i :: 0 <= i < |r.chats| ==> r.chats[i].id != w.self.value.id)
                                           then 1 else 0
  {
    hide StoredCount, AddsSelf, Kept;
    SelfAddedIff(w, r.chats);
    StoredIs(r.chats, w.broken);
  }

  lemma {:induction false} StoredIs(cs: seq<Chat>, broken: set<int>)
    ensures StoredCount(cs, broken) == |set i | 0 <= i < |cs| && cs[i].id !in broken|
    decreases |cs|
  {
    if cs != [] {
      var n := |cs| - 1;
      StoredIs(cs[..n], broken);
      var before := set i | 0 <= i < n && cs[..n][i].id !in broken;
      var all := set i | 0 <= i < |cs| && cs[i].id !in broken;
      if cs[n].id in broken { assert all == before; } else { assert all == before + {n}; }
    }
  }

  /**
   * The count a sync returns is that of the rows it wrote, except exactly when
   * the walk of the archive fails after it wrote any.
   */
  lemma CountIsWrittenIff(w: World, limit: nat, maxPages: nat, archivePages: nat)
    requires limit > 0
    ensures var m := WalkFrom(MainFolder(w), limit, maxPages, w.mainTrouble, 0, 0);
            var a := WalkFrom(ArchiveFolder(w), limit, archivePages, w.archiveTrouble, 0, 0);
            Counted(w, limit, maxPages, archivePages) == Written(w, BothWalks(w, limit, maxPages, archivePages))
            <==> !(!m.failed && archivePages > 0 && a.failed && Stored(a.chats, w) > 0)
  {
    hide WalkFrom, Stored, AddsSelf;
    var m := WalkFrom(MainFolder(w), limit, maxPages, w.mainTrouble, 0, 0);
    var a := WalkFrom(ArchiveFolder(w), limit, archivePages, w.archiveTrouble, 0, 0);
    SavedJoin(map[], m.chats, a.chats, w);
  }

  const LISTED_THREE := Dialog(9, Some(Peer(3, Private, 0)), Some(90), 0)

  /** One chat in the main list; the archive's first page of two is stored and its second cannot be fetched. */
  function HalfArchiveWorld(): World {
    ArchiveWorld().(archive := [LISTED_TWO, LISTED_THREE, FolderEntry], archiveTrouble := [Fine, FetchFails])
  }

  lemma HalfArchiveWalk()
    ensures WalkFrom(ArchiveFolder(HalfArchiveWorld()), 2, 2, [Fine, FetchFails], 0, 0)
            == Walked([ChatOf(LISTED_TWO, true), ChatOf(LISTED_THREE, true)], false, true)
  {
    var f := ArchiveFolder(HalfArchiveWorld());
    var page := [LISTED_TWO, LISTED_THREE];
    assert Batch(f.list, 0, 2) == page;
    ChatsOfTwo(LISTED_TWO, LISTED_THREE, true);
    GoodChats(page, true);
    assert Goes(f, 2, 0);
    hide Chats, Batch, Reach, Goes;
    WalkUnfolds(f, 2, 2, [Fine, FetchFails], 0, 0, []);
    AfterNothing(WalkFrom(f, 2, 2, [Fine, FetchFails], 0, 0));
    assert WalkFrom(f, 2, 2, [Fine, FetchFails], 2, 1) == Walked([], false, true);
  }

  lemma StoredOneAndTwo(a: Chat, b: Chat, c: Chat, w: World)
    requires !w.readOnly && w.broken == {}
    ensures Stored([a], w) == 1 && Stored([a] + [b, c], w) == 3
  {
    SavedJoin(map[], [a], [b, c], w);
    SavedJoin(map[], [b], [c], w);
    assert [b] + [c] == [b, c];
    SavedOne(map[], a, w);
    SavedOne(map[], b, w);
    SavedOne(map[], c, w);
  }

  /** Three rows are written, and one is counted. */
  lemma ArchiveFailureMiscounts()
    ensures var w := HalfArchiveWorld();
            Counted(w, 2, 5, 2) == 1 && Written(w, BothWalks(w, 2, 5, 2)) == 3
  {
    var w := HalfArchiveWorld();
    var c := ChatOf(w.main[0], false);
    assert MainFolder(w) == MainFolder(ArchiveWorld());
    ShortMainWalk(c);
    HalfArchiveWalk();
    StoredOneAndTwo(c, ChatOf(LISTED_TWO, true), ChatOf(LISTED_THREE, true), w);
    hide WalkFrom, Stored;
  }
}
