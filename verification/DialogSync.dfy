/**
 * The dialog sync itself: the walk over one folder, the two walks of a sync,
 * Saved Messages, and the prune (internal/core/sync/dialogs.go).
 */
module DialogSync {

  import opened Basics
  import opened Dialogs
  import opened Sets

  /** What goes wrong with one page; ContextEnds strikes during the pause after it. */
  datatype Trouble = Fine | Cancelled | FetchFails | ContextEnds

  function TroubleAt(script: seq<Trouble>, page: nat): Trouble {
    if page < |script| then script[page] else Fine
  }

  /** One folder as the server lists it; it does not change during the walk. */
  datatype Folder = Folder(list: seq<Raw>, declares: bool, number: int)

  datatype Walked = Walked(chats: seq<Chat>, complete: bool, failed: bool)

  function Ids(chats: seq<Chat>): (ids: seq<int>)
    ensures |ids| == |chats| && forall i :: 0 <= i < |ids| ==> ids[i] == chats[i].id
  {
    seq(|chats|, i requires 0 <= i < |chats| => chats[i].id)
  }

  /** A walk from a position in the list: what it sees, and how it ends. */
  function WalkFrom(f: Folder, limit: nat, maxPages: nat, trouble: seq<Trouble>, pos: nat, page: nat): Walked
    requires pos <= |f.list| && page <= maxPages && limit > 0
    decreases maxPages - page
  {
    if page == maxPages then Walked([], false, false)
    else if TroubleAt(trouble, page) == Cancelled || TroubleAt(trouble, page) == FetchFails then Walked([], false, true)
    else
      var raw := Batch(f.list, pos, limit);
      var chats := Chats(raw, f.number != 0);
      if chats == [] then Walked([], f.number != 0, false)
      else if !Goes(f, limit, pos) then Walked(chats, |chats| < limit, false)
      else if TroubleAt(trouble, page) == ContextEnds then Walked(chats, false, true)
      else After(chats, WalkFrom(f, limit, maxPages, trouble, pos + Reach(raw), page + 1))
  }

  function After(got: seq<Chat>, r: Walked): Walked { r.(chats := got + r.chats) }

  /** The page at a position leads on. */
  predicate Goes(f: Folder, limit: nat, pos: nat)
    requires pos <= |f.list|
  {
    More(Batch(f.list, pos, limit), Declared(f.list, f.declares, limit, pos), limit)
  }

  // ----- the tables

  /** Writing chats in order; the writes of some ids fail. */
  function SavedChats(table: map<int, Chat>, chats: seq<Chat>, broken: set<int>): map<int, Chat> {
    if chats == [] then table
    else
      var before := SavedChats(table, chats[..|chats| - 1], broken);
      var c := chats[|chats| - 1];
      if c.id in broken then before else before[c.id := c]
  }

  function Saved(table: map<int, Chat>, chats: seq<Chat>, w: World): map<int, Chat> {
    if w.readOnly then table else SavedChats(table, chats, w.broken)
  }

  function Stored(chats: seq<Chat>, w: World): nat {
    if w.readOnly then 0 else StoredCount(chats, w.broken)
  }

  lemma {:induction false} SavedJoin(table: map<int, Chat>, a: seq<Chat>, b: seq<Chat>, w: World)
    ensures Saved(table, a + b, w) == Saved(Saved(table, a, w), b, w)
    ensures Stored(a + b, w) == Stored(a, w) + Stored(b, w)
    decreases |b|
  {
    if b == [] {
      assert a + b == a;
    } else {
      SavedJoin(table, a, b[..|b| - 1], w);
      assert (a + b)[..|a + b| - 1] == a + b[..|b| - 1];
    }
  }

  function StoredCount(chats: seq<Chat>, broken: set<int>): nat {
    if chats == [] then 0
    else StoredCount(chats[..|chats| - 1], broken) + if chats[|chats| - 1].id in broken then 0 else 1
  }

  function Pruned(table: map<int, Chat>, keep: seq<int>): map<int, Chat> {
    map id | id in table && id in keep :: table[id]
  }

  /** The server, and what fails on the way; writes of chats and of peers fail independently. */
  datatype World = World(main: seq<Raw>, archive: seq<Raw>, declares: bool,
                         mainTrouble: seq<Trouble>, archiveTrouble: seq<Trouble>,
                         self: Option<Chat>, selfHash: int, broken: set<int>, brokenPeers: set<int>,
                         readOnly: bool, deleteFails: bool)

  function MainFolder(w: World): Folder { Folder(w.main, w.declares, 0) }

  function ArchiveFolder(w: World): Folder { Folder(w.archive, w.declares, 1) }

  // ----- the peers

  /** A peer without an id is refused. */
  predicate PeerFails(p: Peer, w: World) { w.readOnly || p.id == 0 || p.id in w.brokenPeers }

  /** Writing peers in order, by id. */
  function SavedPeers(table: map<int, Peer>, ps: seq<Peer>, w: World): map<int, Peer> {
    if ps == [] then table
    else
      var p := ps[|ps| - 1];
      var before := SavedPeers(table, ps[..|ps| - 1], w);
      if PeerFails(p, w) then before else before[p.id := p]
  }

  lemma {:induction false} SavedPeersJoin(table: map<int, Peer>, a: seq<Peer>, b: seq<Peer>, w: World)
    ensures SavedPeers(table, a + b, w) == SavedPeers(SavedPeers(table, a, w), b, w)
    decreases |b|
  {
    if b == [] {
      assert a + b == a;
    } else {
      SavedPeersJoin(table, a, b[..|b| - 1], w);
      assert (a + b)[..|a + b| - 1] == a + b[..|b| - 1];
    }
  }

  /** The peers a walk from a position comes upon, in order. */
  function WalkPeers(f: Folder, limit: nat, maxPages: nat, trouble: seq<Trouble>, pos: nat, page: nat): seq<Peer>
    requires pos <= |f.list| && page <= maxPages && limit > 0
    decreases maxPages - page
  {
    if page == maxPages || TroubleAt(trouble, page) == Cancelled || TroubleAt(trouble, page) == FetchFails then []
    else
      var raw := Batch(f.list, pos, limit);
      if !Goes(f, limit, pos) || TroubleAt(trouble, page) == ContextEnds then Peers(raw)
      else Peers(raw) + WalkPeers(f, limit, maxPages, trouble, pos + Reach(raw), page + 1)
  }

  /** Saved Messages' own peer, which is written whenever its row is tried. */
  function SelfPeers(w: World, seen: seq<Chat>): seq<Peer> {
    if w.self.Some? && w.self.value.id != 0 && w.self.value.id !in Ids(seen)
    then [Peer(w.self.value.id, w.self.value.kind, w.selfHash)] else []
  }

  /** All peers of one sync, in the order they are written. */
  function SyncPeers(w: World, limit: nat, maxPages: nat, archivePages: nat): seq<Peer>
    requires limit > 0
  {
    var m := WalkFrom(MainFolder(w), limit, maxPages, w.mainTrouble, 0, 0);
    var r := BothWalks(w, limit, maxPages, archivePages);
    WalkPeers(MainFolder(w), limit, maxPages, w.mainTrouble, 0, 0)
    + (if m.failed || archivePages == 0 then [] else WalkPeers(ArchiveFolder(w), limit, archivePages, w.archiveTrouble, 0, 0))
    + if r.failed then [] else SelfPeers(w, r.chats)
  }

  /** Both walks of one sync; a failed main walk leaves the archive alone. */
  function BothWalks(w: World, limit: nat, maxPages: nat, archivePages: nat): Walked
    requires limit > 0
  {
    var m := WalkFrom(MainFolder(w), limit, maxPages, w.mainTrouble, 0, 0);
    if m.failed || archivePages == 0 then m
    else
      var a := WalkFrom(ArchiveFolder(w), limit, archivePages, w.archiveTrouble, 0, 0);
      Walked(m.chats + a.chats, m.complete && a.complete, a.failed)
  }

  /** Saved Messages joins the list when nobody listed it and its row could be written. */
  predicate AddsSelf(w: World, seen: seq<Chat>) {
    w.self.Some? && w.self.value.id != 0 && w.self.value.id !in Ids(seen) && !w.readOnly && w.self.value.id !in w.broken
  }

  /** The ids the prune keeps. */
  function Kept(w: World, seen: seq<Chat>): seq<int> {
    Ids(seen) + if AddsSelf(w, seen) then [w.self.value.id] else []
  }

  predicate Prunes(w: World, r: Walked) {
    !r.failed && r.complete && Kept(w, r.chats) != [] && !w.readOnly && !w.deleteFails
  }

  /** The chats table after one sync whose walks went as r says. */
  function AfterSync(table: map<int, Chat>, w: World, r: Walked): map<int, Chat> {
    var saved := Saved(table, r.chats, w);
    var whole := if !r.failed && AddsSelf(w, r.chats) then saved[w.self.value.id := w.self.value] else saved;
    if Prunes(w, r) then Pruned(whole, Kept(w, r.chats)) else whole
  }

  /** How many rows a sync writes. */
  function Written(w: World, r: Walked): nat {
    Stored(r.chats, w) + if !r.failed && AddsSelf(w, r.chats) then 1 else 0
  }

  /** The count a sync returns: when the walk of the archive fails, only that of the main list. */
  function Counted(w: World, limit: nat, maxPages: nat, archivePages: nat): nat
    requires limit > 0
  {
    var r := BothWalks(w, limit, maxPages, archivePages);
    if r.failed then Stored(WalkFrom(MainFolder(w), limit, maxPages, w.mainTrouble, 0, 0).chats, w) else Written(w, r)
  }

  class DialogsService {
    const batchSize: nat
    const maxPages: nat
    const archivePages: nat
    var chats: map<int, Chat>
    var peers: map<int, Peer>

    constructor (batchSize: nat, maxPages: nat, archivePages: nat)
      ensures this.batchSize == (if batchSize == 0 then 100 else batchSize)
      ensures this.maxPages == (if maxPages == 0 then 5 else maxPages)
      ensures this.archivePages == archivePages && chats == map[] && peers == map[]
    {
      this.batchSize := if batchSize == 0 then 100 else batchSize;
      this.maxPages := if maxPages == 0 then 5 else maxPages;
      this.archivePages := archivePages;
      chats, peers := map[], map[];
    }

    method SaveChat(c: Chat, w: World) returns (ok: bool)
      modifies `chats
      ensures ok == (!w.readOnly && c.id !in w.broken)
      ensures chats == if ok then old(chats)[c.id := c] else old(chats)
    {
      ok := !w.readOnly && c.id !in w.broken;
      if ok { chats := chats[c.id := c]; }
    }

    method DeleteChatsExcept(keep: seq<int>, w: World) returns (removed: Option<nat>)
      modifies `chats
      ensures removed.Some? == (!w.readOnly && keep != [] && !w.deleteFails)
      ensures chats == if removed.Some? then Pruned(old(chats), keep) else old(chats)
      ensures removed.Some? ==> removed.value == |old(chats)| - |chats|
    {
      if w.readOnly || keep == [] || w.deleteFails { return None; }
      var before := chats;
      chats := Pruned(chats, keep);
      PrunedShrinks(before, keep);
      removed := Some(|before| - |chats|);
    }

    method SavePeer(p: Peer, w: World)
      modifies `peers
      ensures peers == if w.readOnly || p.id == 0 || p.id in w.brokenPeers then old(peers) else old(peers)[p.id := p]
    {
      if p.id == 0 { return; }
      if w.readOnly || p.id in w.brokenPeers { return; }
      peers := peers[p.id := p];
    }

    /** Peers first, then chats; a failed write is skipped, and a chat is written whatever became of its peer. */
    method Persist(p: Page, w: World) returns (stored: nat)
      modifies this
      ensures peers == SavedPeers(old(peers), p.peers, w)
      ensures chats == Saved(old(chats), p.chats, w) && stored == Stored(p.chats, w)
    {
      var i := 0;
      while i < |p.peers|
        invariant 0 <= i <= |p.peers|
        invariant chats == old(chats) && peers == SavedPeers(old(peers), p.peers[..i], w)
      {
        assert p.peers[..i + 1][..i] == p.peers[..i];
        SavePeer(p.peers[i], w);
        i := i + 1;
      }
      assert p.peers[..|p.peers|] == p.peers;
      i, stored := 0, 0;
      while i < |p.chats|
        invariant 0 <= i <= |p.chats|
        invariant peers == SavedPeers(old(peers), p.peers, w)
        invariant chats == Saved(old(chats), p.chats[..i], w) && stored == Stored(p.chats[..i], w)
      {
        assert p.chats[..i + 1][..i] == p.chats[..i];
        var ok := SaveChat(p.chats[i], w);
        if ok { stored := stored + 1; }
        i := i + 1;
      }
      assert p.chats[..|p.chats|] == p.chats;
    }

    /** Notes which folder the page is from, and that the server lists its chats. */
    method Record(p: Page, ghost raw: seq<Raw>, archived: bool, seen: seq<int>) returns (marked: Page, noted: seq<int>)
      requires p.chats == Chats(raw, false)
      ensures marked == p.(chats := Chats(raw, archived))
      ensures noted == seen + Ids(Chats(raw, archived))
    {
      MarkedChats(raw, archived);
      var chats := p.chats;
      noted := seen;
      for i := 0 to |p.chats|
        invariant |chats| == |p.chats|
        invariant forall k :: 0 <= k < i ==> chats[k] == p.chats[k].(archived := archived)
        invariant forall k :: i <= k < |chats| ==> chats[k] == p.chats[k]
        invariant noted == seen + Ids(p.chats)[..i]
      {
        chats := chats[i := chats[i].(archived := archived)];
        noted := noted + [chats[i].id];
      }
      assert chats == Chats(raw, archived);
      assert Ids(p.chats)[..|p.chats|] == Ids(Chats(raw, archived));
      marked := p.(chats := chats);
    }

    method Walk(f: Folder, pages: nat, trouble: seq<Trouble>, w: World)
      returns (seen: seq<int>, stored: nat, complete: bool, failed: bool)
      requires batchSize > 0 && Distinct(f.list)
      modifies this
      ensures var r := WalkFrom(f, batchSize, pages, trouble, 0, 0);
              seen == Ids(r.chats) && complete == r.complete && failed == r.failed
              && stored == Stored(r.chats, w) && chats == Saved(old(chats), r.chats, w)
      ensures peers == SavedPeers(old(peers), WalkPeers(f, batchSize, pages, trouble, 0, 0), w)
    {
      hide SavedPeers, WalkPeers;
      hide Chats, Reach, Saved, Stored, Position, More, Declared, Distinct, WalkFrom, Ids, After, Peers, TroubleAt, Batch;
      var cursor := Start(f.number);
      seen, stored := [], 0;
      var page := 0;
      ghost var pos: nat, got: seq<Chat>, met: seq<Peer> := 0, [], [];
      PeersNone(peers, w, WalkPeers(f, batchSize, pages, trouble, 0, 0));
      PositionOfStart(f.list, f.number);
      AfterNothing(WalkFrom(f, batchSize, pages, trouble, 0, 0));
      SavedNone(chats, w);
      while page < pages
        invariant page <= pages && pos <= |f.list|
        invariant cursor.folder == f.number && Position(f.list, cursor) == pos
        invariant seen == Ids(got) && stored == Stored(got, w) && chats == Saved(old(chats), got, w)
        invariant WalkFrom(f, batchSize, pages, trouble, 0, 0) == After(got, WalkFrom(f, batchSize, pages, trouble, pos, page))
        invariant peers == SavedPeers(old(peers), met, w)
        invariant WalkPeers(f, batchSize, pages, trouble, 0, 0) == met + WalkPeers(f, batchSize, pages, trouble, pos, page)
      {
        ghost var raw := Batch(f.list, pos, batchSize);
        WalkUnfolds(f, batchSize, pages, trouble, pos, page, got);
        PeersUnfold(f, batchSize, pages, trouble, pos, page, met);
        if TroubleAt(trouble, page) == Cancelled || TroubleAt(trouble, page) == FetchFails {
          return seen, stored, false, true;
        }
        var p := FetchDialogs(f.list, f.declares, batchSize, cursor);
        MarkedChats(raw, f.number != 0);
        if |p.chats| == 0 {
          return seen, stored, f.number != 0, false;
        }
        p, seen := Record(p, raw, f.number != 0, seen);
        var n := Persist(p, w);
        stored := stored + n;
        SavedJoin(old(chats), got, p.chats, w);
        IdsJoin(got, p.chats);
        SavedPeersJoin(old(peers), met, p.peers, w);
        got, met := got + p.chats, met + p.peers;
        if !p.hasMore || IsZero(p.next) {
          return seen, stored, |p.chats| < batchSize, false;
        }
        var next := p.next.(folder := f.number);
        CursorAdvances(f, pos, batchSize);
        if next == cursor {
          return seen, stored, false, false;
        }
        cursor := next;
        if TroubleAt(trouble, page) == ContextEnds {
          return seen, stored, false, true;
        }
        pos, page := pos + Reach(raw), page + 1;
      }
      AfterAll(f, batchSize, pages, trouble, pos, got);
      PeersAll(f, batchSize, pages, trouble, pos, met);
      return seen, stored, false, false;
    }

    /** Saved Messages is written, and kept, only when the server did not list it; its peer even when its row cannot be. */
    method EnsureSelf(seen: seq<int>, ghost listed: seq<Chat>, w: World) returns (noted: seq<int>, added: nat)
      requires seen == Ids(listed)
      modifies this
      ensures noted == Kept(w, listed)
      ensures added == if AddsSelf(w, listed) then 1 else 0
      ensures chats == if AddsSelf(w, listed) then old(chats)[w.self.value.id := w.self.value] else old(chats)
      ensures peers == SavedPeers(old(peers), SelfPeers(w, listed), w)
    {
      PeersNone(peers, w, []);
      if w.self.None? || w.self.value.id == 0 { return seen, 0; }
      for i := 0 to |seen|
        invariant w.self.value.id !in seen[..i]
      {
        if seen[i] == w.self.value.id { return seen, 0; }
      }
      assert seen[..|seen|] == seen;
      var c := w.self.value;
      SavedOne(chats, c, w);
      added := Persist(Page([c], [Peer(c.id, c.kind, w.selfHash)], Start(0), false), w);
      noted := if added == 0 then seen else seen + [c.id];
    }

    method Prune(seen: seq<int>, complete: bool, w: World)
      modifies `chats
      ensures chats == if complete && seen != [] && !w.readOnly && !w.deleteFails then Pruned(old(chats), seen) else old(chats)
    {
      if !complete || |seen| == 0 { return; }
      var removed := DeleteChatsExcept(seen, w);
    }

    method Sync(w: World) returns (stored: nat, failed: bool)
      requires batchSize > 0 && Distinct(w.main) && Distinct(w.archive)
      modifies this
      ensures var r := BothWalks(w, batchSize, maxPages, archivePages);
              failed == r.failed && chats == AfterSync(old(chats), w, r)
      ensures stored == Counted(w, batchSize, maxPages, archivePages)
      ensures peers == SavedPeers(old(peers), SyncPeers(w, batchSize, maxPages, archivePages), w)
    {
      hide SavedPeers, WalkPeers;
      var seen, complete;
      seen, stored, complete, failed := Walk(MainFolder(w), maxPages, w.mainTrouble, w);
      ghost var met := WalkPeers(MainFolder(w), batchSize, maxPages, w.mainTrouble, 0, 0);
      if failed {
        assert SyncPeers(w, batchSize, maxPages, archivePages) == met;
        return;
      }
      ghost var listed := WalkFrom(MainFolder(w), batchSize, maxPages, w.mainTrouble, 0, 0).chats;
      if archivePages > 0 {
        ghost var archived := WalkFrom(ArchiveFolder(w), batchSize, archivePages, w.archiveTrouble, 0, 0).chats;
        SavedJoin(old(chats), listed, archived, w);
        IdsJoin(listed, archived);
        var more, storedMore, completeMore;
        more, storedMore, completeMore, failed := Walk(ArchiveFolder(w), archivePages, w.archiveTrouble, w);
        ghost var metMore := WalkPeers(ArchiveFolder(w), batchSize, archivePages, w.archiveTrouble, 0, 0);
        SavedPeersJoin(old(peers), met, metMore, w);
        met := met + metMore;
        if failed {
          assert SyncPeers(w, batchSize, maxPages, archivePages) == met;
          return;
        }
        seen, stored, complete := seen + more, stored + storedMore, complete && completeMore;
        listed := listed + archived;
      }
      var added;
      seen, added := EnsureSelf(seen, listed, w);
      SavedPeersJoin(old(peers), met, SelfPeers(w, listed), w);
      assert SyncPeers(w, batchSize, maxPages, archivePages) == met + SelfPeers(w, listed);
      stored := stored + added;
      Prune(seen, complete, w);
    }
  }

  /** One page of the walk, after what was already seen. */
  lemma WalkUnfolds(f: Folder, limit: nat, pages: nat, trouble: seq<Trouble>, pos: nat, page: nat, got: seq<Chat>)
    requires pos <= |f.list| && page < pages && limit > 0
    ensures var raw := Batch(f.list, pos, limit);
            var chats := Chats(raw, f.number != 0);
            After(got, WalkFrom(f, limit, pages, trouble, pos, page)) ==
            if TroubleAt(trouble, page) == Cancelled || TroubleAt(trouble, page) == FetchFails then Walked(got, false, true)
            else if chats == [] then Walked(got, f.number != 0, false)
            else if !Goes(f, limit, pos) then Walked(got + chats, |chats| < limit, false)
            else if TroubleAt(trouble, page) == ContextEnds then Walked(got + chats, false, true)
            else After(got + chats, WalkFrom(f, limit, pages, trouble, pos + Reach(raw), page + 1))
  {
    hide Goes, Reach, Chats, Batch;
    var raw := Batch(f.list, pos, limit);
    var rest := WalkFrom(f, limit, pages, trouble, pos + Reach(raw), page + 1);
    assert got + [] == got;
    assert got + (Chats(raw, f.number != 0) + rest.chats) == (got + Chats(raw, f.number != 0)) + rest.chats;
  }

  lemma PeersUnfold(f: Folder, limit: nat, pages: nat, trouble: seq<Trouble>, pos: nat, page: nat, met: seq<Peer>)
    requires pos <= |f.list| && page < pages && limit > 0
    ensures var raw := Batch(f.list, pos, limit);
            met + WalkPeers(f, limit, pages, trouble, pos, page) ==
            if TroubleAt(trouble, page) == Cancelled || TroubleAt(trouble, page) == FetchFails then met
            else if Chats(raw, f.number != 0) == [] then met
            else if !Goes(f, limit, pos) || TroubleAt(trouble, page) == ContextEnds then met + Peers(raw)
            else (met + Peers(raw)) + WalkPeers(f, limit, pages, trouble, pos + Reach(raw), page + 1)
  {
    hide Goes, Reach, Batch;
    var raw := Batch(f.list, pos, limit);
    assert met + [] == met;
    NothingDecodes(f, limit, pos);
    if Goes(f, limit, pos) && pos + Reach(raw) <= |f.list| {
      assert met + (Peers(raw) + WalkPeers(f, limit, pages, trouble, pos + Reach(raw), page + 1))
             == (met + Peers(raw)) + WalkPeers(f, limit, pages, trouble, pos + Reach(raw), page + 1);
    }
  }

  /** A page that decodes to nothing has no peers and no cursor. */
  lemma NothingDecodes(f: Folder, limit: nat, pos: nat)
    requires pos <= |f.list|
    ensures Chats(Batch(f.list, pos, limit), f.number != 0) == [] ==>
              !Goes(f, limit, pos) && Peers(Batch(f.list, pos, limit)) == []
  {
    EmptyPage(Batch(f.list, pos, limit), f.number != 0);
  }

  lemma {:induction false} EmptyPage(raw: seq<Raw>, archived: bool)
    ensures Chats(raw, archived) == [] ==> Peers(raw) == [] && Reach(raw) == 0
  {
    if raw != [] { EmptyPage(raw[..|raw| - 1], archived); }
  }

  lemma PeersAll(f: Folder, limit: nat, pages: nat, trouble: seq<Trouble>, pos: nat, met: seq<Peer>)
    requires pos <= |f.list| && limit > 0
    ensures met + WalkPeers(f, limit, pages, trouble, pos, pages) == met
  {
  }

  lemma PeersNone(table: map<int, Peer>, w: World, ps: seq<Peer>)
    ensures SavedPeers(table, [], w) == table && [] + ps == ps
  {
  }

  lemma AfterAll(f: Folder, limit: nat, pages: nat, trouble: seq<Trouble>, pos: nat, got: seq<Chat>)
    requires pos <= |f.list| && limit > 0
    ensures After(got, WalkFrom(f, limit, pages, trouble, pos, pages)) == Walked(got, false, false)
  {
    assert got + [] == got;
  }

  lemma {:induction false} MarkedChats(raw: seq<Raw>, archived: bool)
    ensures |Chats(raw, archived)| == |Chats(raw, false)|
    ensures forall i :: 0 <= i < |Chats(raw, false)| ==>
              Chats(raw, archived)[i] == Chats(raw, false)[i].(archived := archived)
  {
    if raw != [] { MarkedChats(raw[..|raw| - 1], archived); }
  }

  lemma AfterNothing(r: Walked)
    ensures After([], r) == r && Ids([]) == []
  {
  }

  lemma PositionOfStart(list: seq<Raw>, folder: int)
    ensures Position(list, Start(folder)) == 0
  {
  }

  lemma SavedNone(table: map<int, Chat>, w: World)
    ensures Saved(table, [], w) == table && Stored([], w) == 0
  {
  }

  lemma SavedOne(table: map<int, Chat>, c: Chat, w: World)
    ensures Saved(table, [c], w) == if w.readOnly || c.id in w.broken then table else table[c.id := c]
    ensures Stored([c], w) == if w.readOnly || c.id in w.broken then 0 else 1
  {
    assert [c][..|[c]| - 1] == [];
    assert SavedChats(table, [], w.broken) == table && StoredCount([], w.broken) == 0;
  }

  lemma IdsJoin(a: seq<Chat>, b: seq<Chat>)
    ensures Ids(a + b) == Ids(a) + Ids(b)
  {
  }

  /** The cursor a page hands over names the entry that page ended on. */
  lemma CursorAdvances(f: Folder, pos: nat, limit: nat)
    requires Distinct(f.list) && pos <= |f.list|
    requires Goes(f, limit, pos)
    ensures var raw := Batch(f.list, pos, limit);
            pos + Reach(raw) <= |f.list|
            && Position(f.list, CursorOf(raw[Reach(raw) - 1], f.number)) == pos + Reach(raw) > pos
  {
    var k := Reach(Batch(f.list, pos, limit));
    PositionOfCursor(f.list, pos + k - 1, f.number);
  }

  lemma PrunedShrinks(table: map<int, Chat>, keep: seq<int>)
    ensures |Pruned(table, keep)| <= |table|
  {
    SubsetSize(Pruned(table, keep).Keys, table.Keys);
  }
}
