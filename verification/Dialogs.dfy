/**
 * The dialog walk and the prune that follows it: pages of the server's list
 * are decoded, a cursor is built from the last decoded dialog, and a walk that
 * calls itself complete deletes every chat it did not see
 * (internal/core/sync/dialogs.go, internal/tg/dialogs.go, internal/storage/sqlite/repo.go).
 */
module Dialogs {

  import opened Basics

  datatype Kind = Private | Group | Supergroup | Channel

  datatype Peer = Peer(id: int, kind: Kind, hash: int)

  /**
   * One raw entry of a response: the archive pseudo-dialog, or a dialog. A
   * dialog whose user or chat object did not come along has no peer, one
   * whose top message did not come along has no date.
   */
  datatype Raw = FolderEntry | Dialog(top: int, peer: Option<Peer>, date: Option<int>, unread: nat)

  datatype Chat = Chat(id: int, kind: Kind, date: Option<int>, unread: nat, archived: bool)

  datatype Cursor = Cursor(date: int, id: int, peerId: int, hash: int, kind: Option<Kind>, folder: int)

  datatype Page = Page(chats: seq<Chat>, peers: seq<Peer>, next: Cursor, hasMore: bool)

  function Start(folder: int): Cursor { Cursor(0, 0, 0, 0, None, folder) }

  predicate IsZero(c: Cursor) { c == Start(c.folder) }

  predicate Decodes(r: Raw) { r.Dialog? && r.peer.Some? }

  predicate Dated(r: Raw) { r.Dialog? && r.date.Some? }

  function ChatOf(r: Raw, archived: bool): Chat
    requires Decodes(r)
  {
    Chat(r.peer.value.id, r.peer.value.kind, r.date, r.unread, archived)
  }

  function CursorOf(r: Raw, folder: int): Cursor
    requires Decodes(r) && Dated(r)
  {
    Cursor(r.date.value, r.top, r.peer.value.id, r.peer.value.hash, Some(r.peer.value.kind), folder)
  }

  /** The chats a list of entries decodes to. */
  function Chats(raw: seq<Raw>, archived: bool): (cs: seq<Chat>)
    ensures |cs| <= |raw|
  {
    if raw == [] then []
    else
      var n := |raw| - 1;
      if Decodes(raw[n]) then Chats(raw[..n], archived) + [ChatOf(raw[n], archived)] else Chats(raw[..n], archived)
  }

  function Peers(raw: seq<Raw>): seq<Peer> {
    if raw == [] then []
    else
      var n := |raw| - 1;
      if Decodes(raw[n]) then Peers(raw[..n]) + [raw[n].peer.value] else Peers(raw[..n])
  }

  /** One past the last entry that decodes; zero when none does. */
  function Reach(raw: seq<Raw>): (k: nat)
    ensures k <= |raw| && (k > 0 ==> Decodes(raw[k - 1]))
    ensures forall i :: k <= i < |raw| ==> !Decodes(raw[i])
  {
    if raw == [] then 0 else if Decodes(raw[|raw| - 1]) then |raw| else Reach(raw[..|raw| - 1])
  }

  /** Whether a page leads to another one. */
  predicate More(raw: seq<Raw>, full: bool, limit: nat) {
    !full && limit > 0 && |raw| >= limit && Reach(raw) > 0 && Dated(raw[Reach(raw) - 1])
  }

  method DecodeDialogs(raw: seq<Raw>, full: bool, limit: nat) returns (p: Page)
    ensures p.chats == Chats(raw, false) && p.peers == Peers(raw)
    ensures p.hasMore == More(raw, full, limit)
    ensures p.next == if p.hasMore then CursorOf(raw[Reach(raw) - 1], 0) else Cursor(0, 0, 0, 0, None, 0)
  {
    var chats: seq<Chat>, peers: seq<Peer> := [], [];
    var valid, last, top, date := false, Peer(0, Private, 0), 0, None;
    var i := 0;
    while i < |raw|
      invariant 0 <= i <= |raw|
      invariant chats == Chats(raw[..i], false) && peers == Peers(raw[..i])
      invariant valid == (Reach(raw[..i]) > 0)
      invariant valid ==> var r := raw[Reach(raw[..i]) - 1]; last == r.peer.value && top == r.top && date == r.date
    {
      assert raw[..i + 1][..i] == raw[..i];
      var r := raw[i];
      if r.Dialog? && r.peer.Some? {
        chats := chats + [ChatOf(r, false)];
        peers := peers + [r.peer.value];
        last, top, date, valid := r.peer.value, r.top, r.date, true;
      }
      i := i + 1;
    }
    assert raw[..|raw|] == raw;
    var haveMore := if full then false else limit > 0 && |raw| >= limit;
    if haveMore && valid && date.Some? {
      p := Page(chats, peers, Cursor(date.value, top, last.id, last.hash, Some(last.kind), 0), true);
    } else {
      p := Page(chats, peers, Start(0), false);
    }
  }

  /**
   * The chats and peers of a page are the entries that came with their peer,
   * in the order listed, each with the date, the unread count and the hash of
   * its entry.
   */
  lemma {:induction false} PageIsAsListed(a: seq<Raw>, r: Raw, b: seq<Raw>, archived: bool)
    ensures Chats([], archived) == [] && Peers([]) == []
    ensures var p := if r.Dialog? then r.peer else None;
            && Peers(a + [r] + b) == Peers(a) + (if p.Some? then [p.value] else []) + Peers(b)
            && Chats(a + [r] + b, archived)
               == Chats(a, archived)
                  + (if p.Some? then [Chat(p.value.id, p.value.kind, r.date, r.unread, archived)] else [])
                  + Chats(b, archived)
    decreases |b|
  {
    var all := a + [r] + b;
    if b == [] {
      assert all[..|all| - 1] == a;
    } else {
      assert all[..|all| - 1] == a + [r] + b[..|b| - 1];
      PageIsAsListed(a, r, b[..|b| - 1], archived);
    }
  }

  /**
   * A page leads on exactly when it is full, the server did not call it the
   * whole list, and the last entry that came with its peer has a date; the
   * cursor is then made of that entry alone.
   */
  lemma LeadsOnIff(raw: seq<Raw>, full: bool, limit: nat, folder: int)
    ensures More(raw, full, limit) <==>
              && !full && limit > 0 && |raw| >= limit
              && exists k :: 0 <= k < |raw| && raw[k].Dialog? && raw[k].peer.Some? && raw[k].date.Some?
                             && forall i :: k < i < |raw| ==> raw[i].FolderEntry? || raw[i].peer.None?
    ensures More(raw, full, limit) ==>
              var r := raw[Reach(raw) - 1];
              && r.Dialog? && r.peer.Some? && r.date.Some?
              && (forall i :: Reach(raw) <= i < |raw| ==> raw[i].FolderEntry? || raw[i].peer.None?)
              && CursorOf(r, folder)
                 == Cursor(r.date.value, r.top, r.peer.value.id, r.peer.value.hash, Some(r.peer.value.kind), folder)
  {
    if k :| 0 <= k < |raw| && raw[k].Dialog? && raw[k].peer.Some? && raw[k].date.Some?
            && forall i :: k < i < |raw| ==> raw[i].FolderEntry? || raw[i].peer.None?
    {
      assert Decodes(raw[k]);
      assert Reach(raw) == k + 1;
    }
  }

  // ----- the server's list

  /** No two dialogs of one list are with the same peer. */
  predicate Distinct(list: seq<Raw>) {
    forall i, j :: 0 <= i < j < |list| && Decodes(list[i]) && Decodes(list[j]) ==>
      !(list[i].peer.value.id == list[j].peer.value.id && list[i].peer.value.kind == list[j].peer.value.kind)
  }

  predicate Names(c: Cursor, r: Raw) {
    Decodes(r) && c.kind == Some(r.peer.value.kind) && c.peerId == r.peer.value.id
  }

  /** How many entries of a fixed list come before a cursor's next page. */
  function Position(list: seq<Raw>, c: Cursor): (k: nat)
    ensures k <= |list|
  {
    if list == [] || c.kind.None? then 0
    else if Names(c, list[|list| - 1]) then |list|
    else Position(list[..|list| - 1], c)
  }

  lemma {:induction false} PositionOfCursor(list: seq<Raw>, j: nat, folder: int)
    requires Distinct(list) && j < |list| && Decodes(list[j]) && Dated(list[j])
    ensures Position(list, CursorOf(list[j], folder)) == j + 1
  {
    if j < |list| - 1 {
      PositionOfCursor(list[..|list| - 1], j, folder);
    }
  }

  function Min(a: nat, b: nat): nat { if a <= b then a else b }

  /** The entries of the page at a position. */
  function Batch(list: seq<Raw>, pos: nat, limit: nat): (raw: seq<Raw>)
    requires pos <= |list|
    ensures |raw| == Min(limit, |list| - pos)
  {
    list[pos..Min(pos + limit, |list|)]
  }

  /**
   * The answer to one request: the next entries of the list, declared to be
   * the whole list only if nothing is left after them.
   */
  method FetchDialogs(list: seq<Raw>, declares: bool, limit: nat, cursor: Cursor) returns (p: Page)
    ensures var pos := Position(list, cursor);
            var raw := Batch(list, pos, limit);
            var more := More(raw, Declared(list, declares, limit, pos), limit);
            p.chats == Chats(raw, false) && p.peers == Peers(raw) && p.hasMore == more
            && p.next == if more then CursorOf(raw[Reach(raw) - 1], cursor.folder) else Cursor(0, 0, 0, 0, None, 0)
  {
    var pos := Position(list, cursor);
    p := DecodeDialogs(Batch(list, pos, limit), Declared(list, declares, limit, pos), limit);
    if p.hasMore {
      p := p.(next := p.next.(folder := cursor.folder));
    }
  }

  predicate Declared(list: seq<Raw>, declares: bool, limit: nat, pos: nat) {
    declares && pos + limit >= |list|
  }
}
