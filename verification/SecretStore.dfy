/**
 * The encrypted secret store of one process: a cached map over one ciphertext
 * file that every write replaces whole (internal/core/config/secrets.go).
 * Decryption is symbolic: a ciphertext opens with the passphrase that sealed it.
 */
module SecretStore {

  import opened Basics

  type Secrets = map<string, string>

  /** A ciphertext; the salt tells two sealings of the same map apart. */
  datatype Raw = Sealed(passphrase: string, plain: Secrets, salt: int)

  function Decrypt(passphrase: string, raw: Raw): Option<Secrets> {
    if raw.passphrase == passphrase then Some(raw.plain) else None
  }

  /** What a file means; an absent file is an empty store. */
  function Contents(file: Option<Raw>): Secrets {
    match file case None => map[] case Some(raw) => raw.plain
  }

  datatype Op = Set(key: string, value: string) | Delete(key: string)

  function Applied(op: Op, m: Secrets): Secrets {
    match op
    case Set(key, value) => m[key := value]
    case Delete(key) => m - {key}
  }

  /** The value of a key, if there is one. */
  function Held(m: Secrets, key: string): Option<string> { if key in m then Some(m[key]) else None }

  /** From one map to another: a Set leaves its key at its value, a Delete leaves it absent, and every other key is as it was. */
  ghost predicate Carried(op: Op, before: Secrets, after: Secrets) {
    && (match op case Set(key, value) => Held(after, key) == Some(value) case Delete(key) => Held(after, key) == None)
    && forall k :: k != op.key ==> Held(after, k) == Held(before, k)
  }

  lemma AppliedCarries(op: Op, m: Secrets)
    ensures Carried(op, m, Applied(op, m))
    ensures forall n :: Carried(op, m, n) ==> n == Applied(op, m)
  {
    forall n | Carried(op, m, n) ensures n == Applied(op, m) { SameKeys(op, m, n); }
  }

  lemma SameKeys(op: Op, m: Secrets, n: Secrets)
    requires Carried(op, m, n)
    ensures n == Applied(op, m)
  {
    var r := Applied(op, m);
    forall k ensures Held(n, k) == Held(r, k) {
      if k != op.key { assert Held(n, k) == Held(m, k); }
    }
    forall k ensures (k in n <==> k in r) && (k in n ==> n[k] == r[k]) { assert Held(n, k) == Held(r, k); }
  }

  /** Whether apply reports a change, which is when the file is rewritten. */
  predicate Changes(op: Op, m: Secrets) {
    op.Delete? ==> op.key in m
  }

  /** The fields of one AgeFileStore; an empty passphrase is one not asked for yet. */
  datatype Store = Store(passphrase: string, cache: Secrets, loaded: bool, lastRaw: Option<Raw>)

  const NEW_STORE := Store("", map[], false, None)

  /** What the prompter would answer, and whether the file can be read. */
  datatype Weather = Weather(prompt: Option<string>, readable: bool)

  predicate Asks(w: Weather) { w.prompt.Some? && w.prompt.value != "" }

  function Passphrase(st: Store, w: Weather): string {
    if st.passphrase != "" then st.passphrase else if Asks(w) then w.prompt.value else ""
  }

  /** Loading succeeds when there is a passphrase, and the file is absent or opens with it. */
  predicate Loads(st: Store, file: Option<Raw>, w: Weather) {
    Passphrase(st, w) != "" && (file.None? || (w.readable && Decrypt(Passphrase(st, w), file.value).Some?))
  }

  function Loaded(st: Store, file: Option<Raw>, w: Weather): Store {
    if Loads(st, file, w) then Store(Passphrase(st, w), Contents(file), true, file)
    else if Passphrase(st, w) == "" then st
    else st.(passphrase := "", cache := map[])
  }

  /** Refreshing rereads the file and decrypts it only when its bytes are new. */
  predicate Refreshes(st: Store, file: Option<Raw>, w: Weather) {
    if st.loaded && file.Some? && !w.readable then false
    else if st.loaded && file == st.lastRaw then true
    else Loads(st, file, w)
  }

  function Refreshed(st: Store, file: Option<Raw>, w: Weather): Store {
    if st.loaded && file.Some? && !w.readable then st
    else if st.loaded && file == st.lastRaw then st
    else Loaded(st.(loaded := false), file, w)
  }

  /** A loaded cache is the decoding of the ciphertext the store last read or wrote. */
  predicate Faithful(st: Store) {
    st.loaded ==>
      st.passphrase != "" && st.cache == Contents(st.lastRaw)
      && (st.lastRaw.Some? ==> st.lastRaw.value.passphrase == st.passphrase)
  }

  lemma LoadedIsFaithful(st: Store, file: Option<Raw>, w: Weather)
    requires !st.loaded
    ensures Faithful(Loaded(st, file, w))
    ensures Loaded(st, file, w).loaded <==> Loads(st, file, w)
    ensures Loads(st, file, w) ==> Loaded(st, file, w).cache == Contents(file) && Loaded(st, file, w).lastRaw == file
  {
  }

  /** After a refresh the cache is what the file holds now, though it may not have been decrypted again. */
  lemma RefreshedIsCurrent(st: Store, file: Option<Raw>, w: Weather)
    requires Faithful(st)
    ensures Faithful(Refreshed(st, file, w))
    ensures Refreshes(st, file, w) ==>
              Refreshed(st, file, w).loaded && Refreshed(st, file, w).cache == Contents(file)
              && Refreshed(st, file, w).passphrase != ""
  {
  }

  /**
   * Loading in the passphrase's own terms: the one already given counts before
   * the one prompted for, an empty answer is none, and a file there must be
   * readable and sealed with it. After a failure none is remembered, so the
   * next attempt asks again and loads with the right one.
   */
  lemma LoadsWith(st: Store, file: Option<Raw>, w: Weather, pw: string)
    requires !st.loaded && pw != "" && (st.passphrase == pw || (st.passphrase == "" && w.prompt == Some(pw)))
    ensures Loads(st, file, w) <==> file.None? || (w.readable && file.value.passphrase == pw)
    ensures Loads(st, file, w) ==> Loaded(st, file, w).passphrase == pw
    ensures !Loads(st, file, w) ==>
              var again := Loaded(st, file, w);
              again == Store("", map[], false, st.lastRaw)
              && (file.Some? && file.value.passphrase != "" ==> Loads(again, file, Weather(Some(file.value.passphrase), true)))
  {
  }

  /** With no passphrase given before and none typed in, nothing is loaded and nothing changes. */
  lemma NoPassphraseLoadsNothing(st: Store, file: Option<Raw>, readable: bool)
    requires !st.loaded && st.passphrase == ""
    ensures !Loads(st, file, Weather(None, readable)) && Loaded(st, file, Weather(None, readable)) == st
    ensures !Loads(st, file, Weather(Some(""), readable)) && Loaded(st, file, Weather(Some(""), readable)) == st
  {
  }

  /**
   * A refresh of a loaded store: a file that cannot be read fails it and
   * changes nothing; the bytes last read or written are not opened again; new
   * bytes are, with the passphrase in hand, and one that does not fit is
   * forgotten together with the cache. A store not loaded yet loads.
   */
  lemma RefreshIs(st: Store, file: Option<Raw>, w: Weather)
    requires Faithful(st)
    ensures !st.loaded ==> Refreshes(st, file, w) == Loads(st, file, w) && Refreshed(st, file, w) == Loaded(st, file, w)
    ensures st.loaded && file.Some? && !w.readable ==> !Refreshes(st, file, w) && Refreshed(st, file, w) == st
    ensures st.loaded && (file.None? || w.readable) && file == st.lastRaw ==> Refreshes(st, file, w) && Refreshed(st, file, w) == st
    ensures st.loaded && (file.None? || w.readable) && file != st.lastRaw ==>
              if file.None? || file.value.passphrase == st.passphrase
              then Refreshes(st, file, w)
                   && Refreshed(st, file, w) == Store(st.passphrase, if file.Some? then file.value.plain else map[], true, file)
              else !Refreshes(st, file, w) && Refreshed(st, file, w) == Store("", map[], false, st.lastRaw)
  {
  }

  class Disk {
    var file: Option<Raw>

    constructor ()
      ensures file == None
    {
      file := None;
    }
  }

  class AgeFileStore {
    const disk: Disk
    var passphrase: string
    var cache: Secrets
    var loaded: bool
    var lastRaw: Option<Raw>

    ghost function Fields(): Store
      reads this
    {
      Store(passphrase, cache, loaded, lastRaw)
    }

    ghost predicate Valid()
      reads this
    {
      Faithful(Fields())
    }

    constructor (disk: Disk)
      ensures this.disk == disk && Fields() == NEW_STORE && Valid()
    {
      this.disk := disk;
      passphrase, cache, loaded, lastRaw := "", map[], false, None;
    }

    method EnsureLoaded(w: Weather) returns (ok: bool)
      requires Valid()
      modifies this
      ensures Valid()
      ensures ok == (old(loaded) || Loads(old(Fields()), disk.file, w))
      ensures Fields() == if old(loaded) then old(Fields()) else Loaded(old(Fields()), disk.file, w)
    {
      if loaded { return true; }
      if passphrase == "" {
        if w.prompt.None? { return false; }
        if w.prompt.value == "" { return false; }
        passphrase := w.prompt.value;
      }
      if disk.file.None? {
        cache, lastRaw, loaded := map[], None, true;
        return true;
      }
      var plain := if w.readable then Decrypt(passphrase, disk.file.value) else None;
      if plain.None? {
        passphrase, cache := "", map[];
        return false;
      }
      cache, lastRaw, loaded := plain.value, disk.file, true;
      return true;
    }

    method Refresh(w: Weather) returns (ok: bool)
      requires Valid()
      modifies this
      ensures Valid()
      ensures ok == Refreshes(old(Fields()), disk.file, w)
      ensures Fields() == Refreshed(old(Fields()), disk.file, w)
    {
      if !loaded {
        ok := EnsureLoaded(w);
        return;
      }
      if disk.file.Some? && !w.readable { return false; }
      if disk.file == lastRaw { return true; }
      loaded := false;
      ok := EnsureLoaded(w);
    }

    /** Seals a snapshot and renames it into place; a failure leaves the old file there. */
    method PersistMap(snapshot: Secrets, salt: int, writes: bool) returns (ok: bool)
      modifies this`lastRaw, disk
      ensures ok == writes
      ensures disk.file == if ok then Some(Sealed(passphrase, snapshot, salt)) else old(disk.file)
      ensures lastRaw == if ok then disk.file else old(lastRaw)
    {
      if !writes { return false; }
      var raw := Sealed(passphrase, snapshot, salt);
      disk.file := Some(raw);
      lastRaw := Some(raw);
      return true;
    }

    /**
     * One write under both locks. On success the file differs from what it
     * held before in the one key, as asked; otherwise it is untouched.
     */
    method Mutate(op: Op, w: Weather, salt: int, locks: bool, writes: bool) returns (ok: bool)
      requires Valid()
      modifies this, disk
      ensures Valid()
      ensures ok ==> Carried(op, Contents(old(disk.file)), Contents(disk.file))
      ensures ok ==> Contents(disk.file) == Applied(op, Contents(old(disk.file)))
      ensures ok ==> loaded && cache == Contents(disk.file)
      ensures !ok ==> disk.file == old(disk.file)
      ensures !ok && locks && Refreshes(old(Fields()), old(disk.file), w) ==>
                Fields() == Refreshed(old(Fields()), old(disk.file), w)
      ensures ok == (locks && Refreshes(old(Fields()), old(disk.file), w)
                     && (writes || !Changes(op, Contents(old(disk.file)))))
    {
      if !locks { return false; }
      AppliedCarries(op, Contents(disk.file));
      RefreshedIsCurrent(Fields(), disk.file, w);
      ok := Refresh(w);
      if !ok { return; }
      var next := cache;
      match op {
        case Set(key, value) => next := next[key := value];
        case Delete(key) =>
          if key !in next {
            assert next - {key} == next;
            return true;
          }
          next := next - {key};
      }
      ok := PersistMap(next, salt, writes);
      if !ok { return; }
      cache := next;
    }

    method Get(key: string, w: Weather) returns (value: Option<string>, ok: bool)
      requires Valid()
      modifies this
      ensures Valid() && ok == loaded
      ensures ok == (old(loaded) || Loads(old(Fields()), disk.file, w))
      ensures ok ==> value == (if key in Contents(lastRaw) then Some(Contents(lastRaw)[key]) else None)
      ensures lastRaw == if old(loaded) || !ok then old(lastRaw) else disk.file
    {
      ok := EnsureLoaded(w);
      if !ok { return None, false; }
      value := if key in cache then Some(cache[key]) else None;
    }
  }
}
