/**
 * The duplicate filter shared by the live and the polling path
 * (internal/tg/updates.go): a least-recently-used cache kept as a linked list
 * and an index of its elements.
 */
module Dedup {

  datatype Key = Key(chatId: int, messageId: int)

  // ----- what the cache means

  function Without(keys: seq<Key>, k: Key): seq<Key> {
    if keys == [] then []
    else if keys[|keys| - 1] == k then Without(keys[..|keys| - 1], k)
    else Without(keys[..|keys| - 1], k) + [keys[|keys| - 1]]
  }

  /** The distinct keys of a history of touches, the most recently touched last. */
  function ByRecency(history: seq<Key>): seq<Key> {
    if history == [] then []
    else Without(ByRecency(history[..|history| - 1]), history[|history| - 1]) + [history[|history| - 1]]
  }

  /** The last n of them. */
  function Last(keys: seq<Key>, n: nat): seq<Key> {
    if |keys| <= n then keys else keys[|keys| - n..]
  }

  function Recent(history: seq<Key>, cap: nat): seq<Key> { Last(ByRecency(history), cap) }

  predicate NoRepeats(keys: seq<Key>) {
    forall i, j :: 0 <= i < j < |keys| ==> keys[i] != keys[j]
  }

  lemma {:induction false} WithoutMembers(keys: seq<Key>, k: Key)
    ensures forall x :: x in Without(keys, k) <==> x in keys && x != k
    ensures |Without(keys, k)| <= |keys|
    ensures k !in keys ==> Without(keys, k) == keys
  {
    if keys != [] {
      var n := |keys| - 1;
      WithoutMembers(keys[..n], k);
      assert keys == keys[..n] + [keys[n]];
    }
  }

  lemma {:induction false} WithoutFacts(keys: seq<Key>, k: Key)
    ensures forall x :: x in Without(keys, k) <==> x in keys && x != k
    ensures NoRepeats(keys) ==> NoRepeats(Without(keys, k))
    ensures |Without(keys, k)| <= |keys|
    ensures k !in keys ==> Without(keys, k) == keys
  {
    WithoutMembers(keys, k);
    if keys != [] && NoRepeats(keys) {
      var n := |keys| - 1;
      WithoutFacts(keys[..n], k);
      forall i | 0 <= i < |Without(keys[..n], k)| ensures Without(keys[..n], k)[i] != keys[n] {
        assert Without(keys[..n], k)[i] in keys[..n];
      }
    }
  }

  /** Dropping a key at a known place. */
  lemma {:induction false} WithoutAt(keys: seq<Key>, i: nat)
    requires NoRepeats(keys) && i < |keys|
    ensures Without(keys, keys[i]) == keys[..i] + keys[i + 1..]
  {
    var n := |keys| - 1;
    if i == n {
      WithoutFacts(keys[..n], keys[n]);
    } else {
      WithoutAt(keys[..n], i);
      assert keys[i + 1..] == keys[..n][i + 1..] + [keys[n]];
    }
  }

  lemma {:induction false} ByRecencyFacts(history: seq<Key>)
    ensures NoRepeats(ByRecency(history))
    ensures forall x :: x in ByRecency(history) <==> x in history
  {
    if history != [] {
      var n := |history| - 1;
      ByRecencyFacts(history[..n]);
      WithoutFacts(ByRecency(history[..n]), history[n]);
      assert history == history[..n] + [history[n]];
    }
  }

  lemma ByRecencyAdds(history: seq<Key>, k: Key)
    ensures ByRecency(history + [k]) == Without(ByRecency(history), k) + [k]
  {
    assert (history + [k])[..|history|] == history;
  }

  /** One touch: the cache is moved on without looking at the history. */
  function Touched(cache: seq<Key>, k: Key, cap: nat): seq<Key> {
    if k in cache then Without(cache, k) + [k]
    else if |cache| + 1 > cap then (cache + [k])[1..]
    else cache + [k]
  }

  /** A key that is in the cache moves to its end. */
  lemma TouchInside(out: seq<Key>, m: seq<Key>, k: Key, after: seq<Key>, cap: nat)
    requires NoRepeats(m + [k] + after) && |m| + 1 + |after| <= cap && (out != [] ==> |m| + 1 + |after| == cap)
    ensures Touched(Last(out + (m + [k] + after), cap), k, cap) == Last(out + (m + after + [k]), cap)
  {
    hide Without, NoRepeats;
    var kept := m + [k] + after;
    LastPart(out, kept, cap);
    LastPart(out, m + after + [k], cap);
    assert kept[|m|] == k;
    WithoutAt(kept, |m|);
    assert kept[..|m|] == m && kept[|m| + 1..] == after;
  }

  lemma LastPart(out: seq<Key>, kept: seq<Key>, cap: nat)
    requires |kept| <= cap && (out != [] ==> |kept| == cap)
    ensures Last(out + kept, cap) == kept
  {
  }

  lemma NoRepeatsPart(keys: seq<Key>, a: nat, b: nat)
    requires NoRepeats(keys) && a <= b <= |keys|
    ensures NoRepeats(keys[a..b])
  {
  }

  /** A key that fell out of the cache, or was never in it, pushes the oldest out. */
  lemma TouchOutside(before: seq<Key>, k: Key, after: seq<Key>, cap: nat)
    requires cap > 0 && k !in after && |after| >= cap
    ensures Touched(Last(before + [k] + after, cap), k, cap) == Last(before + after + [k], cap)
  {
    var all, d := before + [k] + after, |before| + 1 + |after| - cap;
    assert Last(all, cap) == after[|after| - cap..];
    assert k !in after[|after| - cap..];
    assert (before + after + [k])[d..] == after[|after| - cap + 1..] + [k];
  }

  lemma TouchNew(all: seq<Key>, k: Key, cap: nat)
    requires cap > 0 && k !in all
    ensures Touched(Last(all, cap), k, cap) == Last(all + [k], cap)
  {
    if |all| > cap { assert k !in all[|all| - cap..]; }
    if |all| >= cap {
      assert (all + [k])[|all| + 1 - cap..] == all[|all| + 1 - cap..] + [k];
    }
  }

  /** One place in a list, and a later stretch that holds it. */
  lemma CutAt(all: seq<Key>, d: nat, i: nat)
    requires d <= i < |all|
    ensures all[d..] == all[d..i] + [all[i]] + all[i + 1..]
    ensures all == all[..d] + all[d..]
  {
  }

  lemma MovedAt(all: seq<Key>, d: nat, i: nat)
    requires d <= i < |all|
    ensures all[..i] + all[i + 1..] + [all[i]] == all[..d] + (all[d..i] + all[i + 1..] + [all[i]])
  {
    assert all[..i] == all[..d] + all[d..i];
  }

  /** Touching a key of the list moves it to the end, whether it is still in the cache or fell out of it. */
  lemma TouchFound(all: seq<Key>, cap: nat, i: nat)
    requires cap > 0 && NoRepeats(all) && i < |all|
    ensures Touched(Last(all, cap), all[i], cap) == Last(all[..i] + all[i + 1..] + [all[i]], cap)
  {
    hide NoRepeats, Touched, Last;
    if i >= |all| - cap {
      var d := if |all| <= cap then 0 else |all| - cap;
      CutAt(all, d, i);
      MovedAt(all, d, i);
      NoRepeatsPart(all, d, |all|);
      assert all[d..|all|] == all[d..];
      TouchInside(all[..d], all[d..i], all[i], all[i + 1..], cap);
    } else {
      CutAt(all, 0, i);
      assert all[0..] == all && all[0..i] == all[..i];
      NotAgain(all, i);
      TouchOutside(all[..i], all[i], all[i + 1..], cap);
    }
  }

  /** The cache holds the most recent distinct keys, after every touch. */
  lemma TouchKeepsRecent(history: seq<Key>, k: Key, cap: nat)
    requires cap > 0
    ensures Touched(Recent(history, cap), k, cap) == Recent(history + [k], cap)
  {
    hide Without, ByRecency, NoRepeats, Touched, Last;
    var all := ByRecency(history);
    ByRecencyFacts(history);
    ByRecencyAdds(history, k);
    if k in all {
      var i :| 0 <= i < |all| && all[i] == k;
      WithoutAt(all, i);
      TouchFound(all, cap, i);
    } else {
      WithoutFacts(all, k);
      TouchNew(all, k, cap);
    }
  }

  lemma NotAgain(keys: seq<Key>, i: nat)
    requires NoRepeats(keys) && i < |keys|
    ensures keys[i] !in keys[i + 1..]
  {
  }

  class Element {
    const key: Key
    constructor (key: Key)
      ensures this.key == key
    {
      this.key := key;
    }
  }

  function KeysOf(list: seq<Element>): (ks: seq<Key>)
    ensures |ks| == |list| && forall i :: 0 <= i < |ks| ==> ks[i] == list[i].key
  {
    seq(|list|, i requires 0 <= i < |list| => list[i].key)
  }

  /** UpdatesDispatcher's cache: the front of the list is the oldest element. */
  class Dispatcher {
    const cap: nat
    var cache: seq<Element>
    var index: map<Key, Element>
    ghost var history: seq<Key>

    ghost function Keys(): (ks: seq<Key>)
      reads this`cache
      ensures |ks| == |cache| && forall i :: 0 <= i < |ks| ==> ks[i] == cache[i].key
    {
      KeysOf(cache)
    }

    /** The index finds exactly the elements of the list, by their keys. */
    ghost predicate Agree()
      reads this`cache, this`index
    {
      && (forall i :: 0 <= i < |cache| ==> cache[i].key in index && index[cache[i].key] == cache[i])
      && (forall k :: k in index ==> k in Keys())
      && NoRepeats(Keys())
    }

    /** List and index agree, and both are the most recent keys of the history. */
    ghost predicate Valid()
      reads this
    {
      cap > 0 && Agree() && Keys() == Recent(history, cap)
    }

    constructor (cap: nat)
      requires cap > 0
      ensures Valid() && this.cap == cap && history == []
    {
      this.cap := cap;
      cache, index, history := [], map[], [];
    }

    method Locate(el: Element) returns (i: nat)
      requires el in cache
      ensures i < |cache| && cache[i] == el
    {
      i := 0;
      while cache[i] != el
        invariant 0 <= i < |cache|
        invariant el !in cache[..i]
        decreases |cache| - i
      {
        assert i < |cache| - 1;
        i := i + 1;
      }
    }

    /** Takes one element out of the list and puts it last. */
    method MoveToBack(el: Element)
      requires Agree() && el in cache
      modifies `cache
      ensures Agree() && Keys() == Without(old(Keys()), el.key) + [el.key]
    {
      hide Without, NoRepeats;
      var i := Locate(el);
      var n := |cache| - 1;
      WithoutAt(Keys(), i);
      WithoutFacts(Keys(), el.key);
      AppendFresh(Without(Keys(), el.key), el.key);
      cache := cache[..i] + cache[i + 1..] + [el];
      assert Keys() == Without(old(Keys()), el.key) + [el.key];
      forall j | 0 <= j <= n ensures cache[j].key in index && index[cache[j].key] == cache[j] {
        assert cache[j] == old(cache)[if j < i then j else if j < n then j + 1 else i];
      }
    }

    method PushBack(k: Key)
      requires Agree() && k !in index
      modifies this
      ensures Agree() && Keys() == old(Keys()) + [k] && history == old(history)
    {
      var el := new Element(k);
      cache := cache + [el];
      index := index[k := el];
      assert Keys() == old(Keys()) + [k];
    }

    method DropOldest()
      requires Agree() && |cache| > 0
      modifies this
      ensures Agree() && Keys() == old(Keys())[1..] && history == old(history)
    {
      var oldest := cache[0];
      cache := cache[1..];
      index := index - {oldest.key};
      assert Keys() == old(Keys())[1..];
      forall k | k in index ensures k in Keys() {
        assert k in old(Keys());
      }
    }

    /** Whether the key is among the cap most recently touched distinct ones; it is the most recent one now. */
    method Seen(k: Key) returns (dup: bool)
      requires Valid()
      modifies this
      ensures Valid() && history == old(history) + [k]
      ensures dup == (k in Recent(old(history), cap))
    {
      hide Without, Recent, NoRepeats;
      TouchKeepsRecent(history, k, cap);
      RecentFits(history, cap);
      if k in index {
        IndexedIsListed(k);
        MoveToBack(index[k]);
        history := history + [k];
        return true;
      }
      NotListed(k);
      PushBack(k);
      if |cache| > cap { DropOldest(); }
      history := history + [k];
      return false;
    }

    lemma IndexedIsListed(k: Key)
      requires Agree() && k in index
      ensures index[k] in cache && index[k].key == k && k in Keys()
    {
      var i :| 0 <= i < |Keys()| && Keys()[i] == k;
    }

    lemma NotListed(k: Key)
      requires Agree() && k !in index
      ensures k !in Keys()
    {
    }
  }

  lemma AppendFresh(keys: seq<Key>, k: Key)
    requires NoRepeats(keys) && k !in keys
    ensures NoRepeats(keys + [k])
  {
  }

  lemma RecentFits(history: seq<Key>, cap: nat)
    ensures |Recent(history, cap)| <= cap
  {
  }

  // ----- duplicates, told from the history alone

  /** The distinct keys touched after the last touch of k; all of them if there was none. */
  function Since(history: seq<Key>, k: Key): set<Key> {
    if history == [] || history[|history| - 1] == k then {}
    else Since(history[..|history| - 1], k) + {history[|history| - 1]}
  }

  lemma {:induction false} WithoutIndex(keys: seq<Key>, k: Key, x: Key)
    requires NoRepeats(keys) && x in keys && x != k
    ensures After(Without(keys, k), x) == After(keys, x) - {k}
  {
    var n := |keys| - 1;
    assert keys == keys[..n] + [keys[n]];
    WithoutFacts(keys[..n], k);
    if keys[n] == x {
      AfterLast(keys, x);
      AfterLast(Without(keys, k), x);
    } else {
      WithoutIndex(keys[..n], k, x);
      AfterPush(keys[..n], keys[n], x);
      AfterPush(Without(keys[..n], k), keys[n], x);
    }
  }

  /** The keys that stand after x. */
  function After(keys: seq<Key>, x: Key): set<Key> {
    if keys == [] || keys[|keys| - 1] == x then {} else After(keys[..|keys| - 1], x) + {keys[|keys| - 1]}
  }

  lemma AfterPush(keys: seq<Key>, k: Key, x: Key)
    requires k != x
    ensures After(keys + [k], x) == After(keys, x) + {k}
  {
    assert (keys + [k])[..|keys|] == keys;
  }

  lemma AfterLast(keys: seq<Key>, x: Key)
    requires keys != [] && keys[|keys| - 1] == x
    ensures After(keys, x) == {}
  {
  }

  /** Where a key stands in the order of recency says how many others came since. */
  lemma {:induction false} SinceIsAfter(history: seq<Key>, k: Key)
    requires k in history
    ensures Since(history, k) == After(ByRecency(history), k)
  {
    var n := |history| - 1;
    assert history == history[..n] + [history[n]];
    ByRecencyFacts(history[..n]);
    if history[n] == k {
      AfterLast(ByRecency(history), k);
    } else {
      SinceIsAfter(history[..n], k);
      WithoutIndex(ByRecency(history[..n]), history[n], k);
      AfterPush(Without(ByRecency(history[..n]), history[n]), history[n], k);
    }
  }

  lemma {:induction false} AfterCount(keys: seq<Key>, i: nat)
    requires NoRepeats(keys) && i < |keys|
    ensures |After(keys, keys[i])| == |keys| - 1 - i
    ensures forall x :: x in After(keys, keys[i]) ==> x in keys
  {
    var n := |keys| - 1;
    if i < n {
      AfterCount(keys[..n], i);
      assert keys[n] !in After(keys[..n], keys[i]);
    }
  }

  /**
   * A key is taken for a duplicate exactly when it was touched before and
   * fewer than cap distinct other keys were touched since.
   */
  lemma DuplicateIff(history: seq<Key>, cap: nat, k: Key)
    requires cap > 0
    ensures k in Recent(history, cap) <==> k in history && |Since(history, k)| < cap
  {
    hide ByRecency, Since, After;
    ByRecencyFacts(history);
    if k in history {
      SinceIsAfter(history, k);
      LastHolds(ByRecency(history), cap, k);
    }
  }

  /** Among the last n are exactly the keys with fewer than n others after them. */
  lemma LastHolds(keys: seq<Key>, n: nat, k: Key)
    requires NoRepeats(keys) && k in keys
    ensures k in Last(keys, n) <==> |After(keys, k)| < n
  {
    hide After;
    var i :| 0 <= i < |keys| && keys[i] == k;
    AfterCount(keys, i);
    var d := if |keys| <= n then 0 else |keys| - n;
    assert Last(keys, n) == keys[d..];
    if i >= d { assert keys[d..][i - d] == k; }
  }
}
