/** What several parts of the model share: optional values, white space, a word at a place in a text, and optional lists. */
module Basics {

  datatype Option<T> = None | Some(value: T)

  /** Go's unicode.IsSpace. */
  predicate IsSpace(c: char) {
    || '\t' <= c <= '\r' || c == ' '
    || c == '\U{85}' || c == '\U{A0}' || c == '\U{1680}'
    || '\U{2000}' <= c <= '\U{200A}'
    || c == '\U{2028}' || c == '\U{2029}' || c == '\U{202F}' || c == '\U{205F}' || c == '\U{3000}'
  }

  predicate HasAt(s: string, i: nat, w: string) {
    i + |w| <= |s| && forall k :: 0 <= k < |w| ==> s[i + k] == w[k]
  }

  lemma HasJoin(s: string, i: nat, a: string, b: string)
    requires HasAt(s, i, a + b)
    ensures HasAt(s, i, a) && HasAt(s, i + |a|, b)
  {
    forall k | 0 <= k < |a| ensures s[i + k] == a[k] { assert (a + b)[k] == a[k]; }
    forall k | 0 <= k < |b| ensures s[i + |a| + k] == b[k] { assert (a + b)[|a| + k] == b[k]; }
  }

  /** What was read, before what is read of the rest. */
  function Following<T>(xs: seq<T>, rest: Option<seq<T>>): Option<seq<T>> {
    match rest case None => None case Some(ys) => Some(xs + ys)
  }

  lemma FollowingJoin<T>(xs: seq<T>, ys: seq<T>, rest: Option<seq<T>>)
    ensures Following(xs, Following(ys, rest)) == Following(xs + ys, rest)
  {
    if rest.Some? { assert xs + (ys + rest.value) == (xs + ys) + rest.value; }
  }

  lemma FollowingNone<T>(rest: Option<seq<T>>)
    ensures Following([], rest) == rest
  {
    if rest.Some? { assert [] + rest.value == rest.value; }
  }
}
