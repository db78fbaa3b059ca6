/** The life of a formatted message: typed, parsed, sent, received, put back into the composer. */
module MessageEdge {

  import opened Basics
  import opened Entities
  import opened MarkdownParser
  import opened MarkdownRoundTrip
  import opened MarkdownRender
  import opened WireEntities

  ghost predicate AllTyped(es: seq<Entity>) {
    forall i :: 0 <= i < |es| ==> TokensFor(es[i]).Tokens? && Canonical(es[i])
  }

  lemma {:induction false} StepIsTyped(s: string)
    requires Step(s).Took?
    ensures AllTyped(Step(s).spans)
    decreases |s|, 0
  {
    hide HasAt, TrimSpace, FenceParts, TrimEdges;
    var t := Step(s);
    if !Fence(s).Took? && !InlineCode(s).Took? {
      if Link(s).Took? {
        ParseIsTyped(s[1..LinkShape(s).0]);
      } else {
        var m := MarkerAt(s);
        ParseIsTyped(s[2..t.size - 2]);
        assert t == Wrap(ParseRunes(s[2..t.size - 2]), Plain(m.kind, 0, 0), t.size);
        assert m.kind.Bold? || m.kind.Italic? || m.kind.Strike? || m.kind.Spoiler?;
      }
    }
  }

  /** Parse yields only spans of the dialect, each with the payload of its kind and no other. */
  lemma {:induction false} ParseIsTyped(s: string)
    ensures AllTyped(ParseRunes(s).spans)
    decreases |s|, 1
  {
    hide Step;
    if s != [] {
      var t := Step(s);
      var n := if t.Took? then t.size else 1;
      ParseIsTyped(s[n..]);
      if t.Took? { StepIsTyped(s); }
    }
  }

  lemma {:induction false} TypedIsDialect(es: seq<Entity>)
    requires AllTyped(es)
    ensures Dialect(es) == es
  {
    if es != [] {
      TypedIsDialect(es[..|es| - 1]);
      assert es == es[..|es| - 1] + [es[|es| - 1]];
    }
  }

  function ParsedSpans(src: string): seq<Entity> { SortEntities(ParseRunes(src).spans) }

  lemma ParsedSpansAreTyped(src: string)
    ensures AllTyped(ParsedSpans(src))
    ensures Sorted(ParsedSpans(src)) && Laminar(ParsedSpans(src))
    ensures InBounds(ParsedSpans(src), |ParseRunes(src).text|)
  {
    var p := ParseRunes(src);
    ParseIsTyped(src);
    ParseWellFormed(src);
    var es := ParsedSpans(src);
    forall i | 0 <= i < |es|
      ensures TokensFor(es[i]).Tokens? && Canonical(es[i])
    {
      assert es[i] in multiset(es);
      assert es[i] in p.spans;
    }
  }

  /** Whatever was typed: the spans Parse found come back from the wire unchanged. */
  lemma ParsedSpansSurviveWire(src: string)
    ensures var text := ParseRunes(src).text;
      SortEntities(DecodedAll(text, EncodedAll(text, ParsedSpans(src)))) == ParsedSpans(src)
  {
    var text, es := ParseRunes(src).text, ParsedSpans(src);
    ParsedSpansAreTyped(src);
    hide ParsedSpans, ParseRunes;
    forall i | 0 <= i < |es|
      ensures WireExpressible(es[i], |text|)
    {
      assert TokensFor(es[i]).Tokens? && Canonical(es[i]);
    }
    ExpressibleSpansSurvive(text, es);
  }

  /**
   * Editing a message that was typed here: received back, written into the
   * composer and parsed again, it has the text and the spans it was sent with.
   */
  lemma EditKeepsMessage(src: string)
    requires Writable(ParseRunes(src).text, ParsedSpans(src))
    ensures var text := ParseRunes(src).text;
      var received := SortEntities(DecodedAll(text, EncodedAll(text, ParsedSpans(src))));
      var again := ParseRunes(Rendering(text, received));
      again.text == text && multiset(again.spans) == multiset(ParsedSpans(src))
  {
    ParsedSpansSurviveWire(src);
    ParsedSpansAreTyped(src);
    TypedIsDialect(ParsedSpans(src));
    hide ParsedSpans, Rendering, Writable;
    RoundTripIffLaminar(ParseRunes(src).text, ParsedSpans(src));
  }
}
