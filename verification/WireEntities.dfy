/** Rune spans and UTF-16 spans (internal/tg/entities.go). */
module WireEntities {

  import opened Basics
  import opened Entities

  // ----- the constructors of the wire

  datatype Constructor =
    | WBold | WItalic | WUnderline | WStrike | WCode | WPre(language: string) | WSpoiler | WBlockquote
    | WUrl | WTextUrl(url: string) | WMention | WMentionName(userID: int) | WHashtag | WCashtag
    | WBotCommand | WEmail | WPhone | WCustomEmoji(documentID: int) | WUnknown(typeName: string)

  datatype Wire = NilWire | Wire(c: Constructor, offset: int, length: int)

  /** Kind and payload of one constructor; the offsets are the caller's to fill in. */
  function EntityFromWire(w: Wire): Option<Entity> {
    if w.NilWire? then None
    else Some(match w.c
      case WBold => Plain(Bold, 0, 0)
      case WItalic => Plain(Italic, 0, 0)
      case WUnderline => Plain(Underline, 0, 0)
      case WStrike => Plain(Strike, 0, 0)
      case WCode => Plain(Code, 0, 0)
      case WPre(lang) => Plain(Pre, 0, 0).(language := lang)
      case WSpoiler => Plain(Spoiler, 0, 0)
      case WBlockquote => Plain(Blockquote, 0, 0)
      case WUrl => Plain(Url, 0, 0)
      case WTextUrl(url) => Plain(TextUrl, 0, 0).(url := url)
      case WMention => Plain(Mention, 0, 0)
      case WMentionName(id) => Plain(MentionName, 0, 0).(userID := id)
      case WHashtag => Plain(Hashtag, 0, 0)
      case WCashtag => Plain(Cashtag, 0, 0)
      case WBotCommand => Plain(BotCommand, 0, 0)
      case WEmail => Plain(Email, 0, 0)
      case WPhone => Plain(Phone, 0, 0)
      case WCustomEmoji(id) => Plain(CustomEmoji, 0, 0).(documentID := id)
      case WUnknown(name) => Plain(Other(name), 0, 0))
  }

  /** The constructor a span is sent as; None for the kinds the server derives itself. */
  function ConstructorFor(e: Entity): Option<Constructor> {
    match e.kind
    case Bold => Some(WBold)
    case Italic => Some(WItalic)
    case Underline => Some(WUnderline)
    case Strike => Some(WStrike)
    case Code => Some(WCode)
    case Pre => Some(WPre(e.language))
    case Spoiler => Some(WSpoiler)
    case Blockquote => Some(WBlockquote)
    case TextUrl => Some(WTextUrl(e.url))
    case CustomEmoji => Some(WCustomEmoji(e.documentID))
    case _ => None
  }

  // ----- the two scales

  function Utf16Len(r: char): (n: nat)
    ensures n == 1 || n == 2
  {
    if 0xD800 <= r as int < 0xE000 || r as int > 0xFFFF then 2 else 1
  }

  /** The UTF-16 offset of rune `i`. */
  function UnitAt(text: string, i: nat): (u: nat)
    requires i <= |text|
    ensures i <= u <= 2 * i
  {
    if i == 0 then 0 else UnitAt(text, i - 1) + Utf16Len(text[i - 1])
  }

  lemma {:induction false} UnitAtGrows(text: string, i: nat, j: nat)
    requires i < j <= |text|
    ensures UnitAt(text, i) < UnitAt(text, j)
    decreases j
  {
    if i < j - 1 { UnitAtGrows(text, i, j - 1); }
  }

  /** The least rune at or after a unit; the end of the text if there is none. */
  function RuneAt(text: string, unit: int): (i: nat)
    ensures i <= |text|
    ensures i < |text| ==> unit <= UnitAt(text, i)
    ensures forall k: nat :: k < i ==> UnitAt(text, k) < unit
  {
    RuneFrom(text, unit, 0)
  }

  function RuneFrom(text: string, unit: int, from: nat): (i: nat)
    requires from <= |text| && forall k: nat :: k < from ==> UnitAt(text, k) < unit
    ensures from <= i <= |text|
    ensures i < |text| ==> unit <= UnitAt(text, i)
    ensures forall k: nat :: k < i ==> UnitAt(text, k) < unit
    decreases |text| - from
  {
    if from == |text| || unit <= UnitAt(text, from) then from else RuneFrom(text, unit, from + 1)
  }

  /** RuneAt is the only index with its two properties. */
  lemma RuneAtIs(text: string, unit: int, i: nat)
    requires i <= |text| && (i < |text| ==> unit <= UnitAt(text, i))
    requires forall k: nat :: k < i ==> UnitAt(text, k) < unit
    ensures RuneAt(text, unit) == i
  {
    RuneStops(text, unit);
  }

  /** Before the end, the rune found is at or past the unit. */
  lemma RuneStops(text: string, unit: int)
    ensures RuneAt(text, unit) < |text| ==> unit <= UnitAt(text, RuneAt(text, unit))
  {
  }

  /** To units and back is the identity on every rune boundary. */
  lemma RuneOfUnit(text: string, i: nat)
    requires i <= |text|
    ensures RuneAt(text, UnitAt(text, i)) == i
  {
    forall k: nat | k < i
      ensures UnitAt(text, k) < UnitAt(text, i)
    {
      UnitAtGrows(text, k, i);
    }
    RuneAtIs(text, UnitAt(text, i), i);
  }

  lemma RuneAtIsMonotone(text: string, a: int, b: int)
    requires a <= b
    ensures RuneAt(text, a) <= RuneAt(text, b)
  {
    RuneStops(text, b);
  }

  /** No rune starts at a unit within a pair, so the next one is taken. */
  lemma InsidePairRoundsUp(text: string, i: nat, unit: int)
    requires i < |text| && UnitAt(text, i) < unit < UnitAt(text, i + 1)
    ensures RuneAt(text, unit) == i + 1 && Utf16Len(text[i]) == 2
  {
    forall k: nat | k < i + 1
      ensures UnitAt(text, k) < unit
    {
      if k < i { UnitAtGrows(text, k, i); }
    }
    RuneAtIs(text, unit, i + 1);
  }

  ghost predicate IsUnits(text: string, units: seq<int>) {
    |units| == |text| + 1 && forall i :: 0 <= i <= |text| ==> units[i] == UnitAt(text, i)
  }

  /** The offset table both converters are built on. */
  method BuildUnits(text: string) returns (units: seq<int>, total: nat)
    ensures IsUnits(text, units) && total == UnitAt(text, |text|)
  {
    hide Utf16Len, UnitAt;
    units, total := [], 0;
    assert UnitAt(text, 0) == 0;
    for i := 0 to |text|
      invariant |units| == i && total == UnitAt(text, i)
      invariant forall k :: 0 <= k < i ==> units[k] == UnitAt(text, k)
    {
      UnitAtNext(text, i);
      units := units + [total];
      total := total + Utf16Len(text[i]);
    }
    units := units + [total];
  }

  lemma UnitAtNext(text: string, i: nat)
    requires i < |text|
    ensures UnitAt(text, i + 1) == UnitAt(text, i) + Utf16Len(text[i])
  {
  }

  /** The binary search for the first rune at or after a unit. */
  method UnitToRune(ghost text: string, units: seq<int>, total: nat, unit: int) returns (r: nat)
    requires IsUnits(text, units) && total == UnitAt(text, |text|)
    ensures r == RuneAt(text, unit)
  {
    if unit <= 0 {
      RuneAtIs(text, unit, 0);
      return 0;
    }
    if unit >= total {
      forall k: nat | k < |text|
        ensures UnitAt(text, k) < unit
      {
        UnitAtGrows(text, k, |text|);
      }
      RuneAtIs(text, unit, |text|);
      return |units| - 1;
    }
    var lo, hi := 0, |units| - 1;
    while lo < hi
      invariant 0 <= lo <= hi <= |text|
      invariant forall k: nat :: k < lo ==> UnitAt(text, k) < unit
      invariant unit <= UnitAt(text, hi)
    {
      var mid := (lo + hi) / 2;
      if units[mid] < unit {
        forall k: nat | k < mid
          ensures UnitAt(text, k) < unit
        {
          UnitAtGrows(text, k, mid);
        }
        lo := mid + 1;
      } else {
        hi := mid;
      }
    }
    RuneAtIs(text, unit, lo);
    return lo;
  }

  /** Rune index to unit, as the program clamps it. */
  function UnitOf(text: string, i: int): int {
    if i <= 0 then 0 else if i >= |text| + 1 then UnitAt(text, |text|) else UnitAt(text, i)
  }

  method RuneToUnit(ghost text: string, units: seq<int>, total: nat, i: int) returns (u: int)
    requires IsUnits(text, units) && total == UnitAt(text, |text|)
    ensures u == UnitOf(text, i)
  {
    if i <= 0 {
      return 0;
    }
    if i >= |units| {
      return total;
    }
    return units[i];
  }

  // ----- lists of spans

  /** One wire span as runes, or None when it covers nothing. */
  function Decoded(text: string, w: Wire): Option<Entity> {
    var d := EntityFromWire(w);
    if d.None? then None
    else
      var start, end := RuneAt(text, w.offset), RuneAt(text, w.offset + w.length);
      if end <= start then None else Some(d.value.(offset := start, length := end - start))
  }

  function DecodedAll(text: string, raw: seq<Wire>): seq<Entity> {
    if raw == [] then []
    else
      var d := Decoded(text, raw[|raw| - 1]);
      DecodedAll(text, raw[..|raw| - 1]) + (if d.Some? then [d.value] else [])
  }

  method EntitiesFromWire(text: string, raw: seq<Wire>) returns (out: seq<Entity>)
    ensures out == SortEntities(DecodedAll(text, raw))
  {
    out := [];
    if |raw| == 0 {
      return;
    }
    var units, total := BuildUnits(text);
    for i := 0 to |raw|
      invariant out == DecodedAll(text, raw[..i])
    {
      assert raw[..i + 1][..i] == raw[..i];
      var e := raw[i];
      var d := EntityFromWire(e);
      if d.None? {
        continue;
      }
      var start := UnitToRune(text, units, total, e.offset);
      var end := UnitToRune(text, units, total, e.offset + e.length);
      if end <= start {
        continue;
      }
      out := out + [d.value.(offset := start, length := end - start)];
    }
    assert raw[..|raw|] == raw;
    out := SortEntities(out);
  }

  function Encoded(text: string, e: Entity): Option<Wire> {
    if e.length <= 0 || e.offset < 0 then None
    else
      var off, length := UnitOf(text, e.offset), UnitOf(text, e.End()) - UnitOf(text, e.offset);
      var c := ConstructorFor(e);
      if length <= 0 || c.None? then None else Some(Wire(c.value, off, length))
  }

  function EncodedAll(text: string, es: seq<Entity>): seq<Wire> {
    if es == [] then []
    else
      var w := Encoded(text, es[|es| - 1]);
      EncodedAll(text, es[..|es| - 1]) + (if w.Some? then [w.value] else [])
  }

  method EntitiesToWire(text: string, es: seq<Entity>) returns (out: seq<Wire>)
    ensures out == EncodedAll(text, es)
  {
    out := [];
    if |es| == 0 {
      return;
    }
    var units, total := BuildUnits(text);
    for i := 0 to |es|
      invariant out == EncodedAll(text, es[..i])
    {
      assert es[..i + 1][..i] == es[..i];
      var e := es[i];
      if e.length <= 0 || e.offset < 0 {
        continue;
      }
      var off := RuneToUnit(text, units, total, e.offset);
      var end := RuneToUnit(text, units, total, e.End());
      if end - off <= 0 {
        continue;
      }
      var c := ConstructorFor(e);
      if c.None? {
        continue;
      }
      out := out + [Wire(c.value, off, end - off)];
    }
    assert es[..|es|] == es;
  }

  // ----- what the two conversions keep

  /** Spans of the wire that lie apart, or one in the other, still do so as runes. */
  lemma DecodingKeepsNesting(text: string, a: Wire, b: Wire)
    requires Decoded(text, a).Some? && Decoded(text, b).Some?
    ensures var (x, y) := (Decoded(text, a).value, Decoded(text, b).value);
      && 0 <= x.offset && 0 < x.length && x.End() <= |text|
      && (a.offset + a.length <= b.offset ==> x.End() <= y.offset)
      && (a.offset <= b.offset && b.offset + b.length <= a.offset + a.length ==> Contains(x, y))
  {
    hide RuneAt;
    if a.offset + a.length <= b.offset {
      RuneAtIsMonotone(text, a.offset + a.length, b.offset);
    }
    if a.offset <= b.offset && b.offset + b.length <= a.offset + a.length {
      RuneAtIsMonotone(text, a.offset, b.offset);
      RuneAtIsMonotone(text, b.offset + b.length, a.offset + a.length);
    }
  }

  /** A wire span that is read has the kind of its constructor, and the payload of that constructor alone. */
  lemma DecodedKind(text: string, w: Wire)
    requires Decoded(text, w).Some?
    ensures var e := Decoded(text, w).value;
      && (e.kind == Bold <==> w.c == WBold) && (e.kind == Italic <==> w.c == WItalic)
      && (e.kind == Underline <==> w.c == WUnderline) && (e.kind == Strike <==> w.c == WStrike)
      && (e.kind == Code <==> w.c == WCode) && (e.kind == Pre <==> w.c.WPre?)
      && (e.kind == Spoiler <==> w.c == WSpoiler) && (e.kind == Blockquote <==> w.c == WBlockquote)
      && (e.kind == Url <==> w.c == WUrl) && (e.kind == TextUrl <==> w.c.WTextUrl?)
      && (e.kind == Mention <==> w.c == WMention) && (e.kind == MentionName <==> w.c.WMentionName?)
      && (e.kind == Hashtag <==> w.c == WHashtag) && (e.kind == Cashtag <==> w.c == WCashtag)
      && (e.kind == BotCommand <==> w.c == WBotCommand) && (e.kind == Email <==> w.c == WEmail)
      && (e.kind == Phone <==> w.c == WPhone) && (e.kind == CustomEmoji <==> w.c.WCustomEmoji?)
      && (e.kind.Other? <==> w.c.WUnknown?) && (e.kind.Other? ==> e.kind.name == w.c.typeName)
    ensures var e := Decoded(text, w).value;
      && e.language == (if w.c.WPre? then w.c.language else "")
      && e.url == (if w.c.WTextUrl? then w.c.url else "")
      && e.userID == (if w.c.WMentionName? then w.c.userID else 0)
      && e.documentID == (if w.c.WCustomEmoji? then w.c.documentID else 0)
  {
    hide RuneAt;
  }

  /** A span that is sent has the constructor of its kind; the kinds the server finds itself are not sent. */
  lemma EncodedKind(text: string, e: Entity)
    ensures Encoded(text, e).Some? ==>
              var c := Encoded(text, e).value.c;
              && (e.kind == Bold ==> c == WBold) && (e.kind == Italic ==> c == WItalic)
              && (e.kind == Underline ==> c == WUnderline) && (e.kind == Strike ==> c == WStrike)
              && (e.kind == Code ==> c == WCode) && (e.kind == Pre ==> c == WPre(e.language))
              && (e.kind == Spoiler ==> c == WSpoiler) && (e.kind == Blockquote ==> c == WBlockquote)
              && (e.kind == TextUrl ==> c == WTextUrl(e.url)) && (e.kind == CustomEmoji ==> c == WCustomEmoji(e.documentID))
    ensures Encoded(text, e).Some? <==>
              && 0 <= e.offset < |text| && e.length > 0
              && e.kind in {Bold, Italic, Underline, Strike, Code, Pre, Spoiler, Blockquote, TextUrl, CustomEmoji}
  {
    hide UnitAt;
    if 0 <= e.offset < |text| && e.length > 0 {
      UnitAtGrows(text, e.offset, if e.End() > |text| then |text| else e.End());
      UnitAtStart(text);
    }
  }

  /** The runes of a stretch that take two units. */
  function Wide(s: string): nat {
    if s == [] then 0 else Wide(s[..|s| - 1]) + if s[|s| - 1] as int >= 0x10000 then 1 else 0
  }

  /** A stretch of text takes a unit for every rune and one more for every rune outside the Basic Multilingual Plane. */
  lemma {:induction false} UnitsOfStretch(text: string, i: nat, j: nat)
    requires i <= j <= |text|
    ensures UnitAt(text, j) - UnitAt(text, i) == j - i + Wide(text[i..j])
    decreases j
  {
    if i < j {
      UnitsOfStretch(text, i, j - 1);
      assert text[i..j][..j - i - 1] == text[i..j - 1];
    }
  }

  /** A span with only the payload of its kind, cut at the end of the text. */
  function Carried(text: string, e: Entity): Option<Entity> {
    if e.length <= 0 || e.offset < 0 || e.offset >= |text| || ConstructorFor(e).None? then None
    else
      var length := if e.End() > |text| then |text| - e.offset else e.length;
      Some(Entity(e.kind, e.offset, length,
                  if e.kind.TextUrl? then e.url else "", if e.kind.Pre? then e.language else "",
                  0, if e.kind.CustomEmoji? then e.documentID else 0))
  }

  function CarriedAll(text: string, es: seq<Entity>): seq<Entity> {
    if es == [] then []
    else
      var c := Carried(text, es[|es| - 1]);
      CarriedAll(text, es[..|es| - 1]) + (if c.Some? then [c.value] else [])
  }

  /** One span survives the wire as Carried says, and is lost exactly when Carried says so. */
  lemma SpanSurvivesWire(text: string, e: Entity)
    ensures var w := Encoded(text, e);
      (if w.Some? then Decoded(text, w.value) else None) == Carried(text, e)
  {
    hide RuneAt, UnitAt;
    var n := |text|;
    if e.length > 0 && e.offset >= 0 && ConstructorFor(e).Some? {
      if e.offset < n {
        var end := if e.End() > n then n else e.End();
        assert UnitOf(text, e.End()) == UnitAt(text, end) by {
          assert e.End() >= n + 1 || UnitOf(text, e.End()) == UnitAt(text, e.End());
        }
        UnitAtGrows(text, e.offset, end);
        RuneOfUnit(text, e.offset);
        RuneOfUnit(text, end);
      } else {
        assert UnitOf(text, e.offset) == UnitAt(text, n) == UnitOf(text, e.End());
      }
    }
  }

  /** For any spans at all: what comes back from the wire is what could be carried, in order. */
  lemma {:induction false} WireRoundTrip(text: string, es: seq<Entity>)
    ensures DecodedAll(text, EncodedAll(text, es)) == CarriedAll(text, es)
  {
    if es != [] {
      var front, last := es[..|es| - 1], es[|es| - 1];
      WireRoundTrip(text, front);
      SpanSurvivesWire(text, last);
      var w, ws := Encoded(text, last), EncodedAll(text, front);
      if w.Some? {
        assert (ws + [w.value])[..|ws|] == ws;
        assert DecodedAll(text, ws + [w.value]) == DecodedAll(text, ws) + [Decoded(text, w.value).value];
      } else {
        assert ws + [] == ws;
      }
    }
  }

  /** Nothing about the span is lost on the wire. */
  predicate WireExpressible(e: Entity, n: nat) {
    && 0 <= e.offset && 0 < e.length && e.End() <= n
    && ConstructorFor(e).Some? && e.userID == 0
    && (e.kind != TextUrl ==> e.url == "") && (e.kind != Pre ==> e.language == "")
    && (e.kind != CustomEmoji ==> e.documentID == 0)
  }

  lemma {:induction false} ExpressibleIsCarried(text: string, es: seq<Entity>)
    requires forall i :: 0 <= i < |es| ==> WireExpressible(es[i], |text|)
    ensures CarriedAll(text, es) == es
  {
    if es != [] {
      var front, last := es[..|es| - 1], es[|es| - 1];
      assert forall i :: 0 <= i < |front| ==> front[i] == es[i];
      ExpressibleIsCarried(text, front);
      assert Carried(text, last) == Some(last);
      assert es == front + [last];
    }
  }

  /** Sorted spans of the expressible kinds come back as they were. */
  lemma ExpressibleSpansSurvive(text: string, es: seq<Entity>)
    requires Sorted(es) && forall i :: 0 <= i < |es| ==> WireExpressible(es[i], |text|)
    ensures SortEntities(DecodedAll(text, EncodedAll(text, es))) == es
  {
    WireRoundTrip(text, es);
    ExpressibleIsCarried(text, es);
    SortEntitiesKeepsSorted(es);
  }

  predicate Sent(c: Constructor) {
    !(c.WUrl? || c.WMention? || c.WMentionName? || c.WHashtag? || c.WCashtag?
      || c.WBotCommand? || c.WEmail? || c.WPhone? || c.WUnknown?)
  }

  /** The kinds this client sends are read back as what sends them. */
  lemma ConstructorSurvives(c: Constructor, offset: int, length: int, i: int, n: int)
    requires Sent(c)
    ensures var d := EntityFromWire(Wire(c, offset, length));
            d.Some? && ConstructorFor(d.value.(offset := i, length := n)) == Some(c)
  {
  }

  /** A wire span on rune boundaries, of a kind this client sends, goes back as it came. */
  lemma AlignedWireSurvives(text: string, c: Constructor, i: nat, j: nat)
    requires i < j <= |text|
    requires Sent(c)
    ensures var w := Wire(c, UnitAt(text, i), UnitAt(text, j) - UnitAt(text, i));
      Decoded(text, w).Some? && Encoded(text, Decoded(text, w).value) == Some(w)
  {
    hide RuneAt, UnitAt, EntityFromWire, ConstructorFor, Sent;
    var u, v := UnitAt(text, i), UnitAt(text, j);
    RuneOfUnit(text, i);
    RuneOfUnit(text, j);
    UnitAtGrows(text, i, j);
    ConstructorSurvives(c, u, v - u, i, j - i);
    EncodedAligned(text, c, EntityFromWire(Wire(c, u, v - u)).value.(offset := i, length := j - i));
  }

  /** A span inside the text is sent on its boundaries. */
  lemma EncodedAligned(text: string, c: Constructor, e: Entity)
    requires ConstructorFor(e) == Some(c) && 0 <= e.offset && 0 < e.length && e.End() <= |text|
    ensures Encoded(text, e) == Some(Wire(c, UnitAt(text, e.offset), UnitAt(text, e.End()) - UnitAt(text, e.offset)))
  {
    hide UnitAt, ConstructorFor;
    UnitAtGrows(text, e.offset, e.End());
    UnitAtStart(text);
  }

  lemma UnitAtStart(text: string)
    ensures UnitAt(text, 0) == 0
  {
  }
}
