/** Names of downloaded files (internal/core/files/store.go:71-116, 166-240). */
module FileNames {

  import opened Basics
  import D = Downloads

  predicate DotOrBlank(c: char) { c == '.' || c == ' ' }

  /** Cutting a cut set off both ends. */
  function TrimLeft(s: string, cut: char -> bool): (r: string)
    ensures |r| <= |s| && r == s[|s| - |r|..] && (r != [] ==> !cut(r[0]))
  {
    if s != [] && cut(s[0]) then TrimLeft(s[1..], cut) else s
  }

  function TrimRight(s: string, cut: char -> bool): (r: string)
    ensures |r| <= |s| && r == s[..|r|] && (r != [] ==> !cut(r[|r| - 1]))
  {
    if s != [] && cut(s[|s| - 1]) then TrimRight(s[..|s| - 1], cut) else s
  }

  function Trim(s: string, cut: char -> bool): string { TrimRight(TrimLeft(s, cut), cut) }

  predicate Forbidden(c: char) {
    c == '/' || c == '\\' || c as int == 0 || c == ':' || c == '*' || c == '?' || c == '\"' || c == '<' || c == '>' || c == '|'
    || (c as int) < 0x20
  }

  function Cleaned(s: string): (r: string)
    ensures |r| == |s| && forall i :: 0 <= i < |r| ==> r[i] == if Forbidden(s[i]) then '_' else s[i]
  {
    if s == [] then [] else Cleaned(s[..|s| - 1]) + [if Forbidden(s[|s| - 1]) then '_' else s[|s| - 1]]
  }

  function Sanitized(name: string): string {
    var s := Trim(name, IsSpace);
    if s == "" || s == "." || s == ".." then ""
    else
      var out := Trim(Cleaned(s), DotOrBlank);
      if out == "" || out == "." || out == ".." then "" else out
  }

  method SanitizeName(name: string) returns (out: string)
    ensures out == Sanitized(name)
  {
    var s := Trim(name, IsSpace);
    if s == "" || s == "." || s == ".." { return ""; }
    var b: string := [];
    for i := 0 to |s|
      invariant b == Cleaned(s[..i])
    {
      assert s[..i + 1][..i] == s[..i];
      var r := s[i];
      if r == '/' || r == '\\' || r as int == 0 {
        b := b + ['_'];
      } else if r == ':' || r == '*' || r == '?' || r == '\"' || r == '<' || r == '>' || r == '|' {
        b := b + ['_'];
      } else if (r as int) < 0x20 {
        b := b + ['_'];
      } else {
        b := b + [r];
      }
    }
    assert s[..|s|] == s;
    out := Trim(b, DotOrBlank);
    if out == "" || out == "." || out == ".." { return ""; }
  }

  lemma TrimFacts(s: string, cut: char -> bool)
    ensures var r := Trim(s, cut);
            (forall c :: c in r ==> c in s) && (r != [] ==> !cut(r[0]) && !cut(r[|r| - 1]))
  {
    var left := TrimLeft(s, cut);
    var r := TrimRight(left, cut);
    forall c | c in r ensures c in s {
      assert c in left;
    }
    if r != [] { assert r[0] == left[0]; }
  }

  lemma CleanedFacts(s: string)
    ensures forall c :: c in Cleaned(s) ==> !Forbidden(c)
  {
  }

  /** A path segment of its own: not empty, no separator, wildcard or control character, no dot or blank at either end. */
  predicate Segment(s: string) {
    && s != [] && s[0] != '.' && s[0] != ' ' && s[|s| - 1] != '.' && s[|s| - 1] != ' '
    && forall c :: c in s ==> !Special(c)
  }

  /** Separators, what Windows refuses, and control characters. */
  predicate Special(c: char) { (c as int) < 32 || c in "/\\:*?\"<>|" }

  lemma SpecialIsForbidden(c: char)
    ensures Special(c) <==> Forbidden(c)
  {
    var w := "/\\:*?\"<>|";
    assert w[0] == '/' && w[1] == '\\' && w[2] == ':' && w[3] == '*' && w[4] == '?' && w[5] == '\"';
    assert w[6] == '<' && w[7] == '>' && w[8] == '|' && |w| == 9;
    if c in w {
      var i :| 0 <= i < 9 && w[i] == c;
    }
  }

  lemma AllSpecial()
    ensures forall c :: Special(c) <==> Forbidden(c)
  {
    forall c ensures Special(c) <==> Forbidden(c) { SpecialIsForbidden(c); }
  }

  /** Whatever the sender chose, a sanitized name is empty or one ordinary path segment. */
  lemma SanitizedIsOneSegment(name: string)
    ensures Sanitized(name) == "" || Segment(Sanitized(name))
  {
    hide Trim, Cleaned, IsSpace, Special, Forbidden;
    AllSpecial();
    var s := Trim(name, IsSpace);
    CleanedFacts(s);
    TrimFacts(Cleaned(s), DotOrBlank);
  }

  /** What is cut off at the left, and at the right. */
  lemma {:induction false} TrimLeftCuts(s: string, cut: char -> bool)
    ensures forall i :: 0 <= i < |s| - |TrimLeft(s, cut)| ==> cut(s[i])
  {
    if s != [] && cut(s[0]) { TrimLeftCuts(s[1..], cut); }
  }

  lemma {:induction false} TrimRightCuts(s: string, cut: char -> bool)
    ensures forall i :: |TrimRight(s, cut)| <= i < |s| ==> cut(s[i])
  {
    if s != [] && cut(s[|s| - 1]) { TrimRightCuts(s[..|s| - 1], cut); }
  }

  /** Trimming keeps one stretch, and everything around it is in the cut set. */
  lemma TrimKeeps(s: string, cut: char -> bool) returns (a: nat)
    ensures a + |Trim(s, cut)| <= |s| && Trim(s, cut) == s[a..a + |Trim(s, cut)|]
    ensures forall i :: 0 <= i < |s| && !(a <= i < a + |Trim(s, cut)|) ==> cut(s[i])
  {
    var left := TrimLeft(s, cut);
    a := |s| - |left|;
    TrimLeftCuts(s, cut);
    TrimRightCuts(left, cut);
    forall i | a <= i < |s| ensures s[i] == left[i - a] {}
  }

  /**
   * A sanitized name is one stretch of the name as sent, with an underscore
   * for every separator, wildcard and control character; only dots and white
   * space are lost around it.
   */
  lemma SanitizedKeepsMiddle(name: string) returns (a: nat)
    ensures var r := Sanitized(name);
            a + |r| <= |name|
            && (forall i :: 0 <= i < |r| ==>
                  r[i] == if Special(name[a + i]) then '_' else name[a + i])
            && (forall i :: 0 <= i < |name| && !(a <= i < a + |r|) ==> name[i] == '.' || IsSpace(name[i]))
  {
    hide Trim, IsSpace, Cleaned, Special;
    a := TrimKeeps(name, IsSpace);
    BlankIsSpace();
    var s := Trim(name, IsSpace);
    if s == "" || s == "." || s == ".." {
      forall i | 0 <= i < |name| ensures name[i] == '.' || IsSpace(name[i]) {
        if a <= i < a + |s| { assert name[i] == s[i - a]; }
      }
    } else {
      var at := a;
      var b := TrimKeeps(Cleaned(s), DotOrBlank);
      a := at + b;
      TrimFacts(Cleaned(s), DotOrBlank);
      var out := Trim(Cleaned(s), DotOrBlank);
      CutAround(s, b, |out|);
      forall i | at <= i < at + |s| && !(a <= i < a + |out|) ensures name[i] == '.' || IsSpace(name[i]) {
        assert name[i] == s[i - at];
      }
      forall i | 0 <= i < |out|
        ensures out[i] == if Special(name[a + i]) then '_' else name[a + i]
      {
        CleanedAt(s, b + i);
        assert out[i] == Cleaned(s)[b + i] && s[b + i] == name[a + i];
      }
    }
  }

  /** What is cut around a cleaned name was a dot or white space before. */
  lemma CutAround(s: string, b: nat, n: nat)
    requires b + n <= |s| && forall i :: 0 <= i < |s| && !(b <= i < b + n) ==> DotOrBlank(Cleaned(s)[i])
    ensures forall i :: 0 <= i < |s| && !(b <= i < b + n) ==> s[i] == '.' || IsSpace(s[i])
  {
    hide Cleaned, IsSpace, Special;
    BlankIsSpace();
    forall i | 0 <= i < |s| && !(b <= i < b + n) ensures s[i] == '.' || IsSpace(s[i]) { CleanedAt(s, i); }
  }

  lemma CleanedAt(s: string, i: nat)
    requires i < |s|
    ensures Cleaned(s)[i] == if Special(s[i]) then '_' else s[i]
  {
    hide Special, Forbidden;
    SpecialIsForbidden(s[i]);
  }

  lemma BlankIsSpace()
    ensures IsSpace(' ') && !IsSpace('.')
  {
  }

  lemma TrimsNothing(s: string, cut: char -> bool)
    requires s != [] && !cut(s[0]) && !cut(s[|s| - 1])
    ensures Trim(s, cut) == s
  {
  }

  /** Cleaning an ordinary segment changes nothing. */
  lemma CleansNothing(s: string)
    requires Segment(s)
    ensures Cleaned(s) == s
  {
    hide Special, Forbidden;
    forall i | 0 <= i < |s| ensures Cleaned(s)[i] == s[i] {
      assert s[i] in s;
      SpecialIsForbidden(s[i]);
    }
  }

  /** A name is left alone exactly when it is an ordinary segment already, without white space at either end. */
  lemma SanitizedStaysIff(name: string)
    ensures Sanitized(name) == name
            <==> name == "" || (Segment(name) && !IsSpace(name[0]) && !IsSpace(name[|name| - 1]))
  {
    hide IsSpace, Cleaned, Segment, Trim;
    if name == "" {
      EmptyStays();
    } else {
      if Segment(name) && !IsSpace(name[0]) && !IsSpace(name[|name| - 1]) {
        TrimsNothing(name, IsSpace);
        CleansNothing(name);
        SegmentStays(name);
      }
      if Sanitized(name) == name {
        SanitizedIsOneSegment(name);
        SanitizedLength(name);
        TrimFacts(name, IsSpace);
      }
    }
  }

  lemma EmptyStays()
    ensures Sanitized("") == ""
  {
  }

  lemma SegmentStays(s: string)
    requires Segment(s)
    ensures Trim(s, DotOrBlank) == s && s != "." && s != ".."
  {
  }

  /** Nothing cut at the end is nothing cut at the start. */
  lemma SanitizedLength(name: string)
    requires Sanitized(name) != ""
    ensures |Sanitized(name)| <= |Trim(name, IsSpace)| <= |name|
    ensures |Trim(name, IsSpace)| == |name| ==> Trim(name, IsSpace) == name
  {
    hide IsSpace, Cleaned, Trim;
    var a := TrimKeeps(name, IsSpace);
    var b := TrimKeeps(Cleaned(Trim(name, IsSpace)), DotOrBlank);
  }

  function DirName(chatTitle: string): string { if Sanitized(chatTitle) == "" then "_" else Sanitized(chatTitle) }

  function FileName(filename: string): string { if Sanitized(filename) == "" then "file" else Sanitized(filename) }

  /** Every download lands exactly two segments below the root, whatever the chat and the sender call things. */
  lemma PathStaysInRoot(chatTitle: string, filename: string)
    ensures Segment(DirName(chatTitle)) && Segment(FileName(filename))
    ensures DirName(chatTitle) == (if Sanitized(chatTitle) == "" then "_" else Sanitized(chatTitle))
    ensures FileName(filename) == (if Sanitized(filename) == "" then "file" else Sanitized(filename))
  {
    hide Sanitized;
    SanitizedIsOneSegment(chatTitle);
    SanitizedIsOneSegment(filename);
  }

  // ----- the names Reserve tries

  /** Where the extension starts: the last dot, or the end. */
  function ExtAt(name: string): (k: nat)
    ensures k <= |name| && (k < |name| ==> name[k] == '.')
    ensures forall i :: k < i < |name| ==> name[i] != '.'
    ensures k == |name| ==> forall i :: 0 <= i < |name| ==> name[i] != '.'
    decreases |name|
  {
    if name == [] then 0
    else if name[|name| - 1] == '.' then |name| - 1
    else
      var k := ExtAt(name[..|name| - 1]);
      if k == |name| - 1 then |name| else k
  }

  function Digits(n: nat): (d: string)
    ensures d != [] && forall i :: 0 <= i < |d| ==> '0' <= d[i] <= '9'
  {
    if n < 10 then [('0' as int + n) as char] else Digits(n / 10) + [('0' as int + n % 10) as char]
  }

  /** The name itself, then "stem (2).ext", "stem (3).ext" and so on. */
  function Candidate(name: string, i: nat): string {
    if i <= 1 then name else name[..ExtAt(name)] + Numbered(i) + name[ExtAt(name)..]
  }

  function Numbered(i: nat): (s: string)
    ensures s != [] && s[|s| - 1] == ')'
  {
    " (" + Digits(i) + ")"
  }

  /** The number some digits show. */
  function Shown(d: string): int {
    if d == [] then 0 else Shown(d[..|d| - 1]) * 10 + (d[|d| - 1] as int - '0' as int)
  }

  lemma {:induction false} DigitsShow(n: nat)
    ensures Shown(Digits(n)) == n
  {
    if n >= 10 {
      DigitsShow(n / 10);
      assert Digits(n)[..|Digits(n)| - 1] == Digits(n / 10);
    } else {
      assert Digits(n)[..0] == [];
    }
  }

  /**
   * The first candidate is the name; every later one puts its number, in
   * decimal, between the stem and the extension, the part from the last dot on.
   */
  lemma CandidateIs(name: string, stem: string, ext: string, i: nat)
    requires name == stem + ext && i > 0 && forall j :: 1 <= j < |ext| ==> ext[j] != '.'
    requires ext == "" ==> '.' !in stem
    requires ext != "" ==> ext[0] == '.'
    ensures Candidate(name, 1) == name
    ensures i > 1 ==> exists d: string {:trigger Shown(d)} :: Candidate(name, i) == stem + " (" + d + ")" + ext && Shown(d) == i
  {
    var k := ExtAt(name);
    if ext != "" { assert name[|stem|] == '.'; }
    forall j | 0 <= j < |name| && j != |stem| && (j > |stem| || ext == "") ensures name[j] != '.' {
      if j > |stem| { assert name[j] == ext[j - |stem|]; } else { assert name[j] in stem; }
    }
    assert k == |stem|;
    if i > 1 {
      DigitsShow(i);
      assert Candidate(name, i) == stem + " (" + Digits(i) + ")" + ext;
    }
  }

  /** No two of the names tried are the same. */
  lemma CandidatesDiffer(name: string, i: nat, j: nat)
    requires 0 < i < j
    ensures Candidate(name, i) != Candidate(name, j)
  {
    hide ExtAt, Digits;
    if i > 1 && Candidate(name, i) == Candidate(name, j) {
      var k, n := ExtAt(name), |Candidate(name, i)| - |name|;
      assert Numbered(i) == Candidate(name, i)[k..k + n] && Numbered(j) == Candidate(name, j)[k..k + n];
      assert Digits(i) == Numbered(i)[2..n - 1] && Digits(j) == Numbered(j)[2..n - 1];
      DigitsShow(i);
      DigitsShow(j);
    }
  }

  /**
   * The path of a candidate ends like a claim exactly when the name does: a
   * numbered name keeps the extension of the name it numbers.
   */
  lemma CandidateEndsPartial(dir: string, name: string, i: nat)
    requires name != []
    ensures D.EndsPartial(dir + "/" + Candidate(name, i)) <==> D.EndsPartial(name)
  {
    hide D.EndsPartial, ExtAt, Numbered;
    if i <= 1 {
      EndsAfter(dir, '/', name);
      assert dir + ['/'] + name == dir + "/" + name;
    } else {
      var k := ExtAt(name);
      var front := dir + "/" + name[..k] + Numbered(i);
      var n := |front| - 1;
      assert dir + "/" + Candidate(name, i) == front[..n] + [')'] + name[k..];
      EndsAfter(front[..n], ')', name[k..]);
      ExtEnds(name);
    }
  }

  /** The names Reserve tries for a download before it gives up. */
  function ReserveNames(dir: string, name: string): (names: seq<string>)
    ensures |names| == 1000
  {
    seq(1000, i requires 0 <= i < 1000 => dir + "/" + Candidate(name, i + 1))
  }

  /** If the name does not end like a claim, none of the names tried does, so no rename lands on a claim. */
  lemma ReserveNamesArePlain(dir: string, name: string, phase: D.Phase, fs: map<string, D.File>)
    requires name != [] && !D.EndsPartial(name)
    ensures D.PlainNames(D.State(fs, [D.Download(ReserveNames(dir, name), phase)], [], []))
  {
    hide Candidate, D.EndsPartial;
    forall i | 0 <= i < 1000 ensures !D.EndsPartial(ReserveNames(dir, name)[i]) {
      CandidateEndsPartial(dir, name, i + 1);
    }
  }

  /** The ending of a claim has no separator, no bracket, and one dot. */
  lemma InsidePartial(p: string, d: nat, j: nat)
    requires d <= j < |p| && p[d..] == D.PARTIAL
    ensures p[j] != '/' && p[j] != ')' && (j > d ==> p[j] != '.') && (j == d ==> p[j] == '.')
  {
    assert p[j] == D.PARTIAL[j - d];
  }

  /** Behind a separator or a bracket only what follows it decides. */
  lemma EndsAfter(a: string, c: char, b: string)
    requires c == '/' || c == ')'
    ensures D.EndsPartial(a + [c] + b) <==> D.EndsPartial(b)
  {
    var p := a + [c] + b;
    assert p[|a|] == c;
    if D.EndsPartial(p) {
      var d := |p| - |D.PARTIAL|;
      if d <= |a| { InsidePartial(p, d, |a|); }
      assert b[|b| - |D.PARTIAL|..] == p[d..];
    }
    if D.EndsPartial(b) {
      assert p[|p| - |D.PARTIAL|..] == b[|b| - |D.PARTIAL|..];
    }
  }

  /** The extension decides. */
  lemma ExtEnds(name: string)
    ensures D.EndsPartial(name[ExtAt(name)..]) <==> D.EndsPartial(name)
  {
    hide ExtAt;
    var k := ExtAt(name);
    var d := |name| - |D.PARTIAL|;
    if D.EndsPartial(name) {
      InsidePartial(name, d, d);
      if d < k < |name| { InsidePartial(name, d, k); }
    }
    if D.EndsPartial(name[k..]) {
      assert name[d..] == name[k..][|name[k..]| - |D.PARTIAL|..];
    }
  }
}
