/**
 The table of contents of a help guide and the headings it links to
 (apps/web/lib/helpGuideSource.ts and apps/web/lib/remarkHeadingIds.ts): one regular
 expression reads `## Label {#id}` from the text, another one from the rendered heading.

 A line here is one line of the guide without its end, a heading without inline markup.
 */
module HelpHeadings {
  import opened Text
  import opened Wrappers

  datatype Heading = Heading(text: string, id: Option<string>)

  // ---------- {#id} at the end of a text ----------

  predicate IdChar(c: char) { IsWord(c) || c == '-' }

  /** `{#id}` stands at `g`..`e`. */
  predicate GroupAt(s: string, g: nat, e: nat) {
    && g + 4 <= e <= |s| && s[g] == '{' && s[g + 1] == '#' && s[e - 1] == '}'
    && forall k | g + 2 <= k < e - 1 :: IdChar(s[k])
  }

  /** `{#id}` with only blanks after it. */
  predicate LastGroup(s: string, g: nat, e: nat) {
    GroupAt(s, g, e) && AllSpace(s, e, |s|)
  }

  function IdStart(s: string, n: nat): (k: nat)
    requires n <= |s|
    ensures k <= n && (forall i | k <= i < n :: IdChar(s[i])) && (k == 0 || !IdChar(s[k - 1]))
  {
    if n > 0 && IdChar(s[n - 1]) then IdStart(s, n - 1) else n
  }

  function FindGroup(s: string): (f: Option<(nat, nat)>)
    ensures f.Some? ==> LastGroup(s, f.value.0, f.value.1)
  {
    var e := SpaceStart(s, |s|);
    if e < 4 || s[e - 1] != '}' then None
    else
      var k := IdStart(s, e - 1);
      if k < e - 1 && k >= 2 && s[k - 2] == '{' && s[k - 1] == '#' then Some((k - 2, e)) else None
  }

  /** A text has at most one such group at its end, and it is found. */
  lemma GroupIsFound(s: string, g: nat, e: nat)
    requires LastGroup(s, g, e)
    ensures FindGroup(s) == Some((g, e))
  {
    SpaceStartIs(s, e, |s|);
    IdStartIs(s, g + 2, e - 1);
  }

  lemma {:induction false} IdStartIs(s: string, k: nat, n: nat)
    requires k <= n <= |s| && (forall i | k <= i < n :: IdChar(s[i])) && (k == 0 || !IdChar(s[k - 1]))
    ensures IdStart(s, n) == k
    decreases n
  {
    if k < n { IdStartIs(s, k, n - 1); }
  }

  function IdOf(s: string, g: nat, e: nat): string
    requires GroupAt(s, g, e)
  {
    s[g + 2..e - 1]
  }

  // ---------- the table of contents: /^##(?!#)\s+(.+?)\s*\{#([\w-]+)\}\s*$/ ----------

  /** A way to match a line: blanks up to `a`, the label up to `b`, blanks up to the last group `g`..`e`. */
  predicate TocMatch(s: string, a: nat, b: nat, g: nat, e: nat) {
    && LastGroup(s, g, e) && s[0] == '#' && s[1] == '#' && s[2] != '#'
    && 2 < a && AllSpace(s, 2, a) && a < b && AllSpace(s, b, g)
  }

  function TocEntry(s: string): Option<Heading> {
    match FindGroup(s)
    case None => None
    case Some((g, e)) =>
      if g < 3 || s[0] != '#' || s[1] != '#' || s[2] == '#' then None
      else
        var w := SpaceEnd(s, 2);
        if 2 < w < g then Some(Heading(s[w..SpaceStart(s, g)], Some(IdOf(s, g, e))))
        // nothing but blanks between the signs and the group: the last of them has to serve as the label
        else if 3 < w == g then Some(Heading(s[w - 1..w], Some(IdOf(s, g, e))))
        else None
  }

  lemma Brace()
    ensures !IsSpace('{') && !IsSpace('}') && !IsSpace('#')
  {}

  ghost predicate Preferred(s: string, entry: Heading, a: nat, b: nat, g: nat, e: nat) {
    TocMatch(s, a, b, g, e) && entry == Heading(s[a..b], Some(IdOf(s, g, e)))
    && forall a': nat, b': nat, g': nat, e': nat | TocMatch(s, a', b', g', e') :: a' <= a && (a' == a ==> b <= b')
  }

  /**
   There is an entry exactly if the line can be matched, and it is from the match the expression prefers: most
   blanks first, then the shortest label.
   */
  lemma TocEntryIff(s: string)
    ensures TocEntry(s).Some? <==> exists a: nat, b: nat, g: nat, e: nat :: TocMatch(s, a, b, g, e)
    ensures TocEntry(s).Some? ==> exists a: nat, b: nat, g: nat, e: nat :: Preferred(s, TocEntry(s).value, a, b, g, e)
  {
    hide IsSpace, IsWord;
    forall a: nat, b: nat, g: nat, e: nat | TocMatch(s, a, b, g, e)
      ensures TocEntry(s).Some? && FindGroup(s) == Some((g, e)) && (a <= SpaceEnd(s, 2) < g || a < SpaceEnd(s, 2) == g)
    {
      GroupIsFound(s, g, e);
      assert !IsSpace('{') by { Brace(); }
      SpaceEndBounds(s, 2, a, g);
    }
    if TocEntry(s).Some? {
      var (g, e) := FindGroup(s).value;
      var w := SpaceEnd(s, 2);
      var (a, b) := if w < g then (w, SpaceStart(s, g)) else (w - 1, w);
      assert TocMatch(s, a, b, g, e);
      forall a': nat, b': nat, g': nat, e': nat | TocMatch(s, a', b', g', e') ensures a' <= a && (a' == a ==> b <= b') {
        if w < g && a' == a { SpaceStartBounds(s, b', g); }
      }
      assert Preferred(s, TocEntry(s).value, a, b, g, e);
    }
  }

  // ---------- the rendered heading ----------

  /** CommonMark trims blanks and tabs only. */
  predicate IsBlank(c: char) { c == ' ' || c == '\t' }

  function TrimLeft(s: string): (t: string)
    ensures |t| <= |s| && t == s[|s| - |t|..] && (t != [] ==> !IsBlank(t[0]))
    ensures forall k | 0 <= k < |s| - |t| :: IsBlank(s[k])
  {
    if s != [] && IsBlank(s[0]) then TrimLeft(s[1..]) else s
  }

  function TrimRight(s: string): (t: string)
    ensures |t| <= |s| && t == s[..|t|] && (t != [] ==> !IsBlank(t[|t| - 1]))
    ensures forall k | |t| <= k < |s| :: IsBlank(s[k])
  {
    if s != [] && IsBlank(s[|s| - 1]) then TrimRight(s[..|s| - 1]) else s
  }

  function HashStart(s: string, n: nat): (k: nat)
    requires n <= |s|
    ensures k <= n
  {
    if n > 0 && s[n - 1] == '#' then HashStart(s, n - 1) else n
  }

  /** An optional closing sequence of # signs, set off by a blank (section 4.2 of CommonMark 0.31). */
  function WithoutClosing(c: string): string {
    var k := HashStart(c, |c|);
    if k == |c| then c
    else if k == 0 then []
    else if IsBlank(c[k - 1]) then TrimRight(c[..k])
    else c
  }

  /** The text of a second-level ATX heading that starts the line. */
  function Content(s: string): Option<string> {
    if |s| >= 2 && s[0] == '#' && s[1] == '#' && (|s| == 2 || IsBlank(s[2]))
    then Some(WithoutClosing(TrimRight(TrimLeft(s[2..]))))
    else None
  }

  /** remarkHeadingIds: /\s*\{#([\w-]+)\}\s*$/ takes the group off the heading's text, and the blanks before it. */
  function WithId(c: string): Heading {
    match FindGroup(c)
    case None => Heading(c, None)
    case Some((g, e)) => Heading(c[..SpaceStart(c, g)], Some(IdOf(c, g, e)))
  }

  function Rendered(s: string): Option<Heading> {
    match Content(s)
    case None => None
    case Some(c) => Some(WithId(c))
  }

  /**
   A heading's id is that of the group that ends its text; what is left of the text ends before the blanks that
   part them.
   */
  lemma HeadingTaken(c: string)
    ensures WithId(c).id == None ==> WithId(c).text == c && forall g: nat, e: nat :: !LastGroup(c, g, e)
    ensures WithId(c).id.Some? ==> exists g: nat, e: nat :: LastGroup(c, g, e) && TakenOff(c, WithId(c), g, e)
  {
    hide IsSpace, IsWord, FindGroup;
    if FindGroup(c) == None {
      forall g: nat, e: nat ensures !LastGroup(c, g, e) { if LastGroup(c, g, e) { GroupIsFound(c, g, e); } }
    } else {
      var (g, e) := FindGroup(c).value;
      SpaceStartAtMost(c, g);
      assert LastGroup(c, g, e) && TakenOff(c, WithId(c), g, e);
    }
  }

  /** The id is the group's; only blanks stand between the text and the group, and none at the end of the text. */
  predicate TakenOff(c: string, h: Heading, g: nat, e: nat)
    requires LastGroup(c, g, e)
  {
    var t := |h.text|;
    h.id == Some(c[g + 2..e - 1]) && AllSpace(c, t, g) && h.text == c[..t] && (t == 0 || !IsSpace(c[t - 1]))
  }

  /** A heading without closing signs keeps its text, a sign at the very end of its last word included. */
  lemma PlainHeading(c: string)
    requires c != [] && !IsBlank(c[0]) && !IsBlank(c[|c| - 1]) && c[0] != '#'
    requires forall k | 0 <= k < |c| && IsBlank(c[k]) :: exists j | k < j < |c| :: c[j] != '#'
    ensures Content("## " + c) == Some(c)
  {
    hide IsBlank, TrimLeft, TrimRight;
    var s := "## " + c;
    BlankFacts();
    assert s[2..] == " " + c && s[2] == ' ';
    OneBlankTrimmed(c);
    NothingToTrim(c);
    SignsFrom(c, |c|);
  }

  lemma {:induction false} SignsFrom(c: string, n: nat)
    requires n <= |c|
    ensures HashStart(c, n) <= n && (forall j | HashStart(c, n) <= j < n :: c[j] == '#')
    ensures HashStart(c, n) == 0 || c[HashStart(c, n) - 1] != '#'
  {
    if n > 0 && c[n - 1] == '#' { SignsFrom(c, n - 1); }
  }

  /** The visitor over a document's headings, overwriting each in place. */
  method RemarkHeadingIds(nodes: array<Heading>)
    requires forall i | 0 <= i < nodes.Length :: nodes[i].id == None
    modifies nodes
    ensures forall i | 0 <= i < nodes.Length :: nodes[i] == WithId(old(nodes[i]).text)
  {
    hide FindGroup, SpaceStart, IdOf, IsSpace, IsWord;
    for n := 0 to nodes.Length
      invariant forall i | 0 <= i < n :: nodes[i] == WithId(old(nodes[i]).text)
      invariant forall i | n <= i < nodes.Length :: nodes[i] == old(nodes[i])
    {
      var value := nodes[n].text;
      var m := FindGroup(value);
      if m.Some? {
        var (g, e) := m.value;
        nodes[n] := Heading(value[..SpaceStart(value, g)], Some(IdOf(value, g, e)));
      }
    }
  }

  // ---------- the two agree ----------

  /**
   Between the signs and the label, or the group if there is no label, stand only blanks and tabs, and there is
   a label.
   */
  predicate Ordinary(s: string) {
    |s| >= 2 && var w := SpaceEnd(s, 2);
      (forall k | 2 <= k < w :: IsBlank(s[k])) && (var f := FindGroup(s); f.Some? ==> w < f.value.0)
  }

  lemma GroupInSlice(s: string, k: nat, r: nat, g: nat, e: nat)
    requires LastGroup(s, g, e) && k <= g && e <= r <= |s|
    ensures FindGroup(s[k..r]) == Some((g - k, e - k)) && GroupAt(s[k..r], g - k, e - k)
    ensures IdOf(s[k..r], g - k, e - k) == IdOf(s, g, e)
  {
    hide IsSpace, IsWord, FindGroup;
    var c := s[k..r];
    assert forall i | 0 <= i < |c| :: c[i] == s[k + i];
    GroupIsFound(c, g - k, e - k);
  }

  /** What is left of the line between the trimmed ends still holds the group, and ends in no closing sequence. */
  lemma ContentIs(s: string, g: nat, e: nat) returns (k: nat, r: nat)
    requires LastGroup(s, g, e) && 2 < SpaceEnd(s, 2) <= g && s[0] == '#' && s[1] == '#' && IsBlank(s[2])
    ensures 2 < k <= SpaceEnd(s, 2) && e <= r <= |s| && Content(s) == Some(s[k..r])
    ensures k == SpaceEnd(s, 2) <==> forall i | 2 <= i < SpaceEnd(s, 2) :: IsBlank(s[i])
  {
    hide IsSpace, IsWord, SpaceEnd, IsBlank, FindGroup, TrimLeft, TrimRight, WithoutClosing, LastGroup, AllSpace,
      Content;
    GroupEnds(s, g, e);
    k := |s| - |TrimLeft(s[2..])|;
    LeftTrimmed(s);
    BlankPrefix(s, k, SpaceEnd(s, 2));
    r := ContentFrom(s, k, g, e);
  }

  lemma ContentFrom(s: string, k: nat, g: nat, e: nat) returns (r: nat)
    requires LastGroup(s, g, e) && 2 < k <= g && s[0] == '#' && s[1] == '#' && IsBlank(s[2])
      && TrimLeft(s[2..]) == s[k..]
    ensures e <= r <= |s| && Content(s) == Some(s[k..r])
  {
    hide IsSpace, IsWord, IsBlank, FindGroup, TrimLeft, TrimRight, WithoutClosing, LastGroup;
    GroupEnds(s, g, e);
    RightTrimmed(s, k, e);
    r := k + |TrimRight(s[k..])|;
    LastIsNoHash(s, g, e, k, r);
    NoClosing(s[k..r]);
  }

  lemma GroupEnds(s: string, g: nat, e: nat)
    requires LastGroup(s, g, e)
    ensures g < e <= |s| && s[e - 1] == '}'
  {
    hide IsSpace, IsWord;
  }

  lemma RightTrimmed(s: string, k: nat, e: nat)
    requires k < e <= |s| && s[e - 1] == '}'
    ensures var r := k + |TrimRight(s[k..])|; e <= r <= |s| && TrimRight(s[k..]) == s[k..r]
  {
    assert s[k..][e - 1 - k] == '}';
  }

  lemma NoClosing(c: string)
    requires c != [] && c[|c| - 1] != '#'
    ensures WithoutClosing(c) == c
  {}

  lemma LeftTrimmed(s: string)
    requires |s| > 2 && IsBlank(s[2])
    ensures var left := TrimLeft(s[2..]); var k := |s| - |left|;
      && 2 < k <= |s| && left == s[k..] && (k < |s| ==> !IsBlank(s[k]))
      && forall i | 2 <= i < k :: IsBlank(s[i])
  {
    hide IsBlank;
    var left := TrimLeft(s[2..]);
    forall i | 2 <= i < |s| - |left| ensures IsBlank(s[i]) { assert s[i] == s[2..][i - 2]; }
    assert s[2..][0] == s[2];
  }

  lemma BlankPrefix(s: string, k: nat, w: nat)
    requires 2 <= k <= |s| && w == SpaceEnd(s, 2) && 2 <= w < |s| && (forall i | 2 <= i < k :: IsBlank(s[i]))
      && (k < |s| ==> !IsBlank(s[k]))
    ensures k <= w && (k == w <==> forall i | 2 <= i < w :: IsBlank(s[i]))
  {
    hide SpaceEnd;
    assert !IsBlank(s[w]);
  }

  lemma LastIsNoHash(s: string, g: nat, e: nat, k: nat, r: nat)
    requires LastGroup(s, g, e) && k <= g && e <= r <= |s|
    ensures s[k..r] != [] && s[k..r][|s[k..r]| - 1] != '#'
  {
    hide IsWord;
    Brace();
    assert s[k..r][r - k - 1] == s[r - 1];
  }

  /** After a blank, the heading's text is the label, with whatever the trimming has left in front of it. */
  lemma RenderedIs(s: string, g: nat, e: nat) returns (k: nat)
    requires LastGroup(s, g, e) && 2 < SpaceEnd(s, 2) <= g && s[0] == '#' && s[1] == '#' && IsBlank(s[2])
    ensures 2 < k <= SpaceEnd(s, 2) && (k == SpaceEnd(s, 2) <==> forall i | 2 <= i < SpaceEnd(s, 2) :: IsBlank(s[i]))
    ensures var t := SpaceStart(s, g);
      t <= g && Rendered(s) == Some(Heading(if t < k then "" else s[k..t], Some(IdOf(s, g, e))))
  {
    hide IsSpace, IsWord, IsBlank, FindGroup, SpaceEnd, SpaceStart, Content, IdOf, LastGroup;
    GroupEnds(s, g, e);
    SpaceStartAtMost(s, g);
    var r;
    k, r := ContentIs(s, g, e);
    GroupInSlice(s, k, r, g, e);
    SpaceStartInSlice(s, k, r, g);
    var t := SpaceStart(s, g);
    assert t >= k ==> s[k..r][..t - k] == s[k..t];
  }

  /** An entry of the contents has its heading, same label and same id, exactly on ordinary lines. */
  lemma EntryHasHeading(s: string)
    requires TocEntry(s).Some?
    ensures Rendered(s) == TocEntry(s) <==> Ordinary(s)
  {
    hide IsSpace, IsWord, IsBlank, FindGroup, SpaceEnd, SpaceStart, Rendered, IdOf, LastGroup;
    var (g, e) := FindGroup(s).value;
    GroupEnds(s, g, e);
    LabelStart(s, SpaceEnd(s, 2), g);
    if IsBlank(s[2]) {
      var k := RenderedIs(s, g, e);
    } else {
      NoHeading(s);
    }
  }

  lemma NoHeading(s: string)
    requires |s| > 2 && !IsBlank(s[2])
    ensures Rendered(s) == None
  {}

  lemma LabelStart(s: string, w: nat, g: nat)
    requires |s| >= 2 && w == SpaceEnd(s, 2) && 2 <= w <= g < |s|
    ensures w < g ==> w < SpaceStart(s, g)
    ensures w == g ==> SpaceStart(s, g) <= 2
  {
    hide IsSpace;
    if w == g { SpaceStartBounds(s, 2, g); }
  }

  /**
   A heading with an id has its entry exactly if the line itself ends in the group and there is a label, or a
   second blank to serve as one.
   */
  lemma HeadingHasEntryIff(s: string)
    requires Rendered(s).Some? && Rendered(s).value.id.Some?
    ensures TocEntry(s).Some? <==> FindGroup(s).Some? && (SpaceEnd(s, 2) < FindGroup(s).value.0 || SpaceEnd(s, 2) > 3)
  {
    hide IsSpace, IsWord, FindGroup, WithoutClosing, TrimLeft, TrimRight;
    BlankIsSpace(s);
    if FindGroup(s).Some? {
      var (g, e) := FindGroup(s).value;
      Brace();
      GroupComesLater(s, g, e);
    }
  }

  lemma BlankIsSpace(s: string)
    requires Rendered(s).Some? && Rendered(s).value.id.Some?
    ensures |s| > 2 && IsSpace(s[2]) && s[0] == s[1] == '#' && SpaceEnd(s, 2) > 2
  {
    hide IsWord;
    if |s| == 2 { EmptyHeading(s); }
  }

  lemma EmptyHeading(s: string)
    requires |s| == 2
    ensures Rendered(s).Some? ==> Rendered(s).value.id == None
  {
    hide WithoutClosing, TrimLeft, TrimRight, FindGroup;
    EmptyContent();
    assert s[2..] == [];
  }

  lemma EmptyContent()
    ensures TrimLeft([]) == TrimRight([]) == WithoutClosing([]) == [] && FindGroup([]) == None
  {}

  lemma GroupComesLater(s: string, g: nat, e: nat)
    requires GroupAt(s, g, e) && |s| > 2 && s[0] == s[1] == '#' && IsSpace(s[2]) && !IsSpace('{')
    ensures SpaceEnd(s, 2) <= g
  {
    hide IsSpace, IsWord;
    assert g != 0 && g != 1 && g != 2;
    SpaceEndBounds(s, 2, 2, g);
  }

  /** Two headings with an id that the contents do not list: one with closing signs, one without a label. */
  lemma HeadingsWithoutEntry()
    ensures Rendered("## Foo {#x} ##") == Some(Heading("Foo", Some("x"))) && TocEntry("## Foo {#x} ##") == None
    ensures Rendered("## {#x}") == Some(Heading("", Some("x"))) && TocEntry("## {#x}") == None
  {
    ClosedHeading();
    BareHeading();
  }

  lemma ClosedHeading()
    ensures Rendered("## Foo {#x} ##") == Some(Heading("Foo", Some("x"))) && TocEntry("## Foo {#x} ##") == None
  {
    hide IsSpace, IsWord, FindGroup, WithoutClosing, TrimLeft, TrimRight, HashStart;
    var s := "## Foo {#x} ##";
    CharFacts();
    BlankFacts();
    SameText();
    ClosingIsDropped("Foo {#x}");
    FooGroup();
    SpaceStartIs(s, 14, 14);
    NoGroupEnd(s);
  }

  /** The closing signs of a heading are no part of its content. */
  lemma ClosingIsDropped(c: string)
    requires c != [] && !IsBlank(c[0]) && !IsBlank(c[|c| - 1])
    ensures Content("## " + c + " ##") == Some(c)
  {
    hide IsBlank, HashStart, TrimLeft, TrimRight, WithoutClosing;
    var s, d := "## " + c + " ##", c + " ##";
    BlankFacts();
    assert s[2..] == " " + d && s[2] == ' ' && d[0] == c[0] && d[|d| - 1] == '#';
    NothingToTrim(d);
    OneBlankTrimmed(d);
    ClosingSigns(c);
  }

  lemma OneBlankTrimmed(d: string)
    ensures TrimLeft(" " + d) == TrimLeft(d)
  {
    assert (" " + d)[1..] == d;
  }

  lemma ClosingSigns(c: string)
    requires c != [] && !IsBlank(c[|c| - 1])
    ensures WithoutClosing(c + " ##") == c
  {
    hide IsBlank, HashStart;
    var d := c + " ##";
    BlankFacts();
    LastTwoSigns(c + " ", d);
    assert d[..|c| + 1] == c + " " && (c + " ")[..|c|] == c;
    NothingToTrim(c);
    assert TrimRight(c + " ") == TrimRight(c);
  }

  lemma BlankFacts()
    ensures IsBlank(' ') && !IsBlank('#') && !IsBlank('F') && !IsBlank('}')
  {}

  lemma NothingToTrim(c: string)
    requires c != [] && !IsBlank(c[|c| - 1])
    ensures TrimRight(c) == c && (!IsBlank(c[0]) ==> TrimLeft(c) == c)
  {
    hide IsBlank;
  }

  lemma LastTwoSigns(p: string, d: string)
    requires p != [] && p[|p| - 1] != '#' && d == p + "##"
    ensures HashStart(d, |d|) == |p| && d[..|p|] == p
  {
    assert HashStart(d, |p| + 1) == HashStart(d, |p|) == |p|;
  }

  lemma SameText()
    ensures "## Foo {#x} ##" == "## " + "Foo {#x}" + " ##"
  {
    assert "## " + "Foo {#x}" == "## Foo {#x}";
  }

  lemma FooGroup()
    ensures WithId("Foo {#x}") == Heading("Foo", Some("x"))
  {
    hide IsSpace, IsWord, FindGroup;
    var c := "Foo {#x}";
    CharFacts();
    GroupIsFound(c, 4, 8);
    SpaceStartIs(c, 3, 4);
    assert c[..3] == "Foo" && c[6..7] == "x";
  }

  lemma NoGroupEnd(s: string)
    requires SpaceStart(s, |s|) == |s| && (s == [] || s[|s| - 1] != '}')
    ensures FindGroup(s) == None
  {}

  lemma CharFacts()
    ensures IsSpace(' ') && !IsSpace('#') && !IsSpace('{') && !IsSpace('}') && !IsSpace('o') && IsWord('x')
      && !IsWord('{') && !IsWord('#')
  {}

  lemma BareHeading()
    ensures Rendered("## {#x}") == Some(Heading("", Some("x"))) && TocEntry("## {#x}") == None
  {
    hide IsSpace, IsWord, FindGroup, Rendered;
    var s := "## {#x}";
    CharFacts();
    GroupIsFound(s, 3, 7);
    SpaceEndIs(s, 2, 3);
    SpaceStartIs(s, 2, 3);
    assert s[5..6] == "x";
    var k := RenderedIs(s, 3, 7);
  }

  // ---------- the lines of a guide ----------

  function OneOrNone(h: Option<Heading>): seq<Heading> {
    if h.Some? then [h.value] else []
  }

  /** The entries the lines have by themselves. */
  function Contents(lines: seq<string>): seq<Heading> {
    if lines == [] then [] else OneOrNone(TocEntry(lines[0])) + Contents(lines[1..])
  }

  function Headings(lines: seq<string>): seq<Heading> {
    if lines == [] then [] else OneOrNone(Rendered(lines[0])) + Headings(lines[1..])
  }

  /** `xs` in this order among `ys`: `at` says where each one is. */
  ghost predicate Among(xs: seq<Heading>, ys: seq<Heading>, at: seq<nat>) {
    |at| == |xs| && (forall i | 0 <= i < |xs| :: at[i] < |ys| && ys[at[i]] == xs[i])
    && forall i, j | 0 <= i < j < |at| :: at[i] < at[j]
  }

  /** The entries of lines that may be anything but are on ordinary lines. */
  ghost predicate AllOrdinary(lines: seq<string>) {
    forall l | l in lines && TocEntry(l).Some? :: Ordinary(l)
  }

  /** Every entry of the lines has its heading, in the same order, if these entries are on ordinary lines. */
  lemma {:induction false} ContentsHaveHeadings(lines: seq<string>) returns (at: seq<nat>)
    requires AllOrdinary(lines)
    ensures Among(Contents(lines), Headings(lines), at)
  {
    hide TocEntry, Rendered, Ordinary, Among;
    if lines == [] {
      at := [];
      NoneAmong();
    } else {
      var l := lines[0];
      var later := ContentsHaveHeadings(lines[1..]);
      if TocEntry(l).Some? { EntryHasHeading(l); }
      at := OneMore(TocEntry(l), Contents(lines[1..]), Rendered(l), Headings(lines[1..]), later);
    }
  }

  lemma NoneAmong()
    ensures Among([], [], [])
  {}

  lemma OneMore(x: Option<Heading>, xs: seq<Heading>, y: Option<Heading>, ys: seq<Heading>, later: seq<nat>)
    returns (at: seq<nat>)
    requires Among(xs, ys, later) && (x.Some? ==> x == y)
    ensures Among(OneOrNone(x) + xs, OneOrNone(y) + ys, at)
  {
    hide Among;
    at := Shift(xs, ys, OneOrNone(y), later);
    if x.Some? {
      AddFirst(x.value, xs, ys, at);
      at := [0] + at;
    } else {
      assert [] + xs == xs;
    }
  }

  lemma Shift(xs: seq<Heading>, ys: seq<Heading>, front: seq<Heading>, later: seq<nat>) returns (at: seq<nat>)
    requires Among(xs, ys, later)
    ensures Among(xs, front + ys, at) && forall i | 0 <= i < |at| :: |front| <= at[i]
  {
    at := seq(|later|, i requires 0 <= i < |later| => later[i] + |front|);
    forall i | 0 <= i < |xs| ensures at[i] < |front + ys| && (front + ys)[at[i]] == xs[i] {
      assert at[i] == later[i] + |front| && ys[later[i]] == xs[i];
    }
    forall i, j | 0 <= i < j < |at| ensures at[i] < at[j] { assert later[i] < later[j]; }
  }

  lemma AddFirst(x: Heading, xs: seq<Heading>, ys: seq<Heading>, at: seq<nat>)
    requires Among(xs, [x] + ys, at) && forall i | 0 <= i < |at| :: 1 <= at[i]
    ensures Among([x] + xs, [x] + ys, [0] + at)
  {
    var more := [0] + at;
    assert forall i | 0 < i < |more| :: more[i] == at[i - 1] && ([x] + xs)[i] == xs[i - 1];
  }

  /** With nothing but two blanks before the group, the contents list a label that the heading does not have. */
  lemma UnlabelledLineDiffers()
    ensures TocEntry("##  {#x}") == Some(Heading(" ", Some("x"))) != Rendered("##  {#x}")
  {
    hide FindGroup, SpaceEnd, IdOf, Rendered, SpaceStart;
    var s := "##  {#x}";
    UnlabelledGroup(s);
    Quoted(s);
    EntryHasHeading(s);
  }

  lemma UnlabelledGroup(s: string)
    requires s == "##  {#x}"
    ensures FindGroup(s) == Some((4, 8)) && SpaceEnd(s, 2) == 4
  {
    hide IsSpace, IsWord;
    CharFacts();
    GroupIsFound(s, 4, 8);
    SpaceEndIs(s, 2, 4);
  }

  lemma Quoted(s: string)
    requires s == "##  {#x}"
    ensures s[3..4] == " " && GroupAt(s, 4, 8) && IdOf(s, 4, 8) == "x"
  {
    hide IsWord;
    CharFacts();
    assert s[6..7] == "x";
  }
}
