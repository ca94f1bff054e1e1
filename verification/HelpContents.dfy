/**
 The table of contents as it is read from the whole text of a help guide
 (apps/web/lib/helpGuideSource.ts): all matches, from the left, of
 /^##(?!#)\s+(.+?)\s*\{#([\w-]+)\}\s*$/gm. The expression is meant line by line, but \s matches line
 ends as well. Here the matches of the text are compared with the entries of its lines.
 */
module HelpContents {
  import opened HelpHeadings
  import opened Text
  import opened Wrappers

  // ---------- the expression on the text ----------

  /** What ends a line for `^`, `$` and `.`. */
  predicate IsEnd(c: char) {
    c == '\n' || c == '\r' || c == 0x2028 as char || c == 0x2029 as char
  }

  predicate AtStart(s: string, i: nat) {
    i == 0 || (i <= |s| && IsEnd(s[i - 1]))
  }

  predicate AtEnd(s: string, z: nat) {
    z == |s| || (z < |s| && IsEnd(s[z]))
  }

  /** A match: blanks up to `a`, the label up to `b`, blanks up to the group `g`..`e`, blanks up to `z`. */
  datatype Match = Match(a: nat, b: nat, g: nat, e: nat, z: nat)

  predicate Signs(s: string, i: nat) {
    i + 2 <= |s| && s[i] == '#' && s[i + 1] == '#' && (i + 2 == |s| || s[i + 2] != '#')
  }

  /** Any way at all to match at `i`. */
  predicate TextMatch(s: string, i: nat, m: Match) {
    && AtStart(s, i) && Signs(s, i) && i + 2 < m.a < m.b
    && AllSpace(s, i + 2, m.a) && AllSpace(s, m.b, m.g) && (forall k | m.a <= k < m.b :: !IsEnd(s[k]))
    && GroupAt(s, m.g, m.e) && AllSpace(s, m.e, m.z) && AtEnd(s, m.z)
  }

  function IdEnd(s: string, i: nat): (k: nat)
    requires i <= |s|
    ensures i <= k <= |s| && (forall n | i <= n < k :: IdChar(s[n])) && (k == |s| || !IdChar(s[k]))
    decreases |s| - i
  {
    if i < |s| && IdChar(s[i]) then IdEnd(s, i + 1) else i
  }

  /** The end of the group at `g`, if there is one. */
  function GroupEnd(s: string, g: nat): (e: Option<nat>)
    ensures e.Some? ==> GroupAt(s, g, e.value)
  {
    if !(g + 2 <= |s| && s[g] == '{' && s[g + 1] == '#') then None
    else
      var k := IdEnd(s, g + 2);
      if g + 2 < k < |s| && s[k] == '}' then Some(k + 1) else None
  }

  /** `\s*$`, blanks given back from `z` down to `e`. */
  function GiveBack(s: string, e: nat, z: nat): (r: Option<nat>)
    requires e <= z <= |s|
    ensures r.Some? ==> e <= r.value <= z && AtEnd(s, r.value)
    decreases z
  {
    if AtEnd(s, z) then Some(z) else if z == e then None else GiveBack(s, e, z - 1)
  }

  /** `\{#([\w-]+)\}\s*$` at `g`: where the group ends, and where the match does. */
  function Hit(s: string, g: nat): Option<(nat, nat)> {
    match GroupEnd(s, g)
    case None => None
    case Some(e) =>
      match GiveBack(s, e, SpaceEnd(s, e))
      case None => None
      case Some(z) => Some((e, z))
  }

  /**
   `(.+?)` and the rest, the label from `a` up to `b` or, failing that, further. Blanks given back before the
   group would leave a blank for its `{`.
   */
  function Lazy(s: string, a: nat, b: nat): Option<Match>
    requires a < b <= |s|
    decreases |s| - b
  {
    if IsEnd(s[b - 1]) then None
    else
      var g := SpaceEnd(s, b);
      var hit := Hit(s, g);
      if hit.Some? then Some(Match(a, b, g, hit.value.0, hit.value.1))
      else if b == |s| then None
      else Lazy(s, a, b + 1)
  }

  /** `\s+` and the rest, blanks given back from `a`. */
  function Greedy(s: string, i: nat, a: nat): Option<Match>
    requires i + 3 <= a <= |s|
    decreases a
  {
    var m := if a < |s| then Lazy(s, a, a + 1) else None;
    if m.Some? || a == i + 3 then m else Greedy(s, i, a - 1)
  }

  function MatchFrom(s: string, i: nat): Option<Match> {
    if AtStart(s, i) && Signs(s, i) && i + 2 < SpaceEnd(s, i + 2) then Greedy(s, i, SpaceEnd(s, i + 2)) else None
  }

  // ---------- it finds the match it prefers, if there is any ----------

  lemma GroupEndIs(s: string, g: nat, e: nat)
    requires GroupAt(s, g, e)
    ensures GroupEnd(s, g) == Some(e)
  {
    IdEndIs(s, g + 2, e - 1);
  }

  lemma {:induction false} IdEndIs(s: string, i: nat, k: nat)
    requires i <= k < |s| && (forall n | i <= n < k :: IdChar(s[n])) && !IdChar(s[k])
    ensures IdEnd(s, i) == k
    decreases k - i
  {
    if i < k { IdEndIs(s, i + 1, k); }
  }

  lemma {:induction false} GiveBackFinds(s: string, e: nat, z: nat, k: nat)
    requires e <= k <= z <= |s| && AtEnd(s, k)
    ensures GiveBack(s, e, z).Some? && k <= GiveBack(s, e, z).value
    decreases z
  {
    if !AtEnd(s, z) { GiveBackFinds(s, e, z - 1, k); }
  }

  lemma {:induction false} SpaceEndIsFar(s: string, i: nat, k: nat)
    requires AllSpace(s, i, k)
    ensures k <= SpaceEnd(s, i) && SpaceEnd(s, k) == SpaceEnd(s, i)
    decreases k - i
  {
    hide IsSpace;
    if i < k { SpaceEndIsFar(s, i + 1, k); }
  }

  lemma GroupIsNoBlank(s: string, b: nat, g: nat, e: nat)
    requires AllSpace(s, b, g) && GroupAt(s, g, e)
    ensures SpaceEnd(s, b) == g
  {
    hide IsWord;
    SpaceEndIs(s, b, g);
  }

  lemma HitIff(s: string, g: nat, e: nat)
    ensures (exists z: nat :: GroupAt(s, g, e) && AllSpace(s, e, z) && AtEnd(s, z))
      <==> Hit(s, g).Some? && Hit(s, g).value.0 == e
    ensures Hit(s, g).Some? ==> var (e', z) := Hit(s, g).value; GroupAt(s, g, e') && AllSpace(s, e', z) && AtEnd(s, z)
  {
    hide IsSpace, IsWord, IsEnd;
    if z: nat :| GroupAt(s, g, e) && AllSpace(s, e, z) && AtEnd(s, z) {
      GroupEndIs(s, g, e);
      SpaceEndIsFar(s, e, z);
      GiveBackFinds(s, e, SpaceEnd(s, e), z);
    }
    if Hit(s, g).Some? {
      var (e', z) := Hit(s, g).value;
      assert AllSpace(s, e', z);
    }
  }

  predicate OneLine(s: string, a: nat, b: nat) {
    a <= b <= |s| && forall k | a <= k < b :: !IsEnd(s[k])
  }

  lemma NotOneLine(s: string, a: nat, k: nat)
    requires a <= k < |s| && IsEnd(s[k])
    ensures forall c | k < c :: !OneLine(s, a, c)
  {}

  /** The label is as short as can be. */
  lemma {:induction false} LazyIff(s: string, a: nat, b: nat)
    requires a < b <= |s| && OneLine(s, a, b - 1)
    ensures var m := Lazy(s, a, b);
      && (m.Some? ==> m.value.a == a && b <= m.value.b && OneLine(s, a, m.value.b))
      && (m.Some? ==> m.value.g == SpaceEnd(s, m.value.b) && Hit(s, m.value.g) == Some((m.value.e, m.value.z)))
      && forall c | b <= c && OneLine(s, a, c) && Hit(s, SpaceEnd(s, c)).Some? :: m.Some? && m.value.b <= c
    decreases |s| - b
  {
    hide IsEnd, Hit, SpaceEnd;
    if IsEnd(s[b - 1]) {
      NotOneLine(s, a, b - 1);
    } else if Hit(s, SpaceEnd(s, b)) == None && b < |s| {
      LazyIff(s, a, b + 1);
    }
  }

  /** A label can begin at `a`. */
  predicate Labels(s: string, a: nat) {
    a < |s| && Lazy(s, a, a + 1).Some?
  }

  /** As many blanks as can be are taken before the label. */
  lemma {:induction false} GreedyIff(s: string, i: nat, a: nat)
    requires i + 3 <= a <= |s|
    ensures var m := Greedy(s, i, a);
      && (m.Some? ==> i + 3 <= m.value.a <= a && m.value.a < |s| && Lazy(s, m.value.a, m.value.a + 1) == m)
      && forall a' | i + 3 <= a' <= a && Labels(s, a') :: m.Some? && a' <= m.value.a
    decreases a
  {
    hide Lazy;
    if a < |s| { LazyIff(s, a, a + 1); }
    if a > i + 3 { GreedyIff(s, i, a - 1); }
  }

  /**
   There is a match exactly if the text can be matched at all, and it takes most blanks before the label, then
   the shortest label, then most blanks.
   */
  lemma MatchFromIff(s: string, i: nat)
    ensures MatchFrom(s, i).Some? <==> exists m :: TextMatch(s, i, m)
    ensures MatchFrom(s, i).Some? ==> var m := MatchFrom(s, i).value;
      TextMatch(s, i, m) && forall n | TextMatch(s, i, n) ::
        n.a <= m.a && (n.a == m.a ==> m.b <= n.b && (n.b == m.b ==> n.g == m.g && n.e == m.e && n.z <= m.z))
  {
    hide Greedy, Lazy, Hit, SpaceEnd, IsSpace, IsWord, GroupAt, AtEnd, AtStart, Signs, OneLine;
    forall n | TextMatch(s, i, n)
      ensures MatchFrom(s, i).Some?
      ensures var m := MatchFrom(s, i).value;
        n.a <= m.a && (n.a == m.a ==> m.b <= n.b && (n.b == m.b ==> n.g == m.g && n.e == m.e && n.z <= m.z))
    { MatchIsFound(s, i, n); }
    if MatchFrom(s, i).Some? { FoundIsMatch(s, i); }
  }

  lemma FoundIsMatch(s: string, i: nat)
    requires MatchFrom(s, i).Some?
    ensures TextMatch(s, i, MatchFrom(s, i).value)
  {
    hide Greedy, Lazy, Hit, SpaceEnd, IsSpace, IsWord, IsEnd, GroupAt, Signs;
    var m := MatchFrom(s, i).value;
    GreedyIff(s, i, SpaceEnd(s, i + 2));
    LazyIff(s, m.a, m.a + 1);
    HitIff(s, m.g, m.e);
  }

  lemma MatchIsFound(s: string, i: nat, n: Match)
    requires TextMatch(s, i, n)
    ensures MatchFrom(s, i).Some?
    ensures var m := MatchFrom(s, i).value;
      n.a <= m.a && (n.a == m.a ==> m.b <= n.b && (n.b == m.b ==> n.g == m.g && n.e == m.e && n.z <= m.z))
  {
    hide Greedy, Lazy, Hit, SpaceEnd, IsSpace, IsWord, IsEnd, Signs;
    SpaceEndIsFar(s, i + 2, n.a);
    GroupIsNoBlank(s, n.b, n.g, n.e);
    HitIff(s, n.g, n.e);
    LazyIff(s, n.a, n.a + 1);
    assert OneLine(s, n.a, n.b) && Labels(s, n.a);
    GreedyIff(s, i, SpaceEnd(s, i + 2));
    var m := MatchFrom(s, i).value;
    if n.a == m.a && n.b == m.b { LastBlank(s, n, m.z); }
  }

  lemma LastBlank(s: string, n: Match, z: nat)
    requires GroupAt(s, n.g, n.e) && AllSpace(s, n.e, n.z) && AtEnd(s, n.z) && Hit(s, n.g) == Some((n.e, z))
    ensures n.z <= z
  {
    hide IsSpace, IsWord, IsEnd;
    GroupEndIs(s, n.g, n.e);
    SpaceEndIsFar(s, n.e, n.z);
    GiveBackFinds(s, n.e, SpaceEnd(s, n.e), n.z);
  }

  // ---------- all matches, and the lines ----------

  function EntryOf(s: string, m: Match): Heading
    requires m.a <= m.b <= |s| && GroupAt(s, m.g, m.e)
  {
    Heading(s[m.a..m.b], Some(IdOf(s, m.g, m.e)))
  }

  /** matchAll: from the left, each search beginning where the last match ends. */
  function Scan(s: string, p: nat): seq<Heading>
    requires p <= |s|
    decreases |s| - p
  {
    if p == |s| then []
    else match MatchFrom(s, p)
      case None => Scan(s, p + 1)
      case Some(m) =>
        FoundIsMatch(s, p);
        Further(s, p, m);
        [EntryOf(s, m)] + Scan(s, m.z)
  }

  lemma Further(s: string, i: nat, m: Match)
    requires TextMatch(s, i, m)
    ensures i < m.z <= |s| && m.b <= |s|
  {
    hide IsSpace, IsWord, IsEnd;
  }

  /** The table of contents: parseSections. */
  function RawContents(s: string): seq<Heading> {
    Scan(s, 0)
  }

  function LineEnd(s: string, i: nat): (j: nat)
    requires i <= |s|
    ensures OneLine(s, i, j) && AtEnd(s, j)
    decreases |s| - i
  {
    if AtEnd(s, i) then i else LineEnd(s, i + 1)
  }

  /** The lines from `i` on. */
  function Lines(s: string, i: nat): seq<string>
    requires i <= |s|
    decreases |s| - i
  {
    var j := LineEnd(s, i);
    [s[i..j]] + LinesAfter(s, j)
  }

  function LinesAfter(s: string, j: nat): seq<string>
    requires j <= |s|
    decreases |s| - j, 0
  {
    if j == |s| then [] else Lines(s, j + 1)
  }

  function ScanAfter(s: string, j: nat): seq<Heading>
    requires j <= |s|
  {
    if j == |s| then [] else Scan(s, j + 1)
  }

  lemma LineEndIs(s: string, i: nat, j: nat)
    requires OneLine(s, i, j) && AtEnd(s, j)
    ensures LineEnd(s, i) == j
  {
    hide IsEnd;
    NoEndBefore(s, i, j, LineEnd(s, i));
    NoEndBefore(s, i, LineEnd(s, i), j);
  }

  lemma NoEndBefore(s: string, i: nat, j: nat, k: nat)
    requires OneLine(s, i, j) && i <= k && AtEnd(s, k)
    ensures j <= k
  {}

  lemma SameLineEnd(s: string, h: nat, v: nat)
    requires OneLine(s, h, v)
    ensures LineEnd(s, h) == LineEnd(s, v)
  {
    hide IsEnd;
    LineEndIs(s, h, LineEnd(s, v));
  }

  lemma EndFacts()
    ensures !IsEnd('#') && !IsEnd('{') && !IsEnd('}') && !IsSpace('#') && !IsSpace('{') && !IsSpace('}')
    ensures forall c | IsEnd(c) :: IsSpace(c) && !IdChar(c)
  {}

  lemma NoMatchHere(s: string, p: nat)
    requires !AtStart(s, p) || p + 2 > |s| || s[p] != '#'
    ensures MatchFrom(s, p) == None
  {
    hide AtStart, Greedy, SpaceEnd;
  }

  /** No second match begins on a line. */
  lemma {:induction false} ScanLeavesLine(s: string, p: nat, j: nat)
    requires MatchFrom(s, p) == None && OneLine(s, p, j) && AtEnd(s, j)
    ensures Scan(s, p) == ScanAfter(s, j)
    decreases j - p
  {
    hide MatchFrom, IsEnd;
    if p < j {
      NoMatchHere(s, p + 1);
      ScanLeavesLine(s, p + 1, j);
    }
  }

  lemma ScanFromEnd(s: string, z: nat)
    requires AtEnd(s, z)
    ensures Scan(s, z) == ScanAfter(s, z)
  {
    hide MatchFrom, IsEnd;
    EndFacts();
    NoMatchHere(s, z);
  }

  predicate Blank(l: string) {
    AllSpace(l, 0, |l|)
  }

  lemma BlankSlice(s: string, i: nat, j: nat)
    requires i <= j <= |s|
    ensures Blank(s[i..j]) <==> AllSpace(s, i, j)
  {
    hide IsSpace;
    assert forall k | i <= k < j :: s[k] == s[i..j][k - i];
  }

  function DropBlank(lines: seq<string>): seq<string> {
    if lines == [] then [] else if Blank(lines[0]) then DropBlank(lines[1..]) else lines
  }

  /** The start of the line that `v` is on. */
  function Head(s: string, v: nat): (h: nat)
    requires v <= |s|
    ensures AtStart(s, h) && OneLine(s, h, v)
  {
    if AtStart(s, v) then v else Head(s, v - 1)
  }

  lemma HeadIs(s: string, h: nat, v: nat)
    requires AtStart(s, h) && OneLine(s, h, v)
    ensures Head(s, v) == h
  {
    hide IsEnd;
    NoStartAfter(s, h, v, Head(s, v));
    NoStartAfter(s, Head(s, v), v, h);
  }

  lemma NoStartAfter(s: string, h: nat, v: nat, k: nat)
    requires OneLine(s, h, v) && AtStart(s, k) && k <= v
    ensures k <= h
  {}

  lemma NextEnd(s: string, j: nat, z: nat)
    requires j < z <= |s| && AtEnd(s, z)
    ensures LineEnd(s, j + 1) <= z
  {
    hide IsEnd;
  }

  /** The first line that is not blank is the one the blanks after a line end lead to. */
  lemma {:induction false} DropBlankIs(s: string, j: nat)
    requires AtEnd(s, j)
    ensures var v := SpaceEnd(s, j);
      if v == |s| then DropBlank(LinesAfter(s, j)) == []
      else var h := Head(s, v); j < h && AllSpace(s, j, h) && DropBlank(LinesAfter(s, j)) == Lines(s, h)
    decreases |s| - j
  {
    hide IsSpace, IsEnd, Blank, Head, SpaceEnd, LineEnd;
    EndFacts();
    var v := SpaceEnd(s, j);
    if j < |s| {
      assert AllSpace(s, j, j + 1);
      SpaceEndIsFar(s, j, j + 1);
      var k := LineEnd(s, j + 1);
      BlankSlice(s, j + 1, k);
      if k <= v {
        SpaceEndIsFar(s, j, k);
        DropBlankIs(s, k);
      } else {
        assert !AllSpace(s, j + 1, k);
        HeadIs(s, j + 1, v);
      }
    }
  }

  // ---------- a group on a line ----------

  lemma GroupStaysOnLine(s: string, h: nat, g: nat, e: nat)
    requires h <= |s| && h <= g <= LineEnd(s, h) && GroupAt(s, g, e)
    ensures e <= LineEnd(s, h)
  {
    hide IsEnd, GroupAt;
    if LineEnd(s, h) < e { NoEndInGroup(s, g, e, LineEnd(s, h)); }
  }

  lemma NoEndInGroup(s: string, g: nat, e: nat, k: nat)
    requires GroupAt(s, g, e) && g <= k < e
    ensures !AtEnd(s, k)
  {
    hide IsEnd, IdChar;
    EndFacts();
  }

  lemma SameGroup(s: string, h: nat, j: nat, g: nat, e: nat)
    requires h <= g <= e <= j <= |s|
    ensures GroupAt(s, g, e) <==> GroupAt(s[h..j], g - h, e - h)
    ensures GroupAt(s, g, e) ==> IdOf(s, g, e) == IdOf(s[h..j], g - h, e - h)
  {
    hide IdChar;
    var n := s[h..j];
    assert forall k | 0 <= k < |n| :: n[k] == s[h + k];
    if GroupAt(n, g - h, e - h) { assert forall k | g + 2 <= k < e - 1 :: s[k] == n[k - h]; }
  }

  lemma SameBlanks(s: string, h: nat, j: nat, e: nat)
    requires h <= e <= j <= |s|
    ensures AllSpace(s, e, j) <==> AllSpace(s[h..j], e - h, j - h)
  {
    hide IsSpace;
    var n := s[h..j];
    assert forall k | e <= k < j :: s[k] == n[k - h];
  }

  /**
   The rest of the expression matches at `g` exactly if the last group of the line is there; it leads to the end
   of that line, or of blank lines after it.
   */
  lemma HitOnLine(s: string, h: nat, g: nat)
    requires h <= |s| && h <= g <= LineEnd(s, h)
    ensures var j := LineEnd(s, h); var f := FindGroup(s[h..j]);
      && (Hit(s, g).Some? <==> f.Some? && h + f.value.0 == g)
      && (Hit(s, g).Some? ==> var (e, z) := Hit(s, g).value;
            && e == h + f.value.1 <= j <= z && GroupAt(s, g, e) && AllSpace(s, j, z) && AtEnd(s, z)
            && IdOf(s, g, e) == IdOf(s[h..j], f.value.0, f.value.1))
  {
    hide Hit, FindGroup, IsSpace, IsWord, IsEnd, IdOf, GroupAt;
    var j := LineEnd(s, h);
    var n := s[h..j];
    if Hit(s, g).Some? {
      var (e, z) := Hit(s, g).value;
      HitIff(s, g, e);
      GroupStaysOnLine(s, h, g, e);
      GroupIsLong(s, g, e);
      SameGroup(s, h, j, g, e);
      NoEndBefore(s, h, j, z);
      SameBlanks(s, h, j, e);
      GroupIsFound(n, g - h, e - h);
    }
    if FindGroup(n).Some? && h + FindGroup(n).value.0 == g {
      var e := h + FindGroup(n).value.1;
      GroupIsLong(n, g - h, e - h);
      SameGroup(s, h, j, g, e);
      SameBlanks(s, h, j, e);
      HitIff(s, g, e);
    }
  }

  lemma GroupIsLong(s: string, g: nat, e: nat)
    requires GroupAt(s, g, e)
    ensures g + 4 <= e <= |s| && s[g] == '{' && s[e - 1] == '}'
  {}

  function Max(a: nat, b: nat): nat {
    if a <= b then b else a
  }

  lemma SpaceEndOnLine(s: string, h: nat, c: nat)
    requires h <= |s| && h <= c <= LineEnd(s, h)
    ensures var j := LineEnd(s, h); SpaceEnd(s, c) < j || (AllSpace(s, c, j) && SpaceEnd(s, c) == SpaceEnd(s, j))
  {
    hide IsSpace, IsEnd, SpaceEnd;
    var j := LineEnd(s, h);
    if j <= SpaceEnd(s, c) { SpaceEndIsFar(s, c, j); }
  }

  /**
   A label that begins on a line: it is followed by the line's own group, or by a group that begins the next
   line there is, or there is no match.
   */
  lemma LazyIs(s: string, h: nat, a: nat)
    requires h <= |s| && h <= a < LineEnd(s, h)
    ensures var j := LineEnd(s, h); var f, v, m := FindGroup(s[h..j]), SpaceEnd(s, j), Lazy(s, a, a + 1);
      if f.Some? && a < h + f.value.0 then
        m.Some? && m.value.g == h + f.value.0 && m.value.b == Max(a + 1, SpaceStart(s, h + f.value.0))
      else if Hit(s, v).Some? then m.Some? && m.value.g == v
      else m == None
    ensures var m := Lazy(s, a, a + 1); m.Some? ==>
      m.value.a == a && a < m.value.b <= |s| && Hit(s, m.value.g) == Some((m.value.e, m.value.z))
  {
    hide Lazy, Hit, FindGroup, SpaceEnd, SpaceStart, IsSpace, IsEnd, LineEnd;
    var j := LineEnd(s, h);
    var f, v, m := FindGroup(s[h..j]), SpaceEnd(s, j), Lazy(s, a, a + 1);
    LazyIff(s, a, a + 1);
    if f.Some? && a < h + f.value.0 {
      OwnGroup(s, h, a);
    } else {
      if Hit(s, v).Some? { NextGroup(s, h, a); }
      if m.Some? { NoOwnGroup(s, h, m.value.b); }
    }
  }

  lemma OwnGroup(s: string, h: nat, a: nat)
    requires h <= |s| && h <= a < LineEnd(s, h)
    requires var f := FindGroup(s[h..LineEnd(s, h)]); f.Some? && a < h + f.value.0
    ensures var g, m := h + FindGroup(s[h..LineEnd(s, h)]).value.0, Lazy(s, a, a + 1);
      m.Some? && m.value.g == g && m.value.b == Max(a + 1, SpaceStart(s, g))
  {
    hide Lazy, Hit, FindGroup, SpaceEnd, SpaceStart, IsSpace, IsEnd, LineEnd, IdChar;
    var j := LineEnd(s, h);
    var f := FindGroup(s[h..j]);
    var g, e := h + f.value.0, h + f.value.1;
    EndFacts();
    GroupIsLong(s[h..j], f.value.0, f.value.1);
    assert s[g] == s[h..j][g - h];
    LazyIff(s, a, a + 1);
    SpaceStartAtMost(s, g);
    var c := Max(a + 1, SpaceStart(s, g));
    SpaceEndIs(s, c, g);
    HitOnLine(s, h, g);
    assert OneLine(s, a, c);
    var m := Lazy(s, a, a + 1).value;
    SpaceEndBounds(s, m.b, m.b, g);
    HitOnLine(s, h, m.g);
    SpaceStartBounds(s, m.b, g);
  }

  lemma NextGroup(s: string, h: nat, a: nat)
    requires h <= |s| && h <= a < LineEnd(s, h) && Hit(s, SpaceEnd(s, LineEnd(s, h))).Some?
    ensures Lazy(s, a, a + 1).Some? && Lazy(s, a, a + 1).value.b <= LineEnd(s, h)
  {
    hide Lazy, Hit, SpaceEnd, SpaceStart, IsSpace, IsEnd, LineEnd;
    var j := LineEnd(s, h);
    LazyIff(s, a, a + 1);
    SpaceStartAtMost(s, j);
    var c := Max(a + 1, SpaceStart(s, j));
    SpaceEndIsFar(s, c, j);
    assert OneLine(s, a, c);
  }

  /**
   Where there is no group on the line after `b`, the label up to `b` is followed by one that begins the next
   line.
   */
  lemma NoOwnGroup(s: string, h: nat, b: nat)
    requires h <= b && OneLine(s, h, b) && Hit(s, SpaceEnd(s, b)).Some?
    ensures var j := LineEnd(s, h); var f := FindGroup(s[h..j]);
      b <= j && ((f.Some? && SpaceEnd(s, b) == h + f.value.0 && b <= h + f.value.0) || SpaceEnd(s, b) == SpaceEnd(s, j))
  {
    hide Hit, FindGroup, SpaceEnd, IsSpace, IsEnd, LineEnd;
    var j := LineEnd(s, h);
    SameLineEnd(s, h, b);
    SpaceEndOnLine(s, h, b);
    if SpaceEnd(s, b) < j { HitOnLine(s, h, SpaceEnd(s, b)); }
  }

  // ---------- when a match crosses a line end ----------

  predicate Opens(l: string) {
    Signs(l, 0) && (|l| == 2 || IsSpace(l[2]))
  }

  /** The line begins with its last group, but for blanks. */
  predicate IsGroup(l: string) {
    FindGroup(l).Some? && FindGroup(l).value.0 == SpaceEnd(l, 0)
  }

  predicate EndsInGroup(l: string) {
    FindGroup(l).Some? && SpaceEnd(l, 0) < FindGroup(l).value.0
  }

  /** A label and a group follow the signs on their line. */
  predicate Labelled(l: string)
    requires |l| >= 2
  {
    FindGroup(l).Some? && SpaceEnd(l, 2) < FindGroup(l).value.0
  }

  /** The next line that is not blank is a group. */
  predicate GroupNext(lines: seq<string>) {
    DropBlank(lines) != [] && IsGroup(DropBlank(lines)[0])
  }

  /** A blank stands before whatever comes first. */
  predicate BlankAhead(lines: seq<string>) {
    lines != [] && if lines[0] == "" then BlankAhead(lines[1..]) else IsSpace(lines[0][0])
  }

  /**
   The match of the first line runs into further lines. After `##` and a label without a group: if the next
   line is a group. After `##` alone: if the next line ends in a group, or the one after it is a group, or the
   next line is a group and there is a blank, beside the line's first, to serve as the label.
   */
  predicate Crosses(lines: seq<string>) {
    lines != [] && Opens(lines[0]) &&
    if SpaceEnd(lines[0], 2) < |lines[0]| then
      !Labelled(lines[0]) && GroupNext(lines[1..])
    else
      var next := DropBlank(lines[1..]);
      && next != []
      && (EndsInGroup(next[0]) || GroupNext(next[1..])
        || (IsGroup(next[0]) && (|lines[0]| > 3 || BlankAhead(lines[1..]))))
  }

  predicate NoneCrosses(lines: seq<string>) {
    lines == [] || (!Crosses(lines) && NoneCrosses(lines[1..]))
  }

  /** For every line with an entry, the heading it is rendered as. */
  function Linked(lines: seq<string>): seq<Option<Heading>> {
    if lines == [] then [] else (if TocEntry(lines[0]).Some? then [Rendered(lines[0])] else []) + Linked(lines[1..])
  }

  // ---------- the lines seen from the text ----------

  lemma SpaceEndInSlice(s: string, h: nat, i: nat, j: nat)
    requires h <= i <= j <= |s|
    ensures SpaceEnd(s[h..j], i - h) == (if SpaceEnd(s, i) < j then SpaceEnd(s, i) else j) - h
  {
    hide IsSpace;
    var n, x := s[h..j], if SpaceEnd(s, i) < j then SpaceEnd(s, i) else j;
    assert forall k | i <= k < j :: n[k - h] == s[k];
    assert AllSpace(n, i - h, x - h);
    SpaceEndIs(n, i - h, x - h);
  }

  /** After a line end, the first line that is not blank. */
  lemma NextLine(s: string, j: nat)
    requires AtEnd(s, j) && SpaceEnd(s, j) < |s|
    ensures var v := SpaceEnd(s, j); var h := Head(s, v);
      && j < h <= v < LineEnd(s, h) && AtStart(s, h) && AllSpace(s, j, v) && AllSpace(s, j, h - 1) && AtEnd(s, h - 1)
      && DropBlank(LinesAfter(s, j)) == Lines(s, h) && SpaceEnd(s[h..LineEnd(s, h)], 0) == v - h
      && v == SpaceEnd(s, h) && OneLine(s, h, v)
  {
    hide IsSpace, IsEnd, Lines, LinesAfter, DropBlank, LineEnd, SpaceEnd;
    EndFacts();
    var v := SpaceEnd(s, j);
    var h := Head(s, v);
    DropBlankIs(s, j);
    NoEndBefore(s, h, v, LineEnd(s, h));
    SpaceEndIsFar(s, j, h);
    SpaceEndInSlice(s, h, h, LineEnd(s, h));
  }

  lemma NoHitAtEnd(s: string)
    ensures Hit(s, |s|) == None
  {}

  lemma GroupNextIs(s: string, j: nat)
    requires AtEnd(s, j)
    ensures GroupNext(LinesAfter(s, j)) <==> Hit(s, SpaceEnd(s, j)).Some?
  {
    hide IsSpace, IsEnd, LinesAfter, DropBlank, LineEnd, SpaceEnd, Hit, FindGroup, Head;
    var v := SpaceEnd(s, j);
    if v == |s| {
      NoHitAtEnd(s);
      DropBlankIs(s, j);
    } else {
      NextLine(s, j);
      HitOnLine(s, Head(s, v), v);
    }
  }

  predicate OnlyEnds(s: string, i: nat, k: nat) {
    i <= k <= |s| && forall n | i <= n < k :: IsEnd(s[n])
  }

  lemma {:induction false} BlankAheadIs(s: string, j: nat)
    requires AtEnd(s, j) && SpaceEnd(s, j) < |s|
    ensures BlankAhead(LinesAfter(s, j)) <==> !OnlyEnds(s, j, SpaceEnd(s, j))
    decreases |s| - j
  {
    hide IsSpace, IsEnd, LineEnd, SpaceEnd;
    EndFacts();
    var v := SpaceEnd(s, j);
    if j < |s| {
      SpaceEndIsFar(s, j, j + 1);
      var k := LineEnd(s, j + 1);
      if k == j + 1 {
        BlankAheadIs(s, k);
      } else {
        assert LinesAfter(s, j)[0] == s[j + 1..k];
        assert !IsEnd(s[j + 1]);
        assert v > j + 1 <==> IsSpace(s[j + 1]) by { FirstBlank(s, j + 1); }
      }
    } else {
      assert false;
    }
  }

  lemma FirstBlank(s: string, i: nat)
    requires i < |s|
    ensures SpaceEnd(s, i) > i <==> IsSpace(s[i])
  {}

  /** Blank lines hold no match, no entry and no crossing. */
  lemma {:induction false} BlankLines(s: string, j: nat, z: nat)
    requires AtEnd(s, j) && AtEnd(s, z) && AllSpace(s, j, z)
    ensures ScanAfter(s, j) == ScanAfter(s, z) && Contents(LinesAfter(s, j)) == Contents(LinesAfter(s, z))
    ensures NoneCrosses(LinesAfter(s, j)) == NoneCrosses(LinesAfter(s, z))
      && Linked(LinesAfter(s, j)) == Linked(LinesAfter(s, z))
    decreases z - j
  {
    hide IsSpace, IsEnd, LineEnd, SpaceEnd, MatchFrom, Contents, Linked, TocEntry, Crosses, Scan;
    if j < z {
      EndFacts();
      var k := LineEnd(s, j + 1);
      NextEnd(s, j, z);
      assert s[j] != '#';
      NoMatchHere(s, j + 1);
      ScanLeavesLine(s, j + 1, k);
      BlankIsNothing(s[j + 1..k], LinesAfter(s, k));
      BlankLines(s, k, z);
    }
  }

  lemma BlankIsNothing(l: string, rest: seq<string>)
    requires l == "" || l[0] != '#'
    ensures Contents([l] + rest) == Contents(rest) && Linked([l] + rest) == Linked(rest)
    ensures !Crosses([l] + rest) && NoneCrosses([l] + rest) == NoneCrosses(rest)
  {
    hide FindGroup, SpaceEnd, Labelled, GroupNext, Rendered;
    assert ([l] + rest)[1..] == rest;
    NotHash(l);
  }

  lemma NotHash(l: string)
    requires l == "" || l[0] != '#'
    ensures TocEntry(l) == None
  {
    hide FindGroup, SpaceEnd;
  }

  // ---------- the match at the start of a line ----------

  /** What the first line of `Lines(s, i)` needs to know of the text. */
  lemma SignsOnLine(s: string, i: nat)
    requires i <= |s|
    ensures var j := LineEnd(s, i); var l := s[i..j];
      && (Signs(s, i) <==> Signs(l, 0)) && (Signs(s, i) ==> i + 2 <= j)
      && (i + 2 <= j ==> SpaceEnd(l, 2) == (if SpaceEnd(s, i + 2) < j then SpaceEnd(s, i + 2) else j) - i)
  {
    hide IsSpace, IsEnd, LineEnd, SpaceEnd;
    EndFacts();
    var j := LineEnd(s, i);
    if i + 2 <= j { SpaceEndInSlice(s, i, i + 2, j); }
  }

  /** A line that does not open has neither match nor entry. */
  lemma NotOpening(s: string, i: nat)
    requires i <= |s| && !Opens(s[i..LineEnd(s, i)])
    ensures MatchFrom(s, i) == None && TocEntry(s[i..LineEnd(s, i)]) == None
  {
    hide IsSpace, IsEnd, LineEnd, Greedy, FindGroup;
    SignsOnLine(s, i);
    var j := LineEnd(s, i);
    var l := s[i..j];
    if Signs(s, i) {
      assert |l| > 2 && !IsSpace(l[2]);
      FirstBlank(l, 2);
      SpaceEndAtLeast(l, 2);
      assert SpaceEnd(s, i + 2) <= i + 2;
    }
  }

  lemma SpaceEndAtLeast(s: string, i: nat)
    requires i <= |s|
    ensures i <= SpaceEnd(s, i)
  {}

  /** With nothing but blanks to the end there is no match. */
  lemma NothingFollows(s: string, i: nat)
    requires i + 2 <= |s| && SpaceEnd(s, i + 2) == |s|
    ensures MatchFrom(s, i) == None
  {
    hide IsSpace, IsEnd, SpaceEnd, Greedy, Lazy, Hit;
    if i + 2 < |s| {
      GreedyIff(s, i, |s|);
      var m := Greedy(s, i, |s|);
      if m.Some? {
        LazyIff(s, m.value.a, m.value.a + 1);
        SpaceEndIsFar(s, i + 2, m.value.b);
        NoHitAtEnd(s);
      }
    }
  }

  /** A blank before `w` as the label, when no label can begin at `w`. */
  lemma BlankLabel(s: string, a: nat, w: nat)
    requires a < w < |s| && AllSpace(s, a, w) && SpaceEnd(s, a) == w && Lazy(s, w, w + 1) == None
    ensures Lazy(s, a, a + 1) ==
      (if IsEnd(s[a]) || Hit(s, w) == None then None
       else Some(Match(a, a + 1, w, Hit(s, w).value.0, Hit(s, w).value.1)))
  {
    hide IsSpace, IsEnd, SpaceEnd, Lazy, Hit;
    LazyIff(s, a, a + 1);
    LazyIff(s, w, w + 1);
    var m := Lazy(s, a, a + 1);
    SpaceEndIsFar(s, a, a + 1);
    if m.Some? {
      var c := m.value.b;
      if c <= w { SpaceEndIsFar(s, a, c); }
    }
    if !IsEnd(s[a]) && Hit(s, w).Some? { assert OneLine(s, a, a + 1); }
  }

  /** Giving back blanks: the last one that does not end a line serves as the label, if the group is at `w`. */
  lemma {:induction false} GreedyBlank(s: string, i: nat, a: nat, w: nat)
    requires i + 3 <= a < w < |s| && AllSpace(s, i + 2, w) && w == SpaceEnd(s, i + 2) && Lazy(s, w, w + 1) == None
    ensures var m := Greedy(s, i, a);
      && (m.Some? <==> Hit(s, w).Some? && !OnlyEnds(s, i + 3, a + 1))
      && (m.Some? ==> m.value.a < m.value.b <= w && m.value.g == w && Hit(s, w) == Some((m.value.e, m.value.z)))
      && (m.Some? && !IsEnd(s[a]) ==> m.value.a == a && m.value.b == a + 1)
    decreases a
  {
    hide IsSpace, IsEnd, SpaceEnd, Lazy, Hit;
    SpaceEndIsFar(s, i + 2, a);
    BlankLabel(s, a, w);
    if a > i + 3 { GreedyBlank(s, i, a - 1, w); }
  }

  lemma MatchIsGreedy(s: string, i: nat)
    requires AtStart(s, i) && Signs(s, i) && i + 3 <= SpaceEnd(s, i + 2) < |s|
    ensures var w := SpaceEnd(s, i + 2); var m := Lazy(s, w, w + 1);
      MatchFrom(s, i) == if m.Some? then m else if w == i + 3 then None else Greedy(s, i, w - 1)
  {
    hide IsSpace, IsEnd, SpaceEnd, Lazy;
  }

  // ---------- a line with a label ----------

  /** The label begins on the line of the signs. */
  predicate LabelHere(s: string, i: nat) {
    i <= |s| && AtStart(s, i) && Opens(s[i..LineEnd(s, i)]) && SpaceEnd(s[i..LineEnd(s, i)], 2) < LineEnd(s, i) - i
  }

  lemma LabelFacts(s: string, i: nat)
    requires LabelHere(s, i)
    ensures var j := LineEnd(s, i); var w := SpaceEnd(s, i + 2);
      Signs(s, i) && i + 3 <= w < j <= |s| && SpaceEnd(s[i..j], 2) == w - i && AllSpace(s, i + 2, w) && !IsSpace(s[w])
  {
    hide IsSpace, IsEnd, LineEnd;
    SignsOnLine(s, i);
    FirstBlank(s[i..LineEnd(s, i)], 2);
  }

  /** A label and a group on the line: the match takes these. */
  lemma OwnMatchAt(s: string, i: nat)
    requires LabelHere(s, i) && Labelled(s[i..LineEnd(s, i)])
    ensures MatchFrom(s, i).Some?
    ensures var m := MatchFrom(s, i).value; var f := FindGroup(s[i..LineEnd(s, i)]).value;
      && m.a == SpaceEnd(s, i + 2) < m.g == i + f.0 < LineEnd(s, i) && m.b == SpaceStart(s, m.g)
      && Hit(s, m.g) == Some((m.e, m.z))
  {
    hide IsSpace, IsEnd, LineEnd, SpaceEnd, SpaceStart, Lazy, Hit, FindGroup, GroupAt, AtStart;
    LabelFacts(s, i);
    var l, w := s[i..LineEnd(s, i)], SpaceEnd(s, i + 2);
    GroupIsLong(l, FindGroup(l).value.0, FindGroup(l).value.1);
    MatchIsGreedy(s, i);
    LazyIs(s, i, w);
    LabelBounds(s, w, MatchFrom(s, i).value.g);
  }

  /** That is the entry of the line. */
  lemma OwnMatch(s: string, i: nat)
    requires LabelHere(s, i) && Labelled(s[i..LineEnd(s, i)])
    ensures MatchFrom(s, i).Some?
    ensures var j, m := LineEnd(s, i), MatchFrom(s, i).value; var l := s[i..j];
      && m.a <= m.b <= |s| && GroupAt(s, m.g, m.e) && TocEntry(l) == Some(EntryOf(s, m))
      && j <= m.z && AllSpace(s, j, m.z) && AtEnd(s, m.z)
  {
    hide IsSpace, IsEnd, LineEnd, SpaceEnd, SpaceStart, Hit, FindGroup, IdOf, GroupAt, MatchFrom, Opens, Labelled,
      TocEntry, AllSpace, AtEnd, AtStart, Signs;
    OwnMatchAt(s, i);
    LabelFacts(s, i);
    var j, w, m := LineEnd(s, i), SpaceEnd(s, i + 2), MatchFrom(s, i).value;
    var l := s[i..j];
    HitOnLine(s, i, m.g);
    LabelBounds(s, w, m.g);
    SpaceStartInSlice(s, i, j, m.g);
    LabelledEntry(s, i);
    SliceOfSlice(s, i, j, w, m.b);
  }

  lemma SliceOfSlice(s: string, i: nat, j: nat, a: nat, b: nat)
    requires i <= a <= b <= j <= |s|
    ensures s[i..j][a - i..b - i] == s[a..b]
  {
    var x, y := s[i..j][a - i..b - i], s[a..b];
    assert forall k | 0 <= k < b - a :: x[k] == y[k];
  }

  lemma LabelledEntry(s: string, i: nat)
    requires LabelHere(s, i) && Labelled(s[i..LineEnd(s, i)])
    ensures var l := s[i..LineEnd(s, i)]; var (g, e) := FindGroup(l).value;
      SpaceEnd(l, 2) <= SpaceStart(l, g) <= |l|
        && TocEntry(l) == Some(Heading(l[SpaceEnd(l, 2)..SpaceStart(l, g)], Some(IdOf(l, g, e))))
  {
    hide IsSpace, IsEnd, LineEnd, SpaceEnd, SpaceStart, FindGroup, IdOf, GroupAt;
    LabelFacts(s, i);
    var l := s[i..LineEnd(s, i)];
    var (g, e) := FindGroup(l).value;
    GroupIsLong(l, g, e);
    SignsThere(l, g);
    LabelBounds(l, SpaceEnd(l, 2), g);
  }

  lemma LabelBounds(s: string, w: nat, g: nat)
    requires w < g <= |s| && !IsSpace(s[w])
    ensures w < SpaceStart(s, g) <= g
  {
    hide IsSpace;
    SpaceStartAtMost(s, g);
  }

  lemma SignsThere(l: string, g: nat)
    requires Opens(l) && 2 < SpaceEnd(l, 2) <= g < |l|
    ensures 3 <= g && l[0] == '#' && l[1] == '#' && l[2] != '#'
  {
    hide IsSpace, SpaceEnd;
    EndFacts();
  }

  /** No label before a group on the line, but a group on the next: the match takes that one. */
  lemma CrossingMatch(s: string, i: nat)
    requires LabelHere(s, i) && !Labelled(s[i..LineEnd(s, i)]) && Hit(s, SpaceEnd(s, LineEnd(s, i))).Some?
    ensures MatchFrom(s, i).Some?
    ensures var m := MatchFrom(s, i).value;
      m.a == SpaceEnd(s, i + 2) && m.a < m.b <= |s| && m.g == SpaceEnd(s, LineEnd(s, i))
        && Hit(s, m.g) == Some((m.e, m.z))
  {
    hide IsSpace, IsEnd, LineEnd, SpaceEnd, Lazy, Hit, FindGroup, AtStart;
    LabelFacts(s, i);
    MatchIsGreedy(s, i);
    LazyIs(s, i, SpaceEnd(s, i + 2));
  }

  /** Neither: a blank serves as the label if the group follows the blanks. */
  lemma BlankMatch(s: string, i: nat)
    requires LabelHere(s, i) && !Labelled(s[i..LineEnd(s, i)]) && Hit(s, SpaceEnd(s, LineEnd(s, i))) == None
    ensures var j := LineEnd(s, i); var l := s[i..j];
      (MatchFrom(s, i) == None && TocEntry(l) == None) ||
      (MatchFrom(s, i).Some? && var m := MatchFrom(s, i).value;
        && m.a <= m.b <= |s| && GroupAt(s, m.g, m.e) && TocEntry(l) == Some(EntryOf(s, m))
        && j <= m.z && AllSpace(s, j, m.z) && AtEnd(s, m.z))
  {
    hide IsSpace, IsEnd, LineEnd, SpaceEnd, Lazy, Greedy, Hit, FindGroup, IdOf, GroupAt, AtStart;
    LabelFacts(s, i);
    var j, w := LineEnd(s, i), SpaceEnd(s, i + 2);
    var l := s[i..j];
    MatchIsGreedy(s, i);
    LazyIs(s, i, w);
    HitOnLine(s, i, w);
    EntryAtBlank(l, w - i);
    if w > i + 3 {
      GreedyBlank(s, i, w - 1, w);
      assert OneLine(s, i, j) && !IsEnd(s[w - 1]);
      if Hit(s, w).Some? { assert l[w - i - 1..w - i] == s[w - 1..w]; }
    }
  }

  /** The entry of a line without a label before its group. */
  lemma EntryAtBlank(l: string, w: nat)
    requires Opens(l) && w == SpaceEnd(l, 2) && 2 < w < |l| && !Labelled(l)
    ensures TocEntry(l) == if FindGroup(l).Some? && FindGroup(l).value.0 == w && w > 3
      then Some(Heading(l[w - 1..w], Some(IdOf(l, w, FindGroup(l).value.1)))) else None
  {
    hide IsSpace, SpaceEnd, FindGroup, IdOf;
    EndFacts();
  }

  // ---------- the signs alone on their line ----------

  predicate SignsAlone(s: string, i: nat) {
    i <= |s| && AtStart(s, i) && Opens(s[i..LineEnd(s, i)]) && SpaceEnd(s[i..LineEnd(s, i)], 2) >= LineEnd(s, i) - i
  }

  lemma AloneFacts(s: string, i: nat)
    requires SignsAlone(s, i)
    ensures var j := LineEnd(s, i);
      && Signs(s, i) && i + 2 <= j && AllSpace(s, i + 2, j) && SpaceEnd(s, i + 2) == SpaceEnd(s, j)
      && TocEntry(s[i..j]) == None
  {
    hide IsSpace, IsEnd, LineEnd, FindGroup;
    SignsOnLine(s, i);
    var j := LineEnd(s, i);
    SpaceEndIsFar(s, i + 2, j);
    EntryAfterEnd(s[i..j]);
  }

  lemma EntryAfterEnd(l: string)
    requires |l| >= 2 && SpaceEnd(l, 2) >= |l|
    ensures TocEntry(l) == None
  {
    hide SpaceEnd, FindGroup;
    if FindGroup(l).Some? { GroupIsLong(l, FindGroup(l).value.0, FindGroup(l).value.1); }
  }

  /** Whether some blank besides the first can serve as a label. */
  lemma SpareBlankIs(s: string, i: nat)
    requires SignsAlone(s, i) && SpaceEnd(s, LineEnd(s, i)) < |s|
    ensures var j := LineEnd(s, i); var v := SpaceEnd(s, j);
      i + 3 <= v && (!OnlyEnds(s, i + 3, v) <==> |s[i..j]| > 3 || BlankAhead(LinesAfter(s, j)))
  {
    hide IsSpace, IsEnd, LineEnd, SpaceEnd, BlankAhead, LinesAfter, Opens;
    AloneFacts(s, i);
    var j := LineEnd(s, i);
    var v := SpaceEnd(s, j);
    NextLine(s, j);
    BlankAheadIs(s, j);
    if j > i + 3 {
      assert OneLine(s, i, j) && !IsEnd(s[i + 3]);
    } else {
      assert j == i + 2 ==> IsEnd(s[j]);
    }
  }

  /** A label that begins a line. */
  lemma LabelAtLine(s: string, h: nat, v: nat, k: nat)
    requires h <= v < k <= |s| && k == LineEnd(s, h) && SpaceEnd(s[h..k], 0) == v - h
    ensures var n, m := s[h..k], Lazy(s, v, v + 1);
      && (m.Some? <==> EndsInGroup(n) || GroupNext(LinesAfter(s, k))) && (Hit(s, v).Some? <==> IsGroup(n))
      && (m.Some? ==> m.value.a == v < m.value.b <= |s| && Hit(s, m.value.g) == Some((m.value.e, m.value.z)))
      && (EndsInGroup(n) ==> m.value.g == h + FindGroup(n).value.0)
      && (EndsInGroup(n) ==> m.value.b == Max(v + 1, SpaceStart(s, h + FindGroup(n).value.0)))
      && (!EndsInGroup(n) && m.Some? ==> m.value.g == SpaceEnd(s, k))
  {
    hide IsSpace, IsEnd, LineEnd, SpaceEnd, SpaceStart, Lazy, Hit, FindGroup, GroupNext, LinesAfter, AllSpace,
      OneLine, DropBlank, Lines;
    LazyIs(s, h, v);
    GroupNextIs(s, k);
    HitOnLine(s, h, v);
  }

  /** What the match is, if there is one. */
  lemma AloneMatch(s: string, i: nat)
    requires SignsAlone(s, i) && SpaceEnd(s, LineEnd(s, i)) < |s|
    ensures var j := LineEnd(s, i); var v := SpaceEnd(s, j); var h := Head(s, v); var k := LineEnd(s, h);
      var n := s[h..k];
      && (MatchFrom(s, i).Some?
        <==> EndsInGroup(n) || GroupNext(LinesAfter(s, k)) || (IsGroup(n) && !OnlyEnds(s, i + 3, v)))
      && (MatchFrom(s, i).Some? ==> var m := MatchFrom(s, i).value;
           && m.a < m.b <= |s| && Hit(s, m.g) == Some((m.e, m.z))
           && (EndsInGroup(n) ==> m.a == v && m.g == h + FindGroup(n).value.0)
           && (EndsInGroup(n) ==> m.b == Max(v + 1, SpaceStart(s, h + FindGroup(n).value.0)))
           && (!EndsInGroup(n) && GroupNext(LinesAfter(s, k)) ==> m.g == SpaceEnd(s, k))
           && (!EndsInGroup(n) && !GroupNext(LinesAfter(s, k)) ==> m.g == v))
  {
    hide IsSpace, IsEnd, LineEnd, SpaceEnd, SpaceStart, Lazy, Greedy, Hit, FindGroup, AtStart, Opens, Signs,
      GroupNext, LinesAfter, Head, OnlyEnds, MatchFrom, IsGroup, EndsInGroup, DropBlank, Lines;
    AloneFacts(s, i);
    SpareBlankIs(s, i);
    var j := LineEnd(s, i);
    var v := SpaceEnd(s, j);
    NextLine(s, j);
    LabelAtLine(s, Head(s, v), v, LineEnd(s, Head(s, v)));
    AloneIsGreedy(s, i);
    if Lazy(s, v, v + 1) == None && v > i + 3 {
      SpaceEndIsFar(s, i + 2, j);
      GreedyBlank(s, i, v - 1, v);
    }
    if v == i + 3 { NoRoom(s, v); }
  }

  lemma AloneIsGreedy(s: string, i: nat)
    requires SignsAlone(s, i) && i + 3 <= SpaceEnd(s, LineEnd(s, i)) < |s|
    ensures var w := SpaceEnd(s, LineEnd(s, i)); var m := Lazy(s, w, w + 1);
      MatchFrom(s, i) == if m.Some? then m else if w == i + 3 then None else Greedy(s, i, w - 1)
  {
    hide IsSpace, IsEnd, LineEnd, SpaceEnd, Lazy, Greedy, MatchFrom;
    AloneFacts(s, i);
    MatchIsGreedy(s, i);
  }

  lemma NoRoom(s: string, v: nat)
    requires v <= |s|
    ensures OnlyEnds(s, v, v)
  {}

  // ---------- one line ----------

  lemma LinesAre(s: string, i: nat)
    requires i <= |s|
    ensures var j := LineEnd(s, i); var lines := Lines(s, i);
      && lines != [] && lines[0] == s[i..j] && lines[1..] == LinesAfter(s, j)
      && Contents(lines) == OneOrNone(TocEntry(s[i..j])) + Contents(LinesAfter(s, j))
      && Linked(lines) == (if TocEntry(s[i..j]).Some? then [Rendered(s[i..j])] else []) + Linked(LinesAfter(s, j))
  {
    hide LineEnd, TocEntry, Rendered;
  }

  /** The match found on a line is the line's entry, or there is neither. */
  ghost predicate Alike(s: string, i: nat)
    requires i <= |s|
  {
    var j := LineEnd(s, i);
    if MatchFrom(s, i) == None then TocEntry(s[i..j]) == None
    else
      var m := MatchFrom(s, i).value;
      m.a <= m.b <= |s| && GroupAt(s, m.g, m.e) && TocEntry(s[i..j]) == Some(EntryOf(s, m))
      && j <= m.z && AllSpace(s, j, m.z) && AtEnd(s, m.z)
  }

  lemma PlainLine(s: string, i: nat)
    requires i <= |s| && AtStart(s, i) && !Crosses(Lines(s, i))
    ensures Alike(s, i)
  {
    hide IsSpace, IsEnd, LineEnd, SpaceEnd, Hit, FindGroup, AtStart, Opens, GroupNext, Labelled, IdOf, GroupAt,
      MatchFrom, TocEntry, Lines, DropBlank, IsGroup, EndsInGroup, BlankAhead, LinesAfter, Signs, Head, OnlyEnds;
    LinesAre(s, i);
    var j := LineEnd(s, i);
    var l, v := s[i..j], SpaceEnd(s, j);
    if !Opens(l) {
      NotOpening(s, i);
    } else if LabelHere(s, i) {
      GroupNextIs(s, j);
      if Labelled(l) { OwnMatch(s, i); } else { BlankMatch(s, i); }
    } else {
      AloneFacts(s, i);
      if v == |s| {
        NothingFollows(s, i);
      } else {
        NextLine(s, j);
        LinesAre(s, Head(s, v));
        AloneMatch(s, i);
        SpareBlankIs(s, i);
      }
    }
  }

  /** A line that is a group has no entry, nor any line without a group after its first character. */
  lemma NoEntryAtStart(n: string)
    requires !EndsInGroup(n)
    ensures TocEntry(n) == None
  {
    hide FindGroup, SpaceEnd, IsSpace;
    EndFacts();
    if n != [] && n[0] == '#' { FirstBlank(n, 0); SpaceEndAtLeast(n, 0); }
    if n == [] && FindGroup(n).Some? { GroupIsLong(n, FindGroup(n).value.0, FindGroup(n).value.1); }
  }

  /** The lines up to a group that begins a line hold no entry. */
  lemma GroupLine(s: string, j: nat)
    requires AtEnd(s, j) && Hit(s, SpaceEnd(s, j)).Some?
    ensures var z := Hit(s, SpaceEnd(s, j)).value.1;
      && j < z <= |s| && AtEnd(s, z)
      && Contents(LinesAfter(s, j)) == Contents(LinesAfter(s, z))
        && Linked(LinesAfter(s, j)) == Linked(LinesAfter(s, z))
  {
    hide IsSpace, IsEnd, LineEnd, SpaceEnd, Hit, FindGroup, TocEntry, Lines, DropBlank, Head, IdOf, GroupAt;
    var v := SpaceEnd(s, j);
    NoHitAtEnd(s);
    NextLine(s, j);
    var h := Head(s, v);
    var k := LineEnd(s, h);
    BlankLines(s, j, h - 1);
    LinesAre(s, h);
    HitOnLine(s, h, v);
    NoEntryAtStart(s[h..k]);
    BlankLines(s, k, Hit(s, v).value.1);
  }

  /** Where lines cross, the text has one entry and the lines it takes up have at most one, and another one. */
  ghost predicate Astray(s: string, i: nat, own: seq<Heading>, heads: seq<Option<Heading>>)
    requires i <= |s|
  {
    MatchFrom(s, i).Some? && var m := MatchFrom(s, i).value;
      && i < m.z <= |s| && AtEnd(s, m.z) && m.a <= m.b <= |s| && GroupAt(s, m.g, m.e)
      && Contents(Lines(s, i)) == own + Contents(LinesAfter(s, m.z))
      && Linked(Lines(s, i)) == heads + Linked(LinesAfter(s, m.z))
      && ((own == [] && heads == [])
        || (|own| == 1 == |heads| && own[0].text != s[m.a..m.b]
          && (heads[0].Some? ==> heads[0].value.text != s[m.a..m.b])))
  }

  lemma CrossingLabel(s: string, i: nat) returns (own: seq<Heading>, heads: seq<Option<Heading>>)
    requires LabelHere(s, i) && Crosses(Lines(s, i))
    ensures Astray(s, i, own, heads)
  {
    hide IsSpace, IsEnd, LineEnd, SpaceEnd, Hit, FindGroup, AtStart, Opens, GroupNext, Labelled, IdOf, GroupAt,
      MatchFrom, TocEntry, Lines, DropBlank, IsGroup, EndsInGroup, BlankAhead, Signs, Rendered, Contents, Linked,
      LinesAfter, AllSpace;
    LinesAre(s, i);
    var j := LineEnd(s, i);
    var l := s[i..j];
    LabelFacts(s, i);
    GroupNextIs(s, j);
    CrossingMatch(s, i);
    var m := MatchFrom(s, i).value;
    HitIff(s, m.g, m.e);
    GroupLine(s, j);
    own, heads := OneOrNone(TocEntry(l)), if TocEntry(l).Some? then [Rendered(l)] else [];
    if TocEntry(l).Some? {
      FirstOfLabel(s, m.a, m.b);
      BlankLabelOf(l);
    }
  }

  lemma FirstOfLabel(s: string, a: nat, b: nat)
    requires a < b <= |s|
    ensures s[a..b] != "" && s[a..b][0] == s[a]
  {}

  /** Without a label the entry's is a blank, the heading's nothing. */
  lemma BlankLabelOf(l: string)
    requires Opens(l) && 2 < SpaceEnd(l, 2) < |l| && !Labelled(l) && TocEntry(l).Some?
    ensures var t := TocEntry(l).value.text; t != "" && IsSpace(t[0])
    ensures Rendered(l).Some? ==> Rendered(l).value.text == ""
  {
    hide SpaceEnd, FindGroup, IdOf, Rendered, IsBlank, IsSpace, SpaceStart;
    var w := SpaceEnd(l, 2);
    EntryAtBlank(l, w);
    var (g, e) := FindGroup(l).value;
    assert AllSpace(l, 2, w) && IsSpace(l[w - 1]);
    if IsBlank(l[2]) {
      LabelStart(l, w, g);
      var k := RenderedIs(l, g, e);
    } else {
      NoHeading(l);
    }
  }

  lemma AloneContents(s: string, i: nat)
    requires SignsAlone(s, i)
    ensures var j := LineEnd(s, i);
      Contents(Lines(s, i)) == Contents(LinesAfter(s, j)) && Linked(Lines(s, i)) == Linked(LinesAfter(s, j))
  {
    hide IsSpace, IsEnd, LineEnd, SpaceEnd, Opens, TocEntry, Rendered, Contents, Linked, Lines, LinesAfter;
    LinesAre(s, i);
    AloneFacts(s, i);
  }

  /** The entries after a line end begin with that of the first line that is not blank. */
  lemma NextContents(s: string, j: nat)
    requires AtEnd(s, j) && SpaceEnd(s, j) < |s|
    ensures var h := Head(s, SpaceEnd(s, j)); var k := LineEnd(s, h); var n := s[h..k];
      && Contents(LinesAfter(s, j)) == OneOrNone(TocEntry(n)) + Contents(LinesAfter(s, k))
      && Linked(LinesAfter(s, j)) == (if TocEntry(n).Some? then [Rendered(n)] else []) + Linked(LinesAfter(s, k))
  {
    hide IsSpace, IsEnd, LineEnd, SpaceEnd, Head, TocEntry, Rendered, Contents, Linked, Lines, LinesAfter, DropBlank;
    NextLine(s, j);
    var h := Head(s, SpaceEnd(s, j));
    BlankLines(s, j, h - 1);
    BeforeLine(s, h);
    LinesAre(s, h);
  }

  lemma CrossingAlone(s: string, i: nat) returns (own: seq<Heading>, heads: seq<Option<Heading>>)
    requires SignsAlone(s, i) && Crosses(Lines(s, i))
    ensures Astray(s, i, own, heads)
  {
    hide IsSpace, IsEnd, LineEnd, SpaceEnd, SpaceStart, Hit, FindGroup, AtStart, IdOf, GroupAt, MatchFrom, TocEntry,
      Lines, EndsInGroup, Rendered, Contents, Linked, LinesAfter, Head, AllSpace, Crosses, SignsAlone, GroupNext;
    CrossingIsMatch(s, i);
    AloneContents(s, i);
    AloneIsLine(s, i);
    AloneMatch(s, i);
    var j, m := LineEnd(s, i), MatchFrom(s, i).value;
    var h := Head(s, SpaceEnd(s, j));
    NextLine(s, j);
    HitIff(s, m.g, m.e);
    if EndsInGroup(s[h..LineEnd(s, h)]) {
      own, heads := GroupAfterText(s, j, m);
    } else {
      own, heads := [], [];
      NextContents(s, j);
      NoEntryAtStart(s[h..LineEnd(s, h)]);
      if GroupNext(LinesAfter(s, LineEnd(s, h))) { GroupLine(s, LineEnd(s, h)); } else { GroupLine(s, j); }
    }
  }

  lemma AloneIsLine(s: string, i: nat)
    requires SignsAlone(s, i)
    ensures i <= LineEnd(s, i) <= |s| && AtEnd(s, LineEnd(s, i))
  {}

  /** There are further lines, and a match into them. */
  lemma CrossingIsMatch(s: string, i: nat)
    requires SignsAlone(s, i) && Crosses(Lines(s, i))
    ensures SpaceEnd(s, LineEnd(s, i)) < |s| && MatchFrom(s, i).Some?
  {
    hide IsSpace, IsEnd, LineEnd, SpaceEnd, Hit, FindGroup, AtStart, Opens, GroupNext, Labelled, MatchFrom,
      TocEntry, Lines, DropBlank, IsGroup, EndsInGroup, BlankAhead, Signs, LinesAfter, OnlyEnds, Head, AllSpace;
    LinesAre(s, i);
    var j := LineEnd(s, i);
    DropBlankIs(s, j);
    NextLine(s, j);
    LinesAre(s, Head(s, SpaceEnd(s, j)));
    SpareBlankIs(s, i);
    AloneMatch(s, i);
  }

  /** The next line ends in a group: all of it up to the group is the label. */
  lemma GroupAfterText(s: string, j: nat, m: Match) returns (own: seq<Heading>, heads: seq<Option<Heading>>)
    requires AtEnd(s, j) && SpaceEnd(s, j) < |s|
    requires var h := Head(s, SpaceEnd(s, j)); var n := s[h..LineEnd(s, h)];
      && EndsInGroup(n) && m.a == SpaceEnd(s, j) && m.g == h + FindGroup(n).value.0
      && m.b == Max(m.a + 1, SpaceStart(s, h + FindGroup(n).value.0))
    requires Hit(s, m.g) == Some((m.e, m.z)) && m.a < m.b <= |s|
    ensures j < m.z <= |s| && AtEnd(s, m.z)
    ensures Contents(LinesAfter(s, j)) == own + Contents(LinesAfter(s, m.z))
      && Linked(LinesAfter(s, j)) == heads + Linked(LinesAfter(s, m.z))
    ensures (own == [] && heads == []) ||
      (|own| == 1 == |heads| && own[0].text != s[m.a..m.b] && (heads[0].Some? ==> heads[0].value.text != s[m.a..m.b]))
  {
    hide IsSpace, IsEnd, LineEnd, SpaceEnd, SpaceStart, Hit, FindGroup, IdOf, GroupAt, TocEntry, Lines, Rendered,
      Contents, Linked, LinesAfter, Head, AllSpace, DropBlank;
    NextLine(s, j);
    var v := SpaceEnd(s, j);
    var h := Head(s, v);
    var k := LineEnd(s, h);
    var n := s[h..k];
    NextContents(s, j);
    GroupIsLong(n, FindGroup(n).value.0, FindGroup(n).value.1);
    HitOnLine(s, h, m.g);
    BlankLines(s, k, m.z);
    own, heads := OneOrNone(TocEntry(n)), if TocEntry(n).Some? then [Rendered(n)] else [];
    if TocEntry(n).Some? { LongerLabel(s, h, k, m.g, m.b); }
  }

  lemma LongerLabel(s: string, h: nat, k: nat, g: nat, b: nat)
    requires h <= g <= k <= |s| && TocEntry(s[h..k]).Some? && FindGroup(s[h..k]).Some?
      && FindGroup(s[h..k]).value.0 == g - h
    requires var v := h + SpaceEnd(s[h..k], 0); b == Max(v + 1, SpaceStart(s, g))
    ensures SpaceEnd(s[h..k], 0) == 0 && h <= b <= |s| && TocEntry(s[h..k]).value.text != s[h..b]
    ensures Rendered(s[h..k]).Some? ==> Rendered(s[h..k]).value.text != s[h..b]
  {
    hide IsSpace, SpaceEnd, SpaceStart, FindGroup, TocEntry, Rendered;
    SpaceStartInSlice(s, h, k, g);
    SpaceStartAtMost(s, g);
    ShorterLabel(s[h..k]);
  }

  lemma BeforeLine(s: string, h: nat)
    requires 0 < h <= |s|
    ensures LinesAfter(s, h - 1) == Lines(s, h)
  {}

  /** The labels of a line with an entry are shorter than what stands before its group. */
  lemma ShorterLabel(n: string)
    requires TocEntry(n).Some?
    ensures FindGroup(n).Some? && var g := FindGroup(n).value.0; var t := SpaceStart(n, g);
      && SpaceEnd(n, 0) == 0 && 2 <= t && |TocEntry(n).value.text| < t
        && (Rendered(n).Some? ==> |Rendered(n).value.text| < t)
  {
    hide SpaceEnd, FindGroup, IdOf, Rendered, IsBlank, IsSpace, SpaceStart;
    EndFacts();
    var (g, e) := FindGroup(n).value;
    var w := SpaceEnd(n, 2);
    assert AllSpace(n, 2, w);
    LabelBounds(n, 1, g);
    FirstBlank(n, 0);
    SpaceEndAtLeast(n, 0);
    SpaceEndAtLeast(n, 2);
    if w == g { LabelStart(n, w, g); }
    if IsBlank(n[2]) {
      var k := RenderedIs(n, g, e);
    } else {
      NoHeading(n);
    }
  }

  // ---------- the whole text ----------

  function Somes(hs: seq<Heading>): seq<Option<Heading>> {
    seq(|hs|, i requires 0 <= i < |hs| => Some(hs[i]))
  }

  /** The matches found and the lines passed, by line ends. */
  ghost predicate Compared(found: seq<Heading>, lines: seq<string>) {
    && |Linked(lines)| == |Contents(lines)| <= |found|
    && (found == Contents(lines) <==> NoneCrosses(lines))
    && (!NoneCrosses(lines) ==> Somes(found) != Linked(lines))
  }

  lemma {:induction false} LineCompared(s: string, i: nat)
    requires i <= |s| && AtStart(s, i)
    ensures Compared(Scan(s, i), Lines(s, i))
    decreases |s| - i, 1
  {
    hide IsEnd, LineEnd, MatchFrom, Crosses, Compared, Scan, Lines, LinesAfter, ScanAfter, Alike, Astray, AtStart;
    if !Crosses(Lines(s, i)) {
      var j := LineEnd(s, i);
      PlainLine(s, i);
      PlainScan(s, i);
      EndCompared(s, j);
      LinesAre(s, i);
      SameFront(TocEntry(s[i..j]), Rendered(s[i..j]), ScanAfter(s, j), LinesAfter(s, j), Scan(s, i), Lines(s, i));
    } else {
      var own, heads;
      if LabelHere(s, i) {
        own, heads := CrossingLabel(s, i);
      } else {
        CrossesOpen(s, i);
        own, heads := CrossingAlone(s, i);
      }
      AstrayEnds(s, i, own, heads);
      EndCompared(s, MatchFrom(s, i).value.z);
      AstrayCompared(s, i, own, heads);
    }
  }

  lemma {:induction false} EndCompared(s: string, j: nat)
    requires AtEnd(s, j)
    ensures Compared(ScanAfter(s, j), LinesAfter(s, j))
    decreases |s| - j, 0
  {
    hide IsEnd, Scan, Lines;
    if j < |s| { LineCompared(s, j + 1); }
  }

  lemma PlainScan(s: string, i: nat)
    requires i <= |s| && Alike(s, i)
    ensures Scan(s, i) == OneOrNone(TocEntry(s[i..LineEnd(s, i)])) + ScanAfter(s, LineEnd(s, i))
  {
    hide IsEnd, IsSpace, LineEnd, MatchFrom, TocEntry, ScanAfter, GroupAt, IdOf;
    var j := LineEnd(s, i);
    if MatchFrom(s, i) == None {
      ScanLeavesLine(s, i, j);
    } else {
      var m := MatchFrom(s, i).value;
      BlankLines(s, j, m.z);
      ScanFromEnd(s, m.z);
      FoundIsMatch(s, i);
      Further(s, i, m);
      assert Scan(s, i) == [EntryOf(s, m)] + Scan(s, m.z);
    }
  }

  /** The same entry, or none, in front of both. */
  lemma SameFront(x: Option<Heading>, r: Option<Heading>, found: seq<Heading>, rest: seq<string>, all: seq<Heading>,
    lines: seq<string>)
    requires Compared(found, rest) && all == OneOrNone(x) + found && lines != [] && lines[1..] == rest
      && !Crosses(lines)
    requires Contents(lines) == OneOrNone(x) + Contents(rest)
      && Linked(lines) == (if x.Some? then [r] else []) + Linked(rest)
    ensures Compared(all, lines)
  {
    hide Contents, Linked, Crosses;
    assert NoneCrosses(lines) == NoneCrosses(rest);
    if x.Some? {
      assert all[1..] == found && Contents(lines)[1..] == Contents(rest) && Linked(lines)[1..] == Linked(rest);
      assert Somes(all)[1..] == Somes(found);
      assert all == [x.value] + found && Contents(lines) == [x.value] + Contents(rest);
    } else {
      assert all == found && Contents(lines) == Contents(rest) && Linked(lines) == Linked(rest);
    }
  }

  lemma CrossesOpen(s: string, i: nat)
    requires i <= |s| && AtStart(s, i) && Crosses(Lines(s, i)) && !LabelHere(s, i)
    ensures SignsAlone(s, i)
  {
    hide IsEnd, LineEnd, Opens, SpaceEnd, AtStart, Lines, DropBlank, GroupNext, IsGroup, EndsInGroup;
    LinesAre(s, i);
  }

  lemma AstrayEnds(s: string, i: nat, own: seq<Heading>, heads: seq<Option<Heading>>)
    requires i <= |s| && Astray(s, i, own, heads)
    ensures MatchFrom(s, i).Some? && i < MatchFrom(s, i).value.z <= |s| && AtEnd(s, MatchFrom(s, i).value.z)
  {
    hide MatchFrom;
  }

  lemma AstrayCompared(s: string, i: nat, own: seq<Heading>, heads: seq<Option<Heading>>)
    requires i <= |s| && Astray(s, i, own, heads) && Crosses(Lines(s, i))
    requires AtEnd(s, MatchFrom(s, i).value.z)
      && Compared(ScanAfter(s, MatchFrom(s, i).value.z), LinesAfter(s, MatchFrom(s, i).value.z))
    ensures Compared(Scan(s, i), Lines(s, i))
  {
    hide IsEnd, MatchFrom, Crosses, Lines, LinesAfter, ScanAfter, Contents, Linked, GroupAt;
    var m := MatchFrom(s, i).value;
    var found, lines := Scan(s, i), Lines(s, i);
    ScanFromEnd(s, m.z);
    assert found == [EntryOf(s, m)] + ScanAfter(s, m.z);
    assert found[0].text == s[m.a..m.b] && Somes(found)[0] == Some(found[0]);
    if own != [] { assert Contents(lines)[0] == own[0] && Linked(lines)[0] == heads[0]; }
    CrossesSomewhere(lines);
  }

  lemma CrossesSomewhere(lines: seq<string>)
    requires Crosses(lines)
    ensures !NoneCrosses(lines)
  {}

  /** The contents of a guide are the entries of its lines, in order, exactly if no lines cross. */
  lemma RawContentsIff(s: string)
    ensures RawContents(s) == Contents(Lines(s, 0)) <==> NoneCrosses(Lines(s, 0))
  {
    LineCompared(s, 0);
  }

  lemma {:induction false} LinkedIff(lines: seq<string>)
    ensures Somes(Contents(lines)) == Linked(lines) <==> AllOrdinary(lines)
    decreases |lines|
  {
    hide TocEntry, Rendered, Ordinary;
    if lines != [] {
      var l, rest := lines[0], lines[1..];
      LinkedIff(rest);
      assert lines == [l] + rest;
      if TocEntry(l).Some? {
        EntryHasHeading(l);
        var a, b := Somes(Contents(lines)), Linked(lines);
        assert a[1..] == Somes(Contents(rest)) && b[1..] == Linked(rest);
        assert a[0] == TocEntry(l) && b[0] == Rendered(l);
        assert a == [a[0]] + a[1..] && b == [b[0]] + b[1..];
      } else {
        assert Contents(lines) == Contents(rest) && Linked(lines) == Linked(rest);
      }
    }
  }

  /**
   The contents of a guide are what its lines with an entry are rendered as, label by label and id by id,
   exactly if no lines cross and every entry is on an ordinary line.
   */
  lemma ContentsAreHeadingsIff(s: string)
    ensures Somes(RawContents(s)) == Linked(Lines(s, 0)) <==> NoneCrosses(Lines(s, 0)) && AllOrdinary(Lines(s, 0))
  {
    hide AllOrdinary;
    LineCompared(s, 0);
    LinkedIff(Lines(s, 0));
  }

  predicate ThirdLevel(l: string) {
    |l| >= 3 && l[..3] == "###"
  }

  function WithoutThird(lines: seq<string>): seq<string> {
    if lines == [] then [] else (if ThirdLevel(lines[0]) then [] else [lines[0]]) + WithoutThird(lines[1..])
  }

  lemma {:induction false} ThirdLevelIsNoEntry(lines: seq<string>)
    ensures Contents(WithoutThird(lines)) == Contents(lines)
    decreases |lines|
  {
    hide TocEntry, ThirdLevel;
    if lines != [] {
      var l, rest := lines[0], lines[1..];
      ThirdLevelIsNoEntry(rest);
      if ThirdLevel(l) {
        ThirdSign(l);
        assert WithoutThird(lines) == WithoutThird(rest) && Contents(lines) == Contents(rest);
      } else {
        assert WithoutThird(lines) == [l] + WithoutThird(rest);
        assert ([l] + WithoutThird(rest))[1..] == WithoutThird(rest);
      }
    }
  }

  lemma ThirdSign(l: string)
    requires ThirdLevel(l)
    ensures TocEntry(l) == None
  {
    hide FindGroup, SpaceEnd;
    assert l[2] == l[..3][2];
  }

  /** The contents of a guide are what they would be without its third-level headings, exactly if no lines cross. */
  lemma ThirdLevelIff(s: string)
    ensures RawContents(s) == Contents(WithoutThird(Lines(s, 0))) <==> NoneCrosses(Lines(s, 0))
  {
    RawContentsIff(s);
    ThirdLevelIsNoEntry(Lines(s, 0));
  }

  // ---------- the headings of the guide ----------

  /**
   Markdown ends lines at fewer characters (section 2.1 of CommonMark 0.31); the empty line this sees in a CR LF
   is no heading.
   */
  predicate EndsMarkdownLine(s: string, z: nat) {
    z == |s| || (z < |s| && (s[z] == '\n' || s[z] == '\r'))
  }

  function MarkdownLineEnd(s: string, i: nat): (j: nat)
    requires i <= |s|
    ensures i <= j <= |s|
    decreases |s| - i
  {
    if EndsMarkdownLine(s, i) then i else MarkdownLineEnd(s, i + 1)
  }

  function MarkdownLines(s: string, i: nat): seq<string>
    requires i <= |s|
    decreases |s| - i
  {
    var j := MarkdownLineEnd(s, i);
    [s[i..j]] + if j == |s| then [] else MarkdownLines(s, j + 1)
  }

  /** No LINE SEPARATOR and no PARAGRAPH SEPARATOR. */
  predicate NoSeparators(s: string) {
    forall k | 0 <= k < |s| :: s[k] != 0x2028 as char && s[k] != 0x2029 as char
  }

  lemma {:induction false} SameEnd(s: string, i: nat)
    requires i <= |s| && NoSeparators(s)
    ensures MarkdownLineEnd(s, i) == LineEnd(s, i)
    decreases |s| - i
  {
    if !AtEnd(s, i) { SameEnd(s, i + 1); }
  }

  lemma {:induction false} SameLines(s: string, i: nat)
    requires i <= |s| && NoSeparators(s)
    ensures MarkdownLines(s, i) == Lines(s, i)
    decreases |s| - i
  {
    hide NoSeparators, LineEnd, MarkdownLineEnd;
    SameEnd(s, i);
    if LineEnd(s, i) < |s| { SameLines(s, LineEnd(s, i) + 1); }
  }

  /**
   Every entry of the contents has its heading, in the same order, if no lines cross and the entries are on
   ordinary lines.
   */
  lemma RawContentsHaveHeadings(s: string) returns (at: seq<nat>)
    requires NoSeparators(s) && NoneCrosses(Lines(s, 0)) && AllOrdinary(Lines(s, 0))
    ensures Among(RawContents(s), Headings(MarkdownLines(s, 0)), at)
  {
    hide AllOrdinary, NoneCrosses, Among, Contents, Headings;
    RawContentsIff(s);
    SameLines(s, 0);
    at := ContentsHaveHeadings(Lines(s, 0));
  }

  // ---------- three texts ----------

  lemma GroupEndsText(s: string, g: nat)
    requires Hit(s, g).Some? && LineEnd(s, g) == |s|
    ensures Hit(s, g).value.1 == |s|
  {
    hide IsEnd, IsSpace, FindGroup, IdOf, Hit;
    HitIff(s, g, Hit(s, g).value.0);
    GroupIsLong(s, g, Hit(s, g).value.0);
    NoEndBefore(s, g, |s|, Hit(s, g).value.1);
  }

  lemma OneMatch(s: string, m: Match)
    requires MatchFrom(s, 0) == Some(m) && m.z == |s|
    ensures m.a <= m.b <= |s| && GroupAt(s, m.g, m.e) && RawContents(s) == [EntryOf(s, m)]
  {
    hide MatchFrom, IsEnd, IsSpace, IsWord, GroupAt, IdOf;
    FoundIsMatch(s, 0);
    Further(s, 0, m);
    assert Scan(s, |s|) == [];
    assert Scan(s, 0) == [EntryOf(s, m)] + Scan(s, m.z);
  }

  /** A third-level heading in the contents, after a line of bare signs. */
  lemma ThirdLevelListed()
    ensures RawContents("##  \n\n### Bar {#b}") == [Heading("### Bar", Some("b"))]
  {
    hide RawContents, Signs, FindGroup, LineEnd, SpaceEnd, SpaceStart, GroupAt, IdOf;
    var s := "##  \n\n### Bar {#b}";
    ThirdLevelText(s);
    LabelOnLastLine(s, 6, 14, 18);
  }

  lemma ThirdLevelText(s: string)
    requires s == "##  \n\n### Bar {#b}"
    ensures |s| == 18 && Signs(s, 0) && SpaceEnd(s, 2) == 6 && LineEnd(s, 6) == 18 && SpaceStart(s, 14) == 13
    ensures FindGroup(s[6..18]) == Some((8, 12)) && s[6..13] == "### Bar" && s[16..17] == "b"
  {
    hide FindGroup, LineEnd, SpaceEnd, SpaceStart;
    ThirdLevelBlanks(s);
    ThirdLevelGroup(s[6..18]);
  }

  lemma ThirdLevelBlanks(s: string)
    requires s == "##  \n\n### Bar {#b}"
    ensures SpaceEnd(s, 2) == 6 && LineEnd(s, 6) == 18 && SpaceStart(s, 14) == 13
  {
    hide LineEnd, SpaceEnd, SpaceStart;
    SpaceEndIs(s, 2, 6);
    SpaceStartIs(s, 13, 14);
    LineEndIs(s, 6, 18);
  }

  lemma ThirdLevelGroup(n: string)
    requires n == "### Bar {#b}"
    ensures FindGroup(n) == Some((8, 12))
  {
    hide FindGroup;
    GroupIsFound(n, 8, 12);
  }

  /** Bare signs, and a last line with a label and a group. */
  lemma LabelOnLastLine(s: string, h: nat, g: nat, e: nat)
    requires Signs(s, 0) && SpaceEnd(s, 2) == h && 3 <= h < g <= |s| && LineEnd(s, h) == |s|
      && FindGroup(s[h..|s|]) == Some((g - h, e - h))
    requires h < SpaceStart(s, g)
    ensures SpaceStart(s, g) <= |s| && g + 2 < e <= |s|
      && RawContents(s) == [Heading(s[h..SpaceStart(s, g)], Some(s[g + 2..e - 1]))]
  {
    hide IsSpace, IsWord, IsEnd, FindGroup, Lazy, Hit, LineEnd, SpaceEnd, SpaceStart, Greedy, RawContents, Signs,
      MatchFrom, AllSpace, AtEnd, IdChar;
    GroupIsLong(s[h..|s|], g - h, e - h);
    FirstStarts(s);
    LazyIs(s, h, h);
    MatchIsGreedy(s, 0);
    LastHit(s, h, g, e);
    OneMatch(s, MatchFrom(s, 0).value);
    SpaceStartAtMost(s, g);
  }

  lemma FirstStarts(s: string)
    ensures AtStart(s, 0)
  {}

  lemma LastHit(s: string, h: nat, g: nat, e: nat)
    requires h <= g <= |s| && LineEnd(s, h) == |s| && FindGroup(s[h..|s|]).Some?
      && FindGroup(s[h..|s|]).value == (g - h, e - h)
    ensures Hit(s, g) == Some((e, |s|)) && GroupAt(s, g, e)
  {
    hide IsSpace, IsEnd, FindGroup, LineEnd, Hit, IdChar, AllSpace, IdOf;
    HitOnLine(s, h, g);
    var (e', z) := Hit(s, g).value;
    assert e' == e && z == |s|;
  }

  /** A heading takes a group from the next line. */
  lemma GroupFromNextLine()
    ensures RawContents("## Foo\n{#x}") == [Heading("Foo", Some("x"))] && Contents(Lines("## Foo\n{#x}", 0)) == []
  {
    hide RawContents, Signs, FindGroup, LineEnd, SpaceEnd, SpaceStart, Hit, GroupAt, IdOf, Contents, Lines;
    var s := "## Foo\n{#x}";
    TwoLineText(s);
    LabelBeforeEnd(s, 3, 6, 7);
    NoEntries(s);
  }

  lemma TwoLineText(s: string)
    requires s == "## Foo\n{#x}"
    ensures |s| == 11 && Signs(s, 0) && SpaceEnd(s, 2) == 3 && LineEnd(s, 0) == 6 && SpaceStart(s, 6) == 6
      && SpaceEnd(s, 6) == 7 && LineEnd(s, 7) == 11
    ensures FindGroup(s[0..6]) == None && Hit(s, 7) == Some((11, 11)) && s[3..6] == "Foo" && s[9..10] == "x"
  {
    hide FindGroup, LineEnd, SpaceEnd, SpaceStart, Hit, IsSpace, IsWord, IsEnd, GroupAt;
    TwoLineBlanks(s);
    TwoLineGroups(s[0..6], s[7..11]);
    LastHit(s, 7, 7, 11);
  }

  lemma TwoLineGroups(first: string, second: string)
    requires first == "## Foo" && second == "{#x}"
    ensures FindGroup(first) == None && FindGroup(second) == Some((0, 4))
  {
    hide FindGroup;
    NoGroup(first);
    GroupIsFound(second, 0, 4);
  }

  lemma TwoLineBlanks(s: string)
    requires s == "## Foo\n{#x}"
    ensures SpaceEnd(s, 2) == 3 && LineEnd(s, 0) == 6 && SpaceStart(s, 6) == 6 && SpaceEnd(s, 6) == 7
      && LineEnd(s, 7) == 11
  {
    hide FindGroup, LineEnd, SpaceEnd, SpaceStart, Hit;
    SpaceEndIs(s, 2, 3);
    SpaceStartIs(s, 6, 6);
    LineEndIs(s, 0, 6);
    SpaceEndIs(s, 6, 7);
    LineEndIs(s, 7, 11);
  }

  /** A label up to the end of its line, and a group that begins the next line and ends the text. */
  lemma LabelBeforeEnd(s: string, w: nat, j: nat, g: nat)
    requires Signs(s, 0) && 3 <= w < j && SpaceEnd(s, 2) == w && LineEnd(s, 0) == j && SpaceStart(s, j) == j
    requires FindGroup(s[0..j]) == None && SpaceEnd(s, j) == g && Hit(s, g) == Some((|s|, |s|))
    ensures g + 2 < |s| && j <= |s| && RawContents(s) == [Heading(s[w..j], Some(s[g + 2..|s| - 1]))]
  {
    hide IsSpace, IsWord, IsEnd, FindGroup, Lazy, Hit, LineEnd, SpaceEnd, SpaceStart, Greedy, RawContents, Signs,
      MatchFrom;
    LazyIs(s, 0, w);
    NextGroup(s, 0, w);
    MatchIsGreedy(s, 0);
    var m := MatchFrom(s, 0).value;
    HitIff(s, g, |s|);
    GroupIsLong(s, g, |s|);
    LazyIff(s, w, w + 1);
    if m.b < j {
      SpaceEndIsFar(s, m.b, j);
    }
    OneMatch(s, m);
  }

  lemma NoGroup(l: string)
    requires l != [] && !IsSpace(l[|l| - 1]) && l[|l| - 1] != '}'
    ensures FindGroup(l) == None
  {
    SpaceStartIs(l, |l|, |l|);
  }

  lemma NoEntries(s: string)
    requires s == "## Foo\n{#x}" && LineEnd(s, 0) == 6 && LineEnd(s, 7) == 11 && FindGroup(s[0..6]) == None
    ensures Contents(Lines(s, 0)) == []
  {
    hide FindGroup, LineEnd;
    assert s[0..6] == "## Foo" && s[7..11] == "{#x}";
    LinesAre(s, 0);
    LinesAre(s, 7);
    NotHash("{#x}");
  }

  /** A LINE SEPARATOR ends a line for the expression, but not for Markdown. */
  lemma SeparatedHeading()
    ensures var s := "## A" + [0x2028 as char] + "## B {#b}";
      RawContents(s) == [Heading("B", Some("b"))] && |Headings(MarkdownLines(s, 0))| == 1
        && Headings(MarkdownLines(s, 0))[0].text != "B"
  {
    var s := "## A" + [0x2028 as char] + "## B {#b}";
    SeparatedEntry(s);
    SeparatedText(s);
  }

  lemma SeparatedEntry(s: string)
    requires s == "## A" + [0x2028 as char] + "## B {#b}"
    ensures RawContents(s) == [Heading("B", Some("b"))]
  {
    hide FindGroup, LineEnd, SpaceEnd, SpaceStart, RawContents, Lines, IsSpace, Contents, TocEntry, NoneCrosses;
    var first, second := "## A", "## B {#b}";
    SeparatedLines(s);
    FirstLineFacts(first);
    SecondLineFacts(second);
    TwoLines(first, second);
    SecondEntry(second);
    RawContentsIff(s);
  }

  lemma SeparatedLines(s: string)
    requires s == "## A" + [0x2028 as char] + "## B {#b}"
    ensures Lines(s, 0) == ["## A", "## B {#b}"]
  {
    hide LineEnd;
    LineEndIs(s, 0, 4);
    LineEndIs(s, 5, 14);
    assert s[0..4] == "## A" && s[5..14] == "## B {#b}";
    assert LinesAfter(s, 14) == [];
    assert Lines(s, 5) == [s[5..14]] + LinesAfter(s, 14);
    assert Lines(s, 0) == [s[0..4]] + LinesAfter(s, 4);
  }

  lemma FirstLineFacts(l: string)
    requires l == "## A"
    ensures SpaceEnd(l, 2) == 3 && FindGroup(l) == None
  {
    hide FindGroup, SpaceEnd;
    SpaceEndIs(l, 2, 3);
    NoGroup(l);
  }

  lemma SecondLineFacts(l: string)
    requires l == "## B {#b}"
    ensures FindGroup(l) == Some((5, 9)) && SpaceEnd(l, 2) == 3 && SpaceEnd(l, 0) == 0 && SpaceStart(l, 5) == 4
      && !IsSpace(l[0])
  {
    hide FindGroup, SpaceEnd, SpaceStart;
    GroupIsFound(l, 5, 9);
    SpaceEndIs(l, 2, 3);
    SpaceEndIs(l, 0, 0);
    SpaceStartIs(l, 4, 5);
  }

  lemma SecondEntry(l: string)
    requires l == "## B {#b}" && FindGroup(l) == Some((5, 9)) && SpaceEnd(l, 2) == 3 && SpaceStart(l, 5) == 4
    ensures TocEntry(l) == Some(Heading("B", Some("b")))
  {
    assert l[3..4] == "B" && l[7..8] == "b";
  }

  /** A line with a label and a group after a line with a label and none. */
  lemma TwoLines(first: string, second: string)
    requires |second| >= 2 && FindGroup(second).Some? && SpaceEnd(second, 0) == 0
      && SpaceEnd(second, 2) < FindGroup(second).value.0 < |second|
    requires |first| >= 2 && SpaceEnd(first, 2) < |first| && FindGroup(first) == None && !IsSpace(second[0])
    ensures NoneCrosses([first, second]) && Contents([first, second]) == OneOrNone(TocEntry(second))
  {
    hide FindGroup, SpaceEnd, IsSpace, TocEntry;
    var lines := [first, second];
    assert lines[1..] == [second] && lines[1..][1..] == [];
    SpaceEndAtLeast(second, 2);
    assert DropBlank([second]) == [second];
    NoGroupNoEntry(first);
    assert Contents(lines[1..][1..]) == [];
    assert Contents(lines[1..]) == OneOrNone(TocEntry(second));
    assert !Crosses(lines) && !Crosses(lines[1..]);
    assert NoneCrosses(lines[1..][1..]);
    assert NoneCrosses(lines[1..]);
    assert Contents(lines) == OneOrNone(TocEntry(first)) + Contents(lines[1..]);
  }

  lemma NoGroupNoEntry(l: string)
    requires FindGroup(l) == None
    ensures TocEntry(l) == None
  {}

  lemma SeparatedText(s: string)
    requires s == "## A" + [0x2028 as char] + "## B {#b}"
    ensures |Headings(MarkdownLines(s, 0))| == 1 && Headings(MarkdownLines(s, 0))[0].text != "B"
  {
    hide FindGroup, SpaceEnd, SpaceStart, IdOf, Rendered;
    MarkdownEnd(s, 0);
    assert s[0..14] == s;
    assert MarkdownLines(s, 0) == [s];
    assert [s][1..] == [];
    assert Headings([s]) == OneOrNone(Rendered(s)) + Headings([s][1..]);
    GroupIsFound(s, 10, 14);
    SpaceEndIs(s, 2, 3);
    SpaceStartIs(s, 9, 10);
    var k := RenderedIs(s, 10, 14);
    assert |s[k..9]| > 1;
  }

  lemma {:induction false} MarkdownEnd(s: string, i: nat)
    requires i <= |s| && forall k | i <= k < |s| :: !EndsMarkdownLine(s, k)
    ensures MarkdownLineEnd(s, i) == |s|
    decreases |s| - i
  {
    if i < |s| { MarkdownEnd(s, i + 1); }
  }
}
