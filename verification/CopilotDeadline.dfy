/**
 The deadline chip of the dashboard (apps/web/components/Dashboard.tsx): a line of text is
 printed for an employer's invitation, and a regular expression reads the number of days
 back out of it.
 */
module CopilotDeadline {
  import opened Binary64
  import opened Text
  import opened Wrappers

  // ---------- decimal numbers ----------

  predicate Digits(s: string) {
    forall i | 0 <= i < |s| :: IsDigit(s[i])
  }

  function Dec(n: nat): (s: string)
    ensures s != [] && Digits(s)
  {
    (if n < 10 then [] else Dec(n / 10)) + [('0' as int + n % 10) as char]
  }

  function Number(s: string): nat
    requires Digits(s)
  {
    if s == [] then 0 else 10 * Number(s[..|s| - 1]) + (s[|s| - 1] as int - '0' as int)
  }

  lemma {:induction false} NumberOfDec(n: nat)
    ensures Number(Dec(n)) == n
  {
    var s := Dec(n);
    if n >= 10 {
      NumberOfDec(n / 10);
      assert s[..|s| - 1] == Dec(n / 10);
    } else {
      assert s[..|s| - 1] == [];
    }
  }

  // ---------- /\b(?:within|expires in)\s+(\d+)\s+days?\b/i ----------

  function Lower(c: char): char {
    if 'A' <= c <= 'Z' then (c as int + 32) as char else c
  }

  predicate WordAt(s: string, i: int) {
    0 <= i < |s| && IsWord(s[i])
  }

  predicate Boundary(s: string, i: int) {
    WordAt(s, i - 1) != WordAt(s, i)
  }

  /** `s` has `word`, in any case, at `i`. */
  predicate Has(s: string, i: nat, word: string) {
    i + |word| <= |s| && forall k | 0 <= k < |word| :: Lower(s[i + k]) == word[k]
  }

  predicate AllDigits(s: string, i: nat, j: nat) {
    i <= j <= |s| && forall k | i <= k < j :: IsDigit(s[k])
  }

  predicate KeywordEnds(s: string, i: nat, j: nat) {
    (j == i + 6 && Has(s, i, "within")) || (j == i + 10 && Has(s, i, "expires in"))
  }

  /**
   A match from `i`: keyword up to `j`, blanks up to `a`, the digits of the group up to `b`, blanks up to `c`,
   "day" or "days" up to `e`.
   */
  predicate IsMatch(s: string, i: nat, j: nat, a: nat, b: nat, c: nat, e: nat) {
    && Boundary(s, i) && KeywordEnds(s, i, j)
    && j < a && AllSpace(s, j, a) && a < b && AllDigits(s, a, b) && b < c && AllSpace(s, b, c)
    && Has(s, c, "day") && (e == c + 3 || (e == c + 4 && Has(s, c, "days"))) && Boundary(s, e)
  }

  function DigitEnd(s: string, i: nat): (j: nat)
    requires i <= |s|
    ensures AllDigits(s, i, j) && (j == |s| || !IsDigit(s[j]))
    decreases |s| - i
  {
    if i < |s| && IsDigit(s[i]) then DigitEnd(s, i + 1) else i
  }

  /**
   The group of the match that starts at `i`, if there is one: every part of the pattern is read as far as it
   goes.
   */
  function MatchAt(s: string, i: nat): Option<string>
    requires i <= |s|
  {
    if !Boundary(s, i) then None
    else
      var j := if Has(s, i, "within") then i + 6 else if Has(s, i, "expires in") then i + 10 else i;
      if j == i then None
      else
        var a := SpaceEnd(s, j);
        var b := DigitEnd(s, a);
        var c := SpaceEnd(s, b);
        if j < a && a < b && b < c && Has(s, c, "day")
          && (Boundary(s, c + 3) || (Has(s, c, "days") && Boundary(s, c + 4)))
        then Some(s[a..b])
        else None
  }

  lemma FirstLetter(s: string, i: nat, word: string)
    requires word != [] && Has(s, i, word)
    ensures i < |s| && Lower(s[i]) == word[0]
  {
    assert Lower(s[i + 0]) == word[0];
  }

  lemma TwoLetters(s: string, i: nat, word: string)
    requires |word| >= 2 && Has(s, i, word)
    ensures i + 1 < |s| && Lower(s[i]) == word[0] && Lower(s[i + 1]) == word[1]
  {
    assert Lower(s[i + 0]) == word[0];
  }

  lemma {:induction false} DigitEndIs(s: string, i: nat, j: nat)
    requires AllDigits(s, i, j) && (j < |s| ==> !IsDigit(s[j]))
    ensures DigitEnd(s, i) == j
    decreases j - i
  {
    if i < j { DigitEndIs(s, i + 1, j); }
  }

  ghost predicate Matches(s: string, i: nat, group: string) {
    exists j: nat, a: nat, b: nat, c: nat, e: nat :: IsMatch(s, i, j, a, b, c, e) && group == s[a..b]
  }

  /**
   Reading each part as far as it goes finds the match whenever there is any, and there is only one group to
   capture.
   */
  lemma MatchAtIff(s: string, i: nat, group: string)
    requires i <= |s|
    ensures Matches(s, i, group) <==> MatchAt(s, i) == Some(group)
  {
    hide IsSpace, IsWord, Has;
    forall j: nat, a: nat, b: nat, c: nat, e: nat | IsMatch(s, i, j, a, b, c, e)
      ensures MatchAt(s, i) == Some(s[a..b]) {
      OnlyMatch(s, i, j, a, b, c, e);
    }
    if MatchAt(s, i).Some? {
      var j := if Has(s, i, "within") then i + 6 else i + 10;
      var a := SpaceEnd(s, j);
      var b := DigitEnd(s, a);
      var c := SpaceEnd(s, b);
      assert IsMatch(s, i, j, a, b, c, if Boundary(s, c + 3) then c + 3 else c + 4);
    }
  }

  lemma OnlyMatch(s: string, i: nat, j: nat, a: nat, b: nat, c: nat, e: nat)
    requires i <= |s| && IsMatch(s, i, j, a, b, c, e)
    ensures MatchAt(s, i) == Some(s[a..b])
  {
    hide Has, IsWord, IsSpace, IsDigit, Boundary, Lower;
    OnlyKeyword(s, i, j);
    FirstLetter(s, c, "day");
    NoBlank(s[a]);
    NoBlank(s[b]);
    NoBlank(s[c]);
    SpaceEndIs(s, j, a);
    DigitEndIs(s, a, b);
    SpaceEndIs(s, b, c);
  }

  lemma OnlyKeyword(s: string, i: nat, j: nat)
    requires KeywordEnds(s, i, j)
    ensures j == if Has(s, i, "within") then i + 6 else i + 10
  {
    hide Has, Lower;
    if Has(s, i, "within") { FirstLetter(s, i, "within"); }
    if Has(s, i, "expires in") { FirstLetter(s, i, "expires in"); }
  }

  lemma NoBlank(c: char)
    ensures IsDigit(c) ==> !IsSpace(c)
    ensures Lower(c) == 'd' ==> !IsSpace(c) && !IsDigit(c)
    ensures IsSpace(c) ==> !IsDigit(c)
  {}

  /** exec: the first position with a match. */
  function Search(s: string, i: nat): Option<string>
    requires i <= |s|
    decreases |s| - i
  {
    var m := MatchAt(s, i);
    if m.Some? || i == |s| then m else Search(s, i + 1)
  }

  lemma {:induction false} SearchSkips(s: string, i: nat, j: nat)
    requires i <= j <= |s| && forall k: nat | i <= k < j :: MatchAt(s, k) == None
    ensures Search(s, i) == Search(s, j)
    decreases j - i
  {
    hide MatchAt;
    if i < j { SearchSkips(s, i + 1, j); }
  }

  /** A match starts with w or e. */
  lemma NoKeyword(s: string, i: nat)
    requires i <= |s| && (i < |s| ==> Lower(s[i]) != 'w' && Lower(s[i]) != 'e')
    ensures MatchAt(s, i) == None
  {
    hide IsSpace, IsWord;
    if Has(s, i, "within") { FirstLetter(s, i, "within"); }
    if Has(s, i, "expires in") { FirstLetter(s, i, "expires in"); }
  }

  /** An e is no start unless x follows, nor a w unless i follows. */
  lemma NoKeywordHere(s: string, i: nat)
    requires i < |s|
    requires i + 1 < |s|
      ==> (Lower(s[i]) == 'w' ==> Lower(s[i + 1]) != 'i') && (Lower(s[i]) == 'e' ==> Lower(s[i + 1]) != 'x')
    ensures MatchAt(s, i) == None
  {
    hide IsSpace, IsWord;
    if Has(s, i, "within") { TwoLetters(s, i, "within"); }
    if Has(s, i, "expires in") { TwoLetters(s, i, "expires in"); }
  }

  // ---------- the chip ----------

  datatype Chip = Chip(text: string, urgent: bool)

  function ChipFor(days: int): Chip {
    if days <= 0 then Chip("Expires today — start one now", true)
    else if days == 1 then Chip("Expires tomorrow — start one today", true)
    else Chip("Start one within " + Dec(days) + " days", days <= 2)
  }

  function CopilotDeadline(meta: string): Option<Chip> {
    match Search(meta, 0)
    case None => None
    case Some(group) =>
      GroupIsDigits(meta, 0);
      Some(ChipFor(Number(group)))
  }

  lemma {:induction false} GroupIsDigits(s: string, i: nat)
    requires i <= |s|
    ensures Search(s, i).Some? ==> Digits(Search(s, i).value)
    decreases |s| - i
  {
    var m := MatchAt(s, i);
    if m == None && i < |s| { GroupIsDigits(s, i + 1); }
  }

  // ---------- what is printed ----------

  datatype InviteStatus = AccruedPendingStart | Started

  /** The invitations selectEmployerInvite passes on as active; times in milliseconds. */
  datatype Invite = Invite(status: InviteStatus, level: Option<string>, expiresAt: Option<int>,
    startedAt: Option<int>, durationMins: nat, submitted: bool)

  const DAY := 24 * 60 * 60 * 1000

  function ExpiresInDays(expiresAt: int, now: int): nat {
    var days := (expiresAt - now + DAY - 1) / DAY;
    if days < 0 then 0 else days
  }

  function Plural(n: nat): string {
    if n == 1 then "" else "s"
  }

  /** Minutes are rounded, a half going up. */
  function StartedAgo(startedAt: int, now: int): string {
    var rounded := (now - startedAt + 30_000) / 60_000;
    var mins := if rounded < 0 then 0 else rounded;
    if mins < 1 then "just now"
    else if mins < 60 then Dec(mins) + " min ago"
    else if mins / 60 < 24 then Dec(mins / 60) + " hour" + Plural(mins / 60) + " ago"
    else Dec(mins / 60 / 24) + " day" + Plural(mins / 60 / 24) + " ago"
  }

  /** The deadline of an invitation that has not been started. */
  function Deadline(i: Invite, now: int): Option<nat> {
    if i.status == AccruedPendingStart && i.expiresAt.Some? then Some(ExpiresInDays(i.expiresAt.value, now)) else None
  }

  /** employerInviteCopilotMessage, the `meta` line. */
  function Meta(i: Invite, now: int): Option<string> {
    if i.level == None then
      (if i.expiresAt.Some? && i.status != Started
       then Some("start one within " + Dec(ExpiresInDays(i.expiresAt.value, now)) + " days") else None)
    else if i.status == Started && i.submitted then None
    else if i.status == Started then
      (if i.startedAt.Some? then Some("Started " + StartedAgo(i.startedAt.value, now)) else None)
    else if i.durationMins > 0 && i.expiresAt.Some? then
      Some("~" + Dec(i.durationMins) + " min · "
        + "expires in " + Dec(ExpiresInDays(i.expiresAt.value, now)) + " days")
    else if i.durationMins > 0 then Some("~" + Dec(i.durationMins) + " min")
    else if i.expiresAt.Some? then Some("expires in " + Dec(ExpiresInDays(i.expiresAt.value, now)) + " days")
    else None
  }

  predicate Plain(p: string) {
    forall k | 0 <= k < |p| :: Lower(p[k]) != 'w' && Lower(p[k]) != 'e'
  }

  /** `keyword`, a number, "days", after a prefix that ends in a blank or is empty, is a match at the keyword. */
  lemma PrintedMatch(p: string, keyword: string, d: string)
    requires keyword == "within" || keyword == "expires in"
    requires p != [] ==> p[|p| - 1] == ' '
    requires d != [] && Digits(d)
    ensures MatchAt(p + keyword + " " + d + " days", |p|) == Some(d)
  {
    hide IsSpace, IsWord, Lower;
    var head := p + keyword + " ";
    var s := head + d + " days";
    var i, j, b := |p|, |p| + |keyword|, |head| + |d|;
    Head(p, keyword, d + " days");
    assert s == head + (d + " days");
    assert s[j + 1..b] == d;
    assert AllDigits(s, j + 1, b) by {
      forall k | j + 1 <= k < b ensures IsDigit(s[k]) { assert s[k] == d[k - (j + 1)]; }
    }
    assert s[b..] == " days";
    DaysTail(s, b);
    assert IsMatch(s, i, j, j + 1, b, b + 1, b + 5);
    MatchAtIff(s, i, d);
  }

  lemma Head(p: string, keyword: string, rest: string)
    requires keyword == "within" || keyword == "expires in"
    requires p != [] ==> p[|p| - 1] == ' '
    ensures var s, i, j := p + keyword + " " + rest, |p|, |p| + |keyword|;
      Boundary(s, i) && KeywordEnds(s, i, j) && AllSpace(s, j, j + 1)
  {
    hide Has, IsWord, IsSpace;
    var s := p + keyword + " " + rest;
    assert s == p + (keyword + (" " + rest));
    Start(p, keyword + (" " + rest));
    Lowercase(keyword);
    PartAt(p, keyword, " " + rest);
    assert s[|p| + |keyword|] == ' ';
    Blank();
  }

  /** A letter after a blank, or at the start of the text, begins a word. */
  lemma Start(p: string, rest: string)
    requires (p != [] ==> p[|p| - 1] == ' ') && rest != [] && 'a' <= rest[0] <= 'z'
    ensures Boundary(p + rest, |p|)
  {
    assert (p + rest)[|p|] == rest[0] && (p != [] ==> (p + rest)[|p| - 1] == p[|p| - 1]);
  }

  lemma Blank()
    ensures IsSpace(' ')
  {}

  lemma Lowercase(keyword: string)
    requires keyword == "within" || keyword == "expires in"
    ensures forall k | 0 <= k < |keyword| :: Lower(keyword[k]) == keyword[k]
  {}

  lemma PartAt(p: string, part: string, rest: string)
    requires forall k | 0 <= k < |part| :: Lower(part[k]) == part[k]
    ensures Has(p + (part + rest), |p|, part)
  {
    assert forall k | 0 <= k < |part| :: (p + (part + rest))[|p| + k] == part[k];
  }

  predicate DaysAt(s: string, b: nat) {
    AllSpace(s, b, b + 1) && Has(s, b + 1, "day") && Has(s, b + 1, "days") && Boundary(s, b + 5)
  }

  lemma DaysTail(s: string, b: nat)
    requires b <= |s| && s[b..] == " days"
    ensures DaysAt(s, b)
  {
    assert forall k | 0 <= k < 5 :: s[b + k] == s[b..][k];
  }

  lemma {:induction false} PlainPrefix(p: string, rest: string)
    requires Plain(p)
    ensures Search(p + rest, 0) == Search(p + rest, |p|)
  {
    var s := p + rest;
    forall k: nat | k < |p| ensures MatchAt(s, k) == None { NoKeyword(s, k); }
    SearchSkips(s, 0, |p|);
  }

  lemma DigitsArePlain(s: string)
    requires Digits(s)
    ensures Plain(s)
  {}

  lemma PlainHasNone(p: string)
    requires Plain(p)
    ensures Search(p, 0) == None
  {
    PlainPrefix(p, "");
    assert p + "" == p;
    NoKeyword(p, |p|);
  }

  lemma StartOneWithin(d: string)
    requires d != [] && Digits(d)
    ensures Search("start one within " + d + " days", 0) == Some(d)
  {
    var p := "start one ";
    var s := p + "within" + " " + d + " days";
    assert "start one within " + d + " days" == s;
    forall k: nat | k < |p| ensures MatchAt(s, k) == None {
      assert s[k] == p[k] && s[k + 1] == (p + "w")[k + 1];
      NoKeywordHere(s, k);
    }
    SearchSkips(s, 0, |p|);
    PrintedMatch(p, "within", d);
  }

  lemma SameText(p: string, d: string)
    ensures p + "expires in " + d + " days" == p + "expires in" + " " + d + " days"
    ensures p + "expires in " + d + " days" == p + ("expires in" + " " + d + " days")
  {
    assert "expires in " == "expires in" + " ";
  }

  lemma ExpiresIn(p: string, d: string)
    requires Plain(p) && (p != [] ==> p[|p| - 1] == ' ') && d != [] && Digits(d)
    ensures Search(p + "expires in " + d + " days", 0) == Some(d)
  {
    hide MatchAt, Plain, Digits;
    var rest := "expires in" + " " + d + " days";
    SameText(p, d);
    PlainPrefix(p, rest);
    PrintedMatch(p, "expires in", d);
  }

  /** "Started " and anything without w and e. */
  lemma StartedPlain(ago: string)
    requires Plain(ago)
    ensures Search("Started " + ago, 0) == None
  {
    var p := "Started ";
    var s := p + ago;
    forall k: nat | k < |s| ensures MatchAt(s, k) == None {
      if k < |p| - 1 {
        assert s[k] == p[k] && s[k + 1] == p[k + 1];
        NoKeywordHere(s, k);
      } else {
        assert s[k] == (" " + ago)[k - 7];
        NoKeyword(s, k);
      }
    }
    SearchSkips(s, 0, |s|);
    NoKeyword(s, |s|);
  }

  lemma JustNow()
    ensures Search("Started just now", 0) == None
  {
    var s := "Started just now";
    forall k: nat | k < |s| ensures MatchAt(s, k) == None { NoKeywordHere(s, k); }
    SearchSkips(s, 0, |s|);
    NoKeyword(s, |s|);
  }

  lemma AgoIsPlain(startedAt: int, now: int)
    ensures StartedAgo(startedAt, now) != "just now" ==> Plain(StartedAgo(startedAt, now))
  {
    hide Dec;
    var rounded := (now - startedAt + 30_000) / 60_000;
    if rounded >= 1 {
      UnitsArePlain(rounded);
      UnitsArePlain(rounded / 60);
      UnitsArePlain(rounded / 60 / 24);
    }
  }

  lemma UnitsArePlain(n: nat)
    ensures Plain(Dec(n) + " min ago") && Plain(Dec(n) + " hour" + Plural(n) + " ago")
      && Plain(Dec(n) + " day" + Plural(n) + " ago")
  {
    hide Dec;
    DigitsArePlain(Dec(n));
  }

  lemma StartedHasNone(startedAt: int, now: int)
    ensures Search("Started " + StartedAgo(startedAt, now), 0) == None
  {
    hide Search, Dec;
    JustNow();
    var ago := StartedAgo(startedAt, now);
    if ago != "just now" {
      AgoIsPlain(startedAt, now);
      StartedPlain(ago);
    } else {
      assert "Started " + ago == "Started just now";
    }
  }

  /**
   For every invitation and clock, the chip shows the very number of days that was printed, and there is a chip
   exactly if there is a deadline.
   */
  lemma DeadlineReadsBack(i: Invite, now: int)
    requires Meta(i, now).Some?
    ensures CopilotDeadline(Meta(i, now).value) == match Deadline(i, now)
      case None => None
      case Some(days) => Some(ChipFor(days))
  {
    hide Search, Dec, StartedAgo, ChipFor;
    var s := Meta(i, now).value;
    if Deadline(i, now).Some? {
      var days := Deadline(i, now).value;
      var d := Dec(days);
      NumberOfDec(days);
      if i.level == None {
        StartOneWithin(d);
      } else if i.durationMins > 0 {
        MinutesArePlain(i.durationMins);
        ExpiresIn("~" + Dec(i.durationMins) + " min · ", d);
      } else {
        ExpiresIn("", d);
        assert "" + "expires in " + d + " days" == s;
      }
    } else if i.status == Started {
      StartedHasNone(i.startedAt.value, now);
    } else {
      MinutesArePlain(i.durationMins);
      PlainHasNone(s);
    }
  }

  /** Since when, told to the nearest minute, then in whole hours, then in whole days. */
  lemma StartedAgoMeans(startedAt: int, now: int) returns (n: nat)
    ensures var elapsed, said := now - startedAt, StartedAgo(startedAt, now);
      && (elapsed < 30_000 ==> said == "just now")
      && (30_000 <= elapsed < 3_570_000 ==> said == Dec(n) + " min ago" && -30_000 <= elapsed - n * 60_000 < 30_000)
      && (3_570_000 <= elapsed < 86_370_000 ==>
            said == Dec(n) + (if n == 1 then " hour ago" else " hours ago")
              && 0 <= elapsed + 30_000 - n * 3_600_000 < 3_600_000)
      && (86_370_000 <= elapsed ==>
            said == Dec(n) + (if n == 1 then " day ago" else " days ago")
              && 0 <= elapsed + 30_000 - n * 86_400_000 < 86_400_000)
  {
    hide Dec;
    var rounded := (now - startedAt + 30_000) / 60_000;
    n := if rounded < 0 then 0 else if rounded < 60 then rounded else rounded / 60;
    if n >= 24 && rounded >= 60 { n := n / 24; }
    Singular(Dec(n));
  }

  lemma Singular(d: string)
    ensures d + " hour" + "" + " ago" == d + " hour ago" && d + " hour" + "s" + " ago" == d + " hours ago"
    ensures d + " day" + "" + " ago" == d + " day ago" && d + " day" + "s" + " ago" == d + " days ago"
  {
    assert " hour" + "" + " ago" == " hour ago" && " hour" + "s" + " ago" == " hours ago";
    assert " day" + "" + " ago" == " day ago" && " day" + "s" + " ago" == " days ago";
    assert d + " hour" + "" + " ago" == d + (" hour" + "" + " ago")
      && d + " hour" + "s" + " ago" == d + (" hour" + "s" + " ago");
    assert d + " day" + "" + " ago" == d + (" day" + "" + " ago")
      && d + " day" + "s" + " ago" == d + (" day" + "s" + " ago");
  }

  /**
   When a line is printed at all: for a pending invitation with a deadline or a length, and for a started one of
   a single level not yet submitted.
   */
  lemma MetaIff(i: Invite, now: int)
    ensures Meta(i, now).Some? <==>
      || (i.status == AccruedPendingStart && (i.expiresAt.Some? || (i.level.Some? && i.durationMins > 0)))
      || (i.status == Started && i.level.Some? && !i.submitted && i.startedAt.Some?)
  {
    hide Dec, StartedAgo;
  }

  /** `n` days cover the time left, and no fewer. */
  predicate DaysLeft(i: Invite, now: int, n: nat) {
    i.expiresAt.Some? && i.expiresAt.value - now <= n * 86_400_000
      && (n > 0 ==> (n - 1) * 86_400_000 < i.expiresAt.value - now)
  }

  /** How the lines are worded. */
  lemma MetaSays(i: Invite, now: int, n: nat)
    requires i.status == AccruedPendingStart && DaysLeft(i, now, n)
    ensures i.level == None ==> Meta(i, now) == Some("start one within " + Dec(n) + " days")
    ensures i.level.Some? ==>
      var minutes := if i.durationMins > 0 then "~" + Dec(i.durationMins) + " min · " else "";
      Meta(i, now) == Some(minutes + "expires in " + Dec(n) + " days")
  {
    hide Dec;
    OneCount(i.expiresAt.value, now, n);
    Joined(Dec(i.durationMins), Dec(n));
  }

  lemma Joined(m: string, d: string)
    ensures "" + "expires in " + d + " days" == "expires in " + d + " days"
    ensures "~" + m + " min · " + "expires in " + d + " days" == ("~" + m + " min · ") + "expires in " + d + " days"
  {}

  lemma OneCount(expiresAt: int, now: int, n: nat)
    requires expiresAt - now <= n * 86_400_000 && (n > 0 ==> (n - 1) * 86_400_000 < expiresAt - now)
    ensures ExpiresInDays(expiresAt, now) == n
  {
    if n > 0 { assert (expiresAt - now + DAY - 1) / DAY == n; }
  }

  /**
   The chip of an invitation: there is one exactly while it waits to be started and has a deadline; today and tomorrow
   in words, later in the very number of days, and urgent up to two.
   */
  lemma ChipShows(i: Invite, now: int, n: nat)
    requires Meta(i, now).Some?
    ensures CopilotDeadline(Meta(i, now).value).Some? <==> i.status == AccruedPendingStart && i.expiresAt.Some?
    ensures i.status == AccruedPendingStart && DaysLeft(i, now, n) ==>
      CopilotDeadline(Meta(i, now).value) == Some(
        if n == 0 then Chip("Expires today — start one now", true)
        else if n == 1 then Chip("Expires tomorrow — start one today", true)
        else Chip("Start one within " + Dec(n) + " days", n == 2))
  {
    hide Dec, StartedAgo, Search, Meta;
    DeadlineReadsBack(i, now);
    if i.status == AccruedPendingStart && DaysLeft(i, now, n) { OneCount(i.expiresAt.value, now, n); }
  }

  lemma MinutesArePlain(n: nat)
    ensures Plain("~" + Dec(n) + " min · ") && Plain("~" + Dec(n) + " min")
  {
    hide Dec;
    DigitsArePlain(Dec(n));
  }

  /** Divided in doubles and rounded up, the number of days is the exact one: it cannot slip over a whole number. */
  lemma DaysInDoubles(ms: int, quotient: real)
    requires -LIMIT < ms < LIMIT && Rounds(ms as real / DAY as real, quotient)
    ensures (if Ceil(quotient) < 0 then 0 else Ceil(quotient)) == ExpiresInDays(ms, 0)
  {
    hide Double, Is, Two;
    var days := (ms + DAY - 1) / DAY;
    var x := ms as real / DAY as real;
    InDays(ms, x, days);
    Integers(days);
    NoCrossing(x, quotient, days as real);
    Powers();
    SmallError(x, quotient, 26);
    assert Ceil(quotient) == days;
  }

  lemma InDays(ms: int, x: real, days: int)
    requires -LIMIT < ms < LIMIT && x == ms as real / DAY as real && days == (ms + DAY - 1) / DAY
    ensures days as real - 1.0 + 1.0 / DAY as real <= x <= days as real
    ensures Abs(x) * 67_108_864.0 <= (LIMIT - 1) as real
  {
    assert DAY * (days - 1) + 1 <= ms <= DAY * days;
    assert ms as real == x * DAY as real;
  }
}
