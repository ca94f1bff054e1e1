/**
 Resuming is not repeating. The header of the import script says that re-running reproduces the
 same questions, because the shuffle is seeded (apps/api/prisma/seed-mcq-import.ts). But every start
 begins with the seed, and rows that are stored already draw nothing: the rows a killed run has
 left are shuffled with the numbers of the first ones. Here is what is stored after any number of
 killed runs and a complete one, and exactly when it is what an unbroken run would have stored.
 */
module McqResume {
  import opened McqImport
  import opened Shuffle
  import opened Wrappers

  /** A row to be imported, and the assessment it goes to. */
  datatype Item = Item(title: string, row: SourceRow)

  function ItemsOf(title: string, rows: seq<SourceRow>): seq<Item> {
    seq(|rows|, i requires 0 <= i < |rows| => Item(title, rows[i]))
  }

  /** The rows of all files, in the order in which a run handles them. */
  function Items(skills: set<string>, files: seq<seq<SourceRow>>): seq<Item> {
    if files == [] then []
    else
      var title := Title(skills, files[0]);
      (if title.Some? then ItemsOf(title.value, files[0]) else []) + Items(skills, files[1..])
  }

  predicate Known(db: Database, x: Item) {
    x.row.id in KnownIds(Questions(db, x.title))
  }

  /** The rows not stored yet. */
  function New(db: Database, xs: seq<Item>): seq<Item> {
    if xs == [] then [] else (if Known(db, xs[0]) then [] else [xs[0]]) + New(db, xs[1..])
  }

  function Added(db: Database, x: Item, a: nat): Database {
    db[x.title := Questions(db, x.title) + [StoredRow(x.row, a)]]
  }

  /** These rows stored one after the other, each shuffled from its state of the generator. */
  function Stored(db: Database, xs: seq<Item>, states: seq<nat>): Database
    requires |states| == |xs|
    decreases |xs|
  {
    if xs == [] then db else Stored(Added(db, xs[0], states[0]), xs[1..], states[1..])
  }

  /** The states one run of the generator passes through, three numbers for each row. */
  function Chain(a: nat, n: nat): (states: seq<nat>)
    ensures |states| == n
    decreases n
  {
    if n == 0 then [] else [a] + Chain(StateAfter(a, 3), n - 1)
  }

  /** Each run handles rows from the front; it begins with the seed at the first row its predecessors have left. */
  function Numbers(db: Database, xs: seq<Item>, from: nat, kills: seq<nat>): seq<nat>
    requires from <= |xs|
    decreases |kills|
  {
    if kills == [] then Chain(SHUFFLE_SEED, |New(db, xs[from..])|)
    else
      var to := Reached(xs, from, kills[0]);
      Chain(SHUFFLE_SEED, |New(db, xs[from..to])|) + Numbers(db, xs, to, kills[1..])
  }

  /** How far the rows are handled after one more run. */
  function Reached(xs: seq<Item>, from: nat, budget: nat): (to: nat)
    requires from <= |xs|
    ensures from <= to <= |xs|
  {
    if budget <= from then from else if budget <= |xs| then budget else |xs|
  }

  ghost predicate Same(d: Database, e: Database) {
    forall t: string :: Questions(d, t) == Questions(e, t)
  }

  /** No id comes up twice for one assessment, in whichever files. */
  ghost predicate DistinctItems(xs: seq<Item>) {
    forall i, j | 0 <= i < j < |xs| :: xs[i].title != xs[j].title || xs[i].row.id != xs[j].row.id
  }

  ghost predicate Titled(skills: set<string>, files: seq<seq<SourceRow>>) {
    forall f | f in files :: Title(skills, f).Some?
  }

  ghost predicate AnswerA(xs: seq<Item>) {
    forall x | x in xs :: AnswersA(x.row)
  }

  // ---------- rows and what is new of them ----------

  lemma NewHead(db: Database, x: Item, ys: seq<Item>)
    ensures New(db, [x] + ys) == (if Known(db, x) then [] else [x]) + New(db, ys)
  {
    hide Known;
    assert ([x] + ys)[1..] == ys;
  }

  lemma {:induction false} NewSplits(db: Database, xs: seq<Item>, ys: seq<Item>)
    ensures New(db, xs + ys) == New(db, xs) + New(db, ys)
    decreases |xs|
  {
    hide Known, New;
    if xs == [] {
      NewNone(db, []);
      assert xs + ys == ys;
    } else {
      NewSplits(db, xs[1..], ys);
      NewHead(db, xs[0], xs[1..]);
      NewHead(db, xs[0], xs[1..] + ys);
      assert xs + ys == [xs[0]] + (xs[1..] + ys) && xs == [xs[0]] + xs[1..];
    }
  }

  lemma {:induction false} NewAre(db: Database, xs: seq<Item>)
    ensures forall x :: x in New(db, xs) <==> x in xs && !Known(db, x)
    decreases |xs|
  {
    hide Known;
    if xs != [] {
      NewAre(db, xs[1..]);
      assert xs == [xs[0]] + xs[1..];
    }
  }

  lemma {:induction false} NewSame(d: Database, e: Database, xs: seq<Item>)
    requires forall x | x in xs :: Known(d, x) <==> Known(e, x)
    ensures New(d, xs) == New(e, xs)
    decreases |xs|
  {
    hide Known;
    if xs != [] { NewSame(d, e, xs[1..]); }
  }

  lemma {:induction false} NewNone(db: Database, xs: seq<Item>)
    requires forall x | x in xs :: Known(db, x)
    ensures New(db, xs) == []
    decreases |xs|
  {
    hide Known;
    if xs != [] { NewNone(db, xs[1..]); }
  }

  // ---------- storing ----------

  lemma {:induction false} StoredAppends(db: Database, xs: seq<Item>, ys: seq<Item>, ss: seq<nat>, tt: seq<nat>)
    requires |xs| == |ss| && |ys| == |tt|
    ensures Stored(db, xs + ys, ss + tt) == Stored(Stored(db, xs, ss), ys, tt)
    decreases |xs|
  {
    hide Added;
    if xs == [] {
      assert xs + ys == ys && ss + tt == tt;
    } else {
      StoredAppends(Added(db, xs[0], ss[0]), xs[1..], ys, ss[1..], tt);
      assert (xs + ys)[1..] == xs[1..] + ys && (ss + tt)[1..] == ss[1..] + tt;
    }
  }

  lemma {:induction false} ChainSplits(a: nat, m: nat, n: nat)
    requires a < TWO32
    ensures Chain(a, m + n) == Chain(a, m) + Chain(StateAfter(a, 3 * m), n)
    decreases m
  {
    hide StateAfter;
    StateAfterTwice(a, 0, 0);
    if m > 0 {
      ChainSplits(StateAfter(a, 3), m - 1, n);
      StateAfterTwice(a, 3, 3 * (m - 1));
    }
  }

  lemma {:induction false} ChainAt(a: nat, n: nat, j: nat)
    requires j < n && a < TWO32
    ensures Chain(a, n)[j] == StateAfter(a, 3 * j)
    decreases j
  {
    hide StateAfter;
    StateAfterTwice(a, 0, 0);
    if j > 0 {
      ChainAt(StateAfter(a, 3), n - 1, j - 1);
      StateAfterTwice(a, 3, 3 * (j - 1));
    }
  }

  lemma AddedAt(db: Database, x: Item, a: nat)
    ensures Questions(Added(db, x, a), x.title) == Questions(db, x.title) + [StoredRow(x.row, a)]
    ensures forall t: string | t != x.title :: Questions(Added(db, x, a), t) == Questions(db, t)
  {
    hide StoredRow;
  }

  lemma {:induction false} SameStored(d: Database, e: Database, xs: seq<Item>, ss: seq<nat>)
    requires Same(d, e) && |xs| == |ss|
    ensures Same(Stored(d, xs, ss), Stored(e, xs, ss))
    decreases |xs|
  {
    hide StoredRow, Added, Questions;
    if xs != [] {
      AddedAt(d, xs[0], ss[0]);
      AddedAt(e, xs[0], ss[0]);
      var t := xs[0].title;
      forall u: string ensures Questions(Added(d, xs[0], ss[0]), u) == Questions(Added(e, xs[0], ss[0]), u) {
        assert u == t || u != t;
      }
      SameStored(Added(d, xs[0], ss[0]), Added(e, xs[0], ss[0]), xs[1..], ss[1..]);
    }
  }

  ghost predicate SameLengths(d: Database, e: Database) {
    forall t: string :: |Questions(d, t)| == |Questions(e, t)|
  }

  lemma AddedSame(d: Database, e: Database, x: Item, a: nat, b: nat)
    requires SameLengths(d, e)
    ensures SameLengths(Added(d, x, a), Added(e, x, b))
    ensures Same(Added(d, x, a), Added(e, x, b)) <==> Same(d, e) && StoredRow(x.row, a) == StoredRow(x.row, b)
  {
    hide StoredRow, Added, Questions;
    AddedAt(d, x, a);
    AddedAt(e, x, b);
    var d', e', t := Added(d, x, a), Added(e, x, b), x.title;
    assert |Questions(d, t)| == |Questions(e, t)|;
    LastApart(Questions(d, t), Questions(e, t), StoredRow(x.row, a), StoredRow(x.row, b));
    forall u: string
      ensures |Questions(d', u)| == |Questions(e', u)|
      ensures u != t ==> (Questions(d', u) == Questions(e', u) <==> Questions(d, u) == Questions(e, u))
    {
      assert |Questions(d, u)| == |Questions(e, u)|;
    }
    if Same(d', e') {
      assert Questions(d', t) == Questions(e', t);
      forall u: string ensures Questions(d, u) == Questions(e, u) { assert Questions(d', u) == Questions(e', u); }
    }
    if Same(d, e) && StoredRow(x.row, a) == StoredRow(x.row, b) {
      forall u: string ensures Questions(d', u) == Questions(e', u) { assert Questions(d, u) == Questions(e, u); }
    }
  }

  lemma LastApart<T>(p: seq<T>, q: seq<T>, x: T, y: T)
    requires |p| == |q|
    ensures p + [x] == q + [y] <==> p == q && x == y
  {
    if p + [x] == q + [y] {
      assert p == (p + [x])[..|p|] && q == (q + [y])[..|q|];
      assert x == (p + [x])[|p|] && y == (q + [y])[|q|];
    }
  }

  /** The same rows stored from other states are the same questions exactly if each of them is. */
  lemma {:induction false} StoredAgreeIff(d: Database, e: Database, xs: seq<Item>, ss: seq<nat>, tt: seq<nat>)
    requires SameLengths(d, e) && |xs| == |ss| == |tt|
    ensures Same(Stored(d, xs, ss), Stored(e, xs, tt))
      <==> Same(d, e) && forall j | 0 <= j < |xs| :: StoredRow(xs[j].row, ss[j]) == StoredRow(xs[j].row, tt[j])
    decreases |xs|
  {
    hide StoredRow, Added, Same, SameLengths;
    if xs != [] {
      var x, ys, ss', tt' := xs[0], xs[1..], ss[1..], tt[1..];
      AddedSame(d, e, x, ss[0], tt[0]);
      StoredAgreeIff(Added(d, x, ss[0]), Added(e, x, tt[0]), ys, ss', tt');
      assert forall j | 0 < j < |xs| :: xs[j] == ys[j - 1] && ss[j] == ss'[j - 1] && tt[j] == tt'[j - 1];
      assert forall j | 0 <= j < |ys| :: ys[j] == xs[j + 1] && ss'[j] == ss[j + 1] && tt'[j] == tt[j + 1];
    }
  }

  predicate Among(x: Item, xs: seq<Item>) {
    exists w | w in xs :: w.title == x.title && w.row.id == x.row.id
  }

  lemma KnownAdded(db: Database, w: Item, a: nat, x: Item)
    requires w.row.id != ""
    ensures Known(Added(db, w, a), x) <==> Known(db, x) || (w.title == x.title && w.row.id == x.row.id)
  {
    hide StoredRow, KnownIds;
    KnownGrows(Questions(db, w.title), w.row, a);
  }

  lemma {:induction false} KnownStored(db: Database, xs: seq<Item>, ss: seq<nat>, x: Item)
    requires |xs| == |ss| && forall w | w in xs :: w.row.id != ""
    ensures Known(Stored(db, xs, ss), x) <==> Known(db, x) || Among(x, xs)
    decreases |xs|
  {
    hide Known, Added;
    if xs != [] {
      assert xs == [xs[0]] + xs[1..];
      KnownAdded(db, xs[0], ss[0], x);
      KnownStored(Added(db, xs[0], ss[0]), xs[1..], ss[1..], x);
    }
  }

  lemma SameKnown(d: Database, e: Database, x: Item)
    requires Same(d, e)
    ensures Known(d, x) <==> Known(e, x)
  {}

  // ---------- what a run stores ----------

  function Min(a: nat, b: nat): nat {
    if a <= b then a else b
  }

  /** The items the row loop comes to handle. */
  function Handled(title: string, rows: seq<SourceRow>, budget: nat): seq<Item> {
    ItemsOf(title, rows[..Min(budget, |rows|)])
  }

  lemma HandledHead(title: string, rows: seq<SourceRow>, budget: nat)
    ensures rows == [] || budget == 0 ==> Handled(title, rows, budget) == []
    ensures rows != [] && budget > 0
      ==> Handled(title, rows, budget) == [Item(title, rows[0])] + Handled(title, rows[1..], budget - 1)
  {}

  lemma StoredHead(db: Database, x: Item, w: seq<Item>, a: nat)
    ensures Stored(db, [x] + w, Chain(a, |[x] + w|)) == Stored(Added(db, x, a), w, Chain(StateAfter(a, 3), |w|))
  {
    hide Added, StateAfter;
    var states := Chain(a, |[x] + w|);
    assert ([x] + w)[1..] == w && states[0] == a && states[1..] == Chain(StateAfter(a, 3), |w|);
  }

  lemma Overwritten(db: Database, x: Item, a: nat, stored: seq<Question>)
    ensures Added(db, x, a)[x.title := stored] == db[x.title := stored]
  {
    hide Questions, StoredRow;
  }

  /** The row loop on rows of one title; `was` is any database with the ids under it that the loop skips. */
  lemma {:induction false} RowsRunIs(was: Database, db: Database, title: string, a: nat, rows: seq<SourceRow>,
    budget: nat)
    requires a < TWO32 && AnswerA(New(was, Handled(title, rows, budget)))
    ensures var w := New(was, Handled(title, rows, budget));
      var p := RowsRun(KnownIds(Questions(was, title)), Questions(db, title), a, rows, budget);
      && Same(db[title := p.stored], Stored(db, w, Chain(a, |w|)))
      && p.a == StateAfter(a, 3 * |w|)
      && p.budget == budget - Min(budget, |rows|) && p.outcome == if |rows| <= budget then Done else Killed
    decreases |rows|
  {
    hide StoredRow, KnownIds, StateAfter, AnswersA, Questions, New, Stored, Chain, Handled, Same, Added;
    StateAfterTwice(a, 0, 0);
    HandledHead(title, rows, budget);
    if rows == [] || budget == 0 {
      NothingNewOf(was, db, a);
      Untouched(db, title);
    } else {
      var x, ys := Item(title, rows[0]), Handled(title, rows[1..], budget - 1);
      NewHead(was, x, ys);
      assert Known(was, x) <==> rows[0].id in KnownIds(Questions(was, title));
      if Known(was, x) {
        assert [] + New(was, ys) == New(was, ys);
        RowsRunIs(was, db, title, a, rows[1..], budget - 1);
      } else {
        var v := New(was, ys);
        FirstAnswersA(x, v);
        RowsRunIs(was, Added(db, x, a), title, StateAfter(a, 3), rows[1..], budget - 1);
        AddedAt(db, x, a);
        StoredHead(db, x, v, a);
        StateAfterTwice(a, 3, 3 * |v|);
        Overwritten(db, x, a, RowsRun(KnownIds(Questions(was, title)), Questions(db, title), a, rows, budget).stored);
      }
    }
  }

  lemma FirstAnswersA(x: Item, v: seq<Item>)
    requires AnswerA([x] + v)
    ensures AnswersA(x.row) && AnswerA(v)
  {
    assert ([x] + v)[0] == x && forall k | 0 <= k < |v| :: ([x] + v)[k + 1] == v[k];
  }

  lemma NothingNewOf(was: Database, db: Database, a: nat)
    ensures New(was, []) == [] && Stored(db, [], Chain(a, 0)) == db
  {}

  lemma Untouched(db: Database, title: string)
    ensures Same(db[title := Questions(db, title)], db)
  {}

  lemma MembersApart(xs: seq<Item>, ys: seq<Item>, x: Item)
    requires DistinctItems(xs + ys) && x in ys
    ensures !Among(x, xs)
  {
    var k :| 0 <= k < |ys| && ys[k] == x;
    forall i | 0 <= i < |xs| ensures xs[i].title != x.title || xs[i].row.id != x.row.id {
      assert (xs + ys)[i] == xs[i] && (xs + ys)[|xs| + k] == x;
    }
  }

  lemma TailIsDistinct(xs: seq<Item>, ys: seq<Item>)
    requires DistinctItems(xs + ys)
    ensures DistinctItems(ys)
  {
    assert forall i | 0 <= i < |ys| :: (xs + ys)[|xs| + i] == ys[i];
  }

  /** Rows with other ids are as new after these have been stored as before. */
  lemma StillNew(db: Database, now: Database, xs: seq<Item>, w: seq<Item>, ss: seq<nat>, ys: seq<Item>)
    requires |w| == |ss| && (forall x | x in w :: x in xs) && (forall x | x in xs :: x.row.id != "")
    requires DistinctItems(xs + ys) && Same(now, Stored(db, w, ss))
    ensures New(now, ys) == New(db, ys)
  {
    hide Known, Same, DistinctItems, Stored, New, Among;
    forall y | y in ys ensures Known(now, y) <==> Known(db, y) {
      MembersApart(xs, ys, y);
      FewerAmong(y, w, xs);
      KnownStored(db, w, ss, y);
      SameKnown(now, Stored(db, w, ss), y);
    }
    NewSame(now, db, ys);
  }

  lemma FewerAmong(x: Item, w: seq<Item>, xs: seq<Item>)
    requires forall y | y in w :: y in xs
    ensures Among(x, w) ==> Among(x, xs)
  {}

  lemma FileItems(skills: set<string>, files: seq<seq<SourceRow>>)
    requires files != [] && Titled(skills, files)
    ensures Titled(skills, files[1..]) && Title(skills, files[0]).Some?
    ensures Items(skills, files) == ItemsOf(Title(skills, files[0]).value, files[0]) + Items(skills, files[1..])
  {
    hide Title;
    assert files[0] in files;
  }

  lemma {:induction false} IdsAreThere(skills: set<string>, files: seq<seq<SourceRow>>)
    requires Titled(skills, files)
    ensures forall x | x in Items(skills, files) :: x.row.id != ""
    decreases |files|
  {
    hide Title;
    if files != [] {
      FileItems(skills, files);
      CompleteRows(skills, files[0]);
      IdsAreThere(skills, files[1..]);
      assert forall x | x in ItemsOf(Title(skills, files[0]).value, files[0]) :: x.row in files[0];
    }
  }

  /** The first `n` of two files' rows. */
  lemma FirstOfBoth(xs: seq<Item>, ys: seq<Item>, n: nat)
    ensures var zs := xs + ys;
      zs[..Min(n, |zs|)] == if n < |xs| then xs[..n] else xs + ys[..Min(n - |xs|, |ys|)]
  {}

  lemma HandledAre(title: string, rows: seq<SourceRow>, budget: nat)
    ensures var xs := ItemsOf(title, rows); |xs| == |rows| && Handled(title, rows, budget) == xs[..Min(budget, |xs|)]
  {}

  /** A run stores the new ones of the rows it comes to handle, in order. */
  lemma {:induction false} FilesRunIs(skills: set<string>, db: Database, a: nat, files: seq<seq<SourceRow>>,
    budget: nat)
    requires a < TWO32 && Titled(skills, files) && DistinctItems(Items(skills, files))
    requires var xs := Items(skills, files); AnswerA(New(db, xs[..Min(budget, |xs|)]))
    ensures var xs := Items(skills, files); var w := New(db, xs[..Min(budget, |xs|)]);
      var s := FilesRun(skills, db, a, files, budget);
      Same(s.db, Stored(db, w, Chain(a, |w|))) && s.outcome == if |xs| <= budget then Done else Killed
    decreases |files|
  {
    hide StoredRow, KnownIds, StateAfter, AnswersA, Questions, New, Stored, Chain, Handled, Same, Title, RowsRun,
      ItemsOf, DistinctItems, Titled, AnswerA;
    if files == [] {
      NothingNewOf(db, db, a);
      SameAsItself(db);
    } else {
      FileItems(skills, files);
      var f, title, rest := files[0], Title(skills, files[0]).value, Items(skills, files[1..]);
      var xs := ItemsOf(title, f);
      HandledAre(title, f, budget);
      FirstOfBoth(xs, rest, budget);
      TailIsDistinct(xs, rest);
      if budget < |f| {
        RowsRunIs(db, db, title, a, f, budget);
      } else {
        var v, w := New(db, xs), New(db, rest[..Min(budget - |f|, |rest|)]);
        assert xs[..|xs|] == xs;
        NewSplits(db, xs, rest[..Min(budget - |f|, |rest|)]);
        BothAnswerA(v, w);
        RowsRunIs(db, db, title, a, f, budget);
        var s := FileRun(skills, db, a, f, budget);
        RestIsAsNew(skills, db, s.db, files, Chain(a, |v|), Min(budget - |f|, |rest|));
        FilesRunIs(skills, s.db, s.a, files[1..], budget - |f|);
        OneAfterTheOther(db, s.db, FilesRun(skills, s.db, s.a, files[1..], budget - |f|).db, a, v, w);
      }
    }
  }

  lemma SameAsItself(db: Database)
    ensures Same(db, db)
  {}

  lemma BothAnswerA(v: seq<Item>, w: seq<Item>)
    requires AnswerA(v + w)
    ensures AnswerA(v) && AnswerA(w)
  {
    assert forall x | x in v || x in w :: x in v + w;
  }

  lemma RestIsAsNew(skills: set<string>, db: Database, now: Database, files: seq<seq<SourceRow>>, states: seq<nat>,
    n: nat)
    requires files != [] && Titled(skills, files) && DistinctItems(Items(skills, files))
      && n <= |Items(skills, files[1..])|
    requires Title(skills, files[0]).Some?
    requires var v := New(db, ItemsOf(Title(skills, files[0]).value, files[0]));
      |states| == |v| && Same(now, Stored(db, v, states))
    ensures var ys := Items(skills, files[1..])[..n]; New(now, ys) == New(db, ys)
  {
    hide New, Same, Stored, DistinctItems, Title, ItemsOf, Known;
    FileItems(skills, files);
    IdsAreThere(skills, files);
    var xs, rest := ItemsOf(Title(skills, files[0]).value, files[0]), Items(skills, files[1..]);
    NewAre(db, xs);
    FrontIsDistinct(xs, rest, n);
    StillNew(db, now, xs, New(db, xs), states, rest[..n]);
  }

  lemma FrontIsDistinct(xs: seq<Item>, ys: seq<Item>, n: nat)
    requires DistinctItems(xs + ys) && n <= |ys|
    ensures DistinctItems(xs + ys[..n])
  {
    var zs := xs + ys[..n];
    assert forall i | 0 <= i < |zs| :: zs[i] == (xs + ys)[i];
  }

  lemma OneAfterTheOther(db: Database, now: Database, end: Database, a: nat, v: seq<Item>, w: seq<Item>)
    requires a < TWO32 && Same(now, Stored(db, v, Chain(a, |v|)))
    requires Same(end, Stored(now, w, Chain(StateAfter(a, 3 * |v|), |w|)))
    ensures Same(end, Stored(db, v + w, Chain(a, |v + w|)))
  {
    hide Same, Stored, Chain, StateAfter;
    var ss, tt := Chain(a, |v|), Chain(StateAfter(a, 3 * |v|), |w|);
    ChainSplits(a, |v|, |w|);
    StoredAppends(db, v, w, ss, tt);
    SameStored(now, Stored(db, v, ss), w, tt);
    SameTwice(end, Stored(now, w, tt), Stored(Stored(db, v, ss), w, tt));
  }

  lemma SameTwice(c: Database, d: Database, e: Database)
    requires Same(c, d) && Same(d, e)
    ensures Same(c, e)
  {}

  // ---------- killed runs, then a complete one ----------

  /** After the first `from` rows, what a further run has to store: nothing of them, and all that is new after them. */
  lemma NewAfter(was: Database, db: Database, xs: seq<Item>, from: nat, ss: seq<nat>, budget: nat)
    requires DistinctItems(xs) && from <= |xs| && forall x | x in xs :: x.row.id != ""
    requires |ss| == |New(was, xs[..from])| && Same(db, Stored(was, New(was, xs[..from]), ss))
    ensures New(db, xs[..Min(budget, |xs|)]) == New(was, xs[from..Reached(xs, from, budget)])
  {
    hide Known, Same, Stored, New, Among, DistinctItems;
    var m, done := Min(budget, |xs|), New(was, xs[..from]);
    NewAre(was, xs[..from]);
    forall x | x in xs[..from] ensures Known(db, x) {
      KnownStored(was, done, ss, x);
      SameKnown(db, Stored(was, done, ss), x);
      if !Known(was, x) { AmongMembers(x, done); }
    }
    if m <= from {
      assert forall x | x in xs[..m] :: x in xs[..from];
      NewNone(db, xs[..m]);
      NewNone(was, []);
      assert xs[from..Reached(xs, from, budget)] == [];
    } else {
      assert xs == xs[..from] + xs[from..];
      assert xs[..m] == xs[..from] + xs[from..m];
      assert xs[from..m] == xs[from..][..m - from];
      FrontIsDistinct(xs[..from], xs[from..], m - from);
      NewSplits(db, xs[..from], xs[from..m]);
      NewNone(db, xs[..from]);
      StillNew(was, db, xs[..from], done, ss, xs[from..m]);
    }
  }

  lemma AmongMembers(x: Item, xs: seq<Item>)
    requires x in xs
    ensures Among(x, xs)
  {}

  lemma SomeAnswerA(db: Database, xs: seq<Item>, from: nat, to: nat)
    requires from <= to <= |xs| && AnswerA(New(db, xs))
    ensures AnswerA(New(db, xs[from..to]))
  {
    hide Known;
    NewAre(db, xs);
    NewAre(db, xs[from..to]);
  }

  lemma NewUpTo(db: Database, xs: seq<Item>, from: nat, to: nat)
    requires from <= to <= |xs|
    ensures New(db, xs[..to]) == New(db, xs[..from]) + New(db, xs[from..to])
  {
    assert xs[..to] == xs[..from] + xs[from..to];
    NewSplits(db, xs[..from], xs[from..to]);
  }

  /** `db` is what runs have made of `was` that came to handle the first `from` rows, shuffling from the states `ss`. */
  ghost predicate Resumable(skills: set<string>, files: seq<seq<SourceRow>>, was: Database, db: Database, from: nat,
    ss: seq<nat>) {
    var xs := Items(skills, files);
    && Titled(skills, files) && DistinctItems(xs) && AnswerA(New(was, xs))
    && from <= |xs| && |ss| == |New(was, xs[..from])| && Same(db, Stored(was, New(was, xs[..from]), ss))
  }

  lemma OneMoreRun(skills: set<string>, files: seq<seq<SourceRow>>, was: Database, db: Database, from: nat,
    ss: seq<nat>, budget: nat)
    requires Resumable(skills, files, was, db, from, ss)
    ensures var xs := Items(skills, files); var to := Reached(xs, from, budget);
      && Resumable(skills, files, was, Run(skills, db, files, budget).db, to,
        ss + Chain(SHUFFLE_SEED, |New(was, xs[from..to])|))
      && Run(skills, db, files, budget).outcome == if |xs| <= budget then Done else Killed
  {
    hide Items, Titled, DistinctItems, AnswerA, New, Same, Stored, FilesRun, Chain;
    var xs := Items(skills, files);
    var to := Reached(xs, from, budget);
    var done, w := New(was, xs[..from]), New(was, xs[from..to]);
    var tt := Chain(SHUFFLE_SEED, |w|);
    IdsAreThere(skills, files);
    NewAfter(was, db, xs, from, ss, budget);
    SomeAnswerA(was, xs, from, to);
    FilesRunIs(skills, db, SHUFFLE_SEED, files, budget);
    SameStored(db, Stored(was, done, ss), w, tt);
    StoredAppends(was, done, w, ss, tt);
    SameTwice(Run(skills, db, files, budget).db, Stored(db, w, tt), Stored(was, done + w, ss + tt));
    NewUpTo(was, xs, from, to);
  }

  /** Killed runs and a complete one store each new row once, from the states of `Numbers`. */
  lemma {:induction false} RestartedIs(skills: set<string>, files: seq<seq<SourceRow>>, was: Database, db: Database,
    from: nat, ss: seq<nat>, kills: seq<nat>, last: nat)
    requires Resumable(skills, files, was, db, from, ss) && |Items(skills, files)| <= last
    ensures var xs := Items(skills, files); var s := Run(skills, Restarted(skills, db, files, kills), files, last);
      && s.outcome == Done && Resumable(skills, files, was, s.db, |xs|, ss + Numbers(was, xs, from, kills))
    decreases |kills|
  {
    hide Items, Resumable, Run, Chain, New;
    var xs := Items(skills, files);
    FromIsWithin(skills, files, was, db, from, ss);
    if kills == [] {
      OneMoreRun(skills, files, was, db, from, ss, last);
      assert xs[from..|xs|] == xs[from..];
    } else {
      var to := Reached(xs, from, kills[0]);
      var tt := Chain(SHUFFLE_SEED, |New(was, xs[from..to])|);
      OneMoreRun(skills, files, was, db, from, ss, kills[0]);
      RestartedIs(skills, files, was, Run(skills, db, files, kills[0]).db, to, ss + tt, kills[1..], last);
      assert ss + tt + Numbers(was, xs, to, kills[1..]) == ss + (tt + Numbers(was, xs, to, kills[1..]));
    }
  }

  lemma FromIsWithin(skills: set<string>, files: seq<seq<SourceRow>>, was: Database, db: Database, from: nat,
    ss: seq<nat>)
    requires Resumable(skills, files, was, db, from, ss)
    ensures from <= |Items(skills, files)|
  {}

  function Titles(skills: set<string>, files: seq<seq<SourceRow>>): set<string> {
    set f | f in files && Title(skills, f).Some? :: Title(skills, f).value
  }

  lemma {:induction false} FilesKeys(skills: set<string>, all: seq<seq<SourceRow>>, db: Database, a: nat,
    rest: seq<seq<SourceRow>>, budget: nat)
    requires forall f | f in rest :: f in all
    ensures var s := FilesRun(skills, db, a, rest, budget);
      && db.Keys <= s.db.Keys <= db.Keys + Titles(skills, all)
      && (s.outcome == Done ==> forall f | f in rest && Title(skills, f).Some? :: Title(skills, f).value in s.db.Keys)
    decreases |rest|
  {
    hide Title, RowsRun, KnownIds, Questions;
    if rest != [] {
      assert rest[0] in all && rest == [rest[0]] + rest[1..];
      var s := FileRun(skills, db, a, rest[0], budget);
      if s.outcome == Done { FilesKeys(skills, all, s.db, s.a, rest[1..], s.budget); }
    }
  }

  lemma {:induction false} RestartedKeys(skills: set<string>, files: seq<seq<SourceRow>>, db: Database, kills: seq<nat>)
    ensures db.Keys <= Restarted(skills, db, files, kills).Keys <= db.Keys + Titles(skills, files)
    decreases |kills|
  {
    hide FilesRun, Titles;
    if kills != [] {
      FilesKeys(skills, files, db, SHUFFLE_SEED, files, kills[0]);
      RestartedKeys(skills, files, Run(skills, db, files, kills[0]).db, kills[1..]);
    }
  }

  /** A run that ends well leaves the assessments there were and those of the files. */
  lemma EndKeys(skills: set<string>, files: seq<seq<SourceRow>>, db: Database, kills: seq<nat>, last: nat)
    requires Run(skills, Restarted(skills, db, files, kills), files, last).outcome == Done
    ensures Run(skills, Restarted(skills, db, files, kills), files, last).db.Keys == db.Keys + Titles(skills, files)
  {
    hide FilesRun, Title;
    RestartedKeys(skills, files, db, kills);
    FilesKeys(skills, files, Restarted(skills, db, files, kills), SHUFFLE_SEED, files, last);
  }

  lemma EqualIffSame(d: Database, e: Database)
    requires d.Keys == e.Keys
    ensures d == e <==> Same(d, e)
  {
    if Same(d, e) {
      forall t | t in d ensures d[t] == e[t] { assert Questions(d, t) == Questions(e, t); }
    }
  }

  lemma NothingRunYet(skills: set<string>, files: seq<seq<SourceRow>>, was: Database)
    requires Titled(skills, files) && DistinctItems(Items(skills, files)) && AnswerA(New(was, Items(skills, files)))
    ensures Resumable(skills, files, was, was, 0, [])
  {
    assert Items(skills, files)[..0] == [];
  }

  /**
   Whatever database there was, kill the import any number of times and let it finish, or let it finish at once:
   the two databases are equal exactly if every row is shuffled alike from the state it is handled in and from
   the state an unbroken run handles it in.
   */
  lemma ResumedIff(skills: set<string>, files: seq<seq<SourceRow>>, was: Database, kills: seq<nat>, last: nat)
    requires Titled(skills, files) && DistinctItems(Items(skills, files)) && AnswerA(New(was, Items(skills, files)))
    requires |Items(skills, files)| <= last
    ensures var todo, ss := New(was, Items(skills, files)), Numbers(was, Items(skills, files), 0, kills);
      var resumed, unbroken := Run(skills, Restarted(skills, was, files, kills), files, last),
        Run(skills, was, files, last);
      && resumed.outcome == unbroken.outcome == Done && |ss| == |todo|
      && Same(resumed.db, Stored(was, todo, ss))
      && (resumed.db == unbroken.db
          <==> forall j | 0 <= j < |todo| ::
            StoredRow(todo[j].row, ss[j]) == StoredRow(todo[j].row, StateAfter(SHUFFLE_SEED, 3 * j)))
  {
    hide Items, Titled, DistinctItems, AnswerA, Run, Same, SameLengths, StoredRow, StateAfter, Stored, New,
      Resumable, Titles, Numbers, Chain;
    var xs := Items(skills, files);
    var todo, ss, tt := New(was, xs), Numbers(was, xs, 0, kills), Numbers(was, xs, 0, []);
    var resumed, unbroken := Run(skills, Restarted(skills, was, files, kills), files, last).db,
      Run(skills, was, files, last).db;
    NothingRunYet(skills, files, was);
    RestartedIs(skills, files, was, was, 0, [], kills, last);
    RestartedIs(skills, files, was, was, 0, [], [], last);
    assert xs[..|xs|] == xs && [] + ss == ss && [] + tt == tt;
    AllStored(skills, files, was, resumed, ss);
    AllStored(skills, files, was, unbroken, tt);
    Unbroken(was, xs);
    EndKeys(skills, files, was, kills, last);
    EndKeys(skills, files, was, [], last);
    EqualIffSame(resumed, unbroken);
    SameAsItself(was);
    EqualLengths(was);
    StoredAgreeIff(was, was, todo, ss, tt);
    SameOnBothSides(resumed, unbroken, Stored(was, todo, ss), Stored(was, todo, tt));
    forall j | 0 <= j < |todo| ensures tt[j] == StateAfter(SHUFFLE_SEED, 3 * j) { ChainAt(SHUFFLE_SEED, |todo|, j); }
  }

  lemma AllStored(skills: set<string>, files: seq<seq<SourceRow>>, was: Database, db: Database, ss: seq<nat>)
    requires Resumable(skills, files, was, db, |Items(skills, files)|, ss)
    ensures var todo := New(was, Items(skills, files)); |ss| == |todo| && Same(db, Stored(was, todo, ss))
  {
    hide Items, Titled, DistinctItems, AnswerA, Same, Stored, New;
    assert Items(skills, files)[..|Items(skills, files)|] == Items(skills, files);
  }

  lemma Unbroken(was: Database, xs: seq<Item>)
    ensures Numbers(was, xs, 0, []) == Chain(SHUFFLE_SEED, |New(was, xs)|)
  {
    assert xs[0..] == xs;
  }

  lemma EqualLengths(db: Database)
    ensures SameLengths(db, db)
  {}

  lemma SameOnBothSides(c: Database, d: Database, c': Database, d': Database)
    requires Same(c, c') && Same(d, d')
    ensures Same(c, d) <==> Same(c', d')
  {
    if Same(c', d') {
      forall t: string ensures Questions(c, t) == Questions(d, t) { assert Questions(c, t) == Questions(c', t); }
    }
    if Same(c, d) {
      forall t: string ensures Questions(c', t) == Questions(d', t) { assert Questions(c, t) == Questions(c', t); }
    }
  }

  /** A row of four different options is shuffled alike from two states exactly if these give the same numbers. */
  lemma SameRowIff(row: SourceRow, a: nat, b: nat)
    requires Distinct(Options(row))
    ensures StoredRow(row, a) == StoredRow(row, b) <==> Drawn(a, 4) == Drawn(b, 4)
  {
    hide Shuffled, Drawn, AnswerAt, Distinct;
    ShuffleIsInjective(Options(row), Drawn(a, 4));
    ShuffleIsInjective(Options(row), Drawn(b, 4));
  }

  ghost predicate FourOptions(xs: seq<Item>) {
    forall x | x in xs :: Distinct(Options(x.row))
  }

  /** Where a run begun at row `n` is in its numbers when it comes to row `j`. */
  function Since(n: nat, j: nat): nat {
    if j < n then j else j - n
  }

  /** The `i`-th and the `j`-th row of an unbroken run draw the same numbers. */
  predicate DrawAlike(i: nat, j: nat) {
    Drawn(StateAfter(SHUFFLE_SEED, 3 * i), 4) == Drawn(StateAfter(SHUFFLE_SEED, 3 * j), 4)
  }

  /**
   Killed once, with `n` new rows stored: the results agree exactly if every row draws what the row `n` places
   before it draws.
   */
  lemma ResumedOnceIff(skills: set<string>, files: seq<seq<SourceRow>>, was: Database, kill: nat, last: nat)
    requires Titled(skills, files) && DistinctItems(Items(skills, files)) && AnswerA(New(was, Items(skills, files)))
    requires |Items(skills, files)| <= last && FourOptions(New(was, Items(skills, files)))
    ensures var xs := Items(skills, files); var n, todo := |New(was, xs[..Min(kill, |xs|)])|, |New(was, xs)|;
      n <= todo &&
      (Run(skills, Run(skills, was, files, kill).db, files, last).db == Run(skills, was, files, last).db
       <==> forall j: nat | n <= j < todo :: DrawAlike(Since(n, j), j))
  {
    hide Items, Titled, DistinctItems, AnswerA, Run, Same, StoredRow, StateAfter, Stored, Drawn, New, Chain,
      Numbers, Distinct;
    var xs := Items(skills, files);
    var todo, n, ss := New(was, xs), |New(was, xs[..Min(kill, |xs|)])|, Numbers(was, xs, 0, [kill]);
    ResumedIff(skills, files, was, [kill], last);
    KilledOnce(skills, files, was, kill);
    OneKill(was, xs, kill);
    forall j: nat | j < |todo|
      ensures StoredRow(todo[j].row, ss[j]) == StoredRow(todo[j].row, StateAfter(SHUFFLE_SEED, 3 * j))
        <==> DrawAlike(Since(n, j), j)
    {
      assert todo[j] in todo;
      SameRowIff(todo[j].row, ss[j], StateAfter(SHUFFLE_SEED, 3 * j));
    }
  }

  lemma KilledOnce(skills: set<string>, files: seq<seq<SourceRow>>, was: Database, kill: nat)
    ensures Restarted(skills, was, files, [kill]) == Run(skills, was, files, kill).db
  {
    assert [kill][1..] == [];
  }

  /** The numbers of a run killed once. */
  lemma OneKill(was: Database, xs: seq<Item>, kill: nat)
    ensures var m := Min(kill, |xs|); var n, ss := |New(was, xs[..m])|, Numbers(was, xs, 0, [kill]);
      n <= |New(was, xs)| == |ss|
      && forall j: nat | j < |ss| :: ss[j] == StateAfter(SHUFFLE_SEED, 3 * Since(n, j))
  {
    hide New, StateAfter, Chain;
    var m := Min(kill, |xs|);
    assert xs[0..m] == xs[..m] && xs[..|xs|] == xs && xs[m..|xs|] == xs[m..];
    NewUpTo(was, xs, m, |xs|);
    var n, rest, ss := |New(was, xs[..m])|, |New(was, xs[m..])|, Numbers(was, xs, 0, [kill]);
    assert [kill][1..] == [] && Reached(xs, 0, kill) == m;
    assert Numbers(was, xs, m, []) == Chain(SHUFFLE_SEED, rest);
    assert ss == Chain(SHUFFLE_SEED, |New(was, xs[0..m])|) + Numbers(was, xs, m, [kill][1..]);
    forall j: nat | j < n + rest ensures ss[j] == StateAfter(SHUFFLE_SEED, 3 * Since(n, j)) {
      if j < n { ChainAt(SHUFFLE_SEED, n, j); } else { ChainAt(SHUFFLE_SEED, rest, j - n); }
    }
  }

  lemma FirstDraws()
    ensures Draw(SHUFFLE_SEED, 4, 3) == 2 && Draw(StateAfter(SHUFFLE_SEED, 3), 4, 3) == 0
  {
    hide Mix;
    MixValues();
    assert StateAfter(SHUFFLE_SEED, 1) == 1832466738;
    assert StateAfter(StateAfter(SHUFFLE_SEED, 3), 1) == 3032196881;
  }

  lemma MixValues()
    ensures Mix(1832466738) == 2552174314 && Mix(3032196881) == 186201001
  {}

  /** The first and the second row of a run are shuffled differently: option C goes to the end, or option A. */
  lemma ResumedRowDiffers(row: SourceRow)
    ensures StoredRow(row, SHUFFLE_SEED).options[3] == row.c
      && StoredRow(row, StateAfter(SHUFFLE_SEED, 3)).options[3] == row.a
    ensures row.a != row.c ==> StoredRow(row, SHUFFLE_SEED) != StoredRow(row, StateAfter(SHUFFLE_SEED, 3))
  {
    hide Draw, StateAfter;
    FirstDraws();
    ShuffledStep(Options(row), Drawn(SHUFFLE_SEED, 4));
    ShuffledStep(Options(row), Drawn(StateAfter(SHUFFLE_SEED, 3), 4));
  }

  /**
   Two new rows, the second with options A and C that differ: killed between them, the import leaves another
   database than unbroken.
   */
  lemma TwoRowsDiffer(skills: set<string>, first: SourceRow, second: SourceRow)
    requires Title(skills, [first, second]).Some?
    requires first.id != second.id && AnswersA(first) && AnswersA(second) && second.a != second.c
    ensures Run(skills, Run(skills, map[], [[first, second]], 1).db, [[first, second]], 2).db
      != Run(skills, map[], [[first, second]], 2).db
  {
    hide StoredRow, StateAfter, Title, Drawn, Run, AnswersA;
    var files, title := [[first, second]], Title(skills, [first, second]).value;
    var x, y := Item(title, first), Item(title, second);
    var xs := [x, y];
    TwoItems(skills, first, second);
    TwoNew(xs);
    var ss := Numbers(map[], xs, 0, [1]);
    OneKill(map[], xs, 1);
    KilledOnce(skills, files, map[], 1);
    ResumedIff(skills, files, map[], [1], 2);
    ResumedRowDiffers(second);
    assert Since(1, 1) == 0;
    StateAfterTwice(SHUFFLE_SEED, 0, 0);
    assert StoredRow(xs[1].row, ss[1]) != StoredRow(xs[1].row, StateAfter(SHUFFLE_SEED, 3 * 1));
  }

  lemma TwoItems(skills: set<string>, first: SourceRow, second: SourceRow)
    requires Title(skills, [first, second]).Some?
    ensures var title := Title(skills, [first, second]).value;
      Items(skills, [[first, second]]) == [Item(title, first), Item(title, second)]
    ensures Titled(skills, [[first, second]])
  {
    hide Title;
    var files := [[first, second]];
    assert files[1..] == [];
    assert Items(skills, files[1..]) == [];
  }

  lemma TwoNew(xs: seq<Item>)
    requires |xs| == 2
    ensures New(map[], xs) == xs && New(map[], xs[..1]) == xs[..1]
  {
    forall x: Item ensures !Known(map[], x) {}
    assert New(map[], xs[1..][1..]) == [];
    assert New(map[], xs[1..]) == xs[1..];
    assert xs == [xs[0]] + xs[1..];
    assert xs[..1] == [xs[0]] && xs[..1][1..] == [];
  }

  /** Such a file. */
  lemma ExampleDiffers()
    ensures var files := [[ExampleRow("1"), ExampleRow("2")]];
      Run({"Agents"}, Run({"Agents"}, map[], files, 1).db, files, 2).db != Run({"Agents"}, map[], files, 2).db
  {
    hide Run;
    var rows := [ExampleRow("1"), ExampleRow("2")];
    ExampleTitle("1", "2");
    TwoRowsDiffer({"Agents"}, rows[0], rows[1]);
  }
}
