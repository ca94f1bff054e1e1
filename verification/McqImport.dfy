/**
 The resumable MCQ import (apps/api/prisma/seed-mcq-import.ts): every file's rows
 are stored once under the file's assessment, options shuffled, and a run that
 died part-way is picked up by running the script again.

 `budget` is the environment's: the process dies when that many rows have been
 handled. Nothing else about the run is uncertain.
 */
module McqImport {
  import opened Shuffle
  import opened Wrappers

  /** A spreadsheet row after trimming; a missing cell is the empty string. */
  datatype SourceRow = SourceRow(id: string, skill: string, level: string, text: string,
    a: string, b: string, c: string, d: string, correct: string, explanation: string, topic: string)

  /** A stored question. One that this script wrote carries its source id. */
  datatype Question = Question(sourceId: Option<string>, text: string, options: seq<string>, answer: nat,
    explanation: string, topic: string)

  type Database = map<string, seq<Question>>

  datatype Outcome = Done | Threw | Killed

  const SHUFFLE_SEED: nat := 900925

  function Options(row: SourceRow): (options: seq<string>)
    ensures |options| == 4
  {
    [row.a, row.b, row.c, row.d]
  }

  predicate Complete(row: SourceRow) {
    row.id != "" && row.skill != "" && row.level != "" && row.text != ""
    && row.a != "" && row.b != "" && row.c != "" && row.d != "" && row.correct != ""
  }

  predicate AnswersA(row: SourceRow) {
    row.correct == "A" || row.correct == "a"
  }

  // ---------- one file ----------

  function LevelName(level: string): Option<string> {
    if level == "Foundation" then Some("Foundational")
    else if level == "Practitioner" then Some("Practitioner")
    else if level == "Advanced" then Some("Advanced")
    else None
  }

  predicate Collides(skill: string, level: string) {
    (skill == "RAG Systems" && level == "Practitioner")
    || (skill == "Prompt Engineering" && level == "Foundation")
    || (skill == "Fine-tuning & SFT" && level == "Foundation")
  }

  /**
   The title of the assessment a file is imported into, or none if the file is refused. `skills` are the planned
   skills that exist or can be made.
   */
  function Title(skills: set<string>, rows: seq<SourceRow>): Option<string> {
    if rows == [] then None
    else if exists r | r in rows :: !Complete(r) || r.skill != rows[0].skill || r.level != rows[0].level then None
    else if rows[0].skill !in skills then None
    else match LevelName(rows[0].level)
      case None => None
      case Some(name) =>
        var suffix := if Collides(rows[0].skill, rows[0].level) then " (Imported MCQ Bank)" else "";
        Some(rows[0].skill + " " + name + suffix)
  }

  /** A file is refused exactly if it is empty, a cell is missing, skill or level are mixed or unknown. */
  lemma RefusedIff(skills: set<string>, rows: seq<SourceRow>)
    ensures Title(skills, rows) == None <==>
      || rows == []
      || (exists r | r in rows :: r.skill != rows[0].skill || r.level != rows[0].level || "" in [r.id, r.skill, r.level,
            r.text, r.a, r.b, r.c, r.d, r.correct])
      || rows[0].skill !in skills || rows[0].level !in {"Foundation", "Practitioner", "Advanced"}
  {
    forall r: SourceRow ensures Complete(r)
      <==> "" !in [r.id, r.skill, r.level, r.text, r.a, r.b, r.c, r.d, r.correct] {
      var cells := [r.id, r.skill, r.level, r.text, r.a, r.b, r.c, r.d, r.correct];
      assert cells[0] in cells && cells[1] in cells && cells[2] in cells && cells[3] in cells && cells[4] in cells;
      assert cells[5] in cells && cells[6] in cells && cells[7] in cells && cells[8] in cells;
    }
  }

  /** The three skills at a level that have a live assessment already. */
  const LIVE := {("RAG Systems", "Practitioner"), ("Prompt Engineering", "Foundation"),
    ("Fine-tuning & SFT", "Foundation")}

  function LevelEnding(level: string): string {
    if level == "Foundation" then " Foundational" else if level == "Practitioner" then " Practitioner" else " Advanced"
  }

  const BANK := " (Imported MCQ Bank)"

  /** The title names skill and level as the catalogue does, and keeps clear of the live assessments. */
  lemma TitleIs(skills: set<string>, rows: seq<SourceRow>)
    requires Title(skills, rows).Some?
    ensures rows != [] && Title(skills, rows).value
      == rows[0].skill + LevelEnding(rows[0].level) + if (rows[0].skill, rows[0].level) in LIVE then BANK else ""
  {
    NamesOfLevels();
    var name := LevelName(rows[0].level).value;
    assert rows[0].skill + " " + name == rows[0].skill + (" " + name);
  }

  lemma NamesOfLevels()
    ensures " " + "Foundational" == " Foundational" && " " + "Practitioner" == " Practitioner"
      && " " + "Advanced" == " Advanced"
  {}

  /** Two files go into one assessment exactly if they are about the same skill at the same level. */
  lemma SameTitleIff(skills: set<string>, f: seq<SourceRow>, g: seq<SourceRow>)
    requires Title(skills, f).Some? && Title(skills, g).Some?
    ensures f != [] && g != []
    ensures Title(skills, f) == Title(skills, g) <==> f[0].skill == g[0].skill && f[0].level == g[0].level
  {
    hide Title, LevelEnding;
    TitleIs(skills, f);
    TitleIs(skills, g);
    RefusedIff(skills, f);
    RefusedIff(skills, g);
    if Title(skills, f) == Title(skills, g) {
      var x, y := f[0], g[0];
      TitlesApart(x.skill, x.level, (x.skill, x.level) in LIVE, y.skill, y.level, (y.skill, y.level) in LIVE);
    }
  }

  predicate IsLevel(level: string) {
    level == "Foundation" || level == "Practitioner" || level == "Advanced"
  }

  lemma TitlesApart(s: string, l: string, live: bool, s': string, l': string, live': bool)
    requires IsLevel(l) && IsLevel(l')
    requires s + LevelEnding(l) + (if live then BANK else "") == s' + LevelEnding(l') + (if live' then BANK else "")
    ensures s == s' && l == l'
  {
    hide LevelEnding, IsLevel;
    LastLetters(l);
    LastLetters(l');
    var t, t' := s + LevelEnding(l), s' + LevelEnding(l');
    var whole := t + if live then BANK else "";
    assert whole[|whole| - 1] == if live then ')' else t[|t| - 1];
    assert whole == t' + if live' then BANK else "";
    assert whole[|whole| - 1] == if live' then ')' else t'[|t'| - 1];
    assert t == whole[..|t|] && t' == whole[..|t'|];
    assert s == t[..|s|] && s' == t'[..|s'|];
  }

  lemma LastLetters(l: string)
    requires IsLevel(l)
    ensures var e := LevelEnding(l);
      |e| > 0 && e[|e| - 1] == (if l == "Foundation" then 'l' else if l == "Practitioner" then 'r' else 'd')
    ensures l == "Foundation" || l == "Practitioner" || l == "Advanced"
  {}

  /** The non-empty source ids among the questions of an assessment. */
  function KnownIds(stored: seq<Question>): (known: set<string>)
    ensures forall id :: id in known <==> id != "" && exists k | 0 <= k < |stored| :: stored[k].sourceId == Some(id)
  {
    if stored == [] then {}
    else
      var q, most := stored[|stored| - 1], KnownIds(stored[..|stored| - 1]);
      if q.sourceId.Some? && q.sourceId.value != "" then most + {q.sourceId.value} else most
  }

  /** What is stored for a row when the generator is in state `a`. */
  function StoredRow(row: SourceRow, a: nat): Question {
    var js := Drawn(a, 4);
    Question(Some(row.id), row.text, Shuffled(Options(row), js), AnswerAt(4, js), row.explanation, row.topic)
  }

  datatype Progress = Progress(stored: seq<Question>, a: nat, budget: nat, outcome: Outcome)

  /** The row loop: what `known` already holds is skipped, and skipped rows draw nothing from the generator. */
  function RowsRun(known: set<string>, stored: seq<Question>, a: nat, rows: seq<SourceRow>, budget: nat): Progress
    decreases |rows|
  {
    if rows == [] then Progress(stored, a, budget, Done)
    else if budget == 0 then Progress(stored, a, 0, Killed)
    else if rows[0].id in known then RowsRun(known, stored, a, rows[1..], budget - 1)
    else if !AnswersA(rows[0]) then Progress(stored, a, budget, Threw)
    else RowsRun(known, stored + [StoredRow(rows[0], a)], StateAfter(a, 3), rows[1..], budget - 1)
  }

  function Questions(db: Database, title: string): seq<Question> {
    if title in db then db[title] else []
  }

  datatype RunState = RunState(db: Database, a: nat, budget: nat, outcome: Outcome)

  function FileRun(skills: set<string>, db: Database, a: nat, rows: seq<SourceRow>, budget: nat): RunState {
    match Title(skills, rows)
    case None => RunState(db, a, budget, Threw)
    case Some(title) =>
      var stored := Questions(db, title);
      var p := RowsRun(KnownIds(stored), stored, a, rows, budget);
      RunState(db[title := p.stored], p.a, p.budget, p.outcome)
  }

  function FilesRun(skills: set<string>, db: Database, a: nat, files: seq<seq<SourceRow>>, budget: nat): RunState
    decreases |files|
  {
    if files == [] then RunState(db, a, budget, Done)
    else
      var s := FileRun(skills, db, a, files[0], budget);
      if s.outcome == Done then FilesRun(skills, s.db, s.a, files[1..], s.budget) else s
  }

  /** One start of the script. */
  function Run(skills: set<string>, db: Database, files: seq<seq<SourceRow>>, budget: nat): RunState {
    FilesRun(skills, db, SHUFFLE_SEED, files, budget)
  }

  /** Starting the script again and again, killed after so many rows each time. */
  function Restarted(skills: set<string>, db: Database, files: seq<seq<SourceRow>>, kills: seq<nat>): Database
    decreases |kills|
  {
    if kills == [] then db else Restarted(skills, Run(skills, db, files, kills[0]).db, files, kills[1..])
  }

  // ---------- the script ----------

  class Importer {
    var db: Database

    method ImportFile(skills: set<string>, rows: seq<SourceRow>, rand: Mulberry32, budget: nat)
      returns (outcome: Outcome, left: nat, inserted: nat, skipped: nat)
      requires rand.a < TWO32
      modifies this, rand
      ensures RunState(db, rand.a, left, outcome) == FileRun(skills, old(db), old(rand.a), rows, budget)
      ensures rand.a < TWO32
      ensures Title(skills, rows).Some? ==>
        var title := Title(skills, rows).value;
        inserted == |Questions(db, title)| - |Questions(old(db), title)|
          && (outcome == Done ==> inserted + skipped == |rows|)
    {
      hide StoredRow, KnownIds, StateAfter, Drawn, Shuffled, AnswerAt, Title, AnswersA;
      inserted, skipped, left := 0, 0, budget;
      var maybe := Title(skills, rows);
      if maybe.None? { return Threw, budget, 0, 0; }
      var title := maybe.value;
      if title !in db { db := db[title := []]; }
      ghost var before := db[title];
      var known := KnownIds(db[title]);
      var i := 0;
      while i < |rows|
        invariant i <= |rows| && rand.a < TWO32 && inserted + skipped == i
        invariant title in db && db == old(db)[title := db[title]] && |db[title]| == |before| + inserted
        invariant RowsRun(known, db[title], rand.a, rows[i..], left)
          == RowsRun(known, before, old(rand.a), rows, budget)
      {
        if left == 0 { return Killed, 0, inserted, skipped; }
        assert rows[i..][1..] == rows[i + 1..];
        if rows[i].id in known {
          skipped := skipped + 1;
        } else {
          if !AnswersA(rows[i]) { return Threw, left, inserted, skipped; }
          ghost var a := rand.a;
          var shuffled, answer := ShuffleOptions(Options(rows[i]), rand);
          var q := Question(Some(rows[i].id), rows[i].text, shuffled, answer, rows[i].explanation, rows[i].topic);
          assert q == StoredRow(rows[i], a) by { StoredRowIs(rows[i], a, shuffled, answer); }
          db := db[title := db[title] + [q]];
          inserted := inserted + 1;
        }
        i, left := i + 1, left - 1;
      }
      outcome := Done;
    }

    method ImportAll(skills: set<string>, files: seq<seq<SourceRow>>, budget: nat) returns (outcome: Outcome)
      modifies this
      ensures db == Run(skills, old(db), files, budget).db && outcome == Run(skills, old(db), files, budget).outcome
    {
      hide FileRun;
      var rand := new Mulberry32(SHUFFLE_SEED);
      var f, left := 0, budget;
      while f < |files|
        invariant f <= |files| && rand.a < TWO32
        invariant fresh(rand)
        invariant FilesRun(skills, db, rand.a, files[f..], left) == Run(skills, old(db), files, budget)
      {
        assert files[f..][1..] == files[f + 1..];
        var inserted, skipped;
        outcome, left, inserted, skipped := ImportFile(skills, files[f], rand, left);
        if outcome != Done { return; }
        f := f + 1;
      }
      outcome := Done;
    }
  }

  lemma StoredRowIs(row: SourceRow, a: nat, shuffled: seq<string>, answer: nat)
    requires shuffled == Shuffled(Options(row), Drawn(a, 4)) && answer == AnswerAt(4, Drawn(a, 4))
    ensures Question(Some(row.id), row.text, shuffled, answer, row.explanation, row.topic) == StoredRow(row, a)
  {}

  // ---------- what every run keeps, and what a complete run reaches ----------

  /** No source id is stored twice among these questions. */
  ghost predicate OncePerId(stored: seq<Question>) {
    forall i, j | 0 <= i < j < |stored| && stored[i].sourceId == stored[j].sourceId ::
      stored[i].sourceId == None || stored[i].sourceId == Some("")
  }

  ghost predicate DistinctIds(rows: seq<SourceRow>) {
    forall i, j | 0 <= i < j < |rows| :: rows[i].id != rows[j].id
  }

  /**
   The question a candidate gets is the one the row describes: same text, same four options in some order,
   answer at option A.
   */
  predicate Faithful(q: Question, row: SourceRow) {
    q.sourceId == Some(row.id) && q.text == row.text && q.explanation == row.explanation && q.topic == row.topic
    && multiset(q.options) == multiset{row.a, row.b, row.c, row.d}
    && q.answer < |q.options| && q.options[q.answer] == row.a && (row.correct == "A" || row.correct == "a")
  }

  lemma StoredRowIsFaithful(row: SourceRow, a: nat)
    requires AnswersA(row)
    ensures Faithful(StoredRow(row, a), row)
  {
    AnswerIsKept(Options(row), Drawn(a, 4));
  }

  /** Everything beyond the first `n` questions is faithful to some row. */
  ghost predicate FaithfulFrom(stored: seq<Question>, n: nat, rows: seq<SourceRow>) {
    forall k | n <= k < |stored| :: exists r | r in rows :: Faithful(stored[k], r)
  }

  /** However a file's import ends, it has only added questions, each faithful to a row of the file. */
  lemma {:induction false} RowsAreFaithful(known: set<string>, stored: seq<Question>, n: nat, a: nat,
    rows: seq<SourceRow>, budget: nat, all: seq<SourceRow>)
    requires n <= |stored| && FaithfulFrom(stored, n, all) && forall r | r in rows :: r in all
    ensures var end := RowsRun(known, stored, a, rows, budget).stored;
      stored <= end && FaithfulFrom(end, n, all)
    decreases |rows|
  {
    hide StoredRow, Faithful, StateAfter;
    if rows != [] && budget > 0 {
      if rows[0].id in known {
        RowsAreFaithful(known, stored, n, a, rows[1..], budget - 1, all);
      } else if AnswersA(rows[0]) {
        StoredRowIsFaithful(rows[0], a);
        assert rows[0] in all;
        RowsAreFaithful(known, stored + [StoredRow(rows[0], a)], n, StateAfter(a, 3), rows[1..], budget - 1, all);
      }
    }
  }

  lemma OnceMore(stored: seq<Question>, row: SourceRow, a: nat)
    requires OncePerId(stored) && row.id !in KnownIds(stored)
    ensures OncePerId(stored + [StoredRow(row, a)])
  {
    hide Shuffled, Drawn, AnswerAt;
  }

  /** No id is stored twice, as long as the rows still to come are new to what this run has added. */
  lemma {:induction false} RowsStayOnce(known: set<string>, stored: seq<Question>, a: nat, rows: seq<SourceRow>,
    budget: nat)
    requires OncePerId(stored) && DistinctIds(rows)
    requires forall r | r in rows :: r.id in KnownIds(stored) ==> r.id in known
    ensures OncePerId(RowsRun(known, stored, a, rows, budget).stored)
    decreases |rows|
  {
    hide StateAfter, StoredRow, KnownIds, OncePerId, AnswersA;
    if rows != [] && budget > 0 {
      if rows[0].id in known {
        RowsStayOnce(known, stored, a, rows[1..], budget - 1);
      } else if AnswersA(rows[0]) {
        KnownGrows(stored, rows[0], a);
        OnceMore(stored, rows[0], a);
        assert rows[0] in rows;
        RowsStayOnce(known, stored + [StoredRow(rows[0], a)], StateAfter(a, 3), rows[1..], budget - 1);
      }
    }
  }

  lemma KnownGrows(stored: seq<Question>, row: SourceRow, a: nat)
    ensures KnownIds(stored + [StoredRow(row, a)]) == KnownIds(stored) + (if row.id == "" then {} else {row.id})
  {
    hide Shuffled, Drawn, AnswerAt, KnownIds;
    var more := stored + [StoredRow(row, a)];
    assert more[..|more| - 1] == stored && more[|more| - 1].sourceId == Some(row.id);
    LastKnown(more);
  }

  lemma LastKnown(stored: seq<Question>)
    requires stored != [] && stored[|stored| - 1].sourceId.Some?
    ensures var id := stored[|stored| - 1].sourceId.value;
      KnownIds(stored) == KnownIds(stored[..|stored| - 1]) + (if id == "" then {} else {id})
  {}

  /** A file that was imported to the end has every row stored. */
  lemma {:induction false} RowsComplete(known: set<string>, stored: seq<Question>, a: nat, rows: seq<SourceRow>,
    budget: nat)
    requires RowsRun(known, stored, a, rows, budget).outcome == Done
    requires forall r | r in rows :: r.id != ""
    requires known <= KnownIds(stored)
    ensures forall r | r in rows :: r.id in KnownIds(RowsRun(known, stored, a, rows, budget).stored)
    ensures KnownIds(stored) <= KnownIds(RowsRun(known, stored, a, rows, budget).stored)
    decreases |rows|
  {
    hide StateAfter, StoredRow, KnownIds;
    if rows != [] {
      assert rows == [rows[0]] + rows[1..];
      if rows[0].id in known {
        RowsComplete(known, stored, a, rows[1..], budget - 1);
      } else {
        KnownGrows(stored, rows[0], a);
        RowsComplete(known, stored + [StoredRow(rows[0], a)], StateAfter(a, 3), rows[1..], budget - 1);
      }
    }
  }

  /** Once every id is known, a run adds nothing, draws nothing and cannot fail. */
  lemma {:induction false} NothingNew(known: set<string>, stored: seq<Question>, a: nat, rows: seq<SourceRow>,
    budget: nat)
    requires forall r | r in rows :: r.id in known
    ensures RowsRun(known, stored, a, rows, budget)
         == if |rows| <= budget then Progress(stored, a, budget - |rows|, Done) else Progress(stored, a, 0, Killed)
    decreases |rows|
  {
    hide StoredRow, StateAfter, AnswersA;
    if rows != [] && budget > 0 { NothingNew(known, stored, a, rows[1..], budget - 1); }
  }

  // ---------- any number of broken runs, then a complete one ----------

  /** `q` is what some row of some file with this title says. */
  ghost predicate Imported(skills: set<string>, files: seq<seq<SourceRow>>, title: string, q: Question) {
    exists f | f in files && Title(skills, f) == Some(title) :: exists r | r in f :: Faithful(q, r)
  }

  ghost predicate OnlyImports(skills: set<string>, files: seq<seq<SourceRow>>, title: string, was: seq<Question>,
    now: seq<Question>) {
    was <= now && forall k | |was| <= k < |now| :: Imported(skills, files, title, now[k])
  }

  /** Against the database before: the old questions are untouched, the new ones faithful, and no id is stored twice. */
  ghost predicate Sound(skills: set<string>, files: seq<seq<SourceRow>>, was: Database, now: Database) {
    forall t: string :: OnlyImports(skills, files, t, Questions(was, t), Questions(now, t))
      && OncePerId(Questions(now, t))
  }

  lemma FileKeepsSound(skills: set<string>, files: seq<seq<SourceRow>>, was: Database, db: Database, a: nat,
    f: seq<SourceRow>, budget: nat)
    requires Sound(skills, files, was, db) && f in files && DistinctIds(f)
    ensures Sound(skills, files, was, FileRun(skills, db, a, f, budget).db)
  {
    hide RowsRun, OncePerId, KnownIds, Faithful, Title;
    var title := Title(skills, f);
    if title.Some? {
      var t := title.value;
      var stored := Questions(db, t);
      var known := KnownIds(stored);
      var end := RowsRun(known, stored, a, f, budget).stored;
      assert OnlyImports(skills, files, t, Questions(was, t), stored) && OncePerId(stored);
      RowsAreFaithful(known, stored, |stored|, a, f, budget, f);
      RowsStayOnce(known, stored, a, f, budget);
      forall k | |Questions(was, t)| <= k < |end| ensures Imported(skills, files, t, end[k]) {
        if k < |stored| { assert end[k] == stored[k]; }
      }
    }
  }

  lemma {:induction false} FilesKeepSound(skills: set<string>, files: seq<seq<SourceRow>>, was: Database,
    db: Database, a: nat, rest: seq<seq<SourceRow>>, budget: nat)
    requires Sound(skills, files, was, db) && forall f | f in rest :: f in files && DistinctIds(f)
    ensures Sound(skills, files, was, FilesRun(skills, db, a, rest, budget).db)
    decreases |rest|
  {
    hide Sound, FileRun, DistinctIds;
    if rest != [] {
      FileKeepsSound(skills, files, was, db, a, rest[0], budget);
      var s := FileRun(skills, db, a, rest[0], budget);
      if s.outcome == Done { FilesKeepSound(skills, files, was, s.db, s.a, rest[1..], s.budget); }
    }
  }

  /** Whatever kills the runs, each leaves only faithful questions, none twice, beside what was there before. */
  lemma {:induction false} EveryCrashIsSound(skills: set<string>, files: seq<seq<SourceRow>>, was: Database,
    db: Database, kills: seq<nat>)
    requires Sound(skills, files, was, db) && forall f | f in files :: DistinctIds(f)
    ensures Sound(skills, files, was, Restarted(skills, db, files, kills))
    decreases |kills|
  {
    hide Sound, FilesRun, DistinctIds;
    if kills != [] {
      FilesKeepSound(skills, files, was, db, SHUFFLE_SEED, files, kills[0]);
      EveryCrashIsSound(skills, files, was, Run(skills, db, files, kills[0]).db, kills[1..]);
    }
  }

  /** The file has a title and every one of its ids is stored under it. */
  ghost predicate Present(skills: set<string>, db: Database, f: seq<SourceRow>) {
    Title(skills, f).Some? && forall r | r in f :: r.id in KnownIds(Questions(db, Title(skills, f).value))
  }

  ghost predicate Grown(was: Database, now: Database) {
    forall t: string :: KnownIds(Questions(was, t)) <= KnownIds(Questions(now, t))
  }

  lemma CompleteRows(skills: set<string>, f: seq<SourceRow>)
    requires Title(skills, f).Some?
    ensures f != [] && forall r | r in f :: r.id != ""
  {}

  lemma FileCompletes(skills: set<string>, db: Database, a: nat, f: seq<SourceRow>, budget: nat)
    requires FileRun(skills, db, a, f, budget).outcome == Done
    ensures Present(skills, FileRun(skills, db, a, f, budget).db, f) && Grown(db, FileRun(skills, db, a, f, budget).db)
  {
    hide RowsRun, KnownIds, Title;
    var stored := Questions(db, Title(skills, f).value);
    CompleteRows(skills, f);
    RowsComplete(KnownIds(stored), stored, a, f, budget);
  }

  lemma {:induction false} FilesComplete(skills: set<string>, db: Database, a: nat, rest: seq<seq<SourceRow>>,
    budget: nat)
    requires FilesRun(skills, db, a, rest, budget).outcome == Done
    ensures var end := FilesRun(skills, db, a, rest, budget).db;
      Grown(db, end) && forall f | f in rest :: Present(skills, end, f)
    decreases |rest|
  {
    hide FileRun, KnownIds, Title, Questions;
    if rest != [] {
      var s := FileRun(skills, db, a, rest[0], budget);
      FileCompletes(skills, db, a, rest[0], budget);
      FilesComplete(skills, s.db, s.a, rest[1..], s.budget);
      assert rest == [rest[0]] + rest[1..];
    }
  }

  function RowCount(files: seq<seq<SourceRow>>): nat {
    if files == [] then 0 else |files[0]| + RowCount(files[1..])
  }

  lemma FileIsIdle(skills: set<string>, db: Database, a: nat, f: seq<SourceRow>, budget: nat)
    requires Present(skills, db, f)
    ensures FileRun(skills, db, a, f, budget) ==
      RunState(db, a, if |f| <= budget then budget - |f| else 0, if |f| <= budget then Done else Killed)
  {
    hide KnownIds, Title, RowsRun;
    var t := Title(skills, f).value;
    CompleteRows(skills, f);
    NothingNew(KnownIds(Questions(db, t)), Questions(db, t), a, f, budget);
    assert f[0].id in KnownIds(Questions(db, t));
    assert t in db;
  }

  /** With every id present, starting the script again changes nothing, however far it gets. */
  lemma {:induction false} RerunIsIdle(skills: set<string>, db: Database, a: nat, files: seq<seq<SourceRow>>,
    budget: nat)
    requires forall f | f in files :: Present(skills, db, f)
    ensures var s := FilesRun(skills, db, a, files, budget);
      s.db == db && s.outcome == if RowCount(files) <= budget then Done else Killed
    decreases |files|
  {
    hide FileRun, Present;
    if files != [] {
      FileIsIdle(skills, db, a, files[0], budget);
      if |files[0]| <= budget { RerunIsIdle(skills, db, a, files[1..], budget - |files[0]|); }
    }
  }

  ghost predicate StoredOnce(stored: seq<Question>, id: string) {
    exists k | 0 <= k < |stored| ::
      stored[k].sourceId == Some(id) && forall j | 0 <= j < |stored| && j != k :: stored[j].sourceId != Some(id)
  }

  lemma KnownIsStoredOnce(stored: seq<Question>, id: string)
    requires OncePerId(stored) && id in KnownIds(stored)
    ensures StoredOnce(stored, id)
  {
    hide KnownIds;
    var k :| 0 <= k < |stored| && stored[k].sourceId == Some(id);
    forall j | 0 <= j < |stored| && j != k ensures stored[j].sourceId != Some(id) {
      var lo, hi := if j < k then j else k, if j < k then k else j;
      assert stored[lo].sourceId != Some(id) || stored[hi].sourceId != Some(id);
    }
  }

  /**
   Kill the import anywhere, any number of times; then let it finish once. Every
   row is stored exactly once, what was there before is untouched, everything
   added says what its row says, and running it again changes nothing.
   */
  lemma RestartsRecover(skills: set<string>, was: Database, files: seq<seq<SourceRow>>, kills: seq<nat>, last: nat,
    again: nat)
    requires forall t: string :: OncePerId(Questions(was, t))
    requires forall f | f in files :: DistinctIds(f)
    requires Run(skills, Restarted(skills, was, files, kills), files, last).outcome == Done
    ensures var end := Run(skills, Restarted(skills, was, files, kills), files, last).db;
      && Sound(skills, files, was, end)
      && (forall f, r | f in files && r in f ::
        Title(skills, f).Some? && StoredOnce(Questions(end, Title(skills, f).value), r.id))
      && Run(skills, end, files, again).db == end
  {
    hide FilesRun, Restarted, Title, KnownIds, OncePerId, Questions, DistinctIds, StoredOnce, Imported;
    assert Sound(skills, files, was, was);
    EveryCrashIsSound(skills, files, was, was, kills);
    var db := Restarted(skills, was, files, kills);
    FilesKeepSound(skills, files, was, db, SHUFFLE_SEED, files, last);
    FilesComplete(skills, db, SHUFFLE_SEED, files, last);
    var end := Run(skills, db, files, last).db;
    RerunIsIdle(skills, end, SHUFFLE_SEED, files, again);
    forall f, r | f in files && r in f
      ensures Title(skills, f).Some? && StoredOnce(Questions(end, Title(skills, f).value), r.id) {
      assert Present(skills, end, f);
      KnownIsStoredOnce(Questions(end, Title(skills, f).value), r.id);
    }
  }

  // ---------- exactly what a run stores ----------

  /** The rows that are not stored yet, in file order. */
  function Unknown(known: set<string>, rows: seq<SourceRow>): seq<SourceRow> {
    if rows == [] then []
    else (if rows[0].id in known then [] else [rows[0]]) + Unknown(known, rows[1..])
  }

  /** What is stored for these rows, one after the other, each taking three numbers from the generator. */
  function Sheet(rows: seq<SourceRow>, a: nat): (qs: seq<Question>)
    ensures |qs| == |rows| && forall k | 0 <= k < |rows| :: qs[k].sourceId == Some(rows[k].id)
    decreases |rows|
  {
    if rows == [] then [] else [StoredRow(rows[0], a)] + Sheet(rows[1..], StateAfter(a, 3))
  }

  ghost predicate AllAnswerA(rows: seq<SourceRow>) {
    forall r | r in rows :: r.correct == "A" || r.correct == "a"
  }

  /**
   The import of a file ends well exactly if it lives long enough and no row yet to be stored has another answer
   than A; and what it then adds.
   */
  lemma {:induction false} DoneIff(known: set<string>, stored: seq<Question>, a: nat, rows: seq<SourceRow>, budget: nat)
    ensures var p := RowsRun(known, stored, a, rows, budget);
      && (p.outcome == Done <==> |rows| <= budget && AllAnswerA(Unknown(known, rows)))
      && (p.outcome == Done ==> p.stored == stored + Sheet(Unknown(known, rows), a))
    decreases |rows|
  {
    hide StoredRow, StateAfter;
    var u := Unknown(known, rows);
    if rows != [] && budget > 0 {
      if rows[0].id in known {
        DoneIff(known, stored, a, rows[1..], budget - 1);
        assert u == Unknown(known, rows[1..]);
      } else if AnswersA(rows[0]) {
        DoneIff(known, stored + [StoredRow(rows[0], a)], StateAfter(a, 3), rows[1..], budget - 1);
        assert u[1..] == Unknown(known, rows[1..]);
      } else {
        assert u[0] == rows[0];
      }
    }
  }

  lemma {:induction false} UnknownAreNew(known: set<string>, rows: seq<SourceRow>)
    ensures forall r | r in Unknown(known, rows) :: r in rows && r.id !in known
    decreases |rows|
  {
    if rows != [] { UnknownAreNew(known, rows[1..]); }
  }

  /**
   A file imported to the end leaves every id once exactly if the ids it had yet to store are distinct: a
   repeated id is stored as often as it occurs.
   */
  lemma StoredOnceIff(stored: seq<Question>, a: nat, rows: seq<SourceRow>, budget: nat)
    requires OncePerId(stored) && forall r | r in rows :: r.id != ""
    requires RowsRun(KnownIds(stored), stored, a, rows, budget).outcome == Done
    ensures OncePerId(RowsRun(KnownIds(stored), stored, a, rows, budget).stored)
       <==> DistinctIds(Unknown(KnownIds(stored), rows))
  {
    hide KnownIds, Unknown, Sheet, StateAfter, RowsRun;
    var u := Unknown(KnownIds(stored), rows);
    DoneIff(KnownIds(stored), stored, a, rows, budget);
    UnknownAreNew(KnownIds(stored), rows);
    OnceIffDistinct(stored, u, a);
  }

  lemma OnceIffDistinct(stored: seq<Question>, u: seq<SourceRow>, a: nat)
    requires OncePerId(stored) && forall r | r in u :: r.id != "" && r.id !in KnownIds(stored)
    ensures OncePerId(stored + Sheet(u, a)) <==> DistinctIds(u)
  {
    hide KnownIds, Sheet;
    var end, n := stored + Sheet(u, a), |stored|;
    forall k | 0 <= k < |u|
      ensures end[n + k].sourceId == Some(u[k].id) && u[k].id != "" && u[k].id !in KnownIds(stored) {
      assert u[k] in u;
    }
    if OncePerId(end) {
      forall i, j | 0 <= i < j < |u| ensures u[i].id != u[j].id {
        assert end[n + i].sourceId == end[n + j].sourceId ==> end[n + i].sourceId == Some("");
      }
    }
    if DistinctIds(u) {
      forall i, j | 0 <= i < j < |end|
        ensures end[i].sourceId == end[j].sourceId ==> end[i].sourceId == None || end[i].sourceId == Some("")
      {
        if n <= i {
          assert u[i - n].id != u[j - n].id;
          assert end[i].sourceId == Some(u[i - n].id) && end[j].sourceId == Some(u[j - n].id);
        } else if n <= j {
          assert end[j].sourceId == Some(u[j - n].id);
          assert end[i] == stored[i];
        } else {
          assert end[i] == stored[i] && end[j] == stored[j];
        }
      }
    }
  }

  function ExampleRow(id: string): SourceRow {
    SourceRow(id, "Agents", "Foundation", "Which?", "a", "b", "c", "d", "A", "", "")
  }

  lemma ExampleTitle(id: string, id': string)
    requires id != "" && id' != ""
    ensures Title({"Agents"}, [ExampleRow(id), ExampleRow(id')]) == Some("Agents Foundational")
  {
    var rows := [ExampleRow(id), ExampleRow(id')];
    assert forall r | r in rows :: Complete(r) && r.skill == "Agents" && r.level == "Foundation";
    assert "Agents" + " " + "Foundational" + "" == "Agents Foundational";
  }

  /** A file with one id on two rows: it is imported to the end, and stored twice. */
  lemma RepeatedIdStoredTwice()
    ensures var s := Run({"Agents"}, map[], [[ExampleRow("1"), ExampleRow("1")]], 2);
      s.outcome == Done && !OncePerId(Questions(s.db, "Agents Foundational"))
  {
    hide RowsRun, KnownIds, OncePerId, Unknown, Sheet, Title;
    var rows := [ExampleRow("1"), ExampleRow("1")];
    var files := [rows];
    assert files[1..] == [];
    ExampleTitle("1", "1");
    NothingStored(rows);
    DoneIff({}, [], SHUFFLE_SEED, rows, 2);
    StoredOnceIff([], SHUFFLE_SEED, rows, 2);
    assert rows[0].id == rows[1].id;
  }

  lemma NothingStored(rows: seq<SourceRow>)
    ensures KnownIds([]) == {} && OncePerId([]) && Unknown({}, rows) == rows
    decreases |rows|
  {
    if rows != [] { NothingStored(rows[1..]); }
  }
}
