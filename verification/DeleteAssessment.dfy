/**
 Deleting one assessment (apps/api/prisma/delete-assessment.ts): an ordered
 sequence of updates and deletes with NO transaction around it, so a deletion
 the database refuses leaves everything before it done.
 */
module DeleteAssessment {
  import opened Schema
  import opened Relational

  /** The column by which a row hangs under an attempt. */
  function AttemptColumn(t: Table): Column {
    match t
    case IntegrityEvent => IntegrityEventAttempt
    case QuestionServedAt => QuestionServedAtAttempt
    case AttemptAnswer => AttemptAnswerAttempt
    case _ => BadgeAttempt
  }

  /** The rows of the tables `ts` under these attempts. */
  function Under(db: Database, attempts: set<Ref>, ts: set<Table>): set<Ref> {
    set r | r in db && r.table in ts && Matches(db[r], r, LinkIn(AttemptColumn(r.table), attempts))
  }

  const KINDS: set<Table> := {IntegrityEvent, QuestionServedAt, AttemptAnswer, Badge}

  function Attempts(db: Database, a: Ref): set<Ref> {
    Select(db, Attempt, LinkIn(AttemptAssessment, {a}))
  }

  /** The attempts at the assessment, with everything recorded under them. */
  function AttemptRows(db: Database, a: Ref): set<Ref> {
    Under(db, Attempts(db, a), KINDS) + Attempts(db, a)
  }

  function Questions(db: Database, a: Ref): set<Ref> {
    Select(db, Question, LinkIn(QuestionAssessment, {a}))
  }

  /** Some other attempt has been served, or has answered, a question of this assessment. */
  predicate QuestionInUse(db: Database, a: Ref) {
    exists r, c | r in db && r !in AttemptRows(db, a) && c in db[r].links ::
      (c == AttemptAnswerQuestion || c == QuestionServedAtQuestion) && db[r].links[c] in Questions(db, a)
  }

  function DetachRow(row: Row, attempts: set<Ref>): Row {
    if AssessmentRequestAttempt in row.links && row.links[AssessmentRequestAttempt] in attempts
    then row.(links := row.links - {AssessmentRequestAttempt})
    else row
  }

  /** `updateMany` on AssessmentRequest: forget the attempt. */
  function Detach(db: Database, attempts: set<Ref>): Database {
    map r | r in db :: DetachRow(db[r], attempts)
  }

  // ---------- which columns can block ----------

  predicate AttemptChild(t: Table, c: Column) {
    || (t == IntegrityEvent && c == IntegrityEventAttempt)
    || (t == QuestionServedAt && c == QuestionServedAtAttempt)
    || (t == AttemptAnswer && c == AttemptAnswerAttempt)
  }

  /** The restricting references into the tables the script deletes from. */
  lemma Restrictor(db: Database, r: Ref, c: Column)
    requires Typed(db) && r in db && c in db[r].links && Rule(c) == Restrict
    ensures db[r].links[c].table !in {IntegrityEvent, QuestionServedAt, AttemptAnswer, Badge}
    ensures db[r].links[c].table == Attempt ==> AttemptChild(r.table, c)
    ensures db[r].links[c].table == Question <==> c == AttemptAnswerQuestion || c == QuestionServedAtQuestion
    ensures db[r].links[c].table == Assessment ==>
      (r.table == Question && c == QuestionAssessment) || (r.table == Attempt && c == AttemptAssessment)
  {
    hide Rule, Child, Parent, AttemptChild;
    assert r.table == Child(c) && db[r].links[c].table == Parent(c);
    RestrictedParents(c);
    RestrictedAttempts(c);
    RestrictedQuestions(c);
  }

  lemma RestrictedParents(c: Column)
    requires Rule(c) == Restrict
    ensures Parent(c) !in {IntegrityEvent, QuestionServedAt, AttemptAnswer, Badge}
  {}

  lemma RestrictedAttempts(c: Column)
    requires Rule(c) == Restrict
    ensures Parent(c) == Attempt ==> AttemptChild(Child(c), c)
  {}

  lemma RestrictedQuestions(c: Column)
    ensures Parent(c) == Question <==> c == AttemptAnswerQuestion || c == QuestionServedAtQuestion
    ensures Parent(c) == Assessment ==>
      (Child(c) == Question && c == QuestionAssessment) || (Child(c) == Attempt && c == AttemptAssessment)
  {}

  lemma NothingCascades(db: Database, doomed: set<Ref>)
    requires Typed(db)
    requires forall r | r in doomed ::
      r.table in {Attempt, IntegrityEvent, QuestionServedAt, AttemptAnswer, Badge, Question, Assessment}
    ensures Closure(db, doomed) == doomed
  {
    forall c | Rule(c) == Cascade ensures Parent(c) == User || Parent(c) == ShortlistEntry {}
  }

  lemma DetachKeepsOthers(row: Row, attempts: set<Ref>, c: Column)
    requires c != AssessmentRequestAttempt
    ensures c in DetachRow(row, attempts).links <==> c in row.links
    ensures c in row.links ==> DetachRow(row, attempts).links[c] == row.links[c]
  {}

  lemma DetachKeepsQueries(db: Database, attempts: set<Ref>, t: Table, w: Where)
    requires Typed(db) && (w.LinkIn? ==> w.column != AssessmentRequestAttempt)
    ensures Typed(Detach(db, attempts)) && Select(Detach(db, attempts), t, w) == Select(db, t, w)
  {
    forall r | r in db ensures Matches(Detach(db, attempts)[r], r, w) <==> Matches(db[r], r, w) {
      if w.LinkIn? { DetachKeepsOthers(db[r], attempts, w.column); }
    }
  }

  lemma DetachKeepsHeld(db: Database, attempts: set<Ref>, gone: set<Ref>, doomed: set<Ref>)
    ensures HeldOutside(Detach(db, attempts), gone, doomed) <==> HeldOutside(db, gone, doomed)
  {
    var now := Detach(db, attempts);
    forall r, c | r in db && Rule(c) == Restrict
      ensures c in now[r].links <==> c in db[r].links
      ensures c in db[r].links ==> now[r].links[c] == db[r].links[c]
    { DetachKeepsOthers(db[r], attempts, c); }
    if HeldOutside(db, gone, doomed) {
      var r, c :| r in db && r !in gone && c in db[r].links && Rule(c) == Restrict && db[r].links[c] in doomed;
      assert r in now && c in now[r].links;
    }
  }

  /** Detaching first is only tidiness: deleting the attempts sets the same column to null. */
  lemma DetachIsAbsorbed(db: Database, attempts: set<Ref>, gone: set<Ref>)
    requires attempts <= gone
    ensures Without(Detach(db, attempts), gone) == Without(db, gone)
  {
    forall r | r in db ensures Unlink(DetachRow(db[r], attempts), gone) == Unlink(db[r], gone) {
      RowAbsorbs(db[r], attempts, gone);
    }
  }

  lemma RowAbsorbs(row: Row, attempts: set<Ref>, gone: set<Ref>)
    requires attempts <= gone
    ensures Unlink(DetachRow(row, attempts), gone) == Unlink(row, gone)
  {
    assert Unlink(DetachRow(row, attempts), gone).links == Unlink(row, gone).links;
  }

  lemma NoAttemptsNoRows(db: Database, a: Ref, attempts: set<Ref>)
    requires attempts == Attempts(db, a)
    ensures attempts == {} ==> AttemptRows(db, a) == {}
  {}

  /** Rows no restricting column points into are never held. */
  lemma Unrestricted(db: Database, gone: set<Ref>, rows: set<Ref>, t: Table)
    requires Typed(db) && t in {IntegrityEvent, QuestionServedAt, AttemptAnswer, Badge}
    requires forall r | r in rows :: r.table == t
    ensures !HeldOutside(db, gone, rows)
  {
    forall r, c | r in db && c in db[r].links && Rule(c) == Restrict
      ensures db[r].links[c] !in rows { Restrictor(db, r, c); }
  }

  lemma TablesOf(db: Database, t: Table, w: Where)
    ensures forall r | r in Select(db, t, w) :: r.table == t
  {}

  /** The deletion of one more kind of child row selects what it would have selected at the outset, and goes through. */
  lemma ChildPlan(was: Database, attempts: set<Ref>, ts: set<Table>, t: Table)
    requires Typed(was) && t in KINDS
    ensures var base, w, gone := Detach(was, attempts), LinkIn(AttemptColumn(t), attempts), Under(was, attempts, ts);
      && Typed(base) && gone + Select(base, t, w) == Under(was, attempts, ts + {t})
      && !HeldOutside(base, gone, Select(base, t, w))
  {
    var w := LinkIn(AttemptColumn(t), attempts);
    DetachKeepsQueries(was, attempts, t, w);
    Unrestricted(was, Under(was, attempts, ts), Select(was, t, w), t);
    DetachKeepsHeld(was, attempts, Under(was, attempts, ts), Select(was, t, w));
  }

  lemma AttemptPlan(was: Database, a: Ref, attempts: set<Ref>)
    requires Typed(was) && attempts == Attempts(was, a)
    ensures var base := Detach(was, attempts);
      && Typed(base) && Select(base, Attempt, IdIn(attempts)) == attempts
        && (forall r | r in attempts :: r.table == Attempt)
      && !HeldOutside(base, AttemptRows(was, a) - attempts, attempts)
  {
    hide HeldOutside, Detach;
    DetachKeepsQueries(was, attempts, Attempt, IdIn(attempts));
    AttemptsAreFree(was, a, attempts);
    DetachKeepsHeld(was, attempts, AttemptRows(was, a) - attempts, attempts);
  }

  lemma AttemptsAreFree(was: Database, a: Ref, attempts: set<Ref>)
    requires Typed(was) && attempts == Attempts(was, a)
    ensures !HeldOutside(was, AttemptRows(was, a) - attempts, attempts)
  {
    forall r, c | r in was && c in was[r].links && Rule(c) == Restrict && was[r].links[c] in attempts
      ensures r in AttemptRows(was, a) - attempts
    { ChildGoes(was, a, attempts, r, c); }
  }

  lemma ChildGoes(was: Database, a: Ref, attempts: set<Ref>, r: Ref, c: Column)
    requires Typed(was) && attempts == Attempts(was, a)
    requires r in was && c in was[r].links && Rule(c) == Restrict && was[r].links[c] in attempts
    ensures r in AttemptRows(was, a) && r !in attempts
  {
    hide Rule, Child, Parent;
    Restrictor(was, r, c);
    assert Matches(was[r], r, LinkIn(c, attempts));
  }

  /** The questions go unless one is in use elsewhere. */
  lemma QuestionsHeld(was: Database, a: Ref)
    requires Typed(was)
    ensures HeldOutside(was, AttemptRows(was, a), Questions(was, a)) <==> QuestionInUse(was, a)
  {
    hide AttemptRows, Questions, Typed, Rule, Child, Parent;
    QuestionRule();
    assert forall r | r in Questions(was, a) :: r.table == Question by {
      TablesOf(was, Question, LinkIn(QuestionAssessment, {a}));
      QuestionsAre(was, a);
    }
    forall r, c | r in was && c in was[r].links && Rule(c) == Restrict
      ensures was[r].links[c] in Questions(was, a) ==> c == AttemptAnswerQuestion || c == QuestionServedAtQuestion
    { Restrictor(was, r, c); }
  }

  lemma QuestionRule()
    ensures Rule(AttemptAnswerQuestion) == Rule(QuestionServedAtQuestion) == Restrict
  {}

  lemma QuestionsAre(db: Database, a: Ref)
    ensures Questions(db, a) == Select(db, Question, LinkIn(QuestionAssessment, {a}))
  {}

  /** Once the attempts and questions are gone nothing holds the assessment. */
  lemma AssessmentIsFree(was: Database, a: Ref)
    requires Typed(was) && a in was && a.table == Assessment
    ensures Select(was, Assessment, IdIn({a})) == {a}
    ensures !HeldOutside(was, AttemptRows(was, a) + Questions(was, a), {a})
  {
    forall r, c | r in was && c in was[r].links && Rule(c) == Restrict && was[r].links[c] == a
      ensures r in AttemptRows(was, a) + Questions(was, a)
    { HolderGoes(was, a, r, c); }
  }

  lemma HolderGoes(was: Database, a: Ref, r: Ref, c: Column)
    requires Typed(was) && a.table == Assessment
    requires r in was && c in was[r].links && Rule(c) == Restrict && was[r].links[c] == a
    ensures r in AttemptRows(was, a) + Questions(was, a)
  {
    hide Rule, Child, Parent;
    Restrictor(was, r, c);
    assert Matches(was[r], r, LinkIn(c, {a}));
    assert r in Select(was, r.table, LinkIn(c, {a}));
  }

  lemma RowTables(was: Database, a: Ref)
    ensures forall r | r in AttemptRows(was, a) :: r.table in KINDS || r.table == Attempt
    ensures forall r | r in Questions(was, a) :: r.table == Question
  {}

  /** Whole or half-way, the script leaves every foreign key resolving. */
  lemma BothEndsAreSound(db: Database, a: Ref)
    requires Typed(db) && Integrity(db) && a in db && a.table == Assessment
    ensures Integrity(Without(db, AttemptRows(db, a)))
    ensures !QuestionInUse(db, a) ==> Integrity(Without(db, AttemptRows(db, a) + Questions(db, a) + {a}))
  {
    hide AttemptRows, Attempts, Questions, QuestionInUse, Typed, Integrity, Without;
    var rows, questions := AttemptRows(db, a), Questions(db, a);
    RowTables(db, a);
    RowsAreFree(db, a);
    NothingCascades(db, rows);
    WithoutKeepsIntegrity(db, rows);
    QuestionsHeld(db, a);
    AssessmentIsFree(db, a);
    NothingCascades(db, rows + questions + {a});
    if !QuestionInUse(db, a) { WithoutKeepsIntegrity(db, rows + questions + {a}); }
  }

  // ---------- what goes, told by the rows ----------

  predicate AttemptAt(db: Database, t: Ref, a: Ref) {
    t in db && t.table == Attempt && AttemptAssessment in db[t].links && db[t].links[AttemptAssessment] == a
  }

  /** `c` names an attempt at the assessment. */
  predicate HangsOnAttempt(db: Database, r: Ref, c: Column, a: Ref)
    requires r in db
  {
    c in db[r].links && AttemptAt(db, db[r].links[c], a)
  }

  predicate UnderAttempt(db: Database, r: Ref, a: Ref)
    requires r in db
  {
    || (r.table == IntegrityEvent && HangsOnAttempt(db, r, IntegrityEventAttempt, a))
    || (r.table == QuestionServedAt && HangsOnAttempt(db, r, QuestionServedAtAttempt, a))
    || (r.table == AttemptAnswer && HangsOnAttempt(db, r, AttemptAnswerAttempt, a))
    || (r.table == Badge && HangsOnAttempt(db, r, BadgeAttempt, a))
  }

  /**
   With the attempts go exactly their integrity events, served questions, answers and badges; in the end the
   questions and the assessment too.
   */
  lemma GoesExactly(db: Database, a: Ref, r: Ref)
    requires r in db
    ensures var half := Without(db, AttemptRows(db, a)); r !in half <==> AttemptAt(db, r, a) || UnderAttempt(db, r, a)
    ensures var half, left := Without(db, AttemptRows(db, a)), Without(db, AttemptRows(db, a) + Questions(db, a) + {a});
      r !in left <==> r !in half || r == a || QuestionOn(db, r, a)
  {
    hide Unlink, AttemptRows, Questions, UnderAttempt;
    RowUnder(db, a, r);
    QuestionIs(db, a, r);
  }

  predicate QuestionOn(db: Database, q: Ref, a: Ref) {
    q in db && q.table == Question && QuestionAssessment in db[q].links && db[q].links[QuestionAssessment] == a
  }

  lemma QuestionIs(db: Database, a: Ref, q: Ref)
    ensures q in Questions(db, a) <==> QuestionOn(db, q, a)
  {}

  lemma AttemptIs(db: Database, a: Ref, t: Ref)
    ensures t in Attempts(db, a) <==> AttemptAt(db, t, a)
  {}

  lemma RowUnder(db: Database, a: Ref, r: Ref)
    requires r in db
    ensures r in AttemptRows(db, a) <==> AttemptAt(db, r, a) || UnderAttempt(db, r, a)
  {
    hide Attempts, AttemptAt;
    forall t ensures t in Attempts(db, a) <==> AttemptAt(db, t, a) { AttemptIs(db, a, t); }
  }

  /** `c` names a question of the assessment. */
  predicate AsksOf(db: Database, r: Ref, c: Column, a: Ref)
    requires r in db
  {
    c in db[r].links && QuestionOn(db, db[r].links[c], a)
  }

  /** Answered or served, but not in an attempt at the question's own assessment. */
  predicate UsesFromOutside(db: Database, r: Ref, a: Ref)
    requires r in db
  {
    || (r.table == AttemptAnswer && AsksOf(db, r, AttemptAnswerQuestion, a)
      && !HangsOnAttempt(db, r, AttemptAnswerAttempt, a))
    || (r.table == QuestionServedAt && AsksOf(db, r, QuestionServedAtQuestion, a)
        && !HangsOnAttempt(db, r, QuestionServedAtAttempt, a))
  }

  /** A question is in use exactly if it was answered or served in an attempt at another assessment. */
  lemma InUseIff(db: Database, a: Ref)
    requires Typed(db)
    ensures QuestionInUse(db, a) <==> exists r | r in db :: UsesFromOutside(db, r, a)
  {
    hide AttemptRows, Questions, UsesFromOutside, Typed, Child;
    forall r, c | r in db && c in db[r].links && (c == AttemptAnswerQuestion || c == QuestionServedAtQuestion)
      ensures r !in AttemptRows(db, a) && db[r].links[c] in Questions(db, a) ==> UsesFromOutside(db, r, a)
    { Uses(db, a, r, c); }
    forall r | r in db && UsesFromOutside(db, r, a) ensures r !in AttemptRows(db, a) { UserIs(db, a, r); }
    forall r | r in db && UsesFromOutside(db, r, a)
      ensures exists c | c in db[r].links ::
        (c == AttemptAnswerQuestion || c == QuestionServedAtQuestion) && db[r].links[c] in Questions(db, a)
    { UserIs(db, a, r); }
  }

  lemma Uses(db: Database, a: Ref, r: Ref, c: Column)
    requires Typed(db) && r in db && c in db[r].links && (c == AttemptAnswerQuestion || c == QuestionServedAtQuestion)
    ensures r !in AttemptRows(db, a) && db[r].links[c] in Questions(db, a) ==> UsesFromOutside(db, r, a)
  {
    hide AttemptRows, Questions, HangsOnAttempt;
    assert r.table == Child(c);
    RowUnder(db, a, r);
    QuestionIs(db, a, db[r].links[c]);
  }

  lemma UserIs(db: Database, a: Ref, r: Ref)
    requires r in db && UsesFromOutside(db, r, a)
    ensures r !in AttemptRows(db, a)
    ensures exists c | c in db[r].links ::
      (c == AttemptAnswerQuestion || c == QuestionServedAtQuestion) && db[r].links[c] in Questions(db, a)
  {
    hide AttemptRows, Questions, HangsOnAttempt, QuestionOn;
    RowUnder(db, a, r);
    var c := if r.table == AttemptAnswer then AttemptAnswerQuestion else QuestionServedAtQuestion;
    QuestionIs(db, a, db[r].links[c]);
    assert c in db[r].links && db[r].links[c] in Questions(db, a);
  }

  const A := Ref(Assessment, "A")
  const B := Ref(Assessment, "B")
  const Q := Ref(Question, "q")
  const AT_A := Ref(Attempt, "a")
  const AT_B := Ref(Attempt, "b")
  const ANSWER := Ref(AttemptAnswer, "x")

  function ExampleLinks(r: Ref): map<Column, Ref> {
    if r == Q then map[QuestionAssessment := A]
    else if r == AT_A then map[AttemptAssessment := A]
    else if r == AT_B then map[AttemptAssessment := B]
    else if r == ANSWER then map[AttemptAnswerAttempt := AT_B, AttemptAnswerQuestion := Q]
    else map[]
  }

  /** Two assessments; an attempt at the second has answered a question of the first. */
  function Example(): Database {
    map r | r in {A, B, Q, AT_A, AT_B, ANSWER} :: Row(ExampleLinks(r), "")
  }

  /** On such a database the script stops half-way: the assessment and its question are left without the attempt. */
  lemma StopsHalfWay()
    ensures Typed(Example()) && Integrity(Example()) && A in Example() && QuestionInUse(Example(), A)
    ensures var left := Without(Example(), AttemptRows(Example(), A));
      A in left && Q in left && AT_A in Example() && AT_A !in left
  {
    hide Example, Attempts, AttemptRows, Questions, QuestionInUse, Without, Typed, Integrity;
    ExampleIsSound();
    ExampleRows();
    ExampleTables();
    AttemptOf(Example(), A, AT_A);
    AttemptOf(Example(), A, AT_B);
    AnswerOf(Example(), A, ANSWER);
    QuestionOf(Example(), A, Q);
    UsedElsewhere(Example(), A, ANSWER);
    RowTables(Example(), A);
    WithoutRows(Example(), AttemptRows(Example(), A));
  }

  lemma ExampleTables()
    ensures A.table == B.table == Assessment && Q.table == Question && AT_A.table == AT_B.table == Attempt
    ensures ANSWER.table == AttemptAnswer && A != B && AT_A != AT_B && Assessment !in KINDS && Question !in KINDS
  {}

  lemma WithoutRows(db: Database, gone: set<Ref>)
    ensures Without(db, gone).Keys == db.Keys - gone
  {
    hide Unlink;
  }

  lemma AttemptOf(db: Database, a: Ref, r: Ref)
    requires r in db && r.table == Attempt && AttemptAssessment in db[r].links
    ensures r in Attempts(db, a) <==> db[r].links[AttemptAssessment] == a
    ensures r in Attempts(db, a) ==> r in AttemptRows(db, a)
  {}

  lemma AnswerOf(db: Database, a: Ref, r: Ref)
    requires r in db && r.table == AttemptAnswer && AttemptAnswerAttempt in db[r].links
    ensures r in AttemptRows(db, a) <==> db[r].links[AttemptAnswerAttempt] in Attempts(db, a)
  {
    hide Attempts;
    assert forall t | t in Attempts(db, a) :: t.table == Attempt by {
      TablesOf(db, Attempt, LinkIn(AttemptAssessment, {a}));
      AttemptsAre(db, a);
    }
  }

  lemma AttemptsAre(db: Database, a: Ref)
    ensures Attempts(db, a) == Select(db, Attempt, LinkIn(AttemptAssessment, {a}))
  {}

  lemma QuestionOf(db: Database, a: Ref, r: Ref)
    requires r in db && r.table == Question && QuestionAssessment in db[r].links
    ensures r in Questions(db, a) <==> db[r].links[QuestionAssessment] == a
  {}

  lemma UsedElsewhere(db: Database, a: Ref, r: Ref)
    requires r in db && r !in AttemptRows(db, a) && AttemptAnswerQuestion in db[r].links
    ensures db[r].links[AttemptAnswerQuestion] in Questions(db, a) ==> QuestionInUse(db, a)
  {
    hide AttemptRows, Questions;
  }

  lemma ExampleRows()
    ensures Example().Keys == {A, B, Q, AT_A, AT_B, ANSWER}
    ensures Example()[A].links == Example()[B].links == map[]
    ensures Example()[Q].links == map[QuestionAssessment := A]
    ensures Example()[AT_A].links == map[AttemptAssessment := A] && Example()[AT_B].links == map[AttemptAssessment := B]
    ensures Example()[ANSWER].links == map[AttemptAnswerAttempt := AT_B, AttemptAnswerQuestion := Q]
  {}

  lemma ExampleIsSound()
    ensures Typed(Example()) && Integrity(Example())
  {
    hide Child, Parent, Example;
    forall r, c | r in Example() && c in Example()[r].links
      ensures r.table == Child(c) && Example()[r].links[c].table == Parent(c) && Example()[r].links[c] in Example()
    { ExampleLink(r, c); }
  }

  lemma ExampleLink(r: Ref, c: Column)
    requires r in Example() && c in Example()[r].links
    ensures r.table == Child(c) && Example()[r].links[c].table == Parent(c) && Example()[r].links[c] in Example()
  {
    hide Child, Parent, Example;
    ExampleRows();
    ExampleTables();
    if r == Q { QuestionColumn(); } else if r == ANSWER { AnswerColumns(); } else { AttemptColumns(); }
  }

  lemma QuestionColumn()
    ensures Child(QuestionAssessment) == Question && Parent(QuestionAssessment) == Assessment
  {}

  lemma AttemptColumns()
    ensures Child(AttemptAssessment) == Attempt && Parent(AttemptAssessment) == Assessment
  {}

  lemma AnswerColumns()
    ensures Child(AttemptAnswerAttempt) == AttemptAnswer == Child(AttemptAnswerQuestion)
    ensures Parent(AttemptAnswerAttempt) == Attempt && Parent(AttemptAnswerQuestion) == Question
  {}

  lemma AttemptsIn(db: Database, a: Ref)
    ensures forall r | r in AttemptRows(db, a) && r.table == Attempt :: r in Attempts(db, a)
  {}

  lemma RowsAreFree(db: Database, a: Ref)
    requires Typed(db)
    ensures !HeldOutside(db, AttemptRows(db, a), AttemptRows(db, a))
  {
    hide Rule, Child, Parent, AttemptRows, Attempts, Typed;
    forall r, c | r in db && c in db[r].links && Rule(c) == Restrict && db[r].links[c] in AttemptRows(db, a)
      ensures r in AttemptRows(db, a)
    { HolderIsAmong(db, a, r, c); }
  }

  lemma HolderIsAmong(db: Database, a: Ref, r: Ref, c: Column)
    requires Typed(db) && r in db && c in db[r].links && Rule(c) == Restrict && db[r].links[c] in AttemptRows(db, a)
    ensures r in AttemptRows(db, a)
  {
    hide Rule, Child, Parent, AttemptRows, Attempts, Typed;
    AttemptsIn(db, a);
    RowTables(db, a);
    Restrictor(db, r, c);
    ChildGoes(db, a, Attempts(db, a), r, c);
  }

  // ---------- the script ----------

  datatype Outcome = NotFound | Deleted(questions: nat, attempts: nat) | Stopped

  class Script {
    var db: Database

    constructor (db: Database)
      ensures this.db == db
    {
      this.db := db;
    }

    method DeleteMany(t: Table, w: Where) returns (ok: bool, n: nat)
      modifies this
      ensures n == |Select(old(db), t, w)| && (ok <==> !Blocked(old(db), Select(old(db), t, w)))
      ensures db == if ok then Delete(old(db), Select(old(db), t, w)) else old(db)
    {
      var rows := Select(db, t, w);
      n := |rows|;
      ok := !Blocked(db, rows);
      if ok { db := Delete(db, rows); }
    }

    /**
     One deletion, after the rows `gone` of `base`: it deletes what it would have deleted there, or the database
     refuses it.
     */
    method Step(ghost base: Database, ghost gone: set<Ref>, t: Table, w: Where) returns (ok: bool, n: nat)
      requires Typed(base) && db == Without(base, gone)
      requires t in {Attempt, IntegrityEvent, QuestionServedAt, AttemptAnswer, Badge, Question, Assessment}
      requires forall r | r in gone :: r.table != t && (w.LinkIn? ==> r !in w.targets)
      modifies this
      ensures n == |Select(base, t, w)| && (ok <==> !HeldOutside(base, gone, Select(base, t, w)))
      ensures db == Without(base, if ok then gone + Select(base, t, w) else gone)
    {
      SelectAfter(base, gone, t, w);
      DeleteAfter(base, gone, Select(base, t, w));
      BlockedAfter(base, gone, Select(base, t, w));
      NothingCascades(base, Select(base, t, w));
      ok, n := DeleteMany(t, w);
    }

    method ChildStep(ghost was: Database, attempts: set<Ref>, ghost ts: set<Table>, t: Table)
      requires Typed(was) && t in KINDS && t !in ts && Attempt !in ts
      requires forall r | r in attempts :: r.table == Attempt
      requires db == Without(Detach(was, attempts), Under(was, attempts, ts))
      modifies this
      ensures db == Without(Detach(was, attempts), Under(was, attempts, ts + {t}))
    {
      hide Without, Typed, Detach, HeldOutside, Select;
      ChildPlan(was, attempts, ts, t);
      var ok, n := Step(Detach(was, attempts), Under(was, attempts, ts), t, LinkIn(AttemptColumn(t), attempts));
    }

    /** The children of the attempts, then the attempts: the database never refuses one of these. */
    method DeleteAttempts(ghost was: Database, a: Ref, attempts: set<Ref>)
      requires Typed(was) && db == was && a.table == Assessment
      requires attempts == Attempts(was, a)
      modifies this
      ensures db == Without(was, AttemptRows(was, a))
    {
      hide Without, Typed, Detach, HeldOutside, Select, Attempts, Rule, Child, Parent;
      ghost var base := Detach(was, attempts);
      db := Detach(db, attempts);
      WithoutNothing(base);
      AttemptPlan(was, a, attempts);
      assert Under(was, attempts, {}) == {};
      ChildStep(was, attempts, {}, IntegrityEvent);
      assert {} + {IntegrityEvent} == {IntegrityEvent};
      ChildStep(was, attempts, {IntegrityEvent}, QuestionServedAt);
      assert {IntegrityEvent} + {QuestionServedAt} == {IntegrityEvent, QuestionServedAt};
      ChildStep(was, attempts, {IntegrityEvent, QuestionServedAt}, AttemptAnswer);
      assert {IntegrityEvent, QuestionServedAt} + {AttemptAnswer} == {IntegrityEvent, QuestionServedAt, AttemptAnswer};
      ChildStep(was, attempts, {IntegrityEvent, QuestionServedAt, AttemptAnswer}, Badge);
      assert {IntegrityEvent, QuestionServedAt, AttemptAnswer} + {Badge} == KINDS;
      ghost var gone := Under(was, attempts, KINDS);
      var ok, n := Step(base, gone, Attempt, IdIn(attempts));
      gone := gone + attempts;
      DetachIsAbsorbed(was, attempts, gone);
    }

    /**
     The script. It deletes the assessment whole exactly when no other attempt uses one of its questions;
     otherwise it stops half-way, with the attempts gone and the assessment and its questions still there.
     */
    method Run(a: Ref) returns (outcome: Outcome)
      requires Typed(db) && Integrity(db) && a.table == Assessment
      modifies this
      ensures a !in old(db) ==> outcome == NotFound && db == old(db)
      ensures a in old(db) && !old(QuestionInUse(db, a)) ==>
        outcome == Deleted(|Questions(old(db), a)|, |Attempts(old(db), a)|) &&
        db == Without(old(db), AttemptRows(old(db), a) + Questions(old(db), a) + {a})
      ensures a in old(db) && old(QuestionInUse(db, a)) ==>
        outcome == Stopped && db == Without(old(db), AttemptRows(old(db), a))
    {
      hide AttemptRows, Attempts, Questions, QuestionInUse, HeldOutside, Select, Without, Typed, Integrity;
      if a !in db { return NotFound; }
      ghost var was := db;
      WithoutNothing(was);
      var attempts := Attempts(db, a);
      NoAttemptsNoRows(was, a, attempts);
      if attempts != {} {
        DeleteAttempts(was, a, attempts);
      }
      ghost var rows := AttemptRows(was, a);
      RowTables(was, a);
      QuestionsAre(was, a);
      QuestionsHeld(was, a);
      AssessmentIsFree(was, a);
      var ok, n := Step(was, rows, Question, LinkIn(QuestionAssessment, {a}));
      if !ok { return Stopped; }
      var ok', _ := Step(was, rows + Questions(was, a), Assessment, IdIn({a}));
      outcome := Deleted(n, |attempts|);
    }
  }
}
