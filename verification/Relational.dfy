/**
 Deleting rows under foreign keys: what one `deleteMany` does to a database,
 and the laws that let a whole sequence of them be described at once.
 */
module Relational {
  import opened Schema

  datatype Ref = Ref(table: Table, id: string)

  /** A row: its non-null foreign keys, and the one scalar the scripts write. */
  datatype Row = Row(links: map<Column, Ref>, status: string)

  type Database = map<Ref, Row>

  /** Every link sits in a row of its column's table and names a row of its parent table. */
  ghost predicate Typed(db: Database) {
    forall r, c | r in db && c in db[r].links :: r.table == Child(c) && db[r].links[c].table == Parent(c)
  }

  /** Every foreign key resolves. */
  ghost predicate Integrity(db: Database) {
    forall r, c | r in db && c in db[r].links :: db[r].links[c] in db
  }

  // ---------- queries ----------

  datatype Where = LinkIn(column: Column, targets: set<Ref>) | IdIn(targets: set<Ref>) | Everything

  predicate Matches(row: Row, r: Ref, w: Where) {
    match w
    case LinkIn(c, targets) => c in row.links && row.links[c] in targets
    case IdIn(targets) => r in targets
    case Everything => true
  }

  function Select(db: Database, t: Table, w: Where): set<Ref> {
    set r | r in db && r.table == t && Matches(db[r], r, w)
  }

  // ---------- deletion ----------

  /** `r` goes when some parent in `doomed` goes, by ON DELETE CASCADE. */
  predicate Cascaded(db: Database, doomed: set<Ref>, r: Ref)
    requires r in db
  {
    exists c | c in db[r].links :: Rule(c) == Cascade && db[r].links[c] in doomed
  }

  function Closure(db: Database, doomed: set<Ref>): set<Ref> {
    doomed + set r | r in db && Cascaded(db, doomed, r)
  }

  /** Some row still holds a restricting reference into `doomed`. */
  predicate Blocked(db: Database, doomed: set<Ref>) {
    exists r, c | r in db && c in db[r].links :: Rule(c) == Restrict && db[r].links[c] in doomed
  }

  /** A row outside `gone` holds such a reference. */
  ghost predicate HeldOutside(db: Database, gone: set<Ref>, doomed: set<Ref>) {
    exists r, c | r in db && r !in gone && c in db[r].links :: Rule(c) == Restrict && db[r].links[c] in doomed
  }

  function Unlink(row: Row, gone: set<Ref>): Row {
    row.(links := map c | c in row.links && !(Rule(c) == SetNull && row.links[c] in gone) :: row.links[c])
  }

  /** The database once the rows `gone` are gone and nullable references to them are null. */
  function Without(db: Database, gone: set<Ref>): Database {
    map r | r in db && r !in gone :: Unlink(db[r], gone)
  }

  /** The effect of an unblocked `deleteMany`. */
  function Delete(db: Database, doomed: set<Ref>): Database {
    Without(db, Closure(db, doomed))
  }

  // ---------- laws ----------

  lemma DeleteKeepsIntegrity(db: Database, doomed: set<Ref>)
    requires Typed(db) && Integrity(db) && !Blocked(db, doomed)
    requires forall r | r in doomed :: !CascadeOnly(r.table)
    ensures Typed(Delete(db, doomed)) && Integrity(Delete(db, doomed))
  {
    var gone := Closure(db, doomed);
    var after := Delete(db, doomed);
    forall r, c | r in after && c in after[r].links
      ensures after[r].links[c] in after
    {
      var target := db[r].links[c];
      assert !Cascaded(db, doomed, r);
      assert target !in doomed;
      CascadeIsOneLevel(c);
      forall d ensures Rule(d) == Cascade ==> CascadeOnly(Child(d)) { CascadeIsOneLevel(d); }
      assert target !in gone;
    }
  }

  /**
   Rows may go together, keeping every foreign key whole, when they take their cascades along and nothing
   outside restricts them.
   */
  lemma WithoutKeepsIntegrity(db: Database, gone: set<Ref>)
    requires Integrity(db) && Closure(db, gone) == gone && !HeldOutside(db, gone, gone)
    ensures Integrity(Without(db, gone))
  {
    var after := Without(db, gone);
    forall r, c | r in after && c in after[r].links ensures after[r].links[c] in after {
      assert r !in Closure(db, gone) && !Cascaded(db, gone, r);
      assert c in db[r].links;
    }
  }

  lemma WithoutNothing(db: Database)
    ensures Without(db, {}) == db
  {
    forall r | r in db ensures Unlink(db[r], {}) == db[r] {
      assert Unlink(db[r], {}).links == db[r].links;
    }
  }

  /** Two deletions in a row are one deletion of both sets. */
  lemma WithoutTwice(db: Database, first: set<Ref>, second: set<Ref>)
    ensures Without(Without(db, first), second) == Without(db, first + second)
  {
    var left, right := Without(Without(db, first), second), Without(db, first + second);
    forall r | r in left ensures left[r] == right[r] {
      assert left[r].links == right[r].links;
    }
  }

  /** A deletion carried out after `gone` has gone is the same deletion on the original database. */
  lemma DeleteAfter(db: Database, gone: set<Ref>, doomed: set<Ref>)
    ensures Delete(Without(db, gone), doomed) == Without(db, gone + Closure(db, doomed))
  {
    var now := Without(db, gone);
    var late, early := gone + Closure(now, doomed), gone + Closure(db, doomed);
    WithoutTwice(db, gone, Closure(now, doomed));
    forall r | r in db && r !in gone
      ensures Cascaded(now, doomed, r) <==> Cascaded(db, doomed, r)
    {
      forall c | c in db[r].links && Rule(c) == Cascade ensures c in now[r].links {}
    }
    assert late == early;
  }

  /** A deletion after `gone` is blocked exactly by a restricting reference held outside `gone`. */
  lemma BlockedAfter(db: Database, gone: set<Ref>, doomed: set<Ref>)
    ensures Blocked(Without(db, gone), doomed) <==> HeldOutside(db, gone, doomed)
  {
    var now := Without(db, gone);
    if Blocked(now, doomed) {
      var r, c :| r in now && c in now[r].links && Rule(c) == Restrict && now[r].links[c] in doomed;
      assert r in db && c in db[r].links;
    }
    if r, c :| r in db && r !in gone && c in db[r].links && Rule(c) == Restrict && db[r].links[c] in doomed {
      assert r in now && c in now[r].links;
    }
  }

  /**
   A query still selects what it selected before `gone` went, if `gone` holds no row of its table and none of
   its targets.
   */
  lemma SelectAfter(db: Database, gone: set<Ref>, t: Table, w: Where)
    requires forall r | r in gone :: r.table != t
    requires w.LinkIn? ==> w.targets !! gone
    ensures Select(Without(db, gone), t, w) == Select(db, t, w)
  {
    var now := Without(db, gone);
    forall r | r in db && r.table == t ensures r in now && (Matches(now[r], r, w) <==> Matches(db[r], r, w)) {}
  }
}
