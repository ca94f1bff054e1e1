/**
 The pre-beta clean-up (apps/api/prisma/clean-for-beta.ts): one transaction of
 22 deletions and one update, run either for real or as a dry run that only counts.

 Everything promised here is said about the database as it stands BEFORE the
 run (`was`): which rows go, what is reported, when the transaction commits and
 what is left. `Cleanup.Run` is proved to do exactly that, although it queries
 and deletes in a database its own earlier steps have already changed.
 */
module CleanForBeta {
  import opened Schema
  import opened Relational

  const KEPT := Ref(Organization, "6be1d55a-a417-4a8d-98a5-7626dc013534")

  // ---------- the doomed rows, on the database before the run ----------

  function DeletedOrgs(db: Database): set<Ref> {
    set r | r in db && r.table == Organization && r != KEPT
  }

  /** Members of a deleted organisation. */
  function DoomedEmployers(db: Database): set<Ref> {
    set u | u in db && u.table == User
      && exists m | m in Select(db, OrgMember, LinkIn(OrgMemberOrg, DeletedOrgs(db))) ::
      OrgMemberUser in db[m].links && db[m].links[OrgMemberUser] == u
  }

  /**
   The rows through which others are doomed: deleted organisations, their members, jobs, shortlists and billing
   profiles; every attempt and badge.
   */
  function Condemned(db: Database, t: Table): set<Ref> {
    match t
    case Organization => DeletedOrgs(db)
    case User => DoomedEmployers(db)
    case Job => Select(db, Job, LinkIn(JobOrg, DeletedOrgs(db)))
    case ShortlistEntry => Select(db, ShortlistEntry, LinkIn(ShortlistEntryOrg, DeletedOrgs(db)))
    case BillingProfile => Select(db, BillingProfile, LinkIn(BillingProfileOrg, DeletedOrgs(db)))
    case Attempt => Select(db, Attempt, Everything)
    case Badge => Select(db, Badge, Everything)
    case _ => {}
  }

  /**
   How a table's rows come to be doomed: not at all, as condemned rows themselves, or through a column into
   condemned rows.
   */
  datatype Via = Spared | Itself | Through(column: Column, parent: Table)

  function ViaOf(t: Table): Via {
    match t
    case JobSkill => Through(JobSkillJob, Job)
    case Application => Through(ApplicationJob, Job)
    case InterviewRound => Through(InterviewRoundEntry, ShortlistEntry)
    case ShortlistEntry => Through(ShortlistEntryOrg, Organization)
    case Job => Through(JobOrg, Organization)
    case Transaction => Through(TransactionBillingProfile, BillingProfile)
    case BillingProfile => Through(BillingProfileOrg, Organization)
    case AssessmentRequest => Through(AssessmentRequestOrg, Organization)
    case OrgInvitation => Through(OrgInvitationOrg, Organization)
    case AdminAccessLog => Through(AdminAccessLogOrg, Organization)
    case OrgMember => Through(OrgMemberOrg, Organization)
    case Identity => Through(IdentityUser, User)
    case RefreshToken => Through(RefreshTokenUser, User)
    case ProfileView => Through(ProfileViewEmployer, User)
    case Notification => Through(NotificationUser, User)
    case CandidateProfile => Through(CandidateProfileUser, User)
    case AttemptAnswer => Through(AttemptAnswerAttempt, Attempt)
    case IntegrityEvent => Through(IntegrityEventAttempt, Attempt)
    case QuestionServedAt => Through(QuestionServedAtAttempt, Attempt)
    case User | Organization | Badge | Attempt => Itself
    case _ => Spared
  }

  /** Which rows of `t` the run is to delete. `resolve` is the --delete-empty-employer-profile flag. */
  function Filter(db: Database, resolve: bool, t: Table): Where {
    if t == CandidateProfile && !resolve then IdIn({})
    else match ViaOf(t)
      case Spared => IdIn({})
      case Itself => IdIn(Condemned(db, t))
      case Through(c, p) => LinkIn(c, Condemned(db, p))
  }

  /** Every row some deleteMany of the run names. */
  function Doomed(db: Database, resolve: bool): set<Ref> {
    set r | r in db && Matches(db[r], r, Filter(db, resolve, r.table))
  }

  function Of(rows: set<Ref>, t: Table): set<Ref> {
    set r | r in rows && r.table == t
  }

  const NEVER := 99

  /** When in the run the doomed rows of a table are deleted. Stages 15 and 19 are the two lines that delete nothing. */
  function Stage(t: Table): nat {
    match t
    case JobSkill => 0 case Application => 1 case InterviewRound => 2 case ShortlistEntry => 3 case Job => 4
    case Transaction => 5 case BillingProfile => 6 case AssessmentRequest => 7 case OrgInvitation => 8
    case AdminAccessLog => 9 case OrgMember => 10
    case Identity => 11 case RefreshToken => 12 case ProfileView => 13 case Notification => 14
    case CandidateProfile => 16 case User => 17
    case Organization => 18
    case AttemptAnswer => 20 case IntegrityEvent => 21 case QuestionServedAt => 22 case Badge => 23 case Attempt => 24
    case _ => NEVER
  }

  const TERMS_STAGE := 15
  const CLAIMS_STAGE := 19
  const STAGES := 25

  function Before(doomed: set<Ref>, k: nat): set<Ref> {
    set r | r in doomed && Stage(r.table) < k
  }

  /** Everything that has left the database after the first `k` stages, cascades included. */
  function Gone(db: Database, doomed: set<Ref>, k: nat): set<Ref> {
    Closure(db, Before(doomed, k))
  }

  // ---------- when the run commits ----------

  /** At stage `k` some row still holds a restricting reference to a row that is about to go. */
  ghost predicate HeldBack(db: Database, doomed: set<Ref>, k: nat) {
    exists r, c | r in db && c in db[r].links :: Rule(c) == Restrict
      && db[r].links[c] in doomed && Stage(db[r].links[c].table) == k && r !in Before(doomed, k)
  }

  /**
   The run commits exactly on these databases: whatever restricts a doomed row
   is itself doomed, and by an EARLIER statement.
   */
  ghost predicate Commits(db: Database, doomed: set<Ref>) {
    forall r, c | r in db && c in db[r].links && Rule(c) == Restrict && db[r].links[c] in doomed ::
      r in doomed && Stage(r.table) < Stage(db[r].links[c].table)
  }

  ghost predicate Clear(db: Database, doomed: set<Ref>, k: nat) {
    forall j: nat | j < k :: !HeldBack(db, doomed, j)
  }

  lemma CommitsIffClear(db: Database, doomed: set<Ref>)
    requires forall r | r in doomed :: Stage(r.table) < STAGES
    ensures Commits(db, doomed) <==> Clear(db, doomed, STAGES)
  {
    hide Stage, Rule;
    if !Commits(db, doomed) {
      var r, c :| r in db && c in db[r].links && Rule(c) == Restrict && db[r].links[c] in doomed
        && !(r in doomed && Stage(r.table) < Stage(db[r].links[c].table));
      assert HeldBack(db, doomed, Stage(db[r].links[c].table));
    }
  }

  // ---------- what the run reports and leaves ----------

  /** A skill claim resting on a badge loses it and goes back to UNVERIFIED; every other row is as it was. */
  function Reverted(db: Database): Database {
    map r | r in db :: Revert(r, db[r])
  }

  function Revert(r: Ref, row: Row): Row {
    if r.table == SkillClaim && SkillClaimBadge in row.links
    then Row(row.links - {SkillClaimBadge}, "UNVERIFIED")
    else row
  }

  function ClaimsOnBadges(db: Database): set<Ref> {
    Select(db, SkillClaim, LinkIn(SkillClaimBadge, Select(db, Badge, Everything)))
  }

  /** What a committed run leaves behind. */
  function Cleaned(db: Database, resolve: bool): Database {
    Without(Reverted(db), Gone(db, Doomed(db, resolve), STAGES))
  }

  /**
   The printed report has one line per table it is about. Two of those tables the
   run does not delete from: TermsAcceptance (rows that cascade with their
   user) and SkillClaim (claims reverted).
   */
  function Line(t: Table): nat {
    match t
    case TermsAcceptance => TERMS_STAGE
    case SkillClaim => CLAIMS_STAGE
    case _ => Stage(t)
  }

  predicate Printed(resolve: bool, t: Table) {
    Line(t) < STAGES && (t == CandidateProfile ==> resolve)
  }

  function CountOf(db: Database, doomed: set<Ref>, t: Table): nat {
    match t
    case TermsAcceptance => |Select(db, TermsAcceptance, LinkIn(TermsAcceptanceUser, DoomedEmployers(db)))|
    case SkillClaim => |ClaimsOnBadges(db)|
    case _ => |Of(doomed, t)|
  }

  /** The report as printed up to stage `k`, every line counted on the database before the run. */
  function Tally(db: Database, resolve: bool, doomed: set<Ref>, k: nat): map<Table, nat> {
    map t | Printed(resolve, t) && Line(t) < k :: CountOf(db, doomed, t)
  }

  function Report(db: Database, resolve: bool): map<Table, nat> {
    Tally(db, resolve, Doomed(db, resolve), STAGES)
  }

  // ---------- one stage ----------

  function Base(was: Database, k: nat): Database {
    if k <= CLAIMS_STAGE then was else Reverted(was)
  }

  /** The database after `k` stages. */
  function StateAt(was: Database, doomed: set<Ref>, k: nat): Database {
    Without(Base(was, k), Gone(was, doomed, k))
  }

  lemma StageIsOwn(t: Table, u: Table)
    requires Stage(t) == Stage(u) != NEVER
    ensures t == u
  {}

  lemma GoneIsDoomed(db: Database, doomed: set<Ref>, k: nat, r: Ref)
    requires Typed(db) && doomed <= db.Keys && r in Gone(db, doomed, k)
    ensures !CascadeOnly(r.table) ==> r in Before(doomed, k)
    ensures CascadeOnly(r.table) && r !in doomed ==> exists c | c in db[r].links :: db[r].links[c] in Before(doomed, k)
  {
    hide Stage, Rule, Child, Parent, CascadeOnly;
    if r !in Before(doomed, k) {
      var c :| c in db[r].links && Rule(c) == Cascade && db[r].links[c] in Before(doomed, k);
      CascadeIsOneLevel(c);
      assert r.table == Child(c) by { TypedChild(db, r, c); }
    }
  }

  lemma TypedChild(db: Database, r: Ref, c: Column)
    requires Typed(db) && r in db && c in db[r].links
    ensures r.table == Child(c) && db[r].links[c].table == Parent(c)
  {}

  /** Acceptances of the terms point at users and nothing else. */
  lemma TermsHangOnUsers(db: Database, r: Ref, c: Column)
    requires Typed(db) && r in db && r.table == TermsAcceptance && c in db[r].links
    ensures db[r].links[c].table == User
  {
    TypedChild(db, r, c);
  }

  lemma GoneNext(db: Database, doomed: set<Ref>, t: Table)
    requires Stage(t) != NEVER
    ensures Gone(db, doomed, Stage(t) + 1) == Gone(db, doomed, Stage(t)) + Closure(db, Of(doomed, t))
  {
    var k := Stage(t);
    forall r: Ref | Stage(r.table) == k ensures r.table == t { StageIsOwn(t, r.table); }
    assert Before(doomed, k + 1) == Before(doomed, k) + Of(doomed, t);
    ClosureOfUnion(db, Before(doomed, k), Of(doomed, t));
  }

  lemma ClosureOfUnion(db: Database, a: set<Ref>, b: set<Ref>)
    ensures Closure(db, a + b) == Closure(db, a) + Closure(db, b)
  {
    forall r | r in db ensures Cascaded(db, a + b, r) <==> Cascaded(db, a, r) || Cascaded(db, b, r) {}
  }

  /** A reverted row keeps every link that can cascade or restrict. */
  lemma RevertKeepsHardLinks(r: Ref, row: Row, c: Column)
    requires Rule(c) != SetNull
    ensures c in Revert(r, row).links <==> c in row.links
    ensures c in row.links ==> Revert(r, row).links[c] == row.links[c]
  {}

  lemma RevertKeepsClosure(db: Database, doomed: set<Ref>)
    ensures Closure(Reverted(db), doomed) == Closure(db, doomed)
  {
    var base := Reverted(db);
    forall r | r in db ensures Cascaded(base, doomed, r) <==> Cascaded(db, doomed, r) {
      forall c | Rule(c) == Cascade
        ensures c in base[r].links <==> c in db[r].links
        ensures c in db[r].links ==> base[r].links[c] == db[r].links[c]
      { RevertKeepsHardLinks(r, db[r], c); }
    }
  }

  lemma RevertKeepsHeld(db: Database, gone: set<Ref>, doomed: set<Ref>)
    ensures HeldOutside(Reverted(db), gone, doomed) <==> HeldOutside(db, gone, doomed)
  {
    var base := Reverted(db);
    forall r, c | r in db && Rule(c) == Restrict
      ensures c in base[r].links <==> c in db[r].links
      ensures c in db[r].links ==> base[r].links[c] == db[r].links[c]
    { RevertKeepsHardLinks(r, db[r], c); }
    if HeldOutside(db, gone, doomed) {
      var r, c :| r in db && r !in gone && c in db[r].links && Rule(c) == Restrict && db[r].links[c] in doomed;
      assert r in base && c in base[r].links;
    }
  }

  lemma RevertKeepsSelect(db: Database, t: Table, w: Where)
    requires t != SkillClaim
    ensures Select(Reverted(db), t, w) == Select(db, t, w)
  {}

  lemma CondemnedTable(db: Database, t: Table)
    ensures forall r | r in Condemned(db, t) :: r.table == t
  {}

  lemma ViaLooksAhead(t: Table)
    requires Stage(t) != NEVER
    ensures !CascadeOnly(t) && match ViaOf(t)
      case Through(c, p) => Stage(p) >= Stage(t) && !CascadeOnly(p)
      case _ => true
  {}

  /** The one table a filter for `t` aims at: its rows go no earlier than those of `t`. */
  lemma FilterAim(db: Database, resolve: bool, t: Table) returns (aim: Table)
    requires Stage(t) != NEVER
    ensures var w := Filter(db, resolve, t); !w.Everything? && forall r | r in w.targets :: r.table == aim
    ensures Stage(aim) >= Stage(t) && !CascadeOnly(aim) && !CascadeOnly(t)
  {
    hide Condemned, ViaOf, Stage, CascadeOnly;
    ViaLooksAhead(t);
    aim := if ViaOf(t).Through? then ViaOf(t).parent else t;
    CondemnedTable(db, aim);
  }

  /** Rows that do not go before stage `k`, and are not taken by cascade. */
  ghost predicate Later(rows: set<Ref>, k: nat) {
    forall r | r in rows :: Stage(r.table) >= k && !CascadeOnly(r.table)
  }

  /** A query over rows that go later, aimed at rows that go later, still selects what it selected at the outset. */
  lemma ReadAhead(was: Database, doomed: set<Ref>, k: nat, t: Table, w: Where)
    requires Typed(was) && doomed <= was.Keys && Stage(t) >= k && !CascadeOnly(t)
      && (t == SkillClaim ==> k <= CLAIMS_STAGE)
    requires !w.Everything? ==> Later(w.targets, k)
    ensures Select(StateAt(was, doomed, k), t, w) == Select(was, t, w)
  {
    var base := Base(was, k);
    var gone := Gone(was, doomed, k);
    forall r | r in gone
      ensures r.table != t && (!w.Everything? ==> r !in w.targets) { GoneIsDoomed(was, doomed, k, r); }
    if t != SkillClaim { RevertKeepsSelect(was, t, w); }
    SelectAfter(base, gone, t, w);
  }

  /** Acceptances of the terms are still all there while no user has gone. */
  lemma TermsStillThere(was: Database, doomed: set<Ref>, k: nat, w: Where)
    requires Typed(was) && doomed <= was.Keys && k <= Stage(User)
    requires forall r | r in doomed :: !CascadeOnly(r.table)
    requires w.LinkIn? && forall r | r in w.targets :: r.table == User
    ensures Select(StateAt(was, doomed, k), TermsAcceptance, w) == Select(was, TermsAcceptance, w)
  {
    var gone := Gone(was, doomed, k);
    forall r | r in gone ensures r.table != TermsAcceptance && r !in w.targets {
      GoneIsDoomed(was, doomed, k, r);
      if r.table == TermsAcceptance {
        forall c | c in was[r].links ensures was[r].links[c].table == User { TermsHangOnUsers(was, r, c); }
      }
    }
    SelectAfter(was, gone, TermsAcceptance, w);
  }

  /**
   The stage of table `t`: a query whose targets are deleted no earlier still
   selects what it selected at the outset, the deletion is blocked exactly when
   HeldBack says so, and it leads to StateAt the next stage.
   */
  lemma StageStep(was: Database, doomed: set<Ref>, t: Table, w: Where)
    requires Typed(was) && doomed <= was.Keys && Stage(t) != NEVER && !CascadeOnly(t)
    requires Select(was, t, w) == Of(doomed, t)
    requires !w.Everything? && Later(w.targets, Stage(t))
    ensures var now := StateAt(was, doomed, Stage(t));
      && Select(now, t, w) == Of(doomed, t)
      && Delete(now, Of(doomed, t)) == StateAt(was, doomed, Stage(t) + 1)
      && (Blocked(now, Of(doomed, t)) <==> HeldBack(was, doomed, Stage(t)))
  {
    var k, rows := Stage(t), Of(doomed, t);
    var base := Base(was, k);
    var gone := Gone(was, doomed, k);
    ReadAhead(was, doomed, k, t, w);
    RevertKeepsClosure(was, rows);
    RevertKeepsHeld(was, gone, rows);
    DeleteAfter(base, gone, rows);
    GoneNext(was, doomed, t);
    BlockedAfter(base, gone, rows);
    HeldOutsideMeansHeldBack(was, doomed, t);
  }

  lemma HeldOutsideMeansHeldBack(was: Database, doomed: set<Ref>, t: Table)
    requires Typed(was) && doomed <= was.Keys && Stage(t) != NEVER
    ensures HeldOutside(was, Gone(was, doomed, Stage(t)), Of(doomed, t)) <==> HeldBack(was, doomed, Stage(t))
  {
    var k := Stage(t);
    if HeldBack(was, doomed, k) {
      var r, c :| r in was && c in was[r].links && Rule(c) == Restrict
        && was[r].links[c] in doomed && Stage(was[r].links[c].table) == k && r !in Before(doomed, k);
      RestrictorStays(was, doomed, k, r, c);
      StageIsOwn(t, was[r].links[c].table);
    }
  }

  /** A row holding a restricting reference is never cascaded, so it is there unless an earlier stage named it. */
  lemma RestrictorStays(was: Database, doomed: set<Ref>, k: nat, r: Ref, c: Column)
    requires Typed(was) && doomed <= was.Keys && r in was && c in was[r].links && Rule(c) == Restrict
    requires r !in Before(doomed, k)
    ensures r !in Gone(was, doomed, k)
  {
    CascadeIsOneLevel(c);
    if r in Gone(was, doomed, k) { GoneIsDoomed(was, doomed, k, r); }
  }

  lemma ClearNext(db: Database, doomed: set<Ref>, t: Table)
    requires Stage(t) != NEVER && Clear(db, doomed, Stage(t))
    ensures !HeldBack(db, doomed, Stage(t)) ==> Clear(db, doomed, Stage(t) + 1)
    ensures HeldBack(db, doomed, Stage(t)) ==> !Clear(db, doomed, STAGES)
  {
    assert Stage(t) < STAGES;
  }

  lemma LineIsOwn(t: Table, u: Table)
    requires Line(t) == Line(u) < STAGES
    ensures t == u
  {
    hide Stage;
    LineStage(t);
    LineStage(u);
    if Stage(t) == Line(t) && Stage(u) == Line(u) { StageIsOwn(t, u); }
  }

  lemma LineStage(t: Table)
    ensures Stage(t) != TERMS_STAGE && Stage(t) != CLAIMS_STAGE && NEVER > STAGES
    ensures t == TermsAcceptance || t == SkillClaim ==> Stage(t) == NEVER
    ensures Stage(t) == NEVER || Stage(t) < STAGES
  {}

  lemma TallyNext(db: Database, resolve: bool, doomed: set<Ref>, t: Table)
    requires Printed(resolve, t)
    ensures t !in Tally(db, resolve, doomed, Line(t))
    ensures Tally(db, resolve, doomed, Line(t) + 1)
         == Tally(db, resolve, doomed, Line(t))[t := CountOf(db, doomed, t)]
  {
    hide CountOf, Line;
    forall u | Printed(resolve, u) && Line(u) == Line(t) ensures u == t { LineIsOwn(t, u); }
  }

  /** `doomed` is what the deleteMany filters name, table by table. */
  ghost predicate Planned(db: Database, resolve: bool, doomed: set<Ref>) {
    forall t :: Of(doomed, t) == Select(db, t, Filter(db, resolve, t))
  }

  lemma DoomedIsPlanned(db: Database, resolve: bool)
    ensures Planned(db, resolve, Doomed(db, resolve))
  {}

  /** A doomed row is due at one of the deleting stages. */
  ghost predicate AllStaged(resolve: bool, doomed: set<Ref>) {
    forall r | r in doomed ::
      Stage(r.table) < STAGES && !CascadeOnly(r.table) && (r.table == CandidateProfile ==> resolve)
  }

  lemma DoomedIsStaged(db: Database, resolve: bool)
    ensures Doomed(db, resolve) <= db.Keys && AllStaged(resolve, Doomed(db, resolve))
  {
    hide Condemned;
  }

  /** A query on `t` made at stage `k` sees none of the run's own changes. */
  ghost predicate Readable(t: Table, k: nat, w: Where) {
    && Stage(t) >= k && !CascadeOnly(t) && (t == SkillClaim ==> k <= CLAIMS_STAGE)
    && (!w.Everything? ==> Later(w.targets, k))
  }

  /** Stage `k` runs, and deletes from `t` what `w` selects. */
  ghost predicate Due(db: Database, resolve: bool, t: Table, k: nat, w: Where) {
    Stage(t) == k < STAGES && w == Filter(db, resolve, t) && (t == CandidateProfile ==> resolve)
  }

  lemma DueMeans(db: Database, resolve: bool, t: Table, k: nat, w: Where)
    requires Due(db, resolve, t, k, w)
    ensures Stage(t) == Line(t) == k && k != NEVER && Printed(resolve, t) && w == Filter(db, resolve, t)
    ensures forall doomed :: CountOf(db, doomed, t) == |Of(doomed, t)|
    ensures !w.Everything? && Later(w.targets, k) && !CascadeOnly(t)
  {
    hide Select, Of, Filter;
    var aim := FilterAim(db, resolve, t);
  }

  lemma CondemnedAre(db: Database)
    ensures Condemned(db, Organization) == DeletedOrgs(db) && Condemned(db, User) == DoomedEmployers(db)
    ensures Condemned(db, Job) == Select(db, Job, LinkIn(JobOrg, DeletedOrgs(db)))
    ensures Condemned(db, ShortlistEntry) == Select(db, ShortlistEntry, LinkIn(ShortlistEntryOrg, DeletedOrgs(db)))
    ensures Condemned(db, BillingProfile) == Select(db, BillingProfile, LinkIn(BillingProfileOrg, DeletedOrgs(db)))
    ensures Condemned(db, Attempt) == Select(db, Attempt, Everything)
      && Condemned(db, Badge) == Select(db, Badge, Everything)
  {}

  lemma JobPlan(db: Database, resolve: bool)
    ensures Due(db, resolve, JobSkill, 0, LinkIn(JobSkillJob, Condemned(db, Job)))
    ensures Due(db, resolve, Application, 1, LinkIn(ApplicationJob, Condemned(db, Job)))
    ensures Due(db, resolve, InterviewRound, 2, LinkIn(InterviewRoundEntry, Condemned(db, ShortlistEntry)))
    ensures Due(db, resolve, ShortlistEntry, 3, LinkIn(ShortlistEntryOrg, Condemned(db, Organization)))
    ensures Due(db, resolve, Job, 4, LinkIn(JobOrg, Condemned(db, Organization)))
  {
    hide Condemned;
  }

  lemma OrgPlan(db: Database, resolve: bool)
    ensures Due(db, resolve, Transaction, 5, LinkIn(TransactionBillingProfile, Condemned(db, BillingProfile)))
    ensures Due(db, resolve, BillingProfile, 6, LinkIn(BillingProfileOrg, Condemned(db, Organization)))
    ensures Due(db, resolve, AssessmentRequest, 7, LinkIn(AssessmentRequestOrg, Condemned(db, Organization)))
    ensures Due(db, resolve, OrgInvitation, 8, LinkIn(OrgInvitationOrg, Condemned(db, Organization)))
    ensures Due(db, resolve, AdminAccessLog, 9, LinkIn(AdminAccessLogOrg, Condemned(db, Organization)))
    ensures Due(db, resolve, OrgMember, 10, LinkIn(OrgMemberOrg, Condemned(db, Organization)))
  {
    hide Condemned;
  }

  lemma OrgReads(db: Database)
    ensures var orgs := DeletedOrgs(db);
      && Readable(Job, 0, LinkIn(JobOrg, orgs))
      && Readable(ShortlistEntry, 0, LinkIn(ShortlistEntryOrg, orgs))
      && Readable(BillingProfile, 5, LinkIn(BillingProfileOrg, orgs))
  {}

  lemma EmployerPlan(db: Database, resolve: bool)
    ensures Due(db, resolve, Identity, 11, LinkIn(IdentityUser, Condemned(db, User)))
    ensures Due(db, resolve, RefreshToken, 12, LinkIn(RefreshTokenUser, Condemned(db, User)))
    ensures Due(db, resolve, ProfileView, 13, LinkIn(ProfileViewEmployer, Condemned(db, User)))
    ensures Due(db, resolve, Notification, 14, LinkIn(NotificationUser, Condemned(db, User)))
  {
    hide Condemned;
  }

  lemma ProfilePlan(db: Database, resolve: bool)
    ensures resolve ==> Due(db, resolve, CandidateProfile, 16, LinkIn(CandidateProfileUser, Condemned(db, User)))
    ensures Due(db, resolve, User, 17, IdIn(Condemned(db, User)))
  {
    hide Condemned;
  }

  lemma AttemptPlan(db: Database, resolve: bool)
    ensures Due(db, resolve, Organization, 18, IdIn(Condemned(db, Organization)))
    ensures Due(db, resolve, Badge, 23, IdIn(Condemned(db, Badge)))
    ensures Due(db, resolve, Attempt, 24, IdIn(Condemned(db, Attempt)))
  {
    hide Condemned;
  }

  lemma AnswerPlan(db: Database, resolve: bool)
    ensures Due(db, resolve, AttemptAnswer, 20, LinkIn(AttemptAnswerAttempt, Condemned(db, Attempt)))
    ensures Due(db, resolve, IntegrityEvent, 21, LinkIn(IntegrityEventAttempt, Condemned(db, Attempt)))
    ensures Due(db, resolve, QuestionServedAt, 22, LinkIn(QuestionServedAtAttempt, Condemned(db, Attempt)))
  {
    hide Condemned;
  }

  lemma AttemptReads(db: Database)
    ensures Readable(Badge, 19, Everything) && Readable(Attempt, 20, Everything)
    ensures Readable(SkillClaim, 19, LinkIn(SkillClaimBadge, Select(db, Badge, Everything)))
  {}

  // ---------- the stages that delete nothing ----------

  /** A stage at which no doomed row is due changes nothing. */
  lemma QuietStage(was: Database, doomed: set<Ref>, k: nat)
    requires Typed(was) && k != CLAIMS_STAGE && forall r | r in doomed :: Stage(r.table) != k
    ensures StateAt(was, doomed, k + 1) == StateAt(was, doomed, k)
    ensures Clear(was, doomed, k) ==> Clear(was, doomed, k + 1)
  {
    assert Before(doomed, k + 1) == Before(doomed, k);
  }

  function Update(db: Database, claims: set<Ref>): Database {
    map r | r in db :: if r in claims then Row(db[r].links - {SkillClaimBadge}, "UNVERIFIED") else db[r]
  }

  /** Reverting the claims that rest on badges, in the middle of the run, is reverting them at the outset. */
  lemma ClaimsStage(was: Database, doomed: set<Ref>)
    requires Typed(was) && Integrity(was) && doomed <= was.Keys
    ensures Update(StateAt(was, doomed, CLAIMS_STAGE), ClaimsOnBadges(was)) == StateAt(was, doomed, CLAIMS_STAGE + 1)
    ensures Clear(was, doomed, CLAIMS_STAGE) ==> Clear(was, doomed, CLAIMS_STAGE + 1)
  {
    var k := CLAIMS_STAGE;
    NothingAtClaimsStage(doomed);
    AllClaimsAreOnBadges(was, doomed);
    UpdateIsRevert(was, Gone(was, doomed, k));
  }

  lemma NothingAtClaimsStage(doomed: set<Ref>)
    ensures Before(doomed, CLAIMS_STAGE + 1) == Before(doomed, CLAIMS_STAGE)
    ensures forall r | r in doomed :: Stage(r.table) != CLAIMS_STAGE
  {}

  lemma BadgeLink(db: Database, r: Ref)
    requires Typed(db) && r in db && SkillClaimBadge in db[r].links
    ensures db[r].links[SkillClaimBadge].table == Badge
  {
    var c := SkillClaimBadge;
    assert db[r].links[c].table == Parent(c);
  }

  lemma AllClaimsAreOnBadges(was: Database, doomed: set<Ref>)
    requires Typed(was) && Integrity(was) && doomed <= was.Keys
    ensures forall r | r in was && r.table == SkillClaim && SkillClaimBadge in was[r].links ::
      r in ClaimsOnBadges(was) && was[r].links[SkillClaimBadge] !in Gone(was, doomed, CLAIMS_STAGE)
  {
    forall r | r in was && r.table == SkillClaim && SkillClaimBadge in was[r].links
      ensures r in ClaimsOnBadges(was) && was[r].links[SkillClaimBadge] !in Gone(was, doomed, CLAIMS_STAGE)
    {
      var badge := was[r].links[SkillClaimBadge];
      BadgeLink(was, r);
      if badge in Gone(was, doomed, CLAIMS_STAGE) { GoneIsDoomed(was, doomed, CLAIMS_STAGE, badge); }
    }
  }

  lemma UpdateIsRevert(was: Database, gone: set<Ref>)
    requires forall r | r in was && r.table == SkillClaim && SkillClaimBadge in was[r].links ::
      r in ClaimsOnBadges(was) && was[r].links[SkillClaimBadge] !in gone
    ensures Update(Without(was, gone), ClaimsOnBadges(was)) == Without(Reverted(was), gone)
  {
    hide Unlink, Revert, ClaimsOnBadges, Update, Without, Reverted;
    var left, right := Update(Without(was, gone), ClaimsOnBadges(was)), Without(Reverted(was), gone);
    SameRows(was, gone, ClaimsOnBadges(was));
    forall r | r in left ensures left[r] == right[r] {
      UpdatedRow(was, gone, r);
      UnlinkThenRevert(r, was[r], gone);
      RevertedRow(was, gone, r);
    }
  }

  lemma SameRows(was: Database, gone: set<Ref>, claims: set<Ref>)
    ensures Update(Without(was, gone), claims).Keys == was.Keys - gone == Without(Reverted(was), gone).Keys
  {
    hide Unlink, Revert;
  }

  lemma RevertedRow(was: Database, gone: set<Ref>, r: Ref)
    requires r in was && r !in gone
    ensures r in Without(Reverted(was), gone) && Without(Reverted(was), gone)[r] == Unlink(Revert(r, was[r]), gone)
  {
    hide Unlink, Revert;
  }

  lemma UpdatedRow(was: Database, gone: set<Ref>, r: Ref)
    requires r in was && r !in gone
    requires r.table == SkillClaim && SkillClaimBadge in was[r].links
      ==> r in ClaimsOnBadges(was) && was[r].links[SkillClaimBadge] !in gone
    ensures var left := Update(Without(was, gone), ClaimsOnBadges(was));
      r in left && left[r] == Revert(r, Unlink(was[r], gone))
  {}

  lemma UnlinkThenRevert(r: Ref, row: Row, gone: set<Ref>)
    requires r.table == SkillClaim && SkillClaimBadge in row.links ==> row.links[SkillClaimBadge] !in gone
    ensures Unlink(Revert(r, row), gone) == Revert(r, Unlink(row, gone))
  {
    assert Unlink(Revert(r, row), gone).links == Revert(r, Unlink(row, gone)).links;
  }

  // ---------- the ends ----------

  /** A doomed employer owns a candidate profile. */
  predicate HasConflict(db: Database) {
    exists p | p in db :: p.table == CandidateProfile && CandidateProfileUser in db[p].links
      && db[p].links[CandidateProfileUser] in DoomedEmployers(db)
  }

  lemma ConflictMeans(db: Database, conflicts: set<Ref>)
    requires conflicts == Select(db, CandidateProfile, LinkIn(CandidateProfileUser, DoomedEmployers(db)))
    ensures HasConflict(db) <==> conflicts != {}
  {
    hide DoomedEmployers;
    if HasConflict(db) {
      var p :| p in db && p.table == CandidateProfile && CandidateProfileUser in db[p].links
        && db[p].links[CandidateProfileUser] in DoomedEmployers(db);
      assert p in conflicts;
    }
  }

  /** Before the first stage nothing has gone, nothing is held back, nothing is printed. */
  lemma PlanHolds(db: Database, resolve: bool)
    ensures var doomed := Doomed(db, resolve);
      && doomed <= db.Keys && Planned(db, resolve, doomed) && AllStaged(resolve, doomed)
      && StateAt(db, doomed, 0) == db && Clear(db, doomed, 0) && Tally(db, resolve, doomed, 0) == map[]
      && (Commits(db, doomed) <==> Clear(db, doomed, STAGES))
  {
    var doomed := Doomed(db, resolve);
    DoomedIsStaged(db, resolve);
    DoomedIsPlanned(db, resolve);
    CommitsIffClear(db, doomed);
    NothingGoneYet(db, doomed);
  }

  lemma NothingGoneYet(db: Database, doomed: set<Ref>)
    ensures StateAt(db, doomed, 0) == db
  {
    assert Before(doomed, 0) == {};
    assert Gone(db, doomed, 0) == {};
    WithoutNothing(db);
  }

  lemma EndState(db: Database, resolve: bool)
    ensures StateAt(db, Doomed(db, resolve), STAGES) == Cleaned(db, resolve)
    ensures Tally(db, resolve, Doomed(db, resolve), STAGES) == Report(db, resolve)
  {}

  // ---------- what the run guarantees ----------

  /** After every stage reached without a rollback, every foreign key still resolves. */
  lemma EveryStageKeepsIntegrity(was: Database, doomed: set<Ref>, k: nat)
    requires Typed(was) && Integrity(was) && doomed <= was.Keys && Clear(was, doomed, k)
    ensures Integrity(StateAt(was, doomed, k))
  {
    hide Stage, Rule, Child, Parent, Typed, Clear;
    var base, gone, now := Base(was, k), Gone(was, doomed, k), StateAt(was, doomed, k);
    forall r, c | r in now && c in now[r].links ensures now[r].links[c] in now {
      assert c in base[r].links && c in was[r].links && base[r].links[c] == was[r].links[c];
      LinkStays(was, doomed, k, r, c);
    }
  }

  /** A reference that is not set to null points at a row that stays. */
  lemma LinkStays(was: Database, doomed: set<Ref>, k: nat, r: Ref, c: Column)
    requires Typed(was) && Integrity(was) && doomed <= was.Keys && Clear(was, doomed, k)
    requires r in was && c in was[r].links && r !in Gone(was, doomed, k)
    requires !(Rule(c) == SetNull && was[r].links[c] in Gone(was, doomed, k))
    ensures was[r].links[c] !in Gone(was, doomed, k)
  {
    var target := was[r].links[c];
    CascadeIsOneLevel(c);
    assert !Cascaded(was, Before(doomed, k), r);
    if target in Gone(was, doomed, k) {
      GoneIsDoomed(was, doomed, k, target);
      NotHeldBack(was, doomed, k, r, c);
    }
  }

  lemma NotHeldBack(was: Database, doomed: set<Ref>, k: nat, r: Ref, c: Column)
    requires r in was && c in was[r].links && Rule(c) == Restrict && Clear(was, doomed, k)
    requires was[r].links[c] in Before(doomed, k)
    ensures r in Before(doomed, k)
  {
    var j := Stage(was[r].links[c].table);
    assert !HeldBack(was, doomed, j);
    assert r in Before(doomed, j);
  }

  /** A row goes exactly when a filter names it or it cascades from a row that does. */
  lemma LeftExactly(was: Database, resolve: bool, r: Ref)
    requires Typed(was) && r in was
    ensures r in Cleaned(was, resolve) <==> r !in Gone(was, Doomed(was, resolve), STAGES)
    ensures !CascadeOnly(r.table) ==>
      (r in Cleaned(was, resolve) <==> !Matches(was[r], r, Filter(was, resolve, r.table)))
  {
    hide Filter, Matches;
    DoomedIsStaged(was, resolve);
    if r in Gone(was, Doomed(was, resolve), STAGES) { GoneIsDoomed(was, Doomed(was, resolve), STAGES, r); }
  }

  /** A row whose organisation column `c` decides its fate: it stays unless that organisation is one of the deleted. */
  ghost predicate StaysWithOrg(was: Database, left: Database, r: Ref, c: Column) {
    r in left <==> r in was && !(c in was[r].links && was[r].links[c] != KEPT)
  }

  lemma OrgDecides(was: Database, resolve: bool, r: Ref, c: Column)
    requires Typed(was) && Integrity(was) && r in was && !CascadeOnly(r.table)
    requires Parent(c) == Organization && Filter(was, resolve, r.table) == LinkIn(c, DeletedOrgs(was))
    ensures StaysWithOrg(was, Cleaned(was, resolve), r, c)
  {
    LeftExactly(was, resolve, r);
    if c in was[r].links { assert was[r].links[c].table == Parent(c); }
  }

  /** What a committed run keeps: the kept organisation with its jobs, members and shortlist ... */
  lemma KeptOrganisation(was: Database, resolve: bool, r: Ref)
    requires Typed(was) && Integrity(was) && r in was
    ensures var left := Cleaned(was, resolve);
      && (r.table == Organization ==> (r in left <==> r == KEPT))
      && (r.table == Job ==> StaysWithOrg(was, left, r, JobOrg))
      && (r.table == ShortlistEntry ==> StaysWithOrg(was, left, r, ShortlistEntryOrg))
      && (r.table == OrgMember ==> StaysWithOrg(was, left, r, OrgMemberOrg))
  {
    hide Cleaned, DoomedEmployers, StaysWithOrg, ViaOf, Condemned, Parent, Typed, Integrity, CascadeOnly, Stage, Select;
    LeafFacts();
    LeftExactly(was, resolve, r);
    CondemnedAre(was);
    ViaFacts();
    if r.table == Job { OrgDecides(was, resolve, r, JobOrg); }
    if r.table == ShortlistEntry { OrgDecides(was, resolve, r, ShortlistEntryOrg); }
    if r.table == OrgMember { OrgDecides(was, resolve, r, OrgMemberOrg); }
  }

  /** ... and everyone who is not a doomed employer, every claim and every question; but no badge and no attempt. */
  lemma KeptPeople(was: Database, resolve: bool, r: Ref)
    requires Typed(was) && Integrity(was) && r in was
    ensures var left := Cleaned(was, resolve);
      && (r.table == User ==> (r in left <==> r !in DoomedEmployers(was)))
      && (r.table == CandidateProfile ==> (r in left <==>
            !(resolve && CandidateProfileUser in was[r].links
              && was[r].links[CandidateProfileUser] in DoomedEmployers(was))))
      && (r.table == Badge || r.table == Attempt ==> r !in left)
      && (r.table == SkillClaim || r.table == Question || r.table == Assessment ==> r in left)
  {
    hide Cleaned, DoomedEmployers, Filter, Condemned, Typed, Integrity, CascadeOnly, Select, Matches;
    LeafFacts();
    LeftExactly(was, resolve, r);
    PeopleFilters(was, resolve, r);
  }

  lemma PeopleFilters(was: Database, resolve: bool, r: Ref)
    requires r in was
    ensures var named := Matches(was[r], r, Filter(was, resolve, r.table));
      && (r.table == User ==> (named <==> r in DoomedEmployers(was)))
      && (r.table == CandidateProfile ==> (named <==>
            resolve && CandidateProfileUser in was[r].links
              && was[r].links[CandidateProfileUser] in DoomedEmployers(was)))
      && (r.table == Badge || r.table == Attempt ==> named)
      && (r.table == SkillClaim || r.table == Question || r.table == Assessment ==> !named)
  {
    hide DoomedEmployers, ViaOf, Condemned;
    CondemnedAre(was);
    ViaFacts();
  }

  lemma LeafFacts()
    ensures forall t | t in {Organization, Job, ShortlistEntry, OrgMember, User, CandidateProfile, Badge, Attempt} ::
      !CascadeOnly(t)
    ensures !CascadeOnly(SkillClaim) && !CascadeOnly(Question) && !CascadeOnly(Assessment)
  {}

  lemma ViaFacts()
    ensures ViaOf(Job) == Through(JobOrg, Organization)
      && ViaOf(ShortlistEntry) == Through(ShortlistEntryOrg, Organization)
    ensures ViaOf(OrgMember) == Through(OrgMemberOrg, Organization)
      && ViaOf(CandidateProfile) == Through(CandidateProfileUser, User)
    ensures ViaOf(Organization) == ViaOf(User) == ViaOf(Badge) == ViaOf(Attempt) == Itself
    ensures ViaOf(SkillClaim) == ViaOf(Question) == ViaOf(Assessment) == Spared
    ensures Parent(JobOrg) == Parent(ShortlistEntryOrg) == Parent(OrgMemberOrg) == Organization
  {}

  /** A row that stays keeps its contents, but for claims on badges and for optional references to rows that went. */
  lemma Frame(was: Database, resolve: bool, r: Ref)
    requires Typed(was) && Integrity(was) && Commits(was, Doomed(was, resolve))
    requires r in Cleaned(was, resolve)
    ensures var now := Cleaned(was, resolve)[r];
      if r.table == SkillClaim && SkillClaimBadge in was[r].links
      then now == Row(was[r].links - {SkillClaimBadge}, "UNVERIFIED")
      else now.status == was[r].status && now.links.Keys <= was[r].links.Keys && forall c | c in was[r].links ::
        if Rule(c) == SetNull && was[r].links[c] !in Cleaned(was, resolve) then c !in now.links
        else c in now.links && now.links[c] == was[r].links[c] && now.links[c] in Cleaned(was, resolve)
  {
    hide Doomed, Commits, Clear, Gone;
    var doomed := Doomed(was, resolve);
    PlanHolds(was, resolve);
    if r.table == SkillClaim && SkillClaimBadge in was[r].links {
      ClaimFrame(was, r, Gone(was, doomed, STAGES));
    } else {
      forall c | c in was[r].links
        ensures was[r].links[c] in Gone(was, doomed, STAGES) ==> Rule(c) == SetNull
      {
        if !(Rule(c) == SetNull && was[r].links[c] in Gone(was, doomed, STAGES)) {
          LinkStays(was, doomed, STAGES, r, c);
        }
      }
    }
  }

  lemma ClaimFrame(was: Database, r: Ref, gone: set<Ref>)
    requires Typed(was) && r in was && r.table == SkillClaim && SkillClaimBadge in was[r].links
    ensures Unlink(Revert(r, was[r]), gone) == Row(was[r].links - {SkillClaimBadge}, "UNVERIFIED")
  {
    forall c | c in was[r].links && c != SkillClaimBadge ensures Rule(c) != SetNull { ClaimColumns(was, r, c); }
    assert Unlink(Revert(r, was[r]), gone).links == was[r].links - {SkillClaimBadge};
  }

  lemma ClaimColumns(db: Database, r: Ref, c: Column)
    requires Typed(db) && r in db && r.table == SkillClaim && c in db[r].links && c != SkillClaimBadge
    ensures Rule(c) == Restrict
  {
    assert Child(c) == SkillClaim;
  }

  /** On a cleaned database nothing is condemned any more. */
  lemma NothingCondemned(was: Database, resolve: bool, t: Table)
    requires Typed(was) && Integrity(was)
    ensures Condemned(Cleaned(was, resolve), t) == {}
  {
    hide Cleaned;
    var left := Cleaned(was, resolve);
    forall r | r in left
      ensures r in was && (r.table == Organization ==> r == KEPT) && r.table != Badge && r.table != Attempt
    {
      LeftAreOld(was, resolve, r);
      KeptOrganisation(was, resolve, r);
      KeptPeople(was, resolve, r);
    }
    assert DeletedOrgs(left) == {};
    assert Select(left, OrgMember, LinkIn(OrgMemberOrg, DeletedOrgs(left))) == {};
    assert DoomedEmployers(left) == {};
  }

  lemma LeftAreOld(was: Database, resolve: bool, r: Ref)
    requires r in Cleaned(was, resolve)
    ensures r in was && !(r.table == SkillClaim && SkillClaimBadge in Cleaned(was, resolve)[r].links)
  {}

  /**
   After a committed run, a further one (with either flag) meets no conflict and finds nothing to do:
   it deletes nothing, reverts nothing and reports zeros. What `Cleanup.Run` asks for holds again.
   */
  lemma SecondRunIsIdle(was: Database, resolve: bool, again: bool)
    requires Typed(was) && Integrity(was) && KEPT in was
    ensures var left := Cleaned(was, resolve);
      && KEPT in left && Doomed(left, again) == {} && Commits(left, Doomed(left, again)) && Cleaned(left, again) == left
      && forall t | t in Report(left, again) :: Report(left, again)[t] == 0
    ensures var left := Cleaned(was, resolve);
      Typed(left) && !HasConflict(left) && (Commits(was, Doomed(was, resolve)) ==> Integrity(left))
  {
    var left := Cleaned(was, resolve);
    KeptOrganisation(was, resolve, KEPT);
    NothingDoomed(was, resolve, again);
    IdleEnd(was, resolve);
    IdleReport(was, resolve, again);
    LeftIsSound(was, resolve);
  }

  lemma LeftIsSound(was: Database, resolve: bool)
    requires Typed(was) && Integrity(was)
    ensures var left := Cleaned(was, resolve);
      Typed(left) && !HasConflict(left) && (Commits(was, Doomed(was, resolve)) ==> Integrity(left))
  {
    hide Typed, Integrity, Commits, Doomed, Clear, Cleaned, DoomedEmployers, Condemned, StateAt, Planned, AllStaged;
    var left := Cleaned(was, resolve);
    LeftIsTyped(was, resolve);
    NothingCondemned(was, resolve, User);
    CondemnedAre(left);
    if Commits(was, Doomed(was, resolve)) {
      PlanHolds(was, resolve);
      EveryStageKeepsIntegrity(was, Doomed(was, resolve), STAGES);
      EndState(was, resolve);
    }
  }

  lemma LeftIsTyped(was: Database, resolve: bool)
    requires Typed(was)
    ensures Typed(Cleaned(was, resolve))
  {
    hide Gone, Doomed, Child, Parent, Rule;
    var left := Cleaned(was, resolve);
    forall r, c | r in left && c in left[r].links ensures r.table == Child(c) && left[r].links[c].table == Parent(c) {
      assert c in Reverted(was)[r].links && c in was[r].links;
    }
  }

  lemma NothingDoomed(was: Database, resolve: bool, again: bool)
    requires Typed(was) && Integrity(was)
    ensures Doomed(Cleaned(was, resolve), again) == {}
  {
    hide Condemned, Cleaned;
    forall t ensures Condemned(Cleaned(was, resolve), t) == {} { NothingCondemned(was, resolve, t); }
  }

  lemma IdleEnd(was: Database, resolve: bool)
    ensures var left := Cleaned(was, resolve); Without(Reverted(left), Gone(left, {}, STAGES)) == left
  {
    hide Cleaned, Without, Gone;
    var left := Cleaned(was, resolve);
    NothingGoes(left);
    WithoutNothing(left);
    forall r | r in left ensures Revert(r, left[r]) == left[r] { LeftAreOld(was, resolve, r); }
    assert Reverted(left) == left;
  }

  lemma NothingGoes(db: Database)
    ensures Gone(db, {}, STAGES) == {}
  {
    assert Before({}, STAGES) == {};
  }

  lemma IdleReport(was: Database, resolve: bool, again: bool)
    requires Typed(was) && Integrity(was)
    ensures var left := Cleaned(was, resolve); forall t | t in Report(left, again) :: Report(left, again)[t] == 0
  {
    hide Cleaned, Condemned, DoomedEmployers, Filter;
    var left := Cleaned(was, resolve);
    NothingDoomed(was, resolve, again);
    CondemnedAre(left);
    NothingCondemned(was, resolve, User);
    NothingCondemned(was, resolve, Badge);
    assert Select(left, TermsAcceptance, LinkIn(TermsAcceptanceUser, DoomedEmployers(left))) == {};
    assert ClaimsOnBadges(left) == {};
    forall t ensures Of({}, t) == {} {}
  }

  /**
   The order of the phases is part of what makes a run commit: users go (stage 17) before the badges and
   attempts they own (stages 23 and 24), so one such row in the hands of a doomed employer rolls the run back.
   */
  lemma OwnedAttemptRollsBack(was: Database, resolve: bool, r: Ref, c: Column)
    requires Typed(was) && r in was && c in was[r].links && (c == AttemptUser || c == BadgeUser)
    requires was[r].links[c] in DoomedEmployers(was)
    ensures !Commits(was, Doomed(was, resolve))
  {
    hide DoomedEmployers;
    var owner := was[r].links[c];
    EmployersAreDoomed(was, resolve, owner);
    assert Stage(owner.table) == 17 && Rule(c) == Restrict;
    assert r.table == Child(c) && Stage(r.table) >= 23;
  }

  lemma EmployersAreDoomed(was: Database, resolve: bool, u: Ref)
    requires u in DoomedEmployers(was)
    ensures u in Doomed(was, resolve) && u.table == User
  {}

  // ---------- the script ----------

  datatype Failure = KeptOrgNotFound | ConflictUnresolved | RolledBack
  datatype Outcome = Finished(counts: map<Table, nat>) | Failed(failure: Failure)

  class Cleanup {
    var db: Database
    var counts: map<Table, nat>

    constructor (db: Database)
      ensures this.db == db && counts == map[]
    {
      this.db, counts := db, map[];
    }

    /** The run has done `k` stages; in a dry run the database is untouched. */
    ghost predicate At(was: Database, resolve: bool, doomed: set<Ref>, execute: bool, k: nat)
      reads this
    {
      && db == (if execute then StateAt(was, doomed, k) else was)
      && (execute ==> Clear(was, doomed, k))
      && counts == Tally(was, resolve, doomed, k)
    }

    method Record(line: Table, n: nat)
      modifies this`counts
      ensures counts == old(counts)[line := (if line in old(counts) then old(counts)[line] else 0) + n]
    {
      counts := counts[line := (if line in counts then counts[line] else 0) + n];
    }

    /** The one switch between counting and deleting. A blocked deletion throws, and changes nothing. */
    method CountOrDelete(execute: bool, t: Table, w: Where) returns (ok: bool, n: nat)
      modifies this`db
      ensures n == |Select(old(db), t, w)|
      ensures ok <==> !execute || !Blocked(old(db), Select(old(db), t, w))
      ensures db == if execute && ok then Delete(old(db), Select(old(db), t, w)) else old(db)
    {
      var rows := Select(db, t, w);
      n := |rows|;
      ok := !execute || !Blocked(db, rows);
      if execute && ok { db := Delete(db, rows); }
    }

    /** `findMany`: rows that are not deleted before the stage it is read in are still those of the outset. */
    method FindMany(ghost was: Database, ghost resolve: bool, ghost doomed: set<Ref>, ghost execute: bool, ghost k: nat,
                    t: Table, w: Where) returns (rows: set<Ref>)
      requires Typed(was) && doomed <= was.Keys && Readable(t, k, w)
      requires At(was, resolve, doomed, execute, k)
      ensures rows == Select(was, t, w)
    {
      ReadAhead(was, doomed, k, t, w);
      rows := Select(db, t, w);
    }

    /** One recorded deletion. Both modes report the rows doomed at the outset. */
    method Step(ghost was: Database, ghost resolve: bool, ghost doomed: set<Ref>, execute: bool, ghost k: nat,
      t: Table, w: Where)
      returns (ok: bool)
      requires Typed(was) && doomed <= was.Keys && Planned(was, resolve, doomed)
      requires Due(was, resolve, t, k, w) && At(was, resolve, doomed, execute, k)
      modifies this
      ensures ok ==> At(was, resolve, doomed, execute, k + 1)
      ensures !ok ==> execute && !Clear(was, doomed, STAGES)
    {
      hide Due, Stage, Line, Printed, Filter, CountOf, Later, CascadeOnly;
      DueMeans(was, resolve, t, k, w);
      StageStep(was, doomed, t, w);
      TallyNext(was, resolve, doomed, t);
      if execute { ClearNext(was, doomed, t); }
      var n;
      ok, n := CountOrDelete(execute, t, w);
      if ok { Record(t, n); }
    }

    // Phase 1: the children of the deleted organisations, deepest first.
    method OrgPhase(ghost was: Database, ghost resolve: bool, ghost doomed: set<Ref>, execute: bool, orgs: set<Ref>)
      returns (ok: bool)
      requires Typed(was) && doomed <= was.Keys && Planned(was, resolve, doomed) && orgs == DeletedOrgs(was)
      requires At(was, resolve, doomed, execute, 0)
      modifies this
      ensures ok ==> At(was, resolve, doomed, execute, 11)
      ensures !ok ==> execute && !Clear(was, doomed, STAGES)
    {
      hide *;
      CondemnedAre(was);
      JobPlan(was, resolve);
      OrgPlan(was, resolve);
      OrgReads(was);
      var jobs := FindMany(was, resolve, doomed, execute, 0, Job, LinkIn(JobOrg, orgs));
      var entries := FindMany(was, resolve, doomed, execute, 0, ShortlistEntry, LinkIn(ShortlistEntryOrg, orgs));

      ok := Step(was, resolve, doomed, execute, 0, JobSkill, LinkIn(JobSkillJob, jobs));
      if !ok { return; }
      ok := Step(was, resolve, doomed, execute, 1, Application, LinkIn(ApplicationJob, jobs));
      if !ok { return; }
      ok := Step(was, resolve, doomed, execute, 2, InterviewRound, LinkIn(InterviewRoundEntry, entries));
      if !ok { return; }
      ok := Step(was, resolve, doomed, execute, 3, ShortlistEntry, LinkIn(ShortlistEntryOrg, orgs));
      if !ok { return; }
      ok := Step(was, resolve, doomed, execute, 4, Job, LinkIn(JobOrg, orgs));
      if !ok { return; }

      var billing := FindMany(was, resolve, doomed, execute, 5, BillingProfile, LinkIn(BillingProfileOrg, orgs));
      ok := Step(was, resolve, doomed, execute, 5, Transaction, LinkIn(TransactionBillingProfile, billing));
      if !ok { return; }
      ok := Step(was, resolve, doomed, execute, 6, BillingProfile, LinkIn(BillingProfileOrg, orgs));
      if !ok { return; }
      ok := Step(was, resolve, doomed, execute, 7, AssessmentRequest, LinkIn(AssessmentRequestOrg, orgs));
      if !ok { return; }
      ok := Step(was, resolve, doomed, execute, 8, OrgInvitation, LinkIn(OrgInvitationOrg, orgs));
      if !ok { return; }
      ok := Step(was, resolve, doomed, execute, 9, AdminAccessLog, LinkIn(AdminAccessLogOrg, orgs));
      if !ok { return; }
      ok := Step(was, resolve, doomed, execute, 10, OrgMember, LinkIn(OrgMemberOrg, orgs));
      if !ok { return; }
    }

    // Phase 2: what doomed employers hold, then the employers.
    method EmployerPhase(ghost was: Database, ghost resolve: bool, ghost doomed: set<Ref>, execute: bool, flag: bool,
                         employers: set<Ref>) returns (ok: bool)
      requires Typed(was) && doomed <= was.Keys && Planned(was, resolve, doomed) && flag == resolve
      requires employers == DoomedEmployers(was) && AllStaged(resolve, doomed)
      requires At(was, resolve, doomed, execute, 11)
      modifies this
      ensures ok ==> At(was, resolve, doomed, execute, 18)
      ensures !ok ==> execute && !Clear(was, doomed, STAGES)
    {
      hide *;
      CondemnedAre(was);
      EmployerPlan(was, resolve);
      ProfilePlan(was, resolve);
      ok := Step(was, resolve, doomed, execute, 11, Identity, LinkIn(IdentityUser, employers));
      if !ok { return; }
      ok := Step(was, resolve, doomed, execute, 12, RefreshToken, LinkIn(RefreshTokenUser, employers));
      if !ok { return; }
      ok := Step(was, resolve, doomed, execute, 13, ProfileView, LinkIn(ProfileViewEmployer, employers));
      if !ok { return; }
      ok := Step(was, resolve, doomed, execute, 14, Notification, LinkIn(NotificationUser, employers));
      if !ok { return; }

      TermsLine(was, resolve, doomed, execute, employers);

      if flag {
        ok := Step(was, resolve, doomed, execute, 16, CandidateProfile, LinkIn(CandidateProfileUser, employers));
        if !ok { return; }
      } else {
        SkipProfiles(was, resolve, doomed, execute);
      }
      ok := Step(was, resolve, doomed, execute, 17, User, IdIn(employers));
    }

    /** Counted for the report only: these rows cascade with their user. */
    method TermsLine(ghost was: Database, ghost resolve: bool, ghost doomed: set<Ref>, execute: bool,
      employers: set<Ref>)
      requires Typed(was) && doomed <= was.Keys && employers == DoomedEmployers(was)
      requires AllStaged(resolve, doomed)
      requires At(was, resolve, doomed, execute, 15)
      modifies this
      ensures At(was, resolve, doomed, execute, 16)
    {
      hide DoomedEmployers, Condemned, StateAt, Clear, Select;
      CondemnedAre(was);
      CondemnedTable(was, User);
      TermsStillThere(was, doomed, TERMS_STAGE, LinkIn(TermsAcceptanceUser, employers));
      QuietStage(was, doomed, TERMS_STAGE);
      TallyNext(was, resolve, doomed, TermsAcceptance);
      Record(TermsAcceptance, |Select(db, TermsAcceptance, LinkIn(TermsAcceptanceUser, employers))|);
    }

    ghost method SkipProfiles(was: Database, resolve: bool, doomed: set<Ref>, execute: bool)
      requires Typed(was) && !resolve && AllStaged(resolve, doomed)
      requires At(was, resolve, doomed, execute, 16)
      ensures At(was, resolve, doomed, execute, 17)
    {
      QuietStage(was, doomed, 16);
      assert Tally(was, resolve, doomed, 17) == Tally(was, resolve, doomed, 16);
    }

    // Phases 3 and 4: the organisations, then every attempt and badge; claims resting on a badge are reverted, not
    // deleted.
    method AttemptPhase(ghost was: Database, ghost resolve: bool, ghost doomed: set<Ref>, execute: bool, orgs: set<Ref>)
      returns (ok: bool)
      requires Typed(was) && Integrity(was) && doomed <= was.Keys && Planned(was, resolve, doomed)
        && orgs == DeletedOrgs(was)
      requires AllStaged(resolve, doomed)
      requires At(was, resolve, doomed, execute, 18)
      modifies this
      ensures ok ==> At(was, resolve, doomed, execute, 25)
      ensures !ok ==> execute && !Clear(was, doomed, STAGES)
    {
      hide *;
      CondemnedAre(was);
      AttemptPlan(was, resolve);
      AnswerPlan(was, resolve);
      AttemptReads(was);
      ok := Step(was, resolve, doomed, execute, 18, Organization, IdIn(orgs));
      if !ok { return; }

      var badges := FindMany(was, resolve, doomed, execute, 19, Badge, Everything);
      var claims := FindMany(was, resolve, doomed, execute, 19, SkillClaim, LinkIn(SkillClaimBadge, badges));
      ClaimsLine(was, resolve, doomed, execute, claims);

      var attempts := FindMany(was, resolve, doomed, execute, 20, Attempt, Everything);
      ok := Step(was, resolve, doomed, execute, 20, AttemptAnswer, LinkIn(AttemptAnswerAttempt, attempts));
      if !ok { return; }
      ok := Step(was, resolve, doomed, execute, 21, IntegrityEvent, LinkIn(IntegrityEventAttempt, attempts));
      if !ok { return; }
      ok := Step(was, resolve, doomed, execute, 22, QuestionServedAt, LinkIn(QuestionServedAtAttempt, attempts));
      if !ok { return; }
      ok := Step(was, resolve, doomed, execute, 23, Badge, IdIn(badges));
      if !ok { return; }
      ok := Step(was, resolve, doomed, execute, 24, Attempt, IdIn(attempts));
    }

    method ClaimsLine(ghost was: Database, ghost resolve: bool, ghost doomed: set<Ref>, execute: bool, claims: set<Ref>)
      requires Typed(was) && Integrity(was) && doomed <= was.Keys
      requires claims == Select(was, SkillClaim, LinkIn(SkillClaimBadge, Select(was, Badge, Everything)))
      requires AllStaged(resolve, doomed)
      requires At(was, resolve, doomed, execute, 19)
      modifies this
      ensures At(was, resolve, doomed, execute, 20)
    {
      hide StateAt, Update, Select, Clear, Typed, Integrity;
      ClaimsStage(was, doomed);
      TallyNext(was, resolve, doomed, SkillClaim);
      Record(SkillClaim, |claims|);
      if execute { db := Update(db, claims); }
    }

    /**
     The whole script. A run that throws leaves the database as it was. An executed run commits
     exactly when `Commits` holds, and then reports precisely what the dry run with the same flag reports.
     */
    method Run(execute: bool, resolve: bool) returns (outcome: Outcome)
      requires Typed(db) && Integrity(db) && counts == map[]
      modifies this
      ensures old(KEPT !in db) ==> outcome == Failed(KeptOrgNotFound)
      ensures old(KEPT in db && execute && !resolve && HasConflict(db)) ==> outcome == Failed(ConflictUnresolved)
      ensures old(KEPT in db && !(execute && !resolve && HasConflict(db))) ==>
        outcome == if execute && !old(Commits(db, Doomed(db, resolve))) then Failed(RolledBack)
                   else Finished(old(Report(db, resolve)))
      ensures db == if execute && outcome.Finished? then old(Cleaned(db, resolve)) else old(db)
    {
      hide Commits, Report, Tally, Doomed, StateAt, Clear, Planned, AllStaged, Cleaned, HasConflict, Typed,
        Integrity, DoomedEmployers, DeletedOrgs;
      if KEPT !in db { return Failed(KeptOrgNotFound); }
      var orgs, employers := DeletedOrgs(db), DoomedEmployers(db);
      ghost var was, doomed := db, Doomed(db, resolve);
      var conflicts := Select(db, CandidateProfile, LinkIn(CandidateProfileUser, employers));
      ConflictMeans(db, conflicts);
      if execute && conflicts != {} && !resolve { return Failed(ConflictUnresolved); }

      PlanHolds(was, resolve);
      var snapshot := db;
      var ok := OrgPhase(was, resolve, doomed, execute, orgs);
      if ok {
        ok := EmployerPhase(was, resolve, doomed, execute, resolve, employers);
      }
      if ok {
        ok := AttemptPhase(was, resolve, doomed, execute, orgs);
      }
      if !ok {
        db := snapshot;
        return Failed(RolledBack);
      }
      EndState(was, resolve);
      return Finished(counts);
    }
  }
}
