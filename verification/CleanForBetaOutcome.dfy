/**
 What the pre-beta clean-up does, told by the rows of the database before it and of the one it leaves
 (apps/api/prisma/clean-for-beta.ts), without the sets the run computes for itself: who goes, what goes
 along, what the report counts and when the run rolls back.
 */
module CleanForBetaOutcome {
  import opened Schema
  import opened Relational
  import opened CleanForBeta

  /**
   The column by which a row hangs on another one and goes with it; none for rows that stay or go for their own
   sake.
   */
  datatype Hanging = Free | On(column: Column)

  function HangsOn(t: Table): Hanging {
    match t
    case Job => On(JobOrg) case ShortlistEntry => On(ShortlistEntryOrg) case BillingProfile => On(BillingProfileOrg)
    case AssessmentRequest => On(AssessmentRequestOrg) case OrgInvitation => On(OrgInvitationOrg)
    case AdminAccessLog => On(AdminAccessLogOrg) case OrgMember => On(OrgMemberOrg)
    case JobSkill => On(JobSkillJob) case Application => On(ApplicationJob)
    case InterviewRound => On(InterviewRoundEntry) case InterviewPrepProgress => On(InterviewPrepProgressEntry)
    case Transaction => On(TransactionBillingProfile)
    case Identity => On(IdentityUser) case RefreshToken => On(RefreshTokenUser)
    case ProfileView => On(ProfileViewEmployer) case Notification => On(NotificationUser)
    case TermsAcceptance => On(TermsAcceptanceUser)
    case DeviceToken => On(DeviceTokenUser) case Passkey => On(PasskeyUser)
    case AttemptAnswer => On(AttemptAnswerAttempt) case IntegrityEvent => On(IntegrityEventAttempt)
    case QuestionServedAt => On(QuestionServedAtAttempt)
    case _ => Free
  }

  lemma CondemnedGo(was: Database, resolve: bool, x: Ref)
    requires Typed(was) && x in was && Condemns(x.table)
    ensures x in Condemned(was, x.table) <==> x !in Cleaned(was, resolve)
  {
    hide Cleaned, DoomedEmployers, Typed, Stage;
    assert !CascadeOnly(x.table);
    LeftExactly(was, resolve, x);
    NamedIfCondemned(was, resolve, x);
  }

  lemma NamedIfCondemned(was: Database, resolve: bool, x: Ref)
    requires x in was && Condemns(x.table)
    ensures x in Condemned(was, x.table) <==> Matches(was[x], x, Filter(was, resolve, x.table))
  {
    hide DoomedEmployers, DeletedOrgs, Condemned;
    CondemnedAre(was);
  }

  /** `m` makes `u` a member of an organisation other than the kept one. */
  predicate MemberElsewhere(db: Database, m: Ref, u: Ref)
    requires m in db
  {
    && m.table == OrgMember && OrgMemberUser in db[m].links && db[m].links[OrgMemberUser] == u
    && OrgMemberOrg in db[m].links && db[m].links[OrgMemberOrg] != KEPT
  }

  /** Exactly the members of organisations other than the kept one go. */
  lemma UsersGo(was: Database, resolve: bool, u: Ref)
    requires Typed(was) && Integrity(was) && u in was && u.table == User
    ensures u !in Cleaned(was, resolve) <==> exists m | m in was :: MemberElsewhere(was, m, u)
  {
    hide Cleaned, Condemned;
    CondemnedGo(was, resolve, u);
    CondemnedAre(was);
    EmployersAre(was, u);
  }

  lemma EmployersAre(was: Database, u: Ref)
    requires Typed(was) && Integrity(was) && u in was && u.table == User
    ensures u in DoomedEmployers(was) <==> exists m | m in was :: MemberElsewhere(was, m, u)
  {
    if m :| m in was && MemberElsewhere(was, m, u) {
      assert was[m].links[OrgMemberOrg].table == Parent(OrgMemberOrg);
      assert m in Select(was, OrgMember, LinkIn(OrgMemberOrg, DeletedOrgs(was)));
    }
    if u in DoomedEmployers(was) {
      var m :| m in Select(was, OrgMember, LinkIn(OrgMemberOrg, DeletedOrgs(was))) && OrgMemberUser in was[m].links
        && was[m].links[OrgMemberUser] == u;
      assert MemberElsewhere(was, m, u);
    }
  }

  /** A candidate profile goes with its user, and only if the run was told to resolve such conflicts. */
  lemma ProfilesGo(was: Database, resolve: bool, p: Ref)
    requires Typed(was) && Integrity(was) && p in was && p.table == CandidateProfile
    ensures var goes := p !in Cleaned(was, resolve);
      goes <==> resolve && GoesAlong(was, Cleaned(was, resolve), p, CandidateProfileUser)
  {
    hide Cleaned, Condemned, DoomedEmployers;
    KeptPeople(was, resolve, p);
    if CandidateProfileUser in was[p].links {
      assert was[p].links[CandidateProfileUser].table == Parent(CandidateProfileUser);
      CondemnedGo(was, resolve, was[p].links[CandidateProfileUser]);
      CondemnedAre(was);
    }
  }

  /** The row that `c` names goes. */
  predicate GoesAlong(was: Database, left: Database, r: Ref, c: Column)
    requires r in was
  {
    c in was[r].links && was[r].links[c] !in left
  }

  /**
   The run refuses to execute without that flag exactly if a member of a deleted organisation owns a candidate
   profile.
   */
  lemma ConflictIff(was: Database)
    requires Typed(was) && Integrity(was)
    ensures HasConflict(was) <==> exists p, m | p in was && m in was ::
      p.table == CandidateProfile && CandidateProfileUser in was[p].links
        && MemberElsewhere(was, m, was[p].links[CandidateProfileUser])
  {
    hide DoomedEmployers, MemberElsewhere, Typed, Integrity, Parent;
    forall p | p in was && p.table == CandidateProfile && CandidateProfileUser in was[p].links
      ensures var u := was[p].links[CandidateProfileUser];
        u in DoomedEmployers(was) <==> exists m | m in was :: MemberElsewhere(was, m, u)
    {
      OwnerIsUser(was, p);
      EmployersAre(was, was[p].links[CandidateProfileUser]);
    }
  }

  lemma OwnerIsUser(was: Database, p: Ref)
    requires Typed(was) && Integrity(was) && p in was && CandidateProfileUser in was[p].links
    ensures was[p].links[CandidateProfileUser] in was && was[p].links[CandidateProfileUser].table == User
  {
    assert was[p].links[CandidateProfileUser].table == Parent(CandidateProfileUser);
  }

  /**
   Every badge and attempt goes, and of organisations all but one; other rows go exactly with the one they hang
   on.
   */
  lemma RestGoes(was: Database, resolve: bool, r: Ref)
    requires Typed(was) && Integrity(was) && r in was && r.table != User && r.table != CandidateProfile
    ensures var goes := r !in Cleaned(was, resolve);
      && (r.table == Organization ==> (goes <==> r != KEPT))
      && (r.table == Badge || r.table == Attempt ==> goes)
      && (r.table !in {Organization, Badge, Attempt} ==>
            (goes <==> HangsOn(r.table).On? && GoesAlong(was, Cleaned(was, resolve), r, HangsOn(r.table).column)))
  {
    hide Cleaned, Condemned, Filter, Typed, Integrity, HangsOn, CascadeOnly, Matches, DoomedEmployers;
    KeptOrganisation(was, resolve, r);
    KeptPeople(was, resolve, r);
    if CascadeOnly(r.table) {
      CascadesGo(was, resolve, r);
    } else if r.table != Organization && r.table != Badge && r.table != Attempt {
      HangingGoes(was, resolve, r);
    }
  }

  lemma HangingGoes(was: Database, resolve: bool, r: Ref)
    requires Typed(was) && Integrity(was) && r in was && !CascadeOnly(r.table)
    requires r.table !in {Organization, Badge, Attempt, User, CandidateProfile}
    ensures r !in Cleaned(was, resolve)
      <==> HangsOn(r.table).On? && GoesAlong(was, Cleaned(was, resolve), r, HangsOn(r.table).column)
  {
    hide Cleaned, Condemned, HangsOn, CascadeOnly, DoomedEmployers, ViaOf, Parent;
    LeftExactly(was, resolve, r);
    ViaHangs(r.table);
    if ViaOf(r.table).Through? && ViaOf(r.table).column in was[r].links {
      CondemnedGo(was, resolve, was[r].links[ViaOf(r.table).column]);
    }
  }

  lemma ViaHangs(t: Table)
    requires t !in {Organization, Badge, Attempt, User, CandidateProfile} && !CascadeOnly(t)
    ensures match ViaOf(t)
      case Spared => HangsOn(t) == Free
      case Itself => false
      case Through(c, p) => HangsOn(t) == On(c)
    ensures ViaOf(t).Through? ==> Parent(ViaOf(t).column) == ViaOf(t).parent && Condemns(ViaOf(t).parent)
  {
    hide CascadeOnly, Parent;
    if ViaOf(t) == Spared { SparedHang(t); }
    ViaParent(t);
  }

  predicate Condemns(t: Table) {
    t == Organization || t == User || t == Job || t == ShortlistEntry || t == BillingProfile || t == Attempt
  }

  lemma SparedHang(t: Table)
    requires ViaOf(t) == Spared && !CascadeOnly(t)
    ensures HangsOn(t) == Free
  {}

  lemma ViaParent(t: Table)
    ensures ViaOf(t).Through? ==> Parent(ViaOf(t).column) == ViaOf(t).parent && Condemns(ViaOf(t).parent)
  {
    match ViaOf(t)
    case Through(c, p) =>
      ViaTable(t);
      assert Parent(c) == p;
    case _ =>
  }

  lemma ViaTable(t: Table)
    ensures ViaOf(t).Through? ==> Condemns(ViaOf(t).parent)
  {}

  lemma CascadesGo(was: Database, resolve: bool, r: Ref)
    requires Typed(was) && Integrity(was) && r in was && CascadeOnly(r.table)
    ensures r !in Cleaned(was, resolve)
      <==> HangsOn(r.table).On? && GoesAlong(was, Cleaned(was, resolve), r, HangsOn(r.table).column)
  {
    hide Cleaned, HangsOn, CascadeOnly, Stage, Doomed, Rule;
    var doomed := Doomed(was, resolve);
    LeftExactly(was, resolve, r);
    DoomedIsStaged(was, resolve);
    assert Before(doomed, STAGES) == doomed;
    CascadeHangs(r.table);
    forall c | c in was[r].links
      ensures Rule(c) == Cascade <==> HangsOn(r.table) == On(c)
      ensures Rule(c) == Cascade ==> (was[r].links[c] in doomed <==> was[r].links[c] !in Cleaned(was, resolve))
    {
      CascadeColumn(was, r, c);
      ParentGoes(was, resolve, was[r].links[c]);
    }
  }

  lemma CascadeHangs(t: Table)
    requires CascadeOnly(t)
    ensures HangsOn(t).On?
  {}

  lemma CascadeColumn(was: Database, r: Ref, c: Column)
    requires Typed(was) && r in was && CascadeOnly(r.table) && c in was[r].links
    ensures Rule(c) == Cascade <==> HangsOn(r.table) == On(c)
    ensures Rule(c) == Cascade ==> !CascadeOnly(was[r].links[c].table)
  {
    hide Typed;
    CleanForBeta.TypedChild(was, r, c);
    CascadeIsOneLevel(c);
    HangsOnIts(c);
  }

  lemma HangsOnIts(c: Column)
    requires CascadeOnly(Child(c))
    ensures HangsOn(Child(c)) == On(c)
  {}

  lemma ParentGoes(was: Database, resolve: bool, x: Ref)
    requires Typed(was) && x in was
    ensures !CascadeOnly(x.table) ==> (x in Doomed(was, resolve) <==> x !in Cleaned(was, resolve))
  {
    hide Cleaned, Filter;
    LeftExactly(was, resolve, x);
  }

  // ---------- when it rolls back ----------

  /**
   The run commits exactly if no row that stays holds a restricting reference to one that goes, and no attempt or
   badge belongs to a user who goes.
   */
  lemma CommitsIff(was: Database, resolve: bool)
    requires Typed(was) && Integrity(was)
    ensures var left := Cleaned(was, resolve); Commits(was, Doomed(was, resolve)) <==>
      forall r, c | r in was && c in was[r].links && Rule(c) == Restrict && was[r].links[c] !in left ::
        r !in left && c != AttemptUser && c != BadgeUser
  {
    hide Cleaned, Rule, Stage, Doomed;
    var left, doomed := Cleaned(was, resolve), Doomed(was, resolve);
    forall r, c | r in was && c in was[r].links && Rule(c) == Restrict
      ensures was[r].links[c] in doomed <==> was[r].links[c] !in left
      ensures r in doomed <==> r !in left
      ensures r in doomed && was[r].links[c] in doomed ==>
        (Stage(r.table) < Stage(was[r].links[c].table) <==> c != AttemptUser && c != BadgeUser)
    {
      CleanForBeta.TypedChild(was, r, c);
      CascadeIsOneLevel(c);
      ParentGoes(was, resolve, r);
      ParentGoes(was, resolve, was[r].links[c]);
      if r in doomed && was[r].links[c] in doomed {
        DoomedIsStaged(was, resolve);
        InOrder(c);
      }
    }
  }

  /** Of two tables the run deletes from, the one that refers to the other goes first, but for two columns. */
  lemma InOrder(c: Column)
    requires Rule(c) == Restrict && Stage(Child(c)) < STAGES && Stage(Parent(c)) < STAGES
    ensures Stage(Child(c)) < Stage(Parent(c)) <==> c != AttemptUser && c != BadgeUser
  {
    hide Stage, Rule, Child, Parent;
    match Parent(c)
    case User => BeforeUsers(c);
    case CandidateProfile => BeforeProfiles(c);
    case Organization => BeforeOrganizations(c);
    case _ => BeforeOthers(c);
  }

  lemma BeforeUsers(c: Column)
    requires Parent(c) == User && Stage(Child(c)) < STAGES && Rule(c) == Restrict
    ensures Stage(Child(c)) < Stage(User) <==> c != AttemptUser && c != BadgeUser
  {
    if c != AttemptUser && c != BadgeUser {
      hide Stage, Child, Rule, Parent;
      UserColumn(c);
      EarlyTables(Child(c));
    }
  }

  predicate Early(t: Table) {
    t in {AdminAccessLog, AssessmentRequest, CandidateProfile, Identity, Notification, OrgInvitation, OrgMember,
      ProfileView, RefreshToken, ShortlistEntry, Transaction}
  }

  lemma EarlyTables(t: Table)
    requires Early(t)
    ensures Stage(t) < Stage(User)
  {}

  lemma UserColumn(c: Column)
    requires Parent(c) == User && Stage(Child(c)) < STAGES && Rule(c) == Restrict && c != AttemptUser && c != BadgeUser
    ensures Early(Child(c))
  {}

  lemma BeforeProfiles(c: Column)
    requires Parent(c) == CandidateProfile && Stage(Child(c)) < STAGES && Rule(c) == Restrict
    ensures Stage(Child(c)) < Stage(CandidateProfile) && c != AttemptUser && c != BadgeUser
  {}

  lemma BeforeOrganizations(c: Column)
    requires Parent(c) == Organization && Stage(Child(c)) < STAGES && Rule(c) == Restrict
    ensures Stage(Child(c)) < Stage(Organization) && c != AttemptUser && c != BadgeUser
  {}

  lemma BeforeOthers(c: Column)
    requires Parent(c) != User && Parent(c) != CandidateProfile && Parent(c) != Organization
    requires Stage(Child(c)) < STAGES && Stage(Parent(c)) < STAGES && Rule(c) == Restrict
    ensures Stage(Child(c)) < Stage(Parent(c)) && c != AttemptUser && c != BadgeUser
  {}

  // ---------- what is reported ----------

  function Went(was: Database, left: Database, t: Table): set<Ref> {
    set r | r in was && r.table == t && r !in left
  }

  /** The report has the number of rows that go, table by table, and of claims that lose their badge. */
  lemma ReportCounts(was: Database, resolve: bool, t: Table)
    requires Typed(was) && Integrity(was) && t in Report(was, resolve)
    ensures t != SkillClaim ==> Report(was, resolve)[t] == |Went(was, Cleaned(was, resolve), t)|
    ensures t == SkillClaim ==>
      Report(was, resolve)[t] == |set r | r in was && r.table == SkillClaim && SkillClaimBadge in was[r].links|
  {
    hide Cleaned, Doomed, Printed;
    ReportIs(was, resolve, t);
    if t == SkillClaim { ClaimsWent(was, resolve); }
    else if t == TermsAcceptance { TermsWent(was, resolve); }
    else { RowsWent(was, resolve, t); }
  }

  lemma ReportIs(was: Database, resolve: bool, t: Table)
    requires t in Report(was, resolve)
    ensures Printed(resolve, t) && Report(was, resolve)[t] == CountOf(was, Doomed(was, resolve), t)
  {
    hide Doomed, CountOf, Line;
  }

  lemma ClaimsWent(was: Database, resolve: bool)
    requires Typed(was) && Integrity(was)
    ensures ClaimsOnBadges(was) == set r | r in was && r.table == SkillClaim && SkillClaimBadge in was[r].links
  {
    hide Typed, Integrity, Doomed, Gone;
    DoomedIsStaged(was, resolve);
    AllClaimsAreOnBadges(was, Doomed(was, resolve));
  }

  lemma TermsWent(was: Database, resolve: bool)
    requires Typed(was) && Integrity(was)
    ensures Select(was, TermsAcceptance, LinkIn(TermsAcceptanceUser, DoomedEmployers(was)))
      == Went(was, Cleaned(was, resolve), TermsAcceptance)
  {
    hide Cleaned, DoomedEmployers, Condemned, Typed, Child, Parent, CascadeOnly;
    assert HangsOn(TermsAcceptance) == On(TermsAcceptanceUser);
    forall r | r in was && r.table == TermsAcceptance
      ensures r !in Cleaned(was, resolve)
        <==> TermsAcceptanceUser in was[r].links && was[r].links[TermsAcceptanceUser] in DoomedEmployers(was)
    {
      RestGoes(was, resolve, r);
      if TermsAcceptanceUser in was[r].links {
        TermsHangOnUsers(was, r, TermsAcceptanceUser);
        CondemnedGo(was, resolve, was[r].links[TermsAcceptanceUser]);
        CondemnedAre(was);
      }
    }
  }

  lemma RowsWent(was: Database, resolve: bool, t: Table)
    requires Typed(was) && Printed(resolve, t) && t != SkillClaim && t != TermsAcceptance
    ensures Of(Doomed(was, resolve), t) == Went(was, Cleaned(was, resolve), t)
  {
    hide Cleaned, Doomed, Typed, Printed;
    PrintedIsNoLeaf(resolve, t);
    DoomedIsStaged(was, resolve);
    forall r | r in was && r.table == t ensures r in Doomed(was, resolve) <==> r !in Cleaned(was, resolve) {
      ParentGoes(was, resolve, r);
    }
  }

  lemma PrintedIsNoLeaf(resolve: bool, t: Table)
    requires Printed(resolve, t) && t != SkillClaim && t != TermsAcceptance
    ensures !CascadeOnly(t)
  {}

  /** The tables a report has a line for: for profiles only with the flag. */
  predicate Listed(resolve: bool, t: Table) {
    match t
    case JobSkill | Application | InterviewRound | ShortlistEntry | Job | Transaction | BillingProfile
       | AssessmentRequest | OrgInvitation | AdminAccessLog | OrgMember | Identity | RefreshToken | ProfileView
       | Notification | TermsAcceptance | User | Organization | SkillClaim | AttemptAnswer | IntegrityEvent
       | QuestionServedAt | Badge | Attempt => true
    case CandidateProfile => resolve
    case _ => false
  }

  lemma ReportLines(was: Database, resolve: bool, t: Table)
    ensures t in Report(was, resolve) <==> Listed(resolve, t)
  {
    hide Doomed, CountOf, Listed, Printed;
    if Listed(resolve, t) { ListedIsPrinted(resolve, t); }
    if Printed(resolve, t) { PrintedIsListed(resolve, t); }
  }

  lemma ListedIsPrinted(resolve: bool, t: Table)
    requires Listed(resolve, t)
    ensures Printed(resolve, t) && Line(t) < STAGES
  {}

  lemma PrintedIsListed(resolve: bool, t: Table)
    requires Printed(resolve, t)
    ensures Listed(resolve, t)
  {}
}
