/**
 The part of the database schema (apps/api/prisma/schema.prisma) that the two
 clean-up scripts can reach: every foreign key whose parent table one of the
 scripts deletes from.

 A relation without `onDelete` takes Prisma's default, which the migrations
 spell out: RESTRICT when the column is required, SET NULL when it is nullable.
 */
module Schema {
  datatype Table =
    | Organization | User | OrgMember | OrgInvitation | AdminAccessLog
    | CandidateProfile | CandidatePortfolio | AccountAction | ExportRequest
    | BillingProfile | Transaction | Document
    | SkillClaim | ExternalCredential | Certification | Subscription | UsageCounter
    | ProfileView | Job | JobSkill | Application | ShortlistEntry | InterviewRound | InterviewPrepProgress
    | AssessmentRequest | AssessmentRequestLevel | InterviewSession
    | Assessment | Question | Attempt | IntegrityEvent | QuestionServedAt | AttemptAnswer | AssessmentBlock
    | Badge | AssessmentSession | ClaimVerdict
    | Identity | RefreshToken | WebSessionCode | DeviceToken | TermsAcceptance | Passkey | Notification
    | StaffingAvailabilityRequest | StaffingBlock | StaffingClient | StaffingSubmission

  /** A foreign-key column, named table first. */
  datatype Column =
    | OrgMemberOrg | OrgInvitationOrg | AdminAccessLogOrg | BillingProfileOrg | JobOrg | ShortlistEntryOrg
    | AssessmentRequestOrg | StaffingAvailabilityRequestOrg | StaffingBlockOrg | StaffingClientOrg
    | StaffingSubmissionOrg
    | DeviceTokenUser | IdentityUser | TermsAcceptanceUser | PasskeyUser | RefreshTokenUser | WebSessionCodeUser
    | NotificationUser | OrgMemberUser | OrgInvitationInviter | CandidateProfileUser | AdminAccessLogAdmin
    | TransactionCreator | ProfileViewEmployer | ShortlistEntryAdder | AssessmentRequestRequester
    | InterviewSessionUser | AttemptUser | AttemptReviewer | AssessmentBlockUser | AssessmentBlockLifter
    | BadgeUser | AssessmentSessionUser | AssessmentSessionDecider | ClaimVerdictReviewer
    | OrgVerificationSubmitter | OrgVerifier | OrgDeactivator
    | StaffingAvailabilityRequestRequester | StaffingSubmissionCreator
    | CandidatePortfolioProfile | AccountActionProfile | ExportRequestProfile | AdminAccessLogProfile
    | BillingProfileCandidate | SkillClaimProfile | ExternalCredentialProfile | CertificationProfile
    | SubscriptionProfile | UsageCounterProfile | ProfileViewCandidate | ApplicationProfile
    | ShortlistEntryCandidate | AssessmentRequestCandidate | StaffingAvailabilityRequestCandidate
    | StaffingBlockCandidate | StaffingSubmissionCandidate
    | TransactionBillingProfile | DocumentBillingProfile | TransactionAmends | AssessmentRequestTransaction
    | JobSkillJob | ApplicationJob | ShortlistEntryJob | AssessmentRequestJob
    | InterviewSessionApplication | InterviewRoundEntry | InterviewPrepProgressEntry | AssessmentRequestLevelRequest
    | IntegrityEventAttempt | QuestionServedAtAttempt | AttemptAnswerAttempt
    | BadgeAttempt | AssessmentRequestAttempt | AssessmentRequestLevelAttempt
    | SkillClaimBadge | AssessmentRequestBadge | AssessmentRequestLevelBadge
    | AttemptAnswerQuestion | QuestionServedAtQuestion | QuestionAssessment | AttemptAssessment

  datatype OnDelete = Restrict | SetNull | Cascade

  /** The table a column belongs to. */
  function Child(c: Column): Table {
    match c
    case OrgVerificationSubmitter | OrgVerifier | OrgDeactivator => Organization
    case OrgMemberOrg | OrgMemberUser => OrgMember
    case OrgInvitationOrg | OrgInvitationInviter => OrgInvitation
    case AdminAccessLogOrg | AdminAccessLogAdmin | AdminAccessLogProfile => AdminAccessLog
    case CandidateProfileUser => CandidateProfile
    case CandidatePortfolioProfile => CandidatePortfolio
    case AccountActionProfile => AccountAction
    case ExportRequestProfile => ExportRequest
    case BillingProfileOrg | BillingProfileCandidate => BillingProfile
    case TransactionCreator | TransactionBillingProfile | TransactionAmends => Transaction
    case DocumentBillingProfile => Document
    case SkillClaimProfile | SkillClaimBadge => SkillClaim
    case ExternalCredentialProfile => ExternalCredential
    case CertificationProfile => Certification
    case SubscriptionProfile => Subscription
    case UsageCounterProfile => UsageCounter
    case ProfileViewEmployer | ProfileViewCandidate => ProfileView
    case JobOrg => Job
    case JobSkillJob => JobSkill
    case ApplicationProfile | ApplicationJob => Application
    case ShortlistEntryOrg | ShortlistEntryAdder | ShortlistEntryCandidate | ShortlistEntryJob => ShortlistEntry
    case InterviewRoundEntry => InterviewRound
    case InterviewPrepProgressEntry => InterviewPrepProgress
    case AssessmentRequestOrg | AssessmentRequestRequester | AssessmentRequestCandidate | AssessmentRequestTransaction
       | AssessmentRequestJob | AssessmentRequestAttempt | AssessmentRequestBadge => AssessmentRequest
    case AssessmentRequestLevelRequest | AssessmentRequestLevelAttempt | AssessmentRequestLevelBadge =>
      AssessmentRequestLevel
    case InterviewSessionUser | InterviewSessionApplication => InterviewSession
    case QuestionAssessment => Question
    case AttemptUser | AttemptReviewer | AttemptAssessment => Attempt
    case IntegrityEventAttempt => IntegrityEvent
    case QuestionServedAtAttempt | QuestionServedAtQuestion => QuestionServedAt
    case AttemptAnswerAttempt | AttemptAnswerQuestion => AttemptAnswer
    case AssessmentBlockUser | AssessmentBlockLifter => AssessmentBlock
    case BadgeUser | BadgeAttempt => Badge
    case AssessmentSessionUser | AssessmentSessionDecider => AssessmentSession
    case ClaimVerdictReviewer => ClaimVerdict
    case IdentityUser => Identity
    case RefreshTokenUser => RefreshToken
    case WebSessionCodeUser => WebSessionCode
    case DeviceTokenUser => DeviceToken
    case TermsAcceptanceUser => TermsAcceptance
    case PasskeyUser => Passkey
    case NotificationUser => Notification
    case StaffingAvailabilityRequestOrg | StaffingAvailabilityRequestRequester
       | StaffingAvailabilityRequestCandidate => StaffingAvailabilityRequest
    case StaffingBlockOrg | StaffingBlockCandidate => StaffingBlock
    case StaffingClientOrg => StaffingClient
    case StaffingSubmissionOrg | StaffingSubmissionCreator | StaffingSubmissionCandidate => StaffingSubmission
  }

  /** The table a column points into. */
  function Parent(c: Column): Table {
    match c
    case OrgMemberOrg | OrgInvitationOrg | AdminAccessLogOrg | BillingProfileOrg | JobOrg | ShortlistEntryOrg
       | AssessmentRequestOrg | StaffingAvailabilityRequestOrg | StaffingBlockOrg | StaffingClientOrg
       | StaffingSubmissionOrg => Organization
    case CandidatePortfolioProfile | AccountActionProfile | ExportRequestProfile | AdminAccessLogProfile
       | BillingProfileCandidate | SkillClaimProfile | ExternalCredentialProfile | CertificationProfile
       | SubscriptionProfile | UsageCounterProfile | ProfileViewCandidate | ApplicationProfile
       | ShortlistEntryCandidate | AssessmentRequestCandidate | StaffingAvailabilityRequestCandidate
       | StaffingBlockCandidate | StaffingSubmissionCandidate => CandidateProfile
    case TransactionBillingProfile | DocumentBillingProfile => BillingProfile
    case TransactionAmends | AssessmentRequestTransaction => Transaction
    case JobSkillJob | ApplicationJob | ShortlistEntryJob | AssessmentRequestJob => Job
    case InterviewSessionApplication => Application
    case InterviewRoundEntry | InterviewPrepProgressEntry => ShortlistEntry
    case AssessmentRequestLevelRequest => AssessmentRequest
    case IntegrityEventAttempt | QuestionServedAtAttempt | AttemptAnswerAttempt
       | BadgeAttempt | AssessmentRequestAttempt | AssessmentRequestLevelAttempt => Attempt
    case SkillClaimBadge | AssessmentRequestBadge | AssessmentRequestLevelBadge => Badge
    case AttemptAnswerQuestion | QuestionServedAtQuestion => Question
    case QuestionAssessment | AttemptAssessment => Assessment
    case _ => User
  }

  /** What the database does to the referencing row when the parent row is deleted. */
  function Rule(c: Column): OnDelete {
    match c
    case DeviceTokenUser | TermsAcceptanceUser | PasskeyUser | InterviewPrepProgressEntry => Cascade
    case OrgVerificationSubmitter | OrgVerifier | OrgDeactivator | AdminAccessLogOrg | AdminAccessLogProfile
       | BillingProfileOrg | BillingProfileCandidate | TransactionAmends | TransactionCreator
       | ShortlistEntryJob | AssessmentRequestJob | AssessmentRequestTransaction | AssessmentRequestAttempt
       | AssessmentRequestBadge | AssessmentRequestLevelAttempt | AssessmentRequestLevelBadge
       | InterviewSessionApplication | AttemptReviewer | AssessmentBlockLifter | BadgeAttempt
       | AssessmentSessionDecider | ClaimVerdictReviewer | SkillClaimBadge => SetNull
    case _ => Restrict
  }

  /** The tables that only ever disappear by cascade; nothing points into them. */
  predicate CascadeOnly(t: Table) {
    t in {DeviceToken, TermsAcceptance, Passkey, InterviewPrepProgress}
  }

  /** One level of cascading is all there is: a cascaded row is never itself a parent. */
  lemma CascadeIsOneLevel(c: Column)
    ensures Rule(c) == Cascade <==> CascadeOnly(Child(c))
    ensures !CascadeOnly(Parent(c))
  {
    if Rule(c) == Cascade { CascadesChild(c); }
    if CascadeOnly(Child(c)) { CascadingColumn(c); }
  }

  lemma CascadesChild(c: Column)
    requires Rule(c) == Cascade
    ensures CascadeOnly(Child(c))
  {}

  lemma CascadingColumn(c: Column)
    requires CascadeOnly(Child(c))
    ensures Rule(c) == Cascade
  {}
}
