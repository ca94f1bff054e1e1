# Verified models of the MyAmbii core

Dafny models of the stateful and arithmetic parts of the MyAmbii repository, with proofs of what they
keep. Each module follows one component, in that component's own form: a class where the
source updates fields or tables, methods with loops where it loops, functions where it
computes. A method is proved against a function of its inputs, and the lemmas prove what that
function is good for, over every input and every order of events - also in terms of the rows, answers and texts
themselves, so that no part of it is taken on its name.

- `Schema`, `Relational`, `CleanForBeta`, `CleanForBetaOutcome`, `DeleteAssessment` - the two clean-up scripts, on a database
  with the real foreign keys and their delete rules. The transaction either ends in a state described entirely by
  the database before it, or rolls back; the exact condition is `CleanForBeta.Commits`, told by the rows in
  `CleanForBetaOutcome.CommitsIff`.
- `Shuffle`, `McqImport`, `McqResume` - the seeded generator, the in-place shuffle, and the resumable import.
- `Staffing`, `StaffingOverlap`, `HiringPipeline` - two protocols between several parties and one server.
- `RateLimiter` - three numbers per key against the log of all accepted hits.
- `VerificationGate`, `ObjectUrls` - React effects under every order of events.
- `Binary64`, `Money` - GST and salaries in double arithmetic (IEEE 754, any nearest rounding).
- `Text`, `CopilotDeadline`, `HelpHeadings`, `HelpContents`, `DashboardPicks`, `TokenClient` - regular
  expressions that read back what was printed, selections, and the token clients.

`dafny verify dfyconfig.toml` proves everything.

## Where the code does not keep what it says

Each item names a lemma at a concrete input and one with the exact condition.

- Staffing: "no other company can submit them there" fails when a company marks a submission as interviewing
  after its 30 days have lapsed, because nothing is looked up again then. With requests that do not overlap, exactly then:
  `Staffing.RevivalHappens`, `Staffing.SerialExclusiveIff`. The service looks up and then writes, in two queries.
  Overlapping requests defeat it when a write meets a rival (`StaffingOverlap.OverlappingApprovals`,
  `StaffingOverlap.AlwaysExclusiveIff`); they move a submission back, out of a final status too, when a write comes late
  (`StaffingOverlap.WithdrawnIsInterviewing`, `StaffingOverlap.AlwaysForwardIff`); and they put somebody forward without a
  consent when a move is written on a submission that has lost it
  (`StaffingOverlap.InterviewingUnasked`, `StaffingOverlap.AlwaysConsentedIff`).
- Hiring pipeline: the server reads and writes an entry in two steps, so with two requests in flight a final stage can be left.
  Exactly when a write comes after the move it checked has ceased to be allowed:
  `HiringPipeline.LateWriteLeavesFinalStage`, `HiringPipeline.AlwaysForwardIff`.
- Rate limiter: described as sliding, with a cap per rolling window and a cooldown between consecutive hits. The windows
  are anchored at a hit. The cap holds for every stretch as long as a window exactly under the settings of
  `RateLimiter.CapHoldsIff`; otherwise up to 2 * cap - 1 hits pass, never more (`RateLimiter.RollingBound`), each number
  exactly when it fits (`RateLimiter.CrowdedIff`, `RateLimiter.BoundReachedIff`), by the runs that
  `RateLimiter.FittingRun` builds. Within a window the cooldown always holds; from one window to the next only under the
  settings of `RateLimiter.CooldownIff`, else `RateLimiter.TooClose` gives a run.
- MCQ import: "re-running reproduces byte-identical results" fails after a crash, since the rows left are then shuffled with
  the numbers of the first ones: `McqResume.ExampleDiffers`; exactly when it holds, after any number of kills:
  `McqResume.ResumedIff`. Their content stays right. Ids repeated within a file are stored as often as they occur, exactly
  then: `McqImport.RepeatedIdStoredTwice`, `McqImport.StoredOnceIff`.
- Verification gate: the page is withheld only from a confirmed incomplete candidate - but it may be another
  candidate than the one signed in, when an answer comes late: `VerificationGate.LateAnswerJudgesTheWrongOne`, and exactly
  when, `VerificationGate.AlwaysOwnIff`. The fallback timer does not restart when a
  second redirect is requested, contrary to its comment; the 4000 ms bound holds all the same
  (`VerificationGate.HandledKeepsClock`, `VerificationGate.EveryOrderIsSafe`).
- Avatar: between a render for another profile and its effect the old image is still shown, and only then:
  `ObjectUrls.OldImageUnderNewName`, `ObjectUrls.EveryUrlIsRevokedOnce`.
- Help guides: the expression reads the whole text, and its blanks include line ends. So the contents can list a
  third-level heading (`HelpContents.ThirdLevelListed`) or lend a heading the next line's id
  (`HelpContents.GroupFromNextLine`); they are the entries of the lines exactly if no lines cross
  (`HelpContents.RawContentsIff`). A line's entry may have another label than its heading
  (`HelpHeadings.UnlabelledLineDiffers`), exactly off `HelpHeadings.Ordinary` lines
  (`HelpHeadings.EntryHasHeading`). And a heading with an id may have no entry
  (`HelpHeadings.HeadingsWithoutEntry`, `HelpHeadings.HeadingHasEntryIff`).
- delete-assessment: without a transaction, it stops half-way exactly when an answer or a served question of another
  assessment's attempt uses one of the questions: `DeleteAssessment.StopsHalfWay`, `DeleteAssessment.Script.Run`.

## Model

| member | source | states |
|---|---|---|
| Schema.CascadeIsOneLevel | apps/api/prisma/schema.prisma:414-417 | The tables whose rows go by ON DELETE CASCADE are exactly the four leaf tables, and nothing points into them, so a cascade never goes on |
| Relational.DeleteKeepsIntegrity | apps/api/prisma/schema.prisma:343-560 | A deletion no restricting reference blocks leaves every foreign key resolving, cascades and nulled columns included |
| Relational.WithoutKeepsIntegrity | apps/api/prisma/schema.prisma:343-560 | A set of rows closed under cascades and restricted only from inside can go as a whole with every foreign key still resolving |
| Relational.DeleteAfter | apps/api/prisma/clean-for-beta.ts:126-363 | A deletion after earlier ones is the same deletion on the database before all of them, its cascades added |
| Relational.BlockedAfter | apps/api/prisma/clean-for-beta.ts:126-363 | A later deletion is refused exactly by a restricting reference in a row that the earlier ones left |
| CleanForBeta.CommitsIffClear | apps/api/prisma/clean-for-beta.ts:126-365 | No stage is held back if and only if every restricting reference to a doomed row is in a row doomed by an earlier statement |
| CleanForBeta.ReadAhead | apps/api/prisma/clean-for-beta.ts:128-301 | A query inside the transaction over rows due later gives what it would have given before the transaction |
| CleanForBeta.TermsStillThere | apps/api/prisma/clean-for-beta.ts:259-265 | The acceptances counted for the report are all still there, whatever has gone before the users |
| CleanForBeta.StageStep | apps/api/prisma/clean-for-beta.ts:139-362 | Each deletion selects the rows doomed at the outset, is refused exactly when held back, and leads to the described next state |
| CleanForBeta.ClaimsStage | apps/api/prisma/clean-for-beta.ts:296-322 | Reverting the claims in the middle of the run equals reverting them at the outset |
| CleanForBeta.ConflictMeans | apps/api/prisma/clean-for-beta.ts:89-119 | The profiles found in conflict are empty exactly if no doomed employer owns a candidate profile |
| CleanForBeta.EveryStageKeepsIntegrity | apps/api/prisma/clean-for-beta.ts:126-365 | After every stage reached without a rollback every foreign key resolves |
| CleanForBeta.LeftExactly | apps/api/prisma/clean-for-beta.ts:126-365 | A row goes exactly when a filter of the run, read on the database before it, names it or a cascade takes it |
| CleanForBeta.KeptOrganisation | apps/api/prisma/clean-for-beta.ts:67-78 | Of organisations exactly the kept one stays; its jobs, members and shortlist stay, those of all others go |
| CleanForBeta.KeptPeople | apps/api/prisma/clean-for-beta.ts:278-362 | Of people and profiles exactly those go that the run computes to; no badge or attempt stays, every claim and question does |
| CleanForBetaOutcome.UsersGo | apps/api/prisma/clean-for-beta.ts:82-86 | Exactly the users go who are members of an organisation other than the kept one |
| CleanForBetaOutcome.ProfilesGo | apps/api/prisma/clean-for-beta.ts:267-276 | A candidate profile goes exactly with its user, and only if the flag is given |
| CleanForBetaOutcome.ConflictIff | apps/api/prisma/clean-for-beta.ts:89-119 | The run refuses to execute without the flag exactly if a member of a deleted organisation owns a candidate profile |
| CleanForBetaOutcome.RestGoes | apps/api/prisma/clean-for-beta.ts:128-362 | Every badge and attempt goes and of organisations all but one; every other row goes exactly with the one row it hangs on, cascades included |
| CleanForBetaOutcome.CommitsIff | apps/api/prisma/clean-for-beta.ts:126-365 | The run commits exactly if no row that stays restricts one that goes and no attempt or badge belongs to a user who goes; the order of all other deletions is right |
| CleanForBetaOutcome.ReportCounts | apps/api/prisma/clean-for-beta.ts:121-124 | Each line of the report is the number of rows of its table that go, cascades included, and for claims the number of those that lose a badge |
| CleanForBetaOutcome.ReportLines | apps/api/prisma/clean-for-beta.ts:139-362 | Which tables have a line |
| CleanForBeta.Frame | apps/api/prisma/clean-for-beta.ts:299-322 | A claim on a badge ends UNVERIFIED without it; every other row left keeps its contents, but for optional references to rows that went |
| CleanForBeta.SecondRunIsIdle | apps/api/prisma/clean-for-beta.ts:63-377 | After a committed run the database is as the script needs it again, without a conflict, and a further run, with either flag, commits, deletes and reverts nothing and reports zeros |
| CleanForBeta.OwnedAttemptRollsBack | apps/api/prisma/clean-for-beta.ts:278-362 | One attempt or badge owned by a doomed employer rolls the whole run back, since users go before badges and attempts |
| CleanForBeta.Cleanup.Record | apps/api/prisma/clean-for-beta.ts:121-124 | Adds to the line of one table and touches no other |
| CleanForBeta.Cleanup.CountOrDelete | apps/api/prisma/clean-for-beta.ts:391-399 | Both modes return the number of rows selected; only an execute run deletes, and a refused deletion changes nothing |
| CleanForBeta.Cleanup.FindMany | apps/api/prisma/clean-for-beta.ts:130-137 | The ids read inside the transaction are those of the database before it |
| CleanForBeta.Cleanup.Step | apps/api/prisma/clean-for-beta.ts:139-144 | One recorded deletion: in both modes the count of the rows doomed at the outset; a failure means that the run does not commit |
| CleanForBeta.Cleanup.OrgPhase | apps/api/prisma/clean-for-beta.ts:128-225 | Phase 1 leads from the start to the state after eleven stages, or fails only where the run cannot commit |
| CleanForBeta.Cleanup.EmployerPhase | apps/api/prisma/clean-for-beta.ts:227-283 | Phase 2, with and without the flag, likewise up to the users |
| CleanForBeta.Cleanup.TermsLine | apps/api/prisma/clean-for-beta.ts:259-265 | Reports the acceptances that will cascade and deletes none |
| CleanForBeta.Cleanup.AttemptPhase | apps/api/prisma/clean-for-beta.ts:285-362 | Phases 3 and 4 lead to the final state |
| CleanForBeta.Cleanup.ClaimsLine | apps/api/prisma/clean-for-beta.ts:299-322 | Reports and, when executing, reverts exactly the claims that rested on a badge at the outset |
| CleanForBeta.Cleanup.Run | apps/api/prisma/clean-for-beta.ts:63-377 | The dry run changes nothing; a committed execute run reports the same counts as the dry run, all read on the database before; it rolls back completely exactly if not Commits |
| DeleteAssessment.DetachIsAbsorbed | apps/api/prisma/delete-assessment.ts:21-25 | Detaching the requests first makes no difference to the outcome |
| DeleteAssessment.QuestionsHeld | apps/api/prisma/delete-assessment.ts:34 | The questions cannot go exactly if an attempt of another assessment uses one |
| DeleteAssessment.AssessmentIsFree | apps/api/prisma/delete-assessment.ts:35 | Once attempts and questions are gone nothing holds the assessment |
| DeleteAssessment.BothEndsAreSound | apps/api/prisma/delete-assessment.ts:14-35 | Whole or half-way, every foreign key resolves at the end |
| DeleteAssessment.GoesExactly | apps/api/prisma/delete-assessment.ts:14-35 | Half-way exactly the attempts at the assessment and the integrity events, served questions, answers and badges of these have gone, in the end its questions and itself too |
| DeleteAssessment.InUseIff | apps/api/prisma/delete-assessment.ts:34 | A question is in use exactly if it was answered or served in an attempt at another assessment |
| DeleteAssessment.Script.DeleteMany | apps/api/prisma/delete-assessment.ts:27-34 | One deletion outside a transaction: done with its cascades, or refused without effect |
| DeleteAssessment.Script.DeleteAttempts | apps/api/prisma/delete-assessment.ts:20-32 | Exactly the attempts and their four kinds of children go; the database never refuses |
| DeleteAssessment.Script.Run | apps/api/prisma/delete-assessment.ts:4-38 | Unknown id: nothing; otherwise all of it goes exactly if no question is in use elsewhere, else it stops with the attempts gone |
| DeleteAssessment.StopsHalfWay | apps/api/prisma/delete-assessment.ts:14-35 | A database of six rows on which it stops with the assessment and its question left and the attempt gone |
| Shuffle.Mulberry32.Next | apps/api/prisma/seed-mcq-import.ts:156-165 | One call advances the state by the increment modulo 2^32 and returns the mix of the new state, below 2^32 |
| Shuffle.FullPeriod | apps/api/prisma/seed-mcq-import.ts:156-165 | Two states are equal exactly after a multiple of 2^32 calls |
| Shuffle.EveryStateIsReached | apps/api/prisma/seed-mcq-import.ts:156-165 | Every 32-bit state comes up within 2^32 calls, from any seed |
| Shuffle.PickInDoubles | apps/api/prisma/seed-mcq-import.ts:163-175 | The index computed in doubles, division by 2^32 and multiplication rounded, is the exact integer quotient for up to 2^21 items |
| Shuffle.PickMeans | apps/api/prisma/seed-mcq-import.ts:175 | The outputs mapped to an index are one interval, between consecutive rounded-up multiples of 2^32 / m |
| Shuffle.DrawsAreEven | apps/api/prisma/seed-mcq-import.ts:175 | Every index below m comes from floor or ceil of 2^32 / m of the outputs |
| Shuffle.ShuffledKeepsItems | apps/api/prisma/seed-mcq-import.ts:174-177 | A shuffle is a rearrangement, for any length and any choices |
| Shuffle.ShuffleReaches | apps/api/prisma/seed-mcq-import.ts:174-177 | Every rearrangement is the shuffle of some choice vector |
| Shuffle.ShuffleIsInjective | apps/api/prisma/seed-mcq-import.ts:174-177 | Of different items, by one choice vector only: the choices can be read back off the result |
| Shuffle.VectorCount | apps/api/prisma/seed-mcq-import.ts:174-175 | There are n! choice vectors for n items |
| Shuffle.EveryPlaceIsEquallyLikely | apps/api/prisma/seed-mcq-import.ts:174-177 | Exactly (n-1)! of them bring a given item to a given place |
| Shuffle.AnswerIsKept | apps/api/prisma/seed-mcq-import.ts:178-181 | The option at the new index is option A even among equal options, and the options are only rearranged |
| Shuffle.ShuffleInPlace | apps/api/prisma/seed-mcq-import.ts:173-177 | The swaps in place give the shuffle for the numbers drawn, and use n - 1 of them |
| Shuffle.ShuffleOptions | apps/api/prisma/seed-mcq-import.ts:170-182 | Returns the shuffled options and the place of the right answer, for any number of options |
| Shuffle.FindZero | apps/api/prisma/seed-mcq-import.ts:179 | indexOf finds the place of item 0 |
| McqImport.KnownIds | apps/api/prisma/seed-mcq-import.ts:252-258 | Exactly the non-empty source ids stored under the assessment |
| McqImport.RefusedIff | apps/api/prisma/seed-mcq-import.ts:128-223 | A file is refused exactly if it is empty, a cell is missing, skills or levels are mixed, or the skill or the level is unknown |
| McqImport.TitleIs | apps/api/prisma/seed-mcq-import.ts:222-229 | The title for each level, with the suffix exactly for the three pairs that have a live assessment |
| McqImport.SameTitleIff | apps/api/prisma/seed-mcq-import.ts:227-229 | Two files go into one assessment exactly if they share skill and level |
| McqImport.Importer.ImportFile | apps/api/prisma/seed-mcq-import.ts:199-303 | The file's import from any database, generator state and point of death, with its counts of inserted and skipped rows |
| McqImport.Importer.ImportAll | apps/api/prisma/seed-mcq-import.ts:305-329 | One start of the script over all files, with a fresh generator |
| McqImport.DoneIff | apps/api/prisma/seed-mcq-import.ts:263-300 | A file ends well exactly if the process lives and every row still to be stored answers A; what it then adds, row by row |
| McqImport.StoredRowIsFaithful | apps/api/prisma/seed-mcq-import.ts:275-297 | What is stored has the row's text, its four options in some order, and the answer at option A |
| McqImport.RowsAreFaithful | apps/api/prisma/seed-mcq-import.ts:263-300 | However a file's import ends, it has only added questions, each faithful to a row of the file |
| McqImport.RowsStayOnce | apps/api/prisma/seed-mcq-import.ts:263-300 | With distinct ids in the file no id is stored twice, wherever the import stops |
| McqImport.EveryCrashIsSound | apps/api/prisma/seed-mcq-import.ts:316-329 | After any number of killed runs the old questions are untouched, all new ones faithful, none doubled |
| McqImport.FilesComplete | apps/api/prisma/seed-mcq-import.ts:316-329 | A run that ends well has every row of every file stored |
| McqImport.RerunIsIdle | apps/api/prisma/seed-mcq-import.ts:264-267 | With every id present a run changes nothing and cannot fail |
| McqImport.RestartsRecover | apps/api/prisma/seed-mcq-import.ts:199-329 | Kill it anywhere, any number of times, then let it finish: every row stored exactly once and faithfully, and a further run inserts nothing |
| McqImport.StoredOnceIff | apps/api/prisma/seed-mcq-import.ts:256-267 | Every id ends up stored once exactly if the ids not yet stored were distinct within the file |
| McqImport.RepeatedIdStoredTwice | apps/api/prisma/seed-mcq-import.ts:256-267 | A file of two rows with one id is imported to the end and leaves that id twice |
| McqResume.FilesRunIs | apps/api/prisma/seed-mcq-import.ts:199-329 | A run over several files stores the new ones of the rows it lives to handle, in order, three numbers of the generator each |
| McqResume.RestartedIs | apps/api/prisma/seed-mcq-import.ts:305-329 | Any number of killed runs and a complete one store each new row once, from the state of the generator at which its own run came to it |
| McqResume.StoredAgreeIff | apps/api/prisma/seed-mcq-import.ts:275-297 | The same rows stored from other states of the generator are the same questions exactly if each of them is |
| McqResume.ResumedIff | apps/api/prisma/seed-mcq-import.ts:10-16 | From any database, over several files and after any number of kills, the resumed import equals the unbroken one exactly if every row is shuffled alike from the state it is handled in and from the unbroken run's |
| McqResume.SameRowIff | apps/api/prisma/seed-mcq-import.ts:170-182 | With four different options that means that the same numbers are drawn |
| McqResume.ResumedOnceIff | apps/api/prisma/seed-mcq-import.ts:10-16 | After one kill with n new rows stored: exactly if every later row draws what the row n places before it draws |
| McqResume.ResumedRowDiffers | apps/api/prisma/seed-mcq-import.ts:167 | With the fixed seed, a row ends with option C when handled first and with option A when handled second, so it differs if these differ |
| McqResume.TwoRowsDiffer | apps/api/prisma/seed-mcq-import.ts:10-16 | Any two new rows, the second with different options A and C: killed between them, the import leaves another database than unbroken |
| McqResume.ExampleDiffers | apps/api/prisma/seed-mcq-import.ts:10-16 | Such a file, row by row |
| Staffing.Service.CreateSubmission | apps/api/src/modules/staffing/staffing-submissions.service.ts:114-170 | The answer and the new store, for every error case in order |
| Staffing.Service.UpdateStatus | apps/api/src/modules/staffing/staffing-submissions.service.ts:201-225 | Moves along the table, refused when expired; no look-up of rivals |
| Staffing.Service.Decide | apps/api/src/modules/staffing/staffing-submissions.service.ts:253-288 | Approval or refusal, conflicts looked up again on approval only |
| Staffing.Service.CandidateWithdraw | apps/api/src/modules/staffing/staffing-submissions.service.ts:290-303 | Withdrawal before a placement, on the stored status |
| Staffing.Service.AssertNoConflict | apps/api/src/modules/staffing/staffing-submissions.service.ts:312-349 | Finds a conflict exactly if a rival represents the candidate to the same client, or an employer of the direct pipeline is that client |
| Staffing.ConflictIff | apps/api/src/modules/staffing/staffing-submissions.service.ts:312-349 | A conflict is exactly another company's running representation, or an employer's own process, at a client of the same name or domain |
| Staffing.RefusedBecause | apps/api/src/modules/staffing/staffing-submissions.service.ts:114-303 | Not found is exactly what is not the requester's own, an archived client or a candidate not to be seen; forbidden exactly a candidate who has not said to be available; a refusal changes nothing |
| Staffing.GrantedIff | apps/api/src/modules/staffing/staffing-submissions.service.ts:114-303 | On one's own submission, exactly the moves of the table, decisions in time, approvals and requests without a conflict, and no second open request are granted |
| Staffing.GrantedChangesOne | apps/api/src/modules/staffing/staffing-submissions.service.ts:114-303 | A granted request appends one pending submission of the asking company, or changes the one it names, never whose it is or until when to decide |
| Staffing.TimeOnlyEnds | apps/api/src/modules/staffing/staffing-representation.util.ts:52-78 | Waiting can end a representation and never start one |
| Staffing.ActiveIff | apps/api/src/modules/staffing/staffing-representation.util.ts:52-78 | When a company represents a candidate, to the millisecond |
| Staffing.GrantedLasts | apps/api/src/modules/staffing/staffing-representation.util.ts:3-78 | How long each granted request is good for, to the millisecond: 72 hours, 30 days, no end, 180 days |
| Staffing.WriteExclusiveIff | apps/api/src/modules/staffing/staffing-submissions.service.ts:213-276 | A write, whatever it was granted on, keeps representation exclusive exactly unless the row written meets a rival |
| Staffing.MeetsRivalIff | apps/api/src/modules/staffing/staffing-submissions.service.ts:263-266 | Looked up and written at once, a granted request meets a rival exactly by reviving a lapsed submission |
| Staffing.ExclusiveIff | apps/api/src/modules/staffing/staffing-submissions.service.ts:201-349 | A request looked up and written with nothing in between keeps representation exclusive exactly unless it revives a lapsed submission against a rival |
| Staffing.SerialExclusiveIff | apps/api/src/modules/staffing/staffing-submissions.service.ts:49-51 | Over any history in clock order of requests that do not overlap, at most one company represents a candidate at a client at all times exactly if no request revives |
| Staffing.RevivalHappens | apps/api/src/modules/staffing/staffing-submissions.service.ts:201-213 | A history of five granted requests after which two companies represent the candidate |
| StaffingOverlap.LookedUpAndWrittenAtOnce | apps/api/src/modules/staffing/staffing-submissions.service.ts:201-225 | A look-up followed at once by its write is the request as one step |
| StaffingOverlap.EachPartyItsOwn | apps/api/src/modules/staffing/staffing-submissions.service.ts:201-303 | However requests overlap, a submission is changed only by its own company's moves and its own candidate's decisions, and a consent is the candidate's approval |
| StaffingOverlap.AlwaysExclusiveIff | apps/api/src/modules/staffing/staffing-submissions.service.ts:49-51 | However requests overlap, at most one company represents a candidate at a client at all times exactly if no write meets a rival |
| StaffingOverlap.OverlappingApprovals | apps/api/src/modules/staffing/staffing-submissions.service.ts:263-276 | Two approvals, both granted before either is written, after which two companies represent the candidate |
| StaffingOverlap.ReachesIsTheTable | apps/api/src/modules/staffing/staffing-representation.util.ts:80-95 | One status comes after another exactly by a chain of requests that the look-ups allow |
| StaffingOverlap.ForwardIff | apps/api/src/modules/staffing/staffing-submissions.service.ts:201-303 | A step moves all submissions forward along the table exactly unless it is a late write: one whose request is no longer allowed, nor made already |
| StaffingOverlap.KnownStays | apps/api/src/modules/staffing/staffing-submissions.service.ts:201-303 | Unless a write is late, every request still to be written was allowed at a status its submission has had |
| StaffingOverlap.AlwaysForwardIff | apps/api/src/modules/staffing/staffing-representation.util.ts:80-95 | In a run of any interleaving, submissions only ever move forward exactly if no write is late |
| StaffingOverlap.AtMostFourChanges | apps/api/src/modules/staffing/staffing-representation.util.ts:80-95 | In such a run a submission changes at most four times, and not at all once it is final |
| StaffingOverlap.WithdrawnIsInterviewing | apps/api/src/modules/staffing/staffing-submissions.service.ts:201-303 | A withdrawal and a move, both granted before either is written, after which a withdrawn submission is interviewing |
| StaffingOverlap.AlwaysConsentedIff | apps/api/src/modules/staffing/staffing-submissions.service.ts:253-276 | In any run, whoever is put forward has consented in time, at all times, exactly if no company moves on a submission without a consent |
| StaffingOverlap.TimelyRunsAreConsented | apps/api/src/modules/staffing/staffing-submissions.service.ts:253-276 | Without late writes, as with requests that do not overlap, there always is consent |
| StaffingOverlap.InterviewingUnasked | apps/api/src/modules/staffing/staffing-submissions.service.ts:201-288 | An approval, a refusal and a move that overlap, after which the company represents the candidate without a consent |
| Staffing.ButtonsMatchServer | apps/web/lib/staffing.ts:111-117 | On an up-to-date page the buttons are exactly the moves the server grants, but for an approval that meets a conflict |
| Staffing.ButtonsDo | apps/web/components/StaffingSubmissionsInbox.tsx:44-56 | What each button of the inbox does to the submission |
| Staffing.MineAreNewest | apps/api/src/modules/staffing/staffing-submissions.service.ts:229-250 | The list sent has the candidate's submissions as they are, newest first; one that it leaves out is older than a hundred others |
| Staffing.Inbox.Load | apps/web/components/StaffingSubmissionsInbox.tsx:32-38 | The page shows the list the server sends, or nothing if the request fails |
| Staffing.Inbox.Act | apps/web/components/StaffingSubmissionsInbox.tsx:44-56 | A granted move is followed by a reload, a refused one leaves the page as it was |
| HiringPipeline.ButtonsMatchServer | apps/web/components/EmployerShortlist.tsx:566-742 | A button of either page is a move the server would grant if the page were current, and all of them but answering an offer again |
| HiringPipeline.Page.Settle | apps/web/components/EmployerShortlist.tsx:244-361 | A granted reply patches the one cached entry as its handler does; a refused one changes nothing |
| HiringPipeline.GrantedIsShown | apps/web/components/EmployerShortlist.tsx:244-361 | In any run, when the answer to a granted move arrives the page shows the stage or the response that was written, nothing else changes, and a page that was up to date is so again unless something was written since |
| HiringPipeline.ReloadIsShown | apps/web/components/CandidateInterviews.tsx:76-86 | In any run, a reload comes to show exactly the entries asked for as the server had them when it read them |
| HiringPipeline.EachPartyItsOwn | apps/web/components/CandidateInterviews.tsx:92-117 | In any run only the candidate answers invitations and offers, and only the employer makes the other moves |
| HiringPipeline.Deployment.Arrive | apps/web/components/CandidateInterviews.tsx:76-117 | An answer that arrives, to a move or to a reload, changes the page that asked as a step of the protocol does |
| HiringPipeline.Server.Check | apps/api/src/modules/shortlist/pipeline-transitions.ts:43-52 | Grants exactly the moves of the table from the stage that was read |
| HiringPipeline.Deployment.Happen | apps/api/src/modules/shortlist/shortlist-pipeline.service.ts:30-150 | Whatever happens next, server and pages with their methods make the step of the protocol and no other change |
| HiringPipeline.EdgesAreMoves | apps/api/src/modules/shortlist/pipeline-transitions.ts:18-32 | One stage follows another exactly if some allowed move writes it |
| HiringPipeline.ReachesIff | apps/api/src/modules/shortlist/pipeline-transitions.ts:18-32 | Reachable means by a chain of the table's moves |
| HiringPipeline.FairIffInTime | apps/api/src/modules/shortlist/shortlist-pipeline.service.ts:30-150 | A write moves the entry forward exactly if its move is still allowed or already made |
| HiringPipeline.ForwardIffTimely | apps/api/src/modules/interviews/interviews.service.ts:44-76 | Any step keeps all entries moving forward, answers to offers frozen outside OFFER, exactly unless it is a late write |
| HiringPipeline.KnownStays | apps/web/components/CandidateInterviews.tsx:76-117 | Unless a write is late, every cached stage, answer in flight and passed check stays one from which the server's stage is reachable |
| HiringPipeline.AlwaysForwardIff | apps/api/src/modules/shortlist/pipeline-transitions.ts:4-16 | In a run of any interleaving, the pipeline always moves forward exactly if all writes are in time; then every cached stage reaches the server's |
| HiringPipeline.FinalOnScreenIsFinal | apps/web/components/EmployerShortlist.tsx:316-361 | In such a run a final stage on any screen is the server's stage |
| HiringPipeline.TrailWalks | apps/api/src/modules/shortlist/pipeline-transitions.ts:18-32 | In such a run the moves that changed an entry are a walk along the table |
| HiringPipeline.HiredMeansAcceptedAndOffered | apps/api/src/modules/shortlist/pipeline-transitions.ts:18-32 | In such a run at most four changes, and HIRED is invitation, acceptance, offer and outcome in this order and nothing else |
| HiringPipeline.LastAnswerStands | apps/api/src/modules/interviews/interviews.service.ts:68-76 | In any run an entry holds the candidate's last answer to the offer, and no other move touches it |
| HiringPipeline.CheckedAndWrittenAtOnce | apps/api/src/modules/shortlist/shortlist-pipeline.service.ts:114-118 | A check followed at once by its write is in time |
| HiringPipeline.LateWriteLeavesFinalStage | apps/api/src/modules/shortlist/shortlist-pipeline.service.ts:144-151 | A run in which a rejected candidate, rejected on the employer's screen too, ends up interviewing |
| RateLimiter.InMemoryRateLimiter.constructor | apps/api/src/common/ip-rate-limiter.ts:44-50 | Starts with no key and an empty log |
| RateLimiter.InMemoryRateLimiter.Hit | apps/api/src/common/ip-rate-limiter.ts:53-69 | Decides as the full log of accepted hits would; a refusal leaves no trace, an acceptance touches one key |
| RateLimiter.SummaryDecides | apps/api/src/common/ip-rate-limiter.ts:57-66 | The three stored numbers decide exactly as the log |
| RateLimiter.SummaryAfter | apps/api/src/common/ip-rate-limiter.ts:57-68 | The two updates keep them the summary of the log |
| RateLimiter.InWindowCounts | apps/api/src/common/ip-rate-limiter.ts:27-31 | The stored count is the number of accepted hits since windowStart |
| RateLimiter.KeysAreIndependent | apps/api/src/common/ip-rate-limiter.ts:44 | For each key a run over many keys is the run of its own hits |
| RateLimiter.WindowIsCapped | apps/api/src/common/ip-rate-limiter.ts:64-66 | A window holds at most max(1, maxPerWindow) hits |
| RateLimiter.RollingBound | apps/api/src/common/ip-rate-limiter.ts:33-42 | Any stretch as long as a window holds at most twice the cap less one |
| RateLimiter.CrowdedIff | apps/api/src/common/ip-rate-limiter.ts:33-42 | For every number above the cap and all settings: that many hits pass in some stretch as long as a window exactly if they fit, cooldowns included |
| RateLimiter.CapHoldsIff | apps/api/src/common/ip-rate-limiter.ts:33-42 | The cap holds for every stretch as long as a window exactly if the window is at most 1 ms, the cap is 1, or cap - 1 cooldowns fill the window |
| RateLimiter.BoundReachedIff | apps/api/src/common/ip-rate-limiter.ts:33-42 | Twice the cap less one is reached exactly if 2 * cap - 3 cooldowns leave room in the window (for cap 1, if the window is not empty) |
| RateLimiter.SpacedWithinWindow | apps/api/src/common/ip-rate-limiter.ts:57-66 | Hits of one window are a cooldown apart, under all settings |
| RateLimiter.CooldownIff | apps/api/src/common/ip-rate-limiter.ts:34-35 | Consecutive accepts are a cooldown apart in every run exactly under the given settings |
| VerificationGate.CandidateVerificationProvider.FetchStatus | apps/web/lib/candidateVerification.tsx:132-152 | Puts a fetch under the current token in flight |
| VerificationGate.CandidateVerificationProvider.RunEffect | apps/web/lib/candidateVerification.tsx:154-175 | The pathname effect: forget, do nothing, fetch, or redirect once |
| VerificationGate.CandidateVerificationProvider.SetStatus | apps/web/lib/candidateVerification.tsx:175 | A changed status runs the effect again, an unchanged one does not |
| VerificationGate.CandidateVerificationProvider.OnTokenChange | apps/web/lib/candidateVerification.tsx:187-200 | The subscriber of the token bus |
| VerificationGate.CandidateVerificationProvider.On | apps/web/lib/candidateVerification.tsx:120-236 | One event of any kind and the picture after it |
| VerificationGate.HandledKeepsClock | apps/web/lib/candidateVerification.tsx:213-217 | A countdown runs exactly while redirecting, 4000 ms from its start, and no event restarts it |
| VerificationGate.EveryOrderIsSafe | apps/web/lib/candidateVerification.tsx:132-223 | In every order of events: withheld only on the last word that a candidate is incomplete, at most 4000 ms at a stretch, successive redirects for one token parted by a moment without a token |
| VerificationGate.NewsRedirects | apps/web/lib/candidateVerification.tsx:170-174 | The first news for a token that the candidate is incomplete redirects and withholds the page |
| VerificationGate.AnswerDecides | apps/web/lib/candidateVerification.tsx:132-152 | With somebody signed in, the answer of /users/me makes incomplete exactly a candidate without phone or without e-mail, complete one with both, and not applicable other roles and failed fetches |
| VerificationGate.AnswerRedirects | apps/web/lib/candidateVerification.tsx:132-223 | The first answer that a candidate lacks the phone or the e-mail redirects, starts the 4000 ms and withholds the page |
| VerificationGate.OthersPass | apps/web/lib/candidateVerification.tsx:132-223 | No other answer redirects or withholds |
| VerificationGate.ArrivalIsLookedUp | apps/web/lib/candidateVerification.tsx:154-200 | Arriving signed in on a gated page looks the candidate up once for each token, a new token always |
| VerificationGate.ExemptIff | apps/web/lib/candidateVerification.tsx:100-106 | The pages left alone are the account settings and all paths with one of six prefixes |
| VerificationGate.ExemptIsLeftAlone | apps/web/lib/candidateVerification.tsx:154-223 | There nothing is looked up unasked, nobody redirected, nothing withheld |
| VerificationGate.SignedOutIsForgotten | apps/web/lib/candidateVerification.tsx:187-195 | Signing out forgets the verdict and the tokens and withholds nothing |
| VerificationGate.VerdictHasEvidence | apps/web/lib/candidateVerification.tsx:134-141 | Such a word is an answer of /users/me or a refused request, kept under the token it was asked for with |
| VerificationGate.OwnIff | apps/web/lib/candidateVerification.tsx:132-200 | An event keeps the evidence to the candidate signed in exactly unless another candidate's token takes an incomplete one's place, or news asked for under another candidate's token comes in |
| VerificationGate.AlwaysOwnIff | apps/web/lib/candidateVerification.tsx:187-200 | In any run, token rotations and late answers included, only the one found incomplete is taken for incomplete exactly if no event does that |
| VerificationGate.LateAnswerJudgesTheWrongOne | apps/web/lib/candidateVerification.tsx:134-175 | Three events after which the page is withheld from B on A's answer |
| ObjectUrls.AvatarHook.Effect | apps/web/components/CandidateAvatar.tsx:36-60 | Cancels, revokes, clears, and starts a fetch if there is an image |
| ObjectUrls.AvatarHook.OnBlob | apps/web/lib/useOrgLogo.ts:28-33 | An answer makes and shows a URL unless its run was cancelled |
| ObjectUrls.AvatarHook.OnUnmount | apps/web/lib/useOrgLogo.ts:36-49 | Both cleanups |
| ObjectUrls.NextKeepsSound | apps/web/lib/useOrgLogo.ts:18-49 | Every event keeps: one live URL at most, the one shown, for what the effect last ran for; none revoked twice |
| ObjectUrls.EveryUrlIsRevokedOnce | apps/web/components/CandidateAvatar.tsx:36-64 | In every order of events each URL is either the one shown or revoked exactly once, all are after removal, and the image is the current profile's exactly unless an effect is pending |
| ObjectUrls.OldImageUnderNewName | apps/web/components/CandidateAvatar.tsx:36-64 | Three events after which the first profile's image is shown while the second is rendered |
| ObjectUrls.CurrentImageArrives | apps/web/components/CandidateAvatar.tsx:47-55 | In every order of events the fetch for the current profile is not cancelled, and its answer puts that profile's image on the screen |
| Money.Gst | apps/api/src/config/gst.config.ts:142 | The integer nearest to 18 per cent, a half going up |
| Money.SplitGst | apps/api/src/config/gst.config.ts:141-151 | Total is base and tax; the parts sum to the tax, CGST equal to SGST or one more in state 27, IGST alone elsewhere |
| Money.DoublesGiveTheSplit | apps/api/src/config/gst.config.ts:141-151 | With every double operation rounded, the subtraction included, the results are these integers within and outside the state, for all amounts up to 2^53 / 9 |
| Money.TotalIncreases | apps/api/src/config/gst.config.ts:143 | A larger base has a larger total |
| Money.BaseFromTotal | apps/api/src/config/gst.config.ts:117-122 | The base can be computed back from the total |
| Money.Drift | apps/api/src/config/gst.config.ts:117-118 | Over n invoices the tax differs from 18 per cent of the turnover by at most n / 2 paise |
| Money.SalaryRoundTrip | apps/web/components/EmployerJobs.tsx:541-542 | Paise to rupees in doubles, printed, parsed and back are the same paise, up to 100 * 2^45 |
| Money.UnchangedFormKeepsSalary | apps/web/components/EmployerJobs.tsx:310-542 | Saving an opened form unchanged keeps the salary exactly unless it is set but not disclosed |
| CopilotDeadline.MatchAtIff | apps/web/components/Dashboard.tsx:232 | The greedy reading matches whenever the expression can match at all, with the only group it can capture |
| CopilotDeadline.NumberOfDec | apps/web/components/Dashboard.tsx:234 | Number reads back the printed decimal |
| CopilotDeadline.DaysInDoubles | apps/web/components/Dashboard.tsx:219-221 | The days computed in doubles are the exact ones |
| CopilotDeadline.StartedHasNone | apps/web/components/Dashboard.tsx:241-249 | No "Started ..." line has a match, at any clock |
| CopilotDeadline.DeadlineReadsBack | apps/web/components/Dashboard.tsx:231-498 | For every invitation and clock the chip shows the day count that was printed, with or without minutes in front; no chip exactly if no deadline |
| CopilotDeadline.ChipShows | apps/web/components/Dashboard.tsx:231-238 | There is a chip exactly for an unstarted invitation with a deadline; today, tomorrow or the fewest days that cover the time left, urgent up to two |
| CopilotDeadline.MetaIff | apps/web/components/Dashboard.tsx:440-493 | When a line is printed at all; always for an unstarted invitation with a deadline |
| CopilotDeadline.MetaSays | apps/web/components/Dashboard.tsx:440-493 | How the lines with a deadline are worded |
| CopilotDeadline.StartedAgoMeans | apps/web/components/Dashboard.tsx:241-249 | Since when: to the nearest minute, in whole hours, in whole days |
| HelpHeadings.TocEntryIff | apps/web/lib/helpGuideSource.ts:22-26 | A line has an entry exactly if the expression can match it, and it is from the match the expression prefers |
| HelpHeadings.RemarkHeadingIds | apps/web/lib/remarkHeadingIds.ts:16-27 | Every heading node ends with its id taken off its text |
| HelpHeadings.HeadingTaken | apps/web/lib/remarkHeadingIds.ts:16-27 | The id is that of the group that ends the text, if there is one, and the text is what stands before the blanks in front of it |
| HelpHeadings.PlainHeading | apps/web/lib/remarkHeadingIds.ts:16-27 | A heading without closing signs keeps its text |
| HelpHeadings.EntryHasHeading | apps/web/lib/remarkHeadingIds.ts:19-23 | An entry's rendered heading has the same label and id exactly on ordinary lines |
| HelpHeadings.ContentsHaveHeadings | apps/web/lib/helpGuideSource.ts:32-35 | If all entries of the lines are on ordinary lines, they have their headings, in the same order |
| HelpHeadings.UnlabelledLineDiffers | apps/web/lib/helpGuideSource.ts:22 | A line whose entry has a label its heading lacks |
| HelpHeadings.HeadingHasEntryIff | apps/web/lib/helpGuideSource.ts:32-35 | The way back: a heading with an id has its entry exactly if the line itself ends in the group, after a label or a second blank |
| HelpHeadings.HeadingsWithoutEntry | apps/web/lib/helpGuideSource.ts:32-35 | Two headings with an id and no entry, one with closing signs and one without a label |
| HelpContents.MatchFromIff | apps/web/lib/helpGuideSource.ts:22 | At every position of the text a match is found exactly if there is any, and it is the preferred one: most blanks, then the shortest label, then most blanks |
| HelpContents.RawContentsIff | apps/web/lib/helpGuideSource.ts:22-26 | All matches of the text, from the left, are the entries of its lines exactly if no lines cross |
| HelpContents.ContentsAreHeadingsIff | apps/web/lib/helpGuideSource.ts:32-35 | They are what the lines with an entry are rendered as, labels and ids, exactly if moreover all these lines are ordinary |
| HelpContents.RawContentsHaveHeadings | apps/web/lib/helpGuideSource.ts:32-35 | Then every entry of the contents has its heading in the guide, in the same order |
| HelpContents.ThirdLevelIff | apps/web/lib/helpGuideSource.ts:14-21 | The contents are what they would be without the third-level headings exactly if no lines cross |
| HelpContents.ThirdLevelListed | apps/web/lib/helpGuideSource.ts:14-21 | A text whose contents list a third-level heading |
| HelpContents.GroupFromNextLine | apps/web/lib/helpGuideSource.ts:22 | A text whose contents have an entry and whose lines have none |
| HelpContents.SeparatedHeading | apps/web/lib/helpGuideSource.ts:22 | A LINE SEPARATOR starts a line for the expression but not for Markdown: an entry without its heading |
| DashboardPicks.SortedByScore | apps/web/components/Dashboard.tsx:888 | Best first, equals in their order |
| DashboardPicks.TopFiveAreBest | apps/web/components/Dashboard.tsx:895 | Five matches are taken, all if there are fewer, and none left out is better than one taken |
| DashboardPicks.GapCounter.Add | apps/web/components/Dashboard.tsx:896 | Keeps the counts, and the keys in the order of their first occurrences |
| DashboardPicks.GapCounter.Recurring | apps/web/components/Dashboard.tsx:898-903 | The name counted most, at least twice; of several the one met first |
| DashboardPicks.RecurringGap | apps/web/components/Dashboard.tsx:888-903 | The same over the missing skills of the five best matches |
| DashboardPicks.GapIsMissing | apps/web/components/Dashboard.tsx:894-903 | The gap is missing from these matches as often as said, at least twice, no skill more often; without one none is missing twice |
| DashboardPicks.SelectEmployerInvite | apps/web/components/Dashboard.tsx:399-414 | One of the active invitations none of which expires sooner, and how many more there are; else the first expired one |
| DashboardPicks.ActiveAre | apps/web/components/Dashboard.tsx:400 | The active invitations are the pending and the started ones, each as often as it is there |
| TokenClient.ApiClient.DoSetTokens | apps/web/lib/api.ts:81-93 | Memory and storage are set together, the refresh token only if given |
| TokenClient.ApiClient.DoGetToken | apps/web/lib/api.ts:100-104 | Returns what is stored under the client's own key |
| TokenClient.ApiClient.DoGetRefresh | apps/web/lib/api.ts:106-110 | Likewise for the refresh token |
| TokenClient.ApiClient.DoLogout | apps/web/lib/api.ts:117-127 | Revokes if there is something to revoke, then clears |
| TokenClient.ApiClient.TryRefresh | apps/web/lib/api.ts:129-144 | One refresh at most, and new tokens only if it succeeds |
| TokenClient.ApiClient.DoApi | apps/web/lib/api.ts:161-177 | The calls made, in order, and the status that counts |
| TokenClient.AfterKeepsSound | apps/web/lib/api.ts:77-110 | Every operation keeps memory and storage in step and other keys untouched |
| TokenClient.OneRefreshTwoRequests | apps/web/lib/api.ts:161-167 | One request; a refresh exactly after a 401 with a refresh token stored; a second request exactly if that succeeds, with the token just stored |
| TokenClient.TokensReadBack | apps/web/lib/api.ts:81-110 | The tokens set are those read back, an empty one like none; a refresh token left out stays |
| TokenClient.OnlyRefreshesStore | apps/web/lib/api.ts:129-167 | A request changes what is stored only by a refresh that succeeds, to the tokens it brings |
| TokenClient.LogoutForgets | apps/web/lib/api.ts:112-127 | A logout hands in the stored refresh token and leaves no token of this client |
| TokenClient.ClientsAreApart | apps/web/lib/api.ts:216-221 | In every run over both clients getToken is the stored token, and each client has what it would have alone |

## Left out

- The branch of the clean-up that deletes claims instead of reverting them: a constant switches it off.
- Columns, and foreign keys into tables neither script deletes from; the console output; the transaction's timeout; other writers during the scripts.
- Skill and domain upserts, the correction of questionsPerAttempt, difficulty and isLive of the import; spreadsheet parsing beyond missing cells. A death between rows is modelled, not inside one insert.
- Normalising client names and web domains, candidate visibility and agreement: parameters of the requests.
- Interview rounds, notes, removal from a shortlist, and the pause of a pipeline while an account is deactivated.
- The clock of the limiter going backwards; the IP address that serves as its key.
- React StrictMode's doubled effects, unmounting the gate, timers that fire late, and two tabs or concurrent refreshes in the token client.
- The placeholder's logout button, and the bus payloads: user interface.
- Reading a guide's file and cutting it at the first section: the contents are proved for every text.
- HelpContents.RawContentsHaveHeadings: headings without inline markup, outside fenced code, in a text without the two Unicode separators; one of these is exhibited in HelpContents.SeparatedHeading.
- DashboardPicks.SelectEmployerInvite: with a concrete insertion sort, as the comparator is inconsistent on two invitations without a deadline and leaves other sorts free.
- Double arithmetic at the ends of the exponent range, and printing numbers: a double's text is taken to read back as that double.
- The admin sidebar, plan tables, profile scores and message ladders: settled by reading one expression.
