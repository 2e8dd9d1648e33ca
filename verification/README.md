# zerp-back: a verified model of its ledger, review lifecycle and authorization

This project models the core of the zerp-back server in Dafny and proves what that core is for.

- **LED, the ledger** (`LedModel` to `LedService`). A generation of the ledger holds opening rows and append-only
  inventory, fund and party entries. Executing a VOU document appends its POSTING rows, withdrawing it appends REVERSAL
  rows for the newest posted revision, and activating the ledger builds a fresh generation from the opening draft and
  replays the documents executed now. `LedMachine` is the state machine of committed transactions; `LedService.Ledger`
  is the service with its tables as fields, its loops over lines, entries and documents, and its rollbacks, proved to do
  exactly what the machine does. The main result is that the incrementally kept ledger equals the plain meaning, the
  opening plus the effects of the documents executed now, for every dimension and date; it is proved with the exact set
  of runs in which it holds.
- **BOB, the business objects** (`BobModel` to `BobService`). Objects with numbered versions pass through draft, review,
  approval and editing. All tables (objects, versions, details, audit events) are modelled together, so that the audit
  log, the version counters and the references between objects can be related over whole runs.
- **APP, authorization** (`AppModel` to `AppService`). Users, roles, permissions, the wildcard role, the permission and
  counting queries and the steps of user and role administration.
- **Smaller algorithms**: the sign-in limiter (`SigninLimiter`), the feedback publisher (`FeedbackPublisher`,
  `FeedbackIssues`, `FeedbackLeases`, `FeedbackDecisions`), the
  decimal text of quantities and money (`LedDecimal`), and the decimal text and load capacity functions of BOB
  (`BobDecimal`), both over the library functions of `DecimalText`.

Each service call or event handler is one atomic step, because each runs in one transaction under a row or advisory
lock; a refused step leaves everything as it was. Dates and times are numbers, ids are handed out in increasing order (as
the ULIDs of `newID` are), and sums of 64-bit columns are mathematical sums. What comes from outside (the clock, which
objects are effective, the answers of the issue tracker, jitter) is an input of the step that uses it.

## What the model found

- **A withdrawal can be reversed twice.** An intermediary sale may be executed with nothing signed for; that execution
  posts no rows. If the same document was executed with signed quantities and withdrawn before, withdrawing it now finds
  the old posting as the newest one and reverses it again. `LedCounterexamples.DoubleReversal` is a run of accepted steps
  from an empty installation that leaves a wrong balance. `LedAgreement.WithdrawalExact` says exactly when one withdrawal
  keeps the ledger right, and `LedAgreement.LedgerAgreesExactly` says it of whole runs. The unique indexes over source,
  line, revision and entry type (`docs/domains/led.md`, line 51) do not prevent it, since the revision is new.
- **A rebuild may be refused although the live ledger is fine.** A withdrawn purchase can have covered a sale before
  another purchase came in; the rebuild has neither the withdrawn posting nor its reversal, so the sale finds nothing in
  stock. `LedRefusedRebuild.RebuildCanBeRefused` is a run of accepted steps that ends in such a ledger and in a refused
  activation. This is the only way: `LedRebuild.RebuildExactly` proves that an active ledger can be rebuilt exactly when
  its opening and the documents executed now never take out more stock than there is, in the order of the replay.
- **Thirty sign-ins a minute** (`docs/domains/app.md`, line 469) holds for the fixed windows the limiter keeps, not for
  every minute: 59 is the most in any minute, and it is reached (`SigninLimiter.AtMostTwoWindows`, `BoundIsReached`).
  `ThirtyExceededExactly` tells from the table at the start of a minute whether it may still admit more than 30: exactly
  when the key has a window open that is not full.
- **One issue for each feedback** is not kept by several workers. `FeedbackIssues.OneWorkerExactly`: over all runs, a pool
  of workers keeps it exactly when it has no two workers. `FeedbackIssues.DuplicateExactly` tells of any state, from the
  row, the tracker's issues and the workers, whether a second issue can still come. The leases help as far as
  `FeedbackLeases.TimelyKindsExactly` says: it is enough that creations and reschedules are taken within the lease of
  their worker, and neither can be spared (`TwoWorkersCanDuplicate`, `LateRescheduleDuplicates`).
- **Retries do not always end in FAILED** (`docs/domains/app.md`, line 359): a feedback whose tenth attempt crashes stays
  in PROCESSING for ever, and a late reschedule can leave one in PENDING for ever, with all attempts used up, while the
  tenth worker is still at work. `FeedbackDecisions.DecidedExactly` says exactly which feedback can still be decided.

## Model

| member | source | states |
|---|---|---|
| LedModel.LineAmountIsNearest | internal/platform/fixeddecimal/fixeddecimal.go:52-64 | A line amount is the nearest number of cents to quantity times price, halves up, exactly when that is positive and fits 64 bits |
| LedModel.DocumentRowsSound | internal/domains/led/posting_entities.go:11-388 | Every row a document posts has the sign of its entity in its dimension, is not before the cutover, and no two rows of one posting share a unique index key |
| LedModel.ReplayEqualsLive | internal/domains/led/posting_entities.go:11-30 | A document accepted live is replayed into the same rows |
| LedLog.InsertRowsAppends | internal/database/sqlc/led.sql.go:684-704 | ON CONFLICT DO NOTHING swallows no row of a posting with a new revision: the log grows by exactly the stamped rows |
| LedLog.NewestPostingBounds | internal/domains/led/reversal.go:45-63 | The maximum over the three tables is the newest posted revision of the document and is one that exists |
| LedLog.ReversalTakesBackPosting | internal/domains/led/reversal.go:65-179 | In every view the reversal rows sum to minus what the newest posting put there |
| LedOpening.SaveOpeningPreservesSnapshots | internal/domains/led/opening_save.go:60-177 | The saved draft repeats the input row for row with distinct ids; a stored (object, version) key keeps its id and its code and name snapshot, a new one takes the effective one |
| LedOpening.ResaveIsIdentity | internal/domains/led/service.go:342-386 | The opening as the view shows it, its amounts printed as text, is valid input and is replaced by the same draft again |
| LedTheorems.ResaveKeepsDraft | internal/domains/led/service.go:122-183 | While the ledger is not active, saving the opening as it is shown is accepted and leaves the draft, the generations and the documents as they were |
| LedOpening.SumOpeningEntries | internal/database/sqlc/led.sql.go:805-931 | The opening entries of a generation sum, in every view, to the opening rows, although zero rows get no entry |
| LedTimeline.TimelineUnsorted | internal/database/sqlc/led.sql.go:386-403 | The window query finds a negative running total exactly when some entry's total over all entries not after it, by date, opening first, time and id, is negative |
| LedTimeline.CutIsNonNegative | internal/database/sqlc/led.sql.go:386-403 | On a non-negative timeline every prefix cut of a dimension has a non-negative sum |
| LedTimeline.StockNeverNegative | internal/database/sqlc/led.sql.go:1441-1470 | On a non-negative timeline every inventory balance is non-negative for every as-of date |
| LedTimeline.IncomingKeepsTimeline | internal/database/sqlc/led.sql.go:386-403 | Inserting rows that only bring stock in, anywhere in the order, keeps the timeline non-negative |
| LedInvariant.PostDocumentExtends | internal/domains/led/posting.go:190-214 | Posting a document of a new revision appends exactly the rows a replay would post and keeps the log sound |
| LedInvariant.ReverseExtends | internal/domains/led/reversal.go:65-179 | A withdrawal appends exactly the negation of the newest posting, with no collision, and keeps the log sound |
| LedInvariant.NextRevisionIsFresh | internal/database/sqlc/vou.sql.go:303-311 | The revision an execution or withdrawal gives a document is new to the log |
| LedPreservation.SaveOpeningKeepsInv | internal/domains/led/service.go:122-183 | Saving the opening keeps the control, draft and ledger invariant |
| LedPreservation.ReopenKeepsInv | internal/domains/led/service.go:185-235 | Reopening keeps the invariant: the draft becomes the active generation's opening |
| LedPreservation.CancelReopenKeepsInv | internal/domains/led/service.go:237-273 | Cancelling keeps the invariant: the control takes the generation's cutover back |
| LedPreservation.ActivateKeepsInv | internal/domains/led/posting.go:51-101 | An activation leaves one active generation, the one the control points at, with an empty draft and equal cutovers |
| LedPreservation.RebuildKeepsLog | internal/domains/led/activation.go:47-142 | A rebuilt log has no entry before the cutover, distinct keys, and every row that is no opening row is a posting of a document executed now, of its present revision |
| LedPreservation.StepKeepsInv | internal/domains/led/posting.go:51-179 | Every step, accepted or refused, keeps the invariant |
| LedPreservation.RunKeepsInv | internal/domains/led/service.go:122-273 | Every state a run reaches has at most one active generation, the control's, no entry before its cutover and a non-negative timeline |
| LedAgreement.PostsUnlessNothingSigned | internal/domains/led/posting_entities.go:200-264 | A live execution posts no row at all exactly when it is an intermediary sale nothing of which was signed for |
| LedAgreement.ExecuteAgrees | internal/domains/led/posting.go:103-136 | An execution keeps every view right if it was right, and wrong if it was wrong |
| LedAgreement.UnexecuteExact | internal/domains/led/posting.go:138-179 | From a right ledger, a committed withdrawal leaves every balance right exactly when the withdrawn document posts rows |
| LedAgreement.WithdrawalExact | internal/domains/led/reversal.go:11-63 | In every state a run reaches, a committed withdrawal makes a right ledger wrong exactly when it withdraws an intermediary sale of which nothing was signed for on any line |
| LedAgreement.ActivateFaithful | internal/domains/led/posting.go:51-101 | An activation builds a generation in which every view is the opening plus the documents executed now |
| LedAgreement.LedgerAgrees | internal/domains/led/posting.go:51-179 | After any run that signs for something in every intermediary sale it executes, every balance for every dimension and date is the opening plus the documents executed now |
| LedAgreement.LedgerAgreesExactly | internal/domains/led/reversal.go:45-179 | For every run: all balances are right after every step exactly when no committed step withdraws an intermediary sale of which nothing was signed for (a clean run) |
| LedAgreement.CleanRunAgrees | internal/domains/led/posting.go:51-179 | After every clean run every view of the active ledger, by document, dimension and date, is the opening plus the documents executed now |
| LedAgreement.SignedIsClean | internal/domains/led/posting_entities.go:200-264 | Runs that sign for something in every intermediary sale they execute are clean |
| LedMeaning.RowsHaveEffect | internal/domains/led/posting_entities.go:32-388 | The rows of a document move each balance, on each date, by exactly its effect, which is said without rows: stock by warehouse, product and goods date, funds by account, debts by party, currency and business date |
| LedMeaning.BalanceIsOpeningAndEffects | internal/database/sqlc/led.sql.go:1441-1470 | After every clean run each balance is the opening and those effects of the documents executed now |
| LedTheorems.RebuildAgreesExactly | internal/domains/led/activation.go:108-142 | Reopening and a successful activation give the live balances again, for every dimension and date, exactly when the live balances are right |
| LedTheorems.RebuildAgreesWithLive | internal/domains/led/activation.go:108-142 | So they do after every clean run |
| LedTheorems.DocumentCountsOnce | internal/domains/led/reversal.go:45-179 | After every clean run a document's own rows amount to its effect while it is executed and to zero otherwise |
| LedTheorems.WithdrawalRestores | internal/domains/led/posting.go:103-179 | Executing and then withdrawing a document, something of which was signed for if it is an intermediary sale, restores every view |
| LedTheorems.StockNeverNegativeInRun | internal/domains/led/posting.go:128-134 | In every reachable state no stock of the active ledger is negative on any date |
| LedTheorems.OnlySalesAreRefusedByTimeline | internal/domains/led/posting.go:103-136 | The execution of anything but a sale is accepted exactly when its rows are valid: the timeline check never refuses it |
| LedTheorems.OnlyPurchasesAreKeptByTimeline | internal/domains/led/posting.go:138-179 | The withdrawal of anything but a purchase is accepted exactly when the active generation knows the document |
| LedTheorems.CancelReopenRestores | internal/domains/led/service.go:185-273 | Reopening, any steps short of activation and cancelling give back control, cutover, generations with all entries, draft and executed documents |
| LedTheorems.RevisionIsUsedOnce | internal/database/sqlc/led.sql.go:2056-2064 | A control or document revision that one write used up never lets another write through |
| LedConservation.DocumentMoney | internal/domains/led/posting_entities.go:83-388 | Per currency, a document's fund and party rows sum to sales minus purchases, the intermediary margin, other income minus expenses, and zero for receipts and payments |
| LedConservation.MoneyIsConserved | internal/domains/led/posting_entities.go:266-388 | A right ledger's funds and parties together hold the opening plus that net effect of the executed documents |
| LedConservation.MoneyIsConservedInRun | internal/domains/led/posting.go:51-179 | The same for every state a clean run reaches |
| LedCounterexamples.DoubleReversal | internal/domains/led/reversal.go:45-179 | A concrete run of accepted steps from an empty installation after which a posting was reversed twice and a balance is wrong |
| LedRebuild.ReplaySucceeds | internal/domains/led/activation.go:108-142 | The replay of an activation succeeds exactly when every executed document has valid rows from the cutover on; no row collides |
| LedRebuild.ActivateExactly | internal/domains/led/posting.go:51-101 | An activation with the right revision succeeds exactly when the executed intermediary sales are priced, the executed documents have valid rows, and no movement of stock, in the order of date, execution time and replay, takes out more than was opened with and moved by then |
| LedRebuild.RebuildExactly | internal/domains/led/activation.go:181-197 | Of an active ledger reopened as it stands, only that stock condition, over its opening and the documents executed now, decides whether it can be activated again |
| LedRebuild.RebuildExactlyInRun | internal/domains/led/activation.go:181-197 | The same for every state a run reaches |
| LedRefusedRebuild.RebuildCanBeRefused | internal/domains/led/activation.go:191-197 | A run of accepted steps, purchase, sale, purchase and withdrawal of the first purchase, after which the ledger can be reopened and its activation is refused |
| LedService.ValidateSave | internal/domains/led/validation.go:35-116 | The loop with its set of seen dimensions accepts exactly the inputs within the limits whose references are set, balance types and currencies are allowed, amounts parse, and dimensions are distinct |
| LedService.MaxSourceRevision | internal/domains/led/reversal.go:45-63 | The three loops compute the newest revision over the three tables |
| LedService.OldByKey | internal/domains/led/opening_save.go:67-70 | The map built by the loop finds for every key the last stored row with that key |
| LedService.PreflightActivation | internal/domains/led/activation.go:13-45 | The loop accepts exactly when every intermediary sale from the cutover on has all purchase prices |
| LedService.Ledger.PostSaleLine | internal/domains/led/posting_entities.go:32-110 | One iteration over a sale line inserts the rows of the specification in order, or fails exactly when they do not exist or cannot be inserted |
| LedService.Ledger.PostPurchaseLine | internal/domains/led/posting_entities.go:112-198 | The same for a purchase line |
| LedService.Ledger.PostIntermediaryLine | internal/domains/led/posting_entities.go:200-264 | The same for an intermediary sale line |
| LedService.Ledger.PostMoney | internal/domains/led/posting_entities.go:266-388 | Receipts, payments, expenses and other incomes insert their header rows |
| LedService.Ledger.PostDocument | internal/domains/led/posting.go:190-214 | The dispatch and the loop over the lines append what the specification appends, or fail when it fails |
| LedService.Ledger.ReverseDocumentEntries | internal/domains/led/reversal.go:65-179 | The three loops append exactly the reversal of the newest posting |
| LedService.Ledger.ReplaceDraft | internal/domains/led/opening_save.go:60-177 | The loop refills the draft row by row as specified, or fails on the first unresolvable reference |
| LedService.Ledger.SaveOpening | internal/domains/led/service.go:122-183 | Saves the opening as the state machine does, keeps the invariant, and restores the draft when refused |
| LedService.Ledger.Reopen | internal/domains/led/service.go:185-235 | Reopens as the state machine does and keeps the invariant |
| LedService.Ledger.CancelReopen | internal/domains/led/service.go:237-273 | Cancels as the state machine does and keeps the invariant |
| LedService.Ledger.ReplayVouDocuments | internal/domains/led/activation.go:108-142 | The replay loop posts the documents in order, and fails exactly when the replay fails |
| LedService.Ledger.Activate | internal/domains/led/posting.go:51-101 | Activates as the state machine does, with a complete rollback on every refusal, and keeps the invariant |
| LedService.Ledger.FinalizeActivation | internal/domains/led/activation.go:181-231 | Refuses exactly a negative timeline; otherwise archives the old generation, switches the control and clears the draft |
| LedService.Ledger.Execute | internal/domains/vou/execution.go:12-82 | With the stored attributes complete and the quantities reconciled within the ordered ones, the document and the ledger change together as the state machine says, or not at all |
| LedService.Ledger.Unexecute | internal/domains/led/posting.go:138-179 | The same for a withdrawal |
| BobInvariant.ReachedByPath | internal/database/sqlc/bob.sql.go:943-960 | A history that replays to a state is a connected path ending in it, one event a revision, decided by somebody other than who submitted it |
| BobInvariant.EffectiveIsPointer | db/queries/bob.sql:569-601 | In every sound state the joins of the reference queries hold exactly when the effective pointer is set |
| BobInvariant.CheckedDetail | internal/domains/bob/service.go:684-775 | Whatever passes the reference checks cites only effective objects, categories of the right target, and never the object itself as parent or reference |
| BobPreservation.SaveKeepsInv | internal/domains/bob/service.go:140-207 | A saved draft keeps the invariant, retargeted categories included |
| BobPreservation.ApproveKeepsInv | internal/domains/bob/service.go:358-408 | An approval keeps the invariant |
| BobPreservation.EditKeepsInv | internal/domains/bob/service.go:451-530 | An edit keeps the invariant for both versions it touches and for all copied references |
| BobPreservation.DeleteKeepsInv | internal/domains/bob/service.go:209-315 | A deletion keeps the invariant of everything left |
| BobPreservation.RunKeepsInv | internal/domains/bob/service.go:100-530 | Every state reached from empty tables satisfies the invariant |
| BobTheorems.OnlyCurrentIsAlive | internal/domains/bob/service.go:358-530 | In every reachable state the non-current versions of an object are exactly its INVALID ones, and the effective pointer is set exactly while the current version is EFFECTIVE |
| BobTheorems.NumbersAndRevision | internal/database/sqlc/bob.sql.go:14-20 | Version numbers are exactly 1 to n, each once, the next is n + 1, and the object revision is 2n - 1, plus one while effective |
| BobTheorems.AuditAccountsForVersion | internal/domains/bob/service.go:140-530 | Every version's audit events form a connected path to its status, as many as its revision; who submitted and who decided it are those of the log, and differ |
| BobTheorems.RevisionIsUsedOnce | internal/database/sqlc/bob.sql.go:1977-1984 | A version or object revision that one write used up never lets another write through, whatever happens in between |
| BobTheorems.DeleteExactly | internal/domains/bob/service.go:209-315 | In reachable states a deletion succeeds exactly when it names the first version, still a draft, with both present revisions: counts, audit shape and reference search refuse nothing |
| BobTheorems.DeleteLeavesNothing | internal/database/sqlc/bob.sql.go:611-745 | A deletion leaves no object, version, detail or audit row of the object, and every other row as it was |
| BobTheorems.ReferencesAreSound | internal/domains/bob/service.go:162-175 | No detail row of any version cites an object that is gone or was never effective; categories still classify everything filed under them, parents the same as their children |
| BobTheorems.ContentComesFrom | internal/domains/bob/service.go:100-530 | Content changes by saving only, a new draft starts from the effective content, and no step changes the entity, code, owner or number of anything |
| BobTheorems.SubmittedIsFrozen | internal/domains/bob/service.go:317-449 | A version that is not open keeps its content in every step |
| BobTheorems.ApprovedIsFinal | internal/domains/bob/service.go:358-530 | What was approved never changes in any run |
| BobService.Store.Create | internal/domains/bob/service.go:100-138 | Creates object, version, detail and audit event as specified, or changes nothing |
| BobService.Store.Save | internal/domains/bob/service.go:140-207 | Saves as specified; after its checks the guarded update finds its row |
| BobService.Store.Submit | internal/domains/bob/service.go:317-356 | Submits as specified; the guarded update finds its row |
| BobService.Store.Approve | internal/domains/bob/service.go:358-408 | Approves as specified; both guarded updates find their rows |
| BobService.Store.Reject | internal/domains/bob/service.go:410-449 | Rejects as specified; the guarded update finds its row |
| BobService.Store.Edit | internal/domains/bob/service.go:451-530 | Starts a new draft as specified, or changes nothing |
| BobService.Store.Delete | internal/domains/bob/service.go:209-315 | Deletes as specified, or changes nothing; once the checks have passed, none of the four guarded deletes can miss its rows |
| AppSafety.ListMatchesCounts | internal/database/sqlc/app.sql.go:563-583 | The permission list of a user and the four counting queries agree on who holds what, wildcard included |
| AppSafety.DisableUserCount | internal/domains/app/user_service.go:164-172 | The users counted before a user is disabled are the administrators left afterwards |
| AppSafety.DisableRoleCount | internal/domains/app/role_service.go:181-189 | The users counted before a role is disabled are the administrators left afterwards |
| AppSafety.RoleDisabledExactly | internal/domains/app/role_service.go:168-207 | With the right revision, disabling a role succeeds exactly when an administrator remains without it and every enabled user can still sign out |
| AppSafety.StepKeepsInv | internal/domains/app/authorization_rules.go:37-64 | Every request keeps the authorization invariant |
| AppSafety.NobodyIsLockedOut | internal/domains/app/authorization_rules.go:48-64 | In every reachable state every enabled user can sign out, and once there are users an enabled one can save roles exactly when the catalogue enables that path |
| AppSafety.EffectiveSetIsClosed | internal/domains/app/authorization_rules.go:66-101 | Whatever a user without the wildcard role holds is closed under "an action needs its read action" |
| AppSafety.WildcardIsUnique | internal/domains/app/role_service.go:75-77 | Only one role ever has the superadmin code, and it never has permission rows of its own |
| AppSafety.AssignedAsAsked | internal/domains/app/authorization_rules.go:25-113 | After a request each user has exactly the roles it asked for or those before it, and each role the permissions, none for the superadmin role |
| AppSafety.RevisionIsUsedOnce | internal/database/sqlc/app.sql.go:1052-1085 | A user or role revision that one write used up never lets another write through |
| AppSafety.CountIsSubset | internal/domains/app/authorization_rules.go:14-23 | For ids without repetition, counting as many good ones as there are ids is the same as all being good |
| AppService.UniqueIds | internal/domains/app/validation.go:100-112 | The loop keeps each non-blank id once, and sorts |
| AppService.ValidateRoles | internal/domains/app/authorization_rules.go:14-23 | The count decides exactly whether all roles exist and are enabled |
| AppService.ValidatePermissions | internal/domains/app/authorization_rules.go:66-101 | The count and the loop over paths accept exactly the enabled permission sets closed under read actions |
| AppService.Directory.ReplaceUserRoles | internal/domains/app/authorization_rules.go:25-35 | Deleting and inserting one at a time replaces the user's links and no others |
| AppService.Directory.ReplaceRolePermissions | internal/domains/app/authorization_rules.go:103-113 | The same for a role's permission links |
| AppService.Directory.BootstrapAdmin | internal/domains/app/bootstrap_service.go:12-65 | Creates the first user and the superadmin role as specified, or nothing |
| AppService.Directory.CreateUser | internal/domains/app/user_service.go:63-106 | Creates a user as specified, or rolls back |
| AppService.Directory.SaveUser | internal/domains/app/user_service.go:108-149 | Replaces a user's roles as specified, or rolls back |
| AppService.Directory.SetUserStatus | internal/domains/app/user_service.go:151-197 | Enables or disables a user as specified |
| AppService.Directory.CreateRole | internal/domains/app/role_service.go:68-104 | Creates a role as specified |
| AppService.Directory.SaveRole | internal/domains/app/role_service.go:106-166 | Replaces a role's permissions, clearing those of the superadmin role, or rolls back |
| AppService.Directory.SetRoleStatus | internal/domains/app/role_service.go:168-207 | Enables or disables a role as specified, or rolls back |
| SigninLimiter.Limiter.AllowSignin | internal/domains/app/signin_limiter.go:29-55 | Updates the table and answers as the specification does |
| SigninLimiter.Limiter.Cleanup | internal/domains/app/signin_limiter.go:43-47 | The loop over the entries, in any order, removes exactly the expired ones |
| SigninLimiter.TableRefinesHistory | internal/domains/app/signin_limiter.go:29-55 | For calls in time order, the bounded table answers exactly as the history of admissions does, and never exceeds 10,000 entries |
| SigninLimiter.AtMostTwoWindows | internal/domains/app/signin_limiter.go:29-55 | Any interval of one window length admits at most 59 sign-ins for a key, over every run |
| SigninLimiter.ThirtyExceededExactly | internal/domains/app/signin_limiter.go:34-55 | After any calls before a moment, some further calls are admitted more than 30 times within a window length from it exactly when the key then has a window open in the table that is not full |
| SigninLimiter.BoundIsReached | internal/domains/app/signin_limiter.go:29-55 | A run that admits 59 within one window length |
| FeedbackPublisher.ClaimedAtMostTenTimes | internal/database/sqlc/app_feedback.sql.go:14-36 | The attempt counter counts the claims, at most ten, for any number of workers and crashes |
| FeedbackPublisher.FinalStays | internal/database/sqlc/app_feedback.sql.go:537-571 | PUBLISHED and FAILED rows never change again |
| FeedbackPublisher.PublishedHasItsIssue | internal/domains/app/feedback_publisher.go:72-105 | The number stored with a published feedback is that of an issue with its marker |
| FeedbackIssues.DuplicateExactly | internal/domains/app/feedback_publisher.go:72-120 | In every sound state, some further run of the pool of workers ends with two issues for a feedback exactly when there are two now, or one beside which a worker that found none is about to create another, or none while the pool has two workers and the claims left and the workers on their way to create one are two or more together |
| FeedbackIssues.OneIssueEach | internal/domains/app/feedback_publisher.go:72-120 | One worker, crashing anywhere and losing replies, creates at most one issue for each feedback |
| FeedbackIssues.OneWorkerExactly | internal/domains/app/feedback_publisher.go:72-120 | All runs of a pool of workers make at most one issue for each feedback exactly when the pool has fewer than two workers |
| FeedbackLeases.LeasesSuffice | internal/domains/app/feedback_publisher.go:72-120 | With any number of workers, crashes and lost replies, each feedback has at most one issue as long as creations and reschedules are taken within the lease of their claim |
| FeedbackLeases.TimelyKindsExactly | internal/domains/app/feedback_publisher.go:72-120 | Of the four kinds of step, those that must be in time for that are exactly the creations and the reschedules |
| FeedbackLeases.TwoWorkersCanDuplicate | internal/database/sqlc/app_feedback.sql.go:14-36 | With two workers, a run in which only a creation is late creates two issues for one feedback |
| FeedbackLeases.LateRescheduleDuplicates | internal/database/sqlc/app_feedback.sql.go:562-569 | A run in which only a reschedule is late creates two issues: the update is guarded by the status and not by the claim |
| FeedbackDecisions.AbandonedIsReachable | internal/database/sqlc/app_feedback.sql.go:14-36 | A single worker that crashes in every attempt leaves a feedback claimed ten times and undecided |
| FeedbackDecisions.AbandonedStays | internal/database/sqlc/app_feedback.sql.go:14-36 | Such a feedback stays as it is in every run |
| FeedbackDecisions.PendingForEverIsReachable | internal/database/sqlc/app_feedback.sql.go:562-569 | A run with a late reschedule leaves a feedback PENDING that can never be decided, while the worker of its tenth attempt is at work within its lease |
| FeedbackDecisions.DecidedExactly | internal/domains/app/feedback_publisher.go:107-148 | In every sound state a feedback can still come to be published or failed exactly when it is, has attempts left, or is PROCESSING with a worker at work on it that does not hold an error to be retried |
| FeedbackDecisions.RetryDelayBounds | internal/domains/app/feedback_publisher.go:122-148 | The tenth or a permanent failure is final; otherwise the delay is that of the attempt, doubling from a minute, with at most a quarter on top and an hour in all, unless the tracker asks for more |
| FeedbackPublisher.Publisher.PublishOne | internal/domains/app/feedback_publisher.go:72-120 | One undisturbed publication is exactly a run of the worker's steps |
| LedDecimal.ParsePositiveFixed | internal/platform/fixeddecimal/fixeddecimal.go:12-50 | The loops over parts and digits compute the specification |
| LedDecimal.AcceptsExactly | internal/platform/fixeddecimal/fixeddecimal.go:12-50 | Around white space, exactly the unsigned decimals of the scale are accepted whose value is below the largest 64-bit integer, zero only where allowed, with their exact value |
| LedDecimal.FormatSignedFixed | internal/domains/led/decimal.go:36-55 | The divisor loop, the truncated division and the trimming compute the specification, the wrapped negation of the smallest 64-bit integer included |
| LedDecimal.PrintedIsParsed | internal/domains/led/decimal.go:10-55 | Parsing the printed magnitude of any 64-bit integer gives it again, unless it is not below the refused largest integer; a printed sign is refused |
| BobDecimal.ParseFixedMicros | internal/domains/bob/decimal.go:9-36 | The loops over parts and digits compute the specification |
| BobDecimal.AcceptsExactly | internal/domains/bob/decimal.go:9-36 | Around white space, exactly the unsigned decimals with at most six fraction digits and a positive value that fits 64 bits are accepted, with their exact value |
| BobDecimal.FormattedDecimal | internal/domains/bob/decimal.go:38-54 | What is printed is such a decimal with the printed value and at least one fraction digit |
| BobDecimal.RoundTrip | internal/domains/bob/decimal.go:9-54 | Printing and parsing gives every positive 64-bit value again |
| BobDecimal.NormalizeLoadCapacity | internal/domains/bob/validation.go:482-497 | The padding loop computes the specification |
| BobDecimal.NormalFormIsValue | internal/domains/bob/validation.go:482-497 | Two load capacities are normalised to the same text exactly when they have the same value |
| BobDecimal.ZeroLoad | internal/domains/bob/validation.go:301-304 | The refused text "0.000" stands for every way of writing zero |
| BobDecimal.NormalizeIsIdempotent | internal/domains/bob/validation.go:482-497 | Normalising again changes nothing, for any text |

## Left out

- The WFL domain and the container ledger (`HandleManagedDocument`, `postManagedDocument`, container openings and entries): runs have the seven VOU entities only, and the list of managed documents is empty.
- The VOU draft services: saving, reviewing, approving and returning a document are one step that may change everything but its identity, entity and revision order; the recomputed line amounts are not modelled.
- Document numbers, reasons, request ids, view texts and, in LED, actors: they influence nothing proved here.
- The three LED entry tables are one log whose rows name their table by their dimension; the order of rows within one table is kept, the interleaving of tables is the order of insertion.
- 64-bit overflow of running sums and balances, and of counters of revisions.
- LED audit events, history, filters, pagination and sorting of lists.
- LedService.ValidateSave: the types of counterparty are only the two allowed ones, an id is set or not, and the currency is given in capitals and without spaces; the container rows are not modelled.
- LedService.Ledger.Execute: the signoff date, the platform and vehicle references, the text of the difference reason and the fields that must be absent for the entity are not modelled, since nothing is posted from them; `staffed` stands for the people and settlement methods an entity demands.
- BobModel.ValidFields: of the text columns only the name is modelled, and other formats (codes, phones, bar codes, currencies, dates, settlement rules) and the unique plate number are left out, because they would add only easy members.
- BobService.Store.Save: takes as its input the detail that `mergeDetailInput` makes of the request and the stored row; which omitted fields are kept is not modelled, since it would only copy fields.
- BOB references from VOU documents are a set of cited objects that grows by effective objects and shrinks at will.
- Acyclicity of categories and departments: the code refuses only a reference to itself.
- Permission paths are triples of domain, entity and action, as the table constrains them, so the case of a path without three parts cannot occur; statuses of the catalogue are fixed during a run.
- Sessions, cookies, password hashing, sign-in failures and lockout by account.
- The normalisation of user names (trimming and lower case) happens before the limiter's key is taken.
- Feedback attachments, rate limits, issue texts and labels; the tracker's search is exact and sees every issue made before.
- Row locks, deadlocks and isolation: every transaction is atomic.
- HTTP handlers, configuration, logging and commands.
