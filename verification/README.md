# Verified model of a multi-tenant school platform

The platform hosts many tenants in one database. Each tenant has a blog that is deployed as a
static site, exam registrations with phone verification and online payment, and logged-in users.
This project models the four cores of that platform in which state changes by transactions, or in
which a recursive transformation must not lose anything, and proves what they promise over every
run and every input.

Each core has a specification as a state machine over values (one function per operation, a `Step`
over events and a `Run` over any sequence of events), theorems about it, and a class or methods that
carry the operations out in place as the services do, each proved to compute its specification.
The `Outcomes` modules say of every operation when it answers what, told by what can be looked up
before it, and which rows it writes; the `Safety`, `Runs` and `Termination` modules say what all of
them together keep over whole runs.
An operation either commits whole or leaves the state as it was, so a step is one transaction.
Every interleaving of transactions is a run. Time is an argument of each operation, and nothing is
assumed about the order of clock readings. Settings are constants of unknown value within the range
the configuration admits. Rows are identified by their index in their table.

| files | what they hold |
|---|---|
| `SiteBuilds`, `SiteBuildSafety`, `SiteBuildRuns`, `SiteBuildReports`, `SiteBuildTermination`, `SiteBuildOutcomes` | the build protocol of one tenant: content revisions, coalesced requests, leases, retries, callbacks |
| `TenantSites`, `TenantIsolation` | the build services in place; many tenants over shared tables under row-level security |
| `RichText` | the document grammar and the fail-fast validator with its shared counters |
| `Html`, `Rendering`, `Outlines` | an independent reader of HTML (tags, nesting, attributes, character references) and the renderer it checks |
| `Cms`, `CmsSafety`, `CmsOutcomes`, `BlogServices`, `DeletedPost` | posts, media and revisions; the snapshot; the blog service in place |
| `Registrations`, `PaymentSafety`, `SeatSafety`, `CodeSafety`, `RegistrationOutcomes`, `DoubleCharge`, `RegistrationDesks` | registrations, one-time codes and payments as one machine; the services in place |
| `Sessions`, `SessionSafety`, `SessionOutcomes`, `AuthenticationServices` | failed-login windows and refresh-token families |
| `Counting`, `Common` | counting rows, sliding windows, small helpers |

## Where the code falls short of its documentation

The model follows the code. Each of these is a theorem about exactly when the promise holds, with
a run from the empty state that breaks it.

- `docs/static-site-builds.md:16-27` has every content change built in the end. A failure callback
  for a request whose lease has expired, and which is therefore PENDING again, finds that very row
  as the newer request and supersedes it by itself. `NothingLostExactly` and `CoveredExactly` say
  which runs lose nothing, `LostRevisionRun` is one that does.
- `docs/static-site-builds.md:26-27` caps attempts. The worker looks at the cap only when a trigger
  fails, so a request whose leases keep expiring is claimed without bound: `AttemptsUnbounded`.
  `AttemptsAreClaims` gives the true bound and `StepMeasure` the one step that keeps retries alive.
- `docs/blog.md:17` says that the generic content endpoints reject blog posts. The generic DELETE
  archives a published blog post without a new revision, and the deployed site is not rebuilt:
  `StepIdentifies`, `DeletedUnnoticed`.
- `docs/payment-flow.md:26-28` has completion happen once. An accepted one-time code sets
  PHONE_VERIFIED whatever the status, also on a paid registration, which may then be paid again:
  `CompletionLastsExactly`, `NoDoubleCharge`, `SecondCharge`, `ChargedTwice`. `ChargedOnceExactly`
  names the callback that makes the second charge.
- `docs/registration-flow.md:22-24` has the exam lock guard the capacity. An administrator's
  restore, and a callback for a registration that has lost its seat, take a seat without looking:
  `OverbookedExactly`, `CapacityHolds`.
- An ordered list with an explicit null `attrs` passes the validator and makes the renderer fail:
  `NodeReads`, `DocumentReads`.

## Model

| member | source | states |
|---|---|---|
| `SiteBuilds.OldestDue` | app/site_builds/worker.py:73-82 | the claimed row is a due PENDING one and none due was requested earlier |
| `SiteBuildSafety.InvStep` | app/site_builds/models.py:64-75 | the code's own checks keep at most one PENDING and one RUNNING row, targets within the content revision, a PENDING target at least the RUNNING one, a lease on every RUNNING row and the deployed revision the maximum of the recorded ones; and each row evolves lawfully: target frozen outside PENDING, recorded revision written once, one attempt per start |
| `SiteBuildSafety.StepLosesNothing` | app/site_builds/worker.py:56-72 | a step other than a failure report for a PENDING row keeps the content deployed or awaited, and every superseded target covered by a request that is not superseded |
| `SiteBuildSafety.StepStateRow` | app/site_builds/service.py:30-50 | only a content change moves the content revision, by one, and no step lowers the deployed revision |
| `SiteBuildRuns.RunKeepsInv` | app/site_builds/service.py:82-109 | the table's invariant over every run |
| `SiteBuildRuns.NoRevisionIsLost` | app/site_builds/service.py:70-109 | over every run without a failure report for a PENDING row: the content revision is 0, deployed, or the target of a PENDING, RUNNING or FAILED request, and superseded targets are covered |
| `SiteBuildRuns.LossExactly` | app/site_builds/result_service.py:76-81 | a step loses the current revision if and only if it reports the failure of the PENDING row that alone stands for it |
| `SiteBuildRuns.NothingLostExactly` | app/site_builds/result_service.py:76-81 | over every run from an empty site: no revision is lost at any moment if and only if no event of the run is such a report |
| `SiteBuildRuns.CoverLossExactly` | app/site_builds/result_service.py:76-81 | a step leaves a superseded target uncovered if and only if it reports the failure of a PENDING row whose target is above that of every other row not superseded |
| `SiteBuildRuns.CoveredExactly` | app/site_builds/worker.py:56-72 | over every run: superseded targets are covered at every moment if and only if no event is such a report |
| `SiteBuildRuns.LostRevisionRun` | app/site_builds/result_service.py:76-81 | four events from an empty site after which revision 1 is neither deployed nor awaited by any request |
| `SiteBuildRuns.DeployedNeverFalls` | app/site_builds/result_service.py:62-65 | the deployed revision never decreases over a run |
| `SiteBuildRuns.RowDescends` | app/site_builds/result_service.py:40-61 | over a run SUCCESSFUL and FAILED rows do not change at all, a recorded revision is final, SUPERSEDED stays so and targets never fall |
| `SiteBuildRuns.RepeatedSuccessIsNoOp` | app/site_builds/result_service.py:40-55 | an accepted success report delivered again after any further run is accepted and changes nothing |
| `SiteBuildReports.Delivered` | app/site_builds/result_service.py:33-73 | what any list of success reports for different requests makes of a site, told without their order: each row is what its own report makes of it, the deployed revision is the greatest, the last build is the last one recorded |
| `SiteBuildReports.SuccessesInAnyOrder` | app/site_builds/result_service.py:33-73 | any two orders of the same reports for different requests: each is answered as if it came first, and the sites are equal but for the time of the last build, which is that of the last report recorded |
| `SiteBuildRuns.AttemptsAreClaims` | app/site_builds/worker.py:83-93 | in every run a row's attempt count is the number of its claims and at most the cap plus its lease reverts |
| `SiteBuildRuns.BackoffBounds` | app/site_builds/worker.py:152-154 | the back-off never falls as attempts grow and lies between 30 and 3600 seconds |
| `SiteBuildRuns.NeverClaimedEarly` | app/site_builds/worker.py:73-82 | a PENDING row that is not coalesced into is not started by any claim before its next attempt time |
| `SiteBuildRuns.RetryWaits` | app/site_builds/result_service.py:82-86 | after a failed attempt the request stays unclaimed for its whole back-off, unless coalesced into |
| `SiteBuildRuns.ClaimActsExactly` | app/site_builds/worker.py:43-93 | a claim changes the state if and only if builds are enabled and the active request's time has come, and that time exists exactly while a request is active |
| `SiteBuildTermination.StepMeasure` | app/site_builds/worker.py:56-92 | without new content a step that changes the table lowers a measure over all rows, if and only if it is not a lease revert past the attempt cap |
| `SiteBuildTermination.RetriesTerminate` | app/site_builds/worker.py:146-157 | over a run without new content the changes are bounded by the initial measure and twice the late reverts |
| `SiteBuildTermination.AttemptsUnbounded` | app/site_builds/worker.py:56-72 | for every n a run with one content change in which the only request is claimed n + 1 times |
| `SiteBuildOutcomes.EnqueuesExactly` | app/site_builds/service.py:82-109 | the PENDING request, or a new one if there is none, stands for all content and is due at once; nothing else changes |
| `SiteBuildOutcomes.EnqueuedIsClaimable` | app/site_builds/service.py:91-93 | where nothing runs, what was just enqueued is claimed by any claim from then on, whatever back-off stood before |
| `SiteBuildOutcomes.IdleClaims` | app/site_builds/worker.py:73-93 | with nothing RUNNING a claim takes a due row if and only if there is one it is not locked out of: RUNNING, one more attempt, started now, leased from now |
| `SiteBuildOutcomes.ExpiredClaims` | app/site_builds/worker.py:56-93 | with the lease run out the RUNNING row gives way to the PENDING one, which is claimed if and only if it is due, or is put back, due at once, and claimed by nobody yet |
| `SiteBuildOutcomes.NoClaim` | app/site_builds/worker.py:46-58 | builds disabled, or a lease that holds: nothing is claimed and nothing changes |
| `SiteBuildOutcomes.TriggerFailsExactly` | app/site_builds/worker.py:132-157 | after a failed trigger a RUNNING row with nothing PENDING is FAILED if and only if its attempts have reached the cap, and otherwise PENDING, due after its delay, with lease and start cleared; with a PENDING row it gives way; any other row is left alone |
| `SiteBuildOutcomes.FailureReportsExactly` | app/site_builds/result_service.py:74-93 | the same for a failure report, which gives up also where it is not retryable, with its reply |
| `SiteBuildOutcomes.DelayDoubles` | app/site_builds/worker.py:152 | the delay is 30 seconds after the first attempt and doubles with each up to an hour |
| `SiteBuildOutcomes.FailedOnlyAfterAllAttempts` | app/site_builds/worker.py:146-151 | over every run whose failure reports are all retryable, a FAILED request has been claimed at least as often as the cap |
| `SiteBuildOutcomes.SuccessReportsExactly` | app/site_builds/result_service.py:27-73 | every reply to a success report told by the row it names, and what the first accepted one leaves in the row and in the deployed revision |
| `SiteBuildOutcomes.TurnIsRun` | app/site_builds/worker.py:30-34 | a turn of the worker is a claim, followed by its failure exactly where something was claimed and the trigger failed |
| `TenantSites.TenantSite.PublicContentChanged` | app/site_builds/service.py:30-50 | the specified new state; the returned request is PENDING and covers the raised revision |
| `TenantSites.TenantSite.ManualRebuild` | app/site_builds/service.py:52-68 | the specified new state; the returned request is PENDING and covers the unchanged revision |
| `TenantSites.TenantSite.EnqueueRequest` | app/site_builds/service.py:70-109 | coalescing into the PENDING row or inserting one, as specified |
| `TenantSites.TenantSite.MergeInto` | app/site_builds/worker.py:65 | the PENDING row takes over the other row's target, and nothing else changes |
| `TenantSites.TenantSite.ReleaseExpired` | app/site_builds/worker.py:59-72 | an expired row gives way to the PENDING one or is put back, as specified |
| `TenantSites.TenantSite.ClaimRequest` | app/site_builds/worker.py:43-93 | the claim computes the specified state and claimed row, selecting from the rows as they were before its own writes |
| `TenantSites.TenantSite.EndAttempt` | app/site_builds/result_service.py:76-90 | the shared three-way end of a failed attempt, as specified |
| `TenantSites.TenantSite.TriggerFailed` | app/site_builds/worker.py:126-157 | the specified new state |
| `TenantSites.TenantSite.Record` | app/site_builds/result_service.py:20-93 | the specified new state and reply for both kinds of result |
| `TenantSites.TenantSite.RecordDeployment` | app/site_builds/result_service.py:33-73 | the specified new state and reply of a success report |
| `TenantSites.GiveTurn` | app/site_builds/worker.py:30-34 | one tenant's claim and, where the trigger fails, the failed attempt |
| `TenantSites.RunOnce` | app/site_builds/worker.py:25-35 | a polling pass gives every tenant exactly its own turn and returns how many had work claimed |
| `TenantIsolation.ReadsOwnWrites` | app/core/database.py:55-63 | a tenant session that writes its visible rows back reads exactly those |
| `TenantIsolation.OthersUndisturbed` | app/core/database.py:55-63 | and every other tenant reads what it read before |
| `TenantIsolation.TransactIsLocal` | app/core/database.py:55-63 | a transaction over the shared tables is a single-tenant step for its tenant and nothing for the others |
| `TenantIsolation.TenantsCommute` | app/core/database.py:55-63 | transactions of different tenants commute for every observer |
| `TenantIsolation.RunProjects` | app/site_builds/worker.py:43-93 | a run of all tenants is, for each, the single-tenant run of its own events |
| `TenantIsolation.NoTenantLosesARevision` | app/site_builds/service.py:82-95 | no tenant's revision is lost, whatever the other tenants do |
| `RichText.CheckHref` | app/blog/rich_text.py:29-37 | a link target is accepted if and only if it is a safe reference |
| `RichText.CheckMarks` | app/blog/rich_text.py:87-105 | the loop with the growing set accepts exactly the lists of well-formed marks of distinct types |
| `RichText.CheckContainer` | app/blog/rich_text.py:141-160 | accepts exactly the frames the grammar admits, null attributes of an ordered list included |
| `RichText.CheckImage` | app/blog/rich_text.py:108-123 | accepts exactly the images of the grammar |
| `RichText.ValidateText` | app/blog/rich_text.py:78-106 | accepts exactly the text nodes that fit, and adds exactly their size to the shared counters |
| `RichText.ValidateNode` | app/blog/rich_text.py:67-167 | accepts if and only if the grammar holds and the tree's true node count, height and text length fit into what is left; the counters then grew by exactly these |
| `RichText.ValidateChildren` | app/blog/rich_text.py:161-166 | a loop over children accepts exactly the lists of allowed, well-formed nodes whose sizes fit together, and the counters grew by exactly their sum |
| `RichText.ValidateDocument` | app/blog/rich_text.py:40-64 | accepts if and only if the declarative grammar holds, the true sizes are within the three limits, and, where asked, a meaningful node exists |
| `Rendering.EscapeReads` | app/blog/rich_text.py:194 | a reader of escaped text gets back exactly the text, for every string and both quoting modes |
| `Rendering.MarksRead` | app/blog/rich_text.py:195-209 | wrapping in any accepted marks stays well nested, adds no text, and shows exactly the link targets of the marks, decoded |
| `Rendering.LinkShown` | app/blog/rich_text.py:205-208 | for every target, whatever characters it holds, a reader of the link tag finds exactly that target |
| `Rendering.ImageReads` | app/blog/rich_text.py:210-218 | a rendered image reads as its caption and shows its media id and, decoded, its alternative text |
| `Rendering.ContainerReads` | app/blog/rich_text.py:223-243 | every container is well nested around its children and adds no text |
| `Rendering.NodeReads` | app/blog/rich_text.py:191-244 | a node of the grammar fails to render if and only if it holds an ordered list with null attributes; otherwise its HTML is well nested over the fixed tags, removing tags and unescaping gives its texts and captions in order, and its tags show its pictures with their alternative texts and its links with their targets in order |
| `Rendering.DocumentReads` | app/blog/rich_text.py:184-188 | the same of whole documents, in document order |
| `Rendering.AllPicturesAreImages` | app/blog/rich_text.py:170-181 | the pictures that the HTML shows are the images of the document, in order |
| `Outlines.LinkPartsRead` | app/blog/rich_text.py:204-208 | a reader of a link tag finds the target, and `target` and `rel` on exactly the http and https links |
| `Outlines.MarksReadAs` | app/blog/rich_text.py:195-209 | each mark becomes its own element, the last outermost |
| `Outlines.FigureReadsAs` | app/blog/rich_text.py:210-218 | a picture becomes a figure with its image tag, decoded attributes, and a caption element exactly where it has a caption |
| `Outlines.ContainerReadsAs` | app/blog/rich_text.py:227-243 | each container becomes its own element: heading level, list kind and start number, quote, item, paragraph |
| `Outlines.DecimalSays` | app/blog/rich_text.py:230-240 | the digits written for a number say that number |
| `Outlines.NodeReadsAs` | app/blog/rich_text.py:191-244 | whatever renders reads back, tag by tag and character by character, as exactly its outline defined over the grammar |
| `Outlines.DocumentReadsAs` | app/blog/rich_text.py:184-188 | the same of whole documents |
| `Rendering.RenderTextNode` | app/blog/rich_text.py:193-209 | the loop over the marks computes the rendered text node |
| `Rendering.ReferencedMediaIds` | app/blog/rich_text.py:170-181 | the recursive visitor returns exactly the ids of the images that rendering emits |
| `CmsSafety.InvStep` | app/blog/service.py:115-157 | each operation keeps HTML and references derived from the document, and published posts with content and only READY, PUBLIC media |
| `CmsSafety.DerivedDataAgree` | app/blog/service.py:222-232 | that invariant in every reachable state |
| `CmsSafety.StoredHtmlReads` | app/blog/service.py:98-101 | in every reachable state a reader of the stored HTML finds the post's text, and the reference rows are the images it shows |
| `CmsSafety.StepIdentifies` | app/blog/service.py:102-110 | a step raises the revision or leaves the published posts alone if and only if it is not a DELETE of a published post |
| `CmsSafety.DeleteHides` | app/content/admin_service.py:142-152 | the generic DELETE of a published post changes the published set and nothing of the site state |
| `DeletedPost.DeletedUnnoticed` | app/content/admin_router.py:774-805 | a concrete run (create, publish, delete) after which equal revisions show different posts |
| `CmsSafety.RevisionIdentifiesSite` | app/blog/service.py:167-184 | over every run without such a DELETE, moments of equal revision have the same published posts |
| `CmsSafety.PassIsFaithful` | app/blog/public_router.py:104-122 | a pass whose two revision reads agree holds the published set of exactly that revision, whatever commits between its reads |
| `CmsSafety.BuiltIsFaithful` | app/blog/public_router.py:104-122 | the pass behind a reported success holds the published set of exactly the reported revision, at every moment of that revision |
| `CmsSafety.TakeSnapshot` | app/blog/public_router.py:99-127 | the three-pass loop returns only faithful snapshots, and gives up exactly when the revision moved in every pass |
| `CmsSafety.DeployedShowsCurrent` | app/site_builds/result_service.py:62-68 | when every reported success comes from a build of a snapshot pass, the deployed revision was reported, never overtakes the content, and, when it is the current one, every build that reported it was made from exactly the posts published now |
| `CmsOutcomes.StoredHtmlReadsAs` | app/blog/service.py:98 | in every reachable state a post's stored HTML reads as exactly the outline of its document |
| `CmsOutcomes.ChecksExactly` | app/blog/service.py:83-98 | a save is let through if and only if document, media and rendering are fine, and a refusal names what is wrong |
| `CmsOutcomes.CreatesExactly` | app/blog/service.py:34-60 | a draft is created if and only if it may be saved: one new row with what is derived from it, which the public does not see |
| `CmsOutcomes.UpdateAccepts` | app/blog/service.py:62-82 | an update is done if and only if it is no change or a change that may be saved; otherwise nothing changes |
| `CmsOutcomes.UpdateSaves` | app/blog/service.py:76-113 | a saved change writes that row alone, with the updated fields and what follows from them, and is a content change if and only if the post is published |
| `CmsOutcomes.UpdateShows` | app/blog/service.py:102-110 | the public sees the update of a published post at that post alone, and none of any other |
| `CmsOutcomes.PublishesExactly` | app/blog/service.py:115-157 | a post is published if and only if it may be: that row alone, as of now, with one content change |
| `CmsOutcomes.PublicationShows` | app/blog/public_router.py:91-96 | the public gains exactly that post with the fields it had |
| `CmsOutcomes.ArchivesExactly` | app/blog/service.py:159-184 | the row is archived and otherwise unchanged, with one content change if and only if it was published |
| `CmsOutcomes.ArchivingHides` | app/blog/service.py:169-182 | the public loses exactly that post, by archiving and by the generic DELETE alike |
| `CmsOutcomes.DeletesExactly` | app/content/admin_service.py:151-152 | the generic DELETE archives that row and leaves the site alone |
| `CmsOutcomes.UploadsExactly` | app/media/router.py:62-125 | an upload starts unready, and completing it makes that one ready and changes nothing else |
| `BlogServices.BlogService.ValidateMedia` | app/blog/service.py:195-220 | the loop accepts exactly the sets whose media exist and, for publication, are ready and public |
| `BlogServices.BlogService.Check` | app/blog/service.py:83-98 | validation, media checks and rendering give the specified answer, in the code's order |
| `BlogServices.BlogService.Save` | app/blog/service.py:222-232 | the written row is the specified one, references synchronised with the document |
| `BlogServices.BlogService.Create` | app/blog/service.py:34-60 | the specified new state and reply |
| `BlogServices.BlogService.SetFields` | app/blog/service.py:76-82 | the field loop sets exactly the updates and notes a change if and only if one differed |
| `BlogServices.BlogService.Update` | app/blog/service.py:62-113 | the specified new state and reply, with a content change only for published posts |
| `BlogServices.BlogService.Publish` | app/blog/service.py:115-157 | the specified new state and reply |
| `BlogServices.BlogService.Archive` | app/blog/service.py:159-184 | the specified new state and reply |
| `PaymentSafety.StepKeepsSound` | app/payments/service.py:37-113 | every step keeps: each amount is the registration's creation-time price, consumed if and only if over, distinct keys, at most one open transaction, PAYMENT_PENDING with exactly one, COMPLETED with none open and a successful one |
| `PaymentSafety.RunKeepsSound` | app/payments/service.py:152-190 | the same over every run |
| `PaymentSafety.TermsAreFixed` | app/registrations/service.py:84-98 | no step changes a registration's price, currency or exam |
| `PaymentSafety.StepChargesOnce` | app/payments/service.py:152-190 | a step gives a registration a second successful transaction if and only if it genuinely and freshly confirms an open transaction of one that has a successful transaction already |
| `PaymentSafety.ChargedOnceExactly` | app/payments/service.py:152-190 | over every run: no registration ever has two successful transactions if and only if no event is a genuine, fresh confirmation of an open transaction of a registration that has a successful one already |
| `PaymentSafety.NoDoubleCharge` | app/otp/service.py:188-190 | over every run in which no code reopens a completed registration, none has two successful transactions |
| `PaymentSafety.StepSettlesOnce` | app/otp/service.py:188-190 | a step keeps "charged once, none open beside it, and then COMPLETED" if and only if it is not a fitting code for a COMPLETED registration |
| `PaymentSafety.SettledOnceExactly` | app/otp/service.py:188-190 | the same over every run; a reopening breaks it at once, whether or not a second charge follows |
| `PaymentSafety.CompletionIsPermanent` | app/registrations/admin_service.py:88-100 | in every reachable state a COMPLETED registration leaves that status in a step if and only if the step is a fitting code for it |
| `PaymentSafety.CompletionLastsExactly` | app/payments/service.py:177-182 | over every run a COMPLETED registration stays so throughout if and only if no event is a fitting code for it |
| `PaymentSafety.CompletesExactly` | app/payments/service.py:177-182 | a registration becomes COMPLETED if and only if the gateway confirms its open transaction and the provider id, if it carries one, is new |
| `PaymentSafety.KeyNamesOneTransaction` | app/payments/service.py:42-58 | an accepted idempotency key names the same transaction at the same price after any further run, without effect; for another registration it is refused |
| `PaymentSafety.SecondCharge` | app/otp/service.py:188-190 | wherever a completed registration is reopened, the ordinary path of an applicant ends in one more successful charge for it, two or more in all |
| `DoubleCharge.ChargedTwice` | app/otp/service.py:188-190 | a concrete run from an empty desk with two successful charges of one registration |
| `SeatSafety.StepSeats` | app/registrations/service.py:302-319 | every step's exact effect on an exam's seats, each way of taking or leaving one told by what can be checked before the step; only an accepted submission looks at the capacity |
| `SeatSafety.SeatLedger` | app/registrations/service.py:302-319 | over every run seats held plus seats left equal seats granted plus seats given by an override |
| `SeatSafety.OverbookedExactly` | app/registrations/admin_service.py:88-100 | an exam within its capacity is taken beyond it if and only if it is full and the step is a restore or a callback that re-seats |
| `SeatSafety.CapacityHolds` | app/payments/service.py:177-188 | over every run seats are at most the capacity plus the number of such overrides |
| `Registrations.Newest` | app/otp/service.py:84-93 | the selected challenge satisfies the query and none that does is newer; none is selected only when none does |
| `CodeSafety.StepWeakens` | app/otp/service.py:119-150 | a step adds what it sends and otherwise only weakens challenges: stamps fixed, none revived, consumed ones final |
| `CodeSafety.ConsumedIsFinal` | app/otp/service.py:163-191 | a consumed challenge is never touched again over any run, so no code is used twice |
| `CodeSafety.CodesWithinLimits` | app/otp/service.py:55-88 | in every run, whatever its clock readings, no hour holds more codes per phone or per address, and no minute more per tenant, than the limits |
| `CodeSafety.StepSpaced` | app/otp/service.py:84-112 | two challenges of one registration are at least the cooldown apart |
| `CodeSafety.StepOneLive` | app/otp/service.py:128-136 | a registration has at most one live challenge |
| `CodeSafety.StepVouches` | app/otp/service.py:186-191 | a phone is verified only by a challenge sent to it, consumed at that time |
| `CodeSafety.RunKeepsCodesSound` | app/registrations/service.py:163-177 | over every run: one live challenge, with attempts left, for the current phone; every verified phone vouched for by a consumed challenge; cooldown kept |
| `CodeSafety.VerifiesExactly` | app/otp/service.py:163-191 | a code is accepted if and only if the newest live challenge for the current phone is in time, has attempts left and carries it; then, and only then, the registration is PHONE_VERIFIED, whatever it was |
| `CodeSafety.VerifyNeverMeetsTheLimit` | app/otp/service.py:179-181 | the attempt-limit guard never fires |
| `CodeSafety.TooManyActiveExactly` | app/otp/service.py:113-127 | the active-challenge guard fires if and only if its limit is one and a challenge is active |
| `RegistrationOutcomes.DraftsExactly` | app/registrations/service.py:50-99 | a draft is admitted if and only if its exam is open now and its plan, if any, on offer; it costs what the plan says, or nothing |
| `RegistrationOutcomes.PatchesExactly` | app/registrations/service.py:127-182 | a patch sets exactly what it names; a new phone, and only that, has to be verified again and invalidates exactly the live challenges |
| `RegistrationOutcomes.ContactsExactly` | app/registrations/service.py:192-217 | contacts are replaced as a whole or not at all |
| `RegistrationOutcomes.CompleteExactly` | app/registrations/service.py:243-255 | a registration is complete if and only if the eleven answers are given |
| `RegistrationOutcomes.SubmitsExactly` | app/registrations/service.py:232-319 | a submission takes a seat if and only if all it asks for is there; repeated it does nothing; a refusal names something missing |
| `RegistrationOutcomes.AdministersExactly` | app/registrations/admin_service.py:87-102 | status and notes are set together, if and only if the transition asked for is one of the two |
| `RegistrationOutcomes.SendsExactly` | app/otp/service.py:53-154 | every reply to a request for a code told by the three windows, this registration's own cooldown and delivery, and what is sent and invalidated |
| `RegistrationOutcomes.ComparesExactly` | app/otp/service.py:182-191 | a comparison changes that challenge alone: one more attempt, consumed by the right code, invalidated by the wrong one that uses up the attempts |
| `RegistrationOutcomes.ExpiredOtherwise` | app/otp/service.py:163-178 | a code that meets no live challenge in time is refused as expired and changes nothing |
| `RegistrationOutcomes.AttemptsAreComparisons` | app/otp/service.py:182-187 | over every run a challenge's attempts are the codes compared with it, all wrong but the one that consumed it |
| `RegistrationOutcomes.ExhaustedIsFinal` | app/otp/service.py:184-187 | after as many wrong codes as there are attempts no code is accepted for the challenge in any continuation |
| `RegistrationOutcomes.StartsExactly` | app/payments/service.py:37-113 | a payment is started if and only if the key is new and the registration payable, at its price; every refusal names its reason |
| `RegistrationOutcomes.EndsExactly` | app/payments/service.py:157-189 | transaction and registration follow the gateway's word together, and nothing else changes |
| `RegistrationOutcomes.IgnoredOtherwise` | app/payments/service.py:141-156 | any other callback changes nothing, each told by its reply |
| `RegistrationDesks.SetAnswers` | app/registrations/service.py:161-162 | the loop over the changed fields sets exactly those |
| `RegistrationDesks.RegistrationDesk.Handle` | app/registrations/router.py:259-349 | any request, carried out in place by its service, is one step of the machine and keeps what payments and codes promise |
| `RegistrationDesks.RegistrationDesk.CreateDraft` | app/registrations/service.py:39-101 | the specified new state and reply, each refusal included |
| `RegistrationDesks.RegistrationDesk.Patch` | app/registrations/service.py:127-182 | the specified new state and reply; a changed phone loses its verification and its live challenges |
| `RegistrationDesks.RegistrationDesk.ReplaceContacts` | app/registrations/service.py:192-217 | the specified new state and reply |
| `RegistrationDesks.RegistrationDesk.Submit` | app/registrations/service.py:232-319 | the specified new state and reply, in the code's order of checks |
| `RegistrationDesks.RegistrationDesk.AdminUpdate` | app/registrations/admin_service.py:79-115 | the specified new state and reply, status and internal notes together or neither |
| `RegistrationDesks.RegistrationDesk.Send` | app/otp/service.py:34-154 | the specified new state and reply; nothing is kept when delivery fails |
| `RegistrationDesks.RegistrationDesk.Verify` | app/otp/service.py:156-191 | the specified new state and reply; a refused code still counts its attempt |
| `RegistrationDesks.RegistrationDesk.Initiate` | app/payments/service.py:26-120 | the specified new state, reply and named transaction |
| `RegistrationDesks.RegistrationDesk.VerifyCallback` | app/payments/service.py:131-190 | the specified new state and reply, a wrong provider and a wrong nonce told apart |
| `Counting.AdmittedKeepsLimit` | app/auth/service.py:34-44 | a row admitted after a count with no upper time bound keeps every interval of the width within the limit, also when the clock reading is older than rows already there |
| `SessionSafety.FailedLoginsLimited` | app/auth/service.py:28-77 | over every run, whatever its clock readings, no interval of the window's length less the largest skew between a login's two readings holds more failed logins of a scope than the limit |
| `SessionSafety.SkewBreaksLimit` | app/auth/service.py:70-76 | a run in which one login's second clock reading lies behind its first and the window exceeds the limit, so the skew has to be taken off |
| `SessionSafety.RefusedExactly` | app/auth/service.py:28-50 | a login is refused if and only if one more failure now would exceed the limit in some window, provided none of its scope is stamped later |
| `SessionSafety.RunKeepsChains` | app/auth/service.py:94-169 | over every run each token is replaced by the next of its family and revoked when it is, and a family has one user and tenant |
| `SessionSafety.FamilyIsOneChain` | app/auth/service.py:161-168 | from any token of a family every later one is reached by following replacements |
| `SessionSafety.OneLiveToken` | app/auth/service.py:147-168 | a live token is the last of its family, so there is at most one |
| `SessionSafety.RotatedAtMostOnce` | app/auth/service.py:161-168 | over a whole run a token is rotated once if it has been replaced, and otherwise never |
| `SessionSafety.NothingAfterReuse` | app/auth/service.py:147-155 | once reuse is detected no token of the family is rotated in any continuation |
| `SessionOutcomes.LoginExactly` | app/auth/service.py:34-77 | below the limit, and only there, a login is recorded with its outcome and time |
| `SessionOutcomes.LoginCounts` | app/auth/service.py:70-76 | a login adds to the failures of its own scope if and only if it is let through and fails |
| `SessionOutcomes.IssuesExactly` | app/auth/service.py:94-120 | a pair is issued if and only if its digest is new: one live token with its user, tenant, lifetime, and family given or its own |
| `SessionOutcomes.RotatesExactly` | app/auth/service.py:139-169 | of a token presented in time by its own tenant: reuse is reported and the whole family revoked if and only if it is revoked; it is rotated if and only if it is not, its user is active and the successor's digest new, with everything the successor carries |
| `SessionOutcomes.RefusedOtherwise` | app/auth/service.py:135-146 | any other digest is refused and leaves everything alone |
| `SessionOutcomes.RunGrows` | app/auth/service.py:147-168 | over every run digests stay unique and a token is at most revoked and replaced, once |
| `SessionOutcomes.ReuseIsNoticed` | app/auth/service.py:147-155 | once a live token has been rotated, presenting it again in time and by its tenant, at any later moment, leaves no live token in its family |
| `AuthenticationServices.AuthenticationService.AuthenticateUser` | app/auth/service.py:52-77 | the specified new state and reply |
| `AuthenticationServices.AuthenticationService.IssuePair` | app/auth/service.py:94-125 | the specified new state and reply |
| `AuthenticationServices.AuthenticationService.RotateRefreshToken` | app/auth/service.py:127-169 | the specified new state and reply, with the order of expiry, tenant and revocation checks |

## Left out

- TenantSites.GiveTurn: as RunOnce, which repeats it.
- TenantSites.RunOnce: a turn's claim and its trigger failure follow each other directly; other transactions between the two are covered by the runs of the state machine.
- RichText.ValidateDocument: tells acceptance from rejection, not which message a rejection carries; its methods distinguish `RichTextError` from exceptions that escape.
- Rendering.DocumentReads: speaks of accepted documents only; what the renderer makes of others, by converting values to strings, is not modelled.
- BlogServices.BlogService.SetFields: compares values as the model does; that Python holds `1`, `1.0` and `True` equal inside a document is not modelled.
- BlogServices.BlogService.ValidateMedia: which of a missing and a non-public medium is reported first depends on the order of a set, so both are one reply.
- CmsSafety.TakeSnapshot: leaves out the media map and the ordering of posts in the response.
- RegistrationDesks.RegistrationDesk.VerifyCallback: the transaction has its provider reference from the start, as initiation always stores one.
- RegistrationDesks.RegistrationDesk.Submit: whether the profile image is ready and the extra answers fit the form's JSON Schema is told by the environment, each with its own refusal.
- RegistrationDesks.RegistrationDesk.Patch: whether school and image exist, and whether the national code is unique, is told by the environment; which of school and image is missing is not.
- RegistrationDesks.RegistrationDesk.CreateDraft: leaves out the draft token and the form definition that is captured.
- SeatSafety.CapacityHolds: exams, and so capacities, stay fixed during a run.
- HTTP routing, dependencies, error texts, audit events, logging, and columns that only describe a row (reasons, error messages, creators, update times).
- Cryptography and random values: digests, signatures, nonces, codes and identifiers are fresh or arbitrary numbers; draft-token authorization is not modelled.
- The webhook executor, object storage, code provider and payment gateway: their outcomes are arguments of the events.
- `urlsplit`, UUID parsing and the characters that `strip` removes: parameters of the validator and renderer.
- PostgreSQL's locks, flush order and index checks within a transaction; the identity map between retries of the snapshot.
- Concurrent transactions on the same tenant row, which the row locks serialise, appear in some order of a run.
- The display values of the build status endpoint, generic content CRUD, pagination, exports, migrations and deployment: each is read off one branch.
