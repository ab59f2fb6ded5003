# Nova: a verified model

Nova is a multi-tenant prospecting service. Tenants collect prospects, have their websites analysed,
generate proposals, review and mail them, honour opt-outs, and hand prospects to a CRM. A separate set
of scripts (Gate C) copies its six tables out of a legacy database. This project models both in Dafny
and proves what they guarantee over whole runs. `dafny verify dfyconfig.toml` checks everything.

## How the model is put together

- **The store** (`Store`, `Requests`, `Plans`). A database is six tables plus a log of what happened
  that the service never reads. A request reads the tables and decides on an answer and a list of row
  writes; the writes commit together or not at all, and the unique constraints can refuse them. Ids,
  clock readings, audit results and mail outcomes are part of the request, so "for every request" also
  means for every choice of these. A mail outcome says separately what the provider reported and
  whether a mail left. Time is in microseconds.
- **The service** (`Service`, `Listing`, `Api`). A class with the tables as fields. Each operation
  updates them step by step and is proved to do, error for error and row for row, what the plan says.
  `Api.Handle` sends any command to its operation, and so connects the class to the theorems below.
- **Each request by itself** (`DeliveryRules`, `ProposalRules`, `ProspectRules`, `BatchRules`, with
  `Addresses`). When it is accepted, with which error it is refused otherwise, and every field it
  stores, stated on the tables before and after, without the functions the plans are made of.
- **Theorems over schedules** (`Invariants`, `Safety`, `Concurrency`, `Versioning`, `Guarantees`,
  `Deliveries`, `Remailing`, `OptOutLinks`, `Suppressions`, `Isolation`, `Tenants`, `Intake`). They start
  from the empty database and quantify over every schedule of every tenant's requests. Creating a
  prospect, generating a proposal and delivering one read in one step and commit in a later one, with
  anything in between.
  One condition is put on schedules: a delivery that commits would still be decided the same
  (`Concurrency.DeliveriesUndisturbed`). It holds whenever the proposal, its prospect, the limit and
  whether it is reached, and the recipient's suppression have not changed in between
  (`Concurrency.UndisturbedIfSame`). The service does nothing to bring this about, and
  `Deliveries.OverlappingDeliveriesBothSend` shows what happens without it.
- **Promotion** (`Retry`, `Crm`, `Handoff`). A retrying client, a network that loses requests and
  answers as it likes, and a CRM that honours the idempotency key.
- **Gate C** (`LegacyMapping`, `LegacyColumns`, `ExportImport`, `GateC`, `AfterImport`, `CanonicalJson`,
  `JsonText`, `Reconcile`, `Databases`). Fail-closed conversion, column by column, streaming in batches,
  one target transaction, manifests, what comparing them says about the two databases, and what can
  still fail after the commit.
- **Algorithms** (`RateLimit`, `Luhn`, `FactScan`, `Scoring`, `ScoringRules`, with `Order` and `Text` below them).

SHA-256 and HMAC are injective functions of the text they are applied to. In `Reconcile` SHA-256 is an
arbitrary function, and freedom from collisions is assumed only in the one direction that needs it.

## Where the code does less than its documentation says

Line 24 of the repository's README.md promises delivery "once per proposal, inside a per-tenant daily
limit".

- Once per proposal holds of accepted receipts (`Deliveries.AcceptedOnce`), not of mails. A mail can
  leave although the provider call ends in an error: the message is taken and the connection then
  breaks (outbound.py:149-162). The row then says that the delivery failed (service.py:1166-1172), and
  the next delivery mails again. `Deliveries.MailsAgainIff` gives the exact condition,
  `Remailing.MailedTwice` a schedule on which it happens.
- Two deliveries that both read before either commits are both accepted
  (`Deliveries.OverlappingDeliveriesBothSend`).
- The daily limit bounds accepted receipts (`Deliveries.AcceptedWithinDailyLimit`); mails are bounded by
  it plus the deliveries reported as failed (`Deliveries.MailsWithinLimitAndFailures`).
- A campaign's limit replaces the tenant's, also upwards. `Deliveries.CampaignLimitOverridesPolicy` says
  exactly when a mail goes out beyond the tenant's limit.
- An opt-out token is computed over tenant, prospect and address joined by colons. Tokens of different
  parts can be equal when a tenant's name and an address contain colons;
  `OptOutLinks.TokensAreEqualIff` says exactly when.
- A rejected caller is told to come back after a whole number of seconds, cut off rather than rounded
  up. `RateLimit.WaitingAsTold` says exactly when coming back then succeeds.
- The checksum loop doubles from the left. `Luhn.WhichLengthsFollowTheStandard` says exactly on which
  lengths this is the definition of Annex B of ISO/IEC 7812-1.
- A mapping file "may only contain" the three known sections, but others are refused only when all three
  are there (export_import.py:47-51), and ignored otherwise
  (`ExportImport.UnknownSectionsAreRefusedIff`).
- `reconcile` compares keys that are missing in both manifests as equal
  (`Reconcile.CountsAloneReconcile`); manifests made by the tools always have them.
- An import can fail after the copy is committed, also into a fresh target with a new output file.
  `AfterImport.CommittedRunSucceedsIff` says exactly when. One such case is a relative SQLite URL,
  the repository's own default: the file that is opened is not the one that is looked for
  afterwards (manifest.py:21-25, 40-42; `AfterImport.RelativeTargetFailsIff`,
  `AfterImport.FreshTargetCanFail`).
- The importer looks for leftover rows only in the audit table; reconciliation afterwards finds any
  others (`AfterImport.ImportReconciles`).

## Model

| member | source | states |
|---|---|---|
| `Tenants.TenantIsolation` | services/api/app/prospecting/service.py:256-1320 | on every schedule of all tenants' requests, reads that have not committed included, each tenant ends with the rows, the log and the pending transactions of a private database that saw only its own requests and the opt-out links |
| `Tenants.AnswersDependOnOwnRows` | services/api/app/prospecting/service.py:256-1320 | ... and gets exactly the answers that private database would have given |
| `Isolation.OtherTenantsUnchanged` | services/api/app/prospecting/service.py:256-1320 | a request leaves every row of every other tenant unchanged |
| `Isolation.OwnStepOnSlice` | services/api/app/prospecting/service.py:256-1320 | a request does to its tenant's rows, and answers, what it would on those rows alone |
| `Isolation.OptOutStepOnSlice` | services/api/app/prospecting/service.py:1233-1241 | an opt-out link, though not tenant-scoped, touches only the tenant of its prospect |
| `Safety.StepKeepsInv` | services/api/app/prospecting/service.py:256-1320 | every request, accepted or refused, keeps the store-wide invariant: children owned by their parent's tenant, unique domains, gapless versions, reviewed approvals, rows and log in agreement, budget, suppression |
| `Safety.RunKeepsInv` | services/api/app/prospecting/service.py:256-1320 | so does every run of whole requests |
| `Concurrency.ScheduleKeepsInv` | services/api/app/prospecting/service.py:906-971 | so does every schedule in which transactions read early and commit late, if its deliveries are undisturbed |
| `Concurrency.UndisturbedIfSame` | services/api/app/prospecting/service.py:1102-1154 | a delivery is undisturbed as soon as its proposal, its prospect and the limit are as it read them, and neither the recipient's suppression nor the reaching of the limit has changed |
| `Concurrency.OthersNeverDisturb` | services/api/app/prospecting/service.py:1102-1154 | what other tenants do never disturbs a delivery |
| `Api.Handle` | services/api/app/prospecting/api/routes.py:139-458 | every command goes to its operation, which takes the step of the theorems over schedules and keeps the invariant of the tables |
| `Invariants.ApplyKeepsInv` | services/api/app/prospecting/models.py:63-160 | each kind of row write keeps the invariant under the condition the guards establish |
| `Invariants.EmptyStoreIsValid` | services/api/app/prospecting/models.py:63-160 | the empty database satisfies the invariant |
| `Guarantees.SentIsWhatWasApproved` | services/api/app/prospecting/service.py:1156-1165 | every mail handed to a provider follows an approval of the same tenant and proposal, and its subject and body are those of every earlier approval, the first included, each with four true checks |
| `Guarantees.ApprovedContentIsFrozen` | services/api/app/prospecting/service.py:986-992 | an approved proposal stays approved with the same content on every schedule |
| `Guarantees.ApprovedIsReviewed` | services/api/app/prospecting/service.py:1009-1022 | every approved proposal names whoever made its four true checks as approver and rests on a complete analysis with evidence, of the same tenant and prospect |
| `Guarantees.ApproverIsLastLogged` | services/api/app/prospecting/service.py:1020-1022 | on every schedule the approver, the time and the review in an approved row are those of the last approval of it |
| `Deliveries.ProcessedIsAbsorbing` | services/api/app/prospecting/service.py:1119-1120 | a processed proposal stays processed, with its instant, on every schedule |
| `Deliveries.AcceptedOnce` | services/api/app/prospecting/service.py:1119-1120 | once the provider has accepted a delivery of a proposal, no other attempt at it is made, on every schedule with undisturbed deliveries |
| `Deliveries.SecondMailFollowsFailure` | services/api/app/prospecting/service.py:1119-1172 | when two mails leave for one proposal the provider reported the first one as failed |
| `Deliveries.MailsAgainIff` | services/api/app/prospecting/service.py:1108-1172 | after a mail for a proposal has left, a delivery that meets every other check mails again if and only if the row says that its delivery failed, and is refused without a trace otherwise |
| `Deliveries.FailedMeansAttempted` | services/api/app/prospecting/service.py:1166-1172 | a row says failed exactly when attempts were made and every one was reported as failed |
| `Remailing.MailedTwice` | services/api/app/prospecting/outbound.py:146-162 | a schedule from the empty database, without overlap, on which two mails leave for one proposal |
| `Deliveries.PendingDeliveryIsNotRechecked` | services/api/app/prospecting/service.py:1108-1190 | a delivery that has read stores its outcome whatever was committed since |
| `Deliveries.SuccessiveDeliveriesSendOnce` | services/api/app/prospecting/service.py:1119-1120 | a delivery that reads after an accepted one has committed is refused as processed |
| `Deliveries.OverlappingDeliveriesBothSend` | services/api/app/prospecting/service.py:1119-1190 | on a schedule where two deliveries of one proposal both read before either commits, both are accepted, so undisturbed deliveries are needed |
| `Deliveries.QueryCountsSends` | services/api/app/prospecting/service.py:1129-1138 | the daily query counts each accepted real send since the given instant once and nothing else |
| `Deliveries.OnlyRealDeliveriesCount` | services/api/app/prospecting/service.py:1127-1128 | edits, approvals, test sends and every other request leave every tenant's count alone |
| `Deliveries.BudgetHolds` | services/api/app/prospecting/service.py:1121-1140 | right after an accepted delivery, the accepted ones of its day are within the limit the call used, also when midnight fell between check and write |
| `Deliveries.AcceptedWithinDailyLimit` | services/api/app/prospecting/service.py:1121-1140 | no day of a tenant has more accepted deliveries than the largest limit in force for one of them; the clock is free between requests, and does not go back within one delivery |
| `Deliveries.MailsWithinLimitAndFailures` | services/api/app/prospecting/service.py:1121-1172 | no day of a tenant has more mails to prospects than that limit plus the deliveries reported as failed |
| `Deliveries.FailuresAreNotCounted` | services/api/app/prospecting/service.py:1126-1138 | a delivery reported as failed leaves every count alone, whether its mail left or not |
| `Deliveries.LoggedLimitIsInForce` | services/api/app/prospecting/service.py:1121-1125 | the limit in these statements is the campaign's, else the policy's, else 20 |
| `Deliveries.CampaignLimitOverridesPolicy` | services/api/app/prospecting/service.py:1121-1125 | once the tenant's own limit is reached a send goes through exactly when the prospect's campaign sets a higher one |
| `Guarantees.SuppressionIsPermanent` | services/api/app/prospecting/service.py:1108-1118 | after an operator, a do-not-contact mark or an opt-out suppresses an address, every later mail to it in that tenant is a test mail to the calling operator, whatever happens in between |
| `Guarantees.SuppressionIsLogged` | services/api/app/prospecting/service.py:1204-1213 | each of the three ways of suppressing takes effect |
| `Suppressions.NoSpellingIsMailed` | services/api/app/prospecting/service.py:1108-1118 | after an address was suppressed in one spelling, every later mail to any spelling of it in that tenant is a test mail to the calling operator |
| `Suppressions.NoSpellingIsDelivered` | services/api/app/prospecting/service.py:1108-1118 | so every later delivery to a prospect whose stored address is any spelling of it is refused and changes nothing |
| `Guarantees.OptOutLinkWorks` | services/api/app/prospecting/service.py:1233-1241 | an opt-out link made for a prospect and an address works exactly while that is the prospect's address, in any spelling, and otherwise changes nothing |
| `Guarantees.MailedLinkOptsOut` | services/api/app/prospecting/service.py:1141-1165 | the link in any mail handed to a provider, opened at any later time, opts the recipient out exactly when the prospect still has the address that mail went to, in any spelling |
| `OptOutLinks.TokensAreEqualIff` | services/api/app/prospecting/outbound.py:36-38 | two tokens are equal exactly when tenant, prospect and normalised address are, or one tenant's name runs on into the text of the other |
| `OptOutLinks.ColonFreeTokensDiffer` | services/api/app/prospecting/outbound.py:36-38 | so tokens of different parts differ if no tenant's name, or no address, contains a colon |
| `OptOutLinks.ColonsCanCollide` | services/api/app/prospecting/outbound.py:36-38 | two tenants and prospects that share a token |
| `Versioning.VersionsAreOneToN` | services/api/app/prospecting/models.py:148-150 | on every schedule the versions of a prospect's proposals are exactly 1..n |
| `Versioning.RaceOutcome` | services/api/app/prospecting/service.py:906-971 | a generating transaction loses exactly when another version was committed since it read, and then nothing changes, prospect status included; otherwise it gets the next version |
| `Versioning.TakenIffOvertaken` | services/api/app/prospecting/service.py:906-914 | the prepared version is taken exactly when the maximum has moved |
| `Versioning.DomainsAreUnique` | services/api/app/prospecting/models.py:66-68 | a tenant has at most one prospect per domain on every schedule |
| `Safety.NextVersion` | services/api/app/prospecting/service.py:906-938 | the version after the maximum is free and all smaller ones exist |
| `Safety.LaterCountsFewer` | services/api/app/prospecting/service.py:1126-1138 | counting from a later midnight counts no more |
| `Intake.BulkAddsWhatItReports` | services/api/app/prospecting/service.py:391-470 | a batch adds exactly the rows it reports as created, in order, and nothing else; created plus skipped is the row count |
| `Intake.EveryNewDomainIsCreated` | services/api/app/prospecting/service.py:411-432 | each valid row of a domain the tenant lacks has a created row of that domain, the first |
| `Intake.SkippedAreTheRest` | services/api/app/prospecting/service.py:399-432 | the skipped rows are the others, in file order, each with the first reason that applies |
| `Plans.CreatedRows` | services/api/app/prospecting/service.py:396-452 | the created rows are exactly, in order, the first valid rows of domains not stored |
| `Service.ProspectingService.CreateCampaign` | services/api/app/prospecting/service.py:256-277 | the new state and answer are those of the request |
| `Service.ProspectingService.CreateProspect` | services/api/app/prospecting/service.py:294-345 | new state and answer, guards in order, unique domain |
| `Service.ProspectingService.CreateFromCsv` | services/api/app/prospecting/service.py:353-470 | the loop with its set of seen domains creates and skips what the specification says, or rolls back as a whole |
| `Service.ProspectingService.FlushRows` | services/api/app/prospecting/service.py:396-452 | row-by-row flushing commits exactly the created rows, or fails leaving the table as it was |
| `Service.ReasonIsRight` | services/api/app/prospecting/service.py:396-432 | checking against the domains seen so far and the table as it grows gives the reason defined on the file and the original table |
| `Service.ProspectingService.PromoteProspect` | services/api/app/prospecting/service.py:608-682 | new state and answer, guards in order; nothing is stored unless the CRM answered |
| `Service.ProspectingService.UpdateProspect` | services/api/app/prospecting/service.py:685-706 | new state and answer, including nulls, the verification time and the suppression of a do-not-contact address |
| `Service.ProspectingService.RunAnalysis` | services/api/app/prospecting/service.py:808-889 | new state and answer for a refused address, a completed, a failed and a crashed analysis |
| `Service.ProspectingService.LatestComplete` | services/api/app/prospecting/service.py:594-605 | the scan finds the newest complete analysis of the tenant's prospect, if there is one |
| `Service.ProspectingService.Pick` | services/api/app/prospecting/service.py:892-899 | the named analysis if it is complete and of this tenant and prospect, else the newest |
| `Service.ProspectingService.GenerateProposal` | services/api/app/prospecting/service.py:902-973 | new state and answer; a taken version is a conflict that changes nothing |
| `Service.ProspectingService.UpdateProposal` | services/api/app/prospecting/service.py:983-997 | new state and answer; an approved proposal is refused |
| `Service.ProspectingService.ApproveProposal` | services/api/app/prospecting/service.py:1004-1029 | new state and answer, all guards in order |
| `Service.ProspectingService.CreateShare` | services/api/app/prospecting/service.py:1032-1048 | new state and answer; only approved proposals are shared |
| `Service.ProspectingService.CheckDelivery` | services/api/app/prospecting/service.py:1104-1150 | which guard holds a delivery back, and that nothing does when none is reported |
| `Service.ProspectingService.DeliverProposal` | services/api/app/prospecting/service.py:1102-1201 | new state and answer for real and test sends, accepted and refused |
| `Service.ProspectingService.UpsertSuppression` | services/api/app/prospecting/service.py:1204-1213 | one row per tenant and normalised address; an existing row keeps its prospect and creator |
| `Service.ProspectingService.AddSuppression` | services/api/app/prospecting/service.py:1216-1230 | new state and answer, with and without a prospect |
| `Service.ProspectingService.PublicOptOut` | services/api/app/prospecting/service.py:1233-1241 | new state and answer for a valid and an invalid token |
| `Service.ProspectingService.UpdatePolicy` | services/api/app/prospecting/service.py:1302-1320 | new state and answer |
| `DeliveryRules.AttemptedIff` | services/api/app/prospecting/service.py:1102-1150 | a delivery to a prospect is attempted if and only if the caller may write, proposal and prospect are the tenant's, the proposal is approved by someone and not processed, the contact has an address, is verified and not suppressed, the day's limit is not reached, and a given share token fits; otherwise nothing changes |
| `DeliveryRules.RefusedWithTheFirstError` | services/api/app/prospecting/service.py:1102-1150 | a refused delivery, real or test, gets the error of the first of these checks that fails |
| `DeliveryRules.NothingHindersIff` | services/api/app/prospecting/service.py:1102-1150 | a delivery, real or test, is attempted exactly when no check in that order fails |
| `DeliveryRules.AttemptStores` | services/api/app/prospecting/service.py:1141-1200 | what an attempted delivery stores, logs and answers for each provider and verdict, and that a test leaves the row alone |
| `ProposalRules.ApprovedIff` | services/api/app/prospecting/service.py:1004-1029 | an approval is accepted exactly when four checks are true, the contact is verified, reachable and not suppressed, and the analysis is complete with evidence; it records the caller, the time and the checks, moves the prospect on and changes nothing else |
| `ProposalRules.ApprovalRefusedFor` | services/api/app/prospecting/service.py:1004-1019 | a refused approval gets the error of the first check that fails |
| `ProposalRules.GeneratedIff` | services/api/app/prospecting/service.py:892-973 | a proposal is generated exactly when there is a usable analysis and the id is new, from the analysis named or else the newest complete one, as an unapproved draft by the caller of the next version |
| `ProposalRules.EditedIff` | services/api/app/prospecting/service.py:983-997 | a draft is edited field by field; an approved proposal or a null where text is required is refused |
| `ProposalRules.SharedIff` | services/api/app/prospecting/service.py:1032-1048 | sharing stores the token's digest and the expiry in an approved proposal and answers the token |
| `ProspectRules.CampaignIsStored` | services/api/app/prospecting/service.py:256-277 | the campaign is stored under its stripped name |
| `ProspectRules.CreatedIff` | services/api/app/prospecting/service.py:294-345 | when a prospect is created, with which error it is refused, and every field it starts with |
| `ProspectRules.EditStores` | services/api/app/prospecting/service.py:685-706 | an edit sets exactly the named fields, the verification time with the verification, the address in its normal form, and suppresses a contact marked as not to be contacted |
| `ProspectRules.AnalysisStores` | services/api/app/prospecting/service.py:808-889 | a completed audit raises the qualification to the score if that is more; a failed one is stored and leaves the prospect alone |
| `ProspectRules.PromotionAnswers` | services/api/app/prospecting/service.py:608-682 | errors of a promotion in order, the newest complete analysis as evidence, and the address only of a verified contact |
| `ProspectRules.SuppressionStores` | services/api/app/prospecting/service.py:1204-1230 | the listed row, with prospect and creator of the first time, and the mark on a named prospect |
| `ProspectRules.OptOutStores` | services/api/app/prospecting/service.py:1233-1241 | when an opt-out is accepted, and the listed row and the mark it stores |
| `ProspectRules.PolicyIsStored` | services/api/app/prospecting/service.py:1302-1320 | the policy is replaced and signed by the caller |
| `BatchRules.BatchStores` | services/api/app/prospecting/service.py:393-470 | a batch creates exactly the rows that are valid and whose domain is new to the tenant and the file, each with the stated fields, and skips every other row with its reason |
| `BatchRules.BatchRefusedFor` | services/api/app/prospecting/service.py:363-391 | a batch that is refused as a whole gets the first error that applies |
| `Listing.LatestMaps` | services/api/app/prospecting/service.py:473-494 | each prospect is listed with its newest analysis and its proposal of greatest version, of this tenant only |
| `Text.NormIdempotent` | services/api/app/prospecting/service.py:1204-1206 | a stored normalised address is found again by its own normal form |
| `Addresses.NormDecides` | services/api/app/prospecting/service.py:1000-1001 | two spellings have one normal form exactly when, without outer blanks, they have the same length and agree letter by letter up to ASCII case |
| `Addresses.NormIsSpelling` | services/api/app/prospecting/service.py:1204-1205 | the normal form is the only spelling of an address without capitals and outer blanks |
| `Crm.Server.RequestJson` | services/api/app/integrations/http.py:83-119 | the loop sends until a reply is not retryable or the attempts are used up, and sleeps the scheduled delays in between |
| `Crm.EndsOnce` | services/api/app/integrations/http.py:84-118 | where the loop stops is determined by the replies |
| `Crm.ClassifiedBy` | services/api/app/crm/client.py:60-75 | which replies mean promoted, rejected, unavailable, or a crash |
| `Retry.RetriedIff` | services/api/app/integrations/http.py:100-117 | exactly a failed connection and seven statuses are retried |
| `Crm.ExchangeIsBounded` | services/api/app/integrations/http.py:84-118 | at most max(1, attempts) requests, and at most (attempts - 1) times the cap of sleep |
| `Crm.PromotionIsBounded` | services/api/app/crm/client.py:56-58 | a promotion sends at most three requests and sleeps at most four seconds |
| `Retry.SleepIsBounded` | services/api/app/integrations/http.py:52-53 | n delays take at most n times the cap |
| `Retry.DelaysGrow` | services/api/app/integrations/http.py:52-53 | delays never shrink and never exceed the cap |
| `Retry.DelaysDouble` | services/api/app/integrations/http.py:52-53 | the first delay is the backoff, each further one twice the one before, up to the cap |
| `Crm.Server.PromoteProspect` | services/api/app/crm/client.py:40-75 | outcome and CRM state after one logical promotion, by class of failure |
| `Crm.KeyIsInjective` | services/api/app/crm/client.py:52 | different tenants or prospects have different keys, because prospect ids contain no colon |
| `Crm.StaysOncePerKey` | services/api/app/crm/client.py:56-58 | retries never create a second promotion under a key |
| `Crm.SeenIsKept` | services/api/app/crm/client.py:61-75 | an attempt that arrives is kept even when its answer is lost, and ids the client sees are the ids kept |
| `Handoff.PromotedOnce` | services/api/app/prospecting/service.py:644-672 | in every run with any network, all promotions Nova records for a prospect carry the same CRM ids and the CRM created at most one for it |
| `Handoff.FailureLeavesNovaUnchanged` | services/api/app/prospecting/service.py:644-650 | a promotion not seen to succeed leaves Nova exactly as it was |
| `Handoff.SuccessIsLogged` | services/api/app/prospecting/service.py:652-672 | a promotion that succeeds records the CRM's ids and otherwise only moves the prospect to contacted |
| `Handoff.DifferentProspectsDifferentKeys` | services/api/app/prospecting/models.py:14-15 | prospects of one or of two tenants never share a promotion |
| `RateLimit.FixedWindowRateLimiter.Check` | services/api/app/core/ratelimit.py:31-45 | verdict and counters after a check; a rejected check changes nothing |
| `RateLimit.FixedWindowRateLimiter.EvictExpired` | services/api/app/core/ratelimit.py:47-50 | exactly the expired counters go |
| `RateLimit.EvictionIsInvisible` | services/api/app/core/ratelimit.py:44-50 | for every sequence of checks on a clock that does not go back, verdicts and waiting times are those of a limiter that never evicts |
| `RateLimit.RateIsBounded` | services/api/app/core/ratelimit.py:35-43 | n windows admit at most (n + 1) * limit - 1 uses of one action and key |
| `RateLimit.BoundIsTight` | services/api/app/core/ratelimit.py:35-43 | the bound is reached |
| `RateLimit.RejectionIsEarned` | services/api/app/core/ratelimit.py:35-45 | a use is rejected only if as many of its action and key as the limit allows were admitted within one window before |
| `RateLimit.OtherKeysUnaffected` | services/api/app/core/ratelimit.py:35-45 | a check changes no other key's verdicts, evictions included |
| `RateLimit.WaitingAsTold` | services/api/app/core/ratelimit.py:40-42 | waiting as told succeeds exactly when the time left is at most a second or whole seconds |
| `RateLimit.WaitingAsToldCanFail` | services/api/app/core/ratelimit.py:40-42 | a case in which it does not |
| `Luhn.LuhnOk` | services/api/app/prospecting/agentic_extract.py:270-279 | the loop computes the weighted digit sum modulo ten |
| `Luhn.SingleErrorIsCaught` | services/api/app/prospecting/agentic_extract.py:270-279 | no single wrong digit goes unnoticed |
| `Luhn.AdjacentSwapIsCaught` | services/api/app/prospecting/agentic_extract.py:270-279 | a swap of neighbours goes unnoticed exactly when they are equal or 0 and 9 |
| `Luhn.OneCheckDigit` | services/api/app/prospecting/agentic_extract.py:270-279 | each prefix has exactly one valid last digit |
| `Luhn.EvenLengthsFollowTheStandard` | services/api/app/prospecting/agentic_extract.py:270-279 | on even lengths the loop is the definition of Annex B of ISO/IEC 7812-1 |
| `Luhn.WhichLengthsFollowTheStandard` | services/api/app/prospecting/agentic_extract.py:270-279 | it is that definition exactly on even lengths and single digits |
| `Luhn.OddLengthsCanDiffer` | services/api/app/prospecting/agentic_extract.py:270-279 | for every odd length from three on, a number on which they differ |
| `Luhn.OddLengthsAreShifted` | services/api/app/prospecting/agentic_extract.py:270-279 | on odd lengths the loop is the definition for the number with a zero appended |
| `FactScan.BlocksDecisionalFields` | services/api/app/prospecting/agentic_extract.py:183-201 | the worklist ends, and blocks exactly the payloads with a forbidden key, in any letter case, in a dictionary at any depth |
| `FactScan.DecisionalMeans` | services/api/app/prospecting/agentic_extract.py:60-76 | a key is forbidden exactly when it spells one of thirteen words in any letter case |
| `FactScan.MentionsUnfolds` | services/api/app/prospecting/agentic_extract.py:189-201 | a key occurs at some depth exactly when it is an own key or occurs in a child |
| `Scoring.ScorePage` | services/api/app/prospecting/analyzer.py:305-378 | metrics, findings and score of a page |
| `ScoringRules.SeoIs` | services/api/app/prospecting/analyzer.py:310-346 | the search metric as a sum of losses |
| `ScoringRules.PerformanceIs` | services/api/app/prospecting/analyzer.py:343-367 | the speed metric as a sum of losses |
| `ScoringRules.AccessibilityIs` | services/api/app/prospecting/analyzer.py:325-335 | the accessibility metric, with the share of images without alternative text to the nearest integer |
| `ScoringRules.MobileIs` | services/api/app/prospecting/analyzer.py:336-338 | the mobile metric |
| `ScoringRules.FindingsAre` | services/api/app/prospecting/analyzer.py:310-378 | one finding for each defect, in order, and the baseline when there is none |
| `ScoringRules.ScoreIs` | services/api/app/prospecting/analyzer.py:374-376 | the score covers the average lack to the nearest integer, and 45 plus six for each defect up to 95 |
| `Scoring.AuditIsSound` | services/api/app/prospecting/analyzer.py:368-376 | all metrics in 0..100 and the score in 45..100 for every page, covering both the shortfall and the number of findings |
| `Scoring.WorseNeverScoresLower` | services/api/app/prospecting/analyzer.py:305-376 | adding or worsening any defect never raises a metric and never lowers the score |
| `Scoring.AddingABareImageIsWorse` | services/api/app/prospecting/analyzer.py:328-331 | one more image without alternative text counts as worse, although the total grows too |
| `Scoring.RoundsToNearest` | services/api/app/prospecting/analyzer.py:374 | rounding is to the nearest integer with ties to even, and that integer is unique |
| `Scoring.RoundingIsMonotone` | services/api/app/prospecting/analyzer.py:330 | a larger quotient never rounds to a smaller integer |
| `Scoring.Report.MergePagespeed` | services/api/app/prospecting/service.py:709-742 | the report after a PageSpeed result is merged in place |
| `ScoringRules.MergeIs` | services/api/app/prospecting/service.py:709-742 | metrics, finding and score after a merge |
| `Scoring.MergeIsSound` | services/api/app/prospecting/service.py:709-742 | any merge keeps the bounds and all findings, never lowers the score, and lists a bad lab result |
| `Scoring.MergeIsIdempotent` | services/api/app/prospecting/service.py:709-742 | merging the same result again changes nothing |
| `LegacyMapping.MapLegacyRow` | scripts/gate_c/mapping.py:34-69 | the loop computes the conversion, refusals in the code's order |
| `LegacyMapping.ConvertedMeansTranslated` | scripts/gate_c/mapping.py:46-69 | a row converts exactly when table, id and mappings are valid and every owner is mapped or null where allowed; the result has the images and nothing else is touched |
| `LegacyColumns.ConvertedColumns` | scripts/gate_c/mapping.py:12-69 | for each of the six tables: the legacy user columns are gone, each subject column holds the subject of the user it stood for, or null exactly where that is allowed, the tenant is mapped and every other column unchanged |
| `LegacyColumns.ConvertsIff` | scripts/gate_c/mapping.py:12-69 | a row converts exactly when its table is one of six, it has an id, both mappings are usable, its tenant is mapped, and each user reference of its table is mapped, or null where that is allowed |
| `LegacyColumns.UnmappedUserRefuses` | scripts/gate_c/mapping.py:58-68 | one named and unmapped user in any user column of its table refuses the row |
| `LegacyColumns.RowRefusedFor` | scripts/gate_c/mapping.py:46-67 | a refused row gets the error of the first thing that is wrong |
| `LegacyColumns.NamesMeans` | scripts/gate_c/mapping.py:65 | users are looked up by their text or their decimal number |
| `LegacyMapping.ValidatedMeansInjective` | scripts/gate_c/mapping.py:25-31 | a mapping is accepted exactly when it has no blank identifier and no two sources share a stripped target |
| `LegacyMapping.ConversionIsInvertible` | scripts/gate_c/mapping.py:57-69 | the legacy row, up to the string form of identifiers, is computed back from the converted one |
| `ExportImport.LoadMapping` | scripts/gate_c/export_import.py:38-75 | which mapping files load, also when they hold no object or values that are not strings, with which error others are refused, and that a loaded one is one-hop |
| `LegacyColumns.LoadsIff` | scripts/gate_c/export_import.py:38-67 | a mapping file loads exactly when it has the required sections in the required shape and moves unmapped users to mapped ones |
| `LegacyColumns.LoadedIsWhatTheFileHolds` | scripts/gate_c/export_import.py:53-75 | a loaded mapping holds the entries of the file's three sections and nothing else |
| `ExportImport.UnknownSectionsAreRefusedIff` | scripts/gate_c/export_import.py:43-51 | unknown sections are refused exactly when the optional one is there, too, and ignored otherwise |
| `ExportImport.ReattributionIsOneHop` | scripts/gate_c/export_import.py:58-67 | reattributing twice is reattributing once, and no reattributed user is left |
| `ExportImport.ReattributedOwner` | scripts/gate_c/export_import.py:89-94 | a reattributed user's row goes to the subject of the user named in the file |
| `LegacyColumns.ImportedColumns` | scripts/gate_c/export_import.py:78-101 | for each of the six tables: the subjects of an imported row are those of its users, or of the users the file names instead |
| `LegacyColumns.ImportsIff` | scripts/gate_c/export_import.py:78-101 | when a row is imported, on the row with its users replaced |
| `ExportImport.ConvertAllIsRowByRow` | scripts/gate_c/export_import.py:89-101 | conversion is row by row in source order and stops at the first refused row with its error |
| `ExportImport.ConvertedBatches` | scripts/gate_c/export_import.py:78-106 | the generator yields the chunks of the conversion, or the full ones before the row that is refused |
| `ExportImport.ChunksPartition` | scripts/gate_c/export_import.py:102-106 | concatenated the batches are the rows, none is empty, and all but the last have 1000 |
| `GateC.Target.ExportImport` | scripts/gate_c/export_import.py:109-176 | guards in order, all tables or none, counts, and after the commit the manifest: target file missing, ownerless rows, output file there or not writable |
| `GateC.Target.CopyTable` | scripts/gate_c/export_import.py:158-162 | one table's rows appended batch by batch, and as many counted as the source has |
| `GateC.ImportSucceedsIff` | scripts/gate_c/export_import.py:123-163 | into a target that takes every row an import is committed exactly when no guard refuses, the mapping loads and every row of every table converts |
| `GateC.NotRefusedIff` | scripts/gate_c/export_import.py:116-148 | the guards before an import, and the error of the first that fails |
| `GateC.ImportIsComplete` | scripts/gate_c/export_import.py:151-163 | a committed import appends the conversion of every source row of every table and touches no other table |
| `GateC.OneRefusedRowRefusesAll` | scripts/gate_c/export_import.py:151-163 | one refused row, in any table at any place, and nothing is committed |
| `AfterImport.ImportReconciles` | scripts/gate_c/manifest.py:43-66 | after an import, source and target manifests reconcile exactly when all six target tables were empty before, and then with the import's counts |
| `Databases.OneWrongRowIsFound` | scripts/gate_c/reconcile.py:56-69 | after an import into empty tables, a target in which one row has another id or another owner does not reconcile |
| `AfterImport.CommittedRunSucceedsIff` | scripts/gate_c/export_import.py:164-176 | a run whose copy is committed succeeds exactly when the target is found again and readable, had no ownerless rows, and the output file is new and can be written |
| `AfterImport.RelativeTargetFailsIff` | scripts/gate_c/manifest.py:21-42 | a copy into a fresh relative SQLite target ends in an error exactly when no file of that name lies at the root of the file system |
| `AfterImport.FreshTargetCanFail` | scripts/gate_c/manifest.py:21-42 | one row copied into an empty target over sqlite:///./nova.db stays there and the run fails |
| `CanonicalJson.CanonicalTextIsInjective` | scripts/gate_c/reconcile.py:52-53 | the canonical JSON text of a list of ids or of pairs determines the list |
| `CanonicalJson.EscapesDiffer` | scripts/gate_c/reconcile.py:52-53 | no character's ASCII escape is the start of another's, surrogate pairs included |
| `JsonText.EscapeIsRead` | scripts/gate_c/reconcile.py:52-53 | a reader written from section 7 of RFC 8259 gives every character back from its escape, surrogate pairs included |
| `JsonText.EscapeIsAscii` | scripts/gate_c/reconcile.py:52-53 | everything written is printable ASCII |
| `JsonText.QuotedIsRead` | scripts/gate_c/reconcile.py:52-53 | so it gives every string back, up to its closing quote |
| `JsonText.CanonicalTexts` | scripts/gate_c/reconcile.py:52-53 | the two hashed texts are lists in brackets with commas and no blanks in between |
| `Order.TextLeMeans` | scripts/gate_c/reconcile.py:78-79 | texts are sorted as in a dictionary, by code point |
| `Order.SortEqualIffSameMultiset` | scripts/gate_c/reconcile.py:78-79 | sorting gives equal sequences exactly for equal multisets |
| `Reconcile.ManifestForRecords` | scripts/gate_c/reconcile.py:72-85 | the manifest of the records, refused unless they are the six tables |
| `Reconcile.ManifestFromDatabase` | scripts/gate_c/manifest.py:28-68 | the manifest of a database that is found and readable, with tenants converted in memory; otherwise the first of the code's refusals |
| `Reconcile.ReconcileManifests` | scripts/gate_c/reconcile.py:56-69 | the loop's first difference, or all counts |
| `Reconcile.ReconciledMeansEqual` | scripts/gate_c/reconcile.py:56-69 | manifests reconcile exactly when they are equal with natural counts |
| `Reconcile.CountsAloneReconcile` | scripts/gate_c/reconcile.py:62-64 | manifests without digests reconcile on counts alone |
| `Reconcile.ReconciliationIsExact` | scripts/gate_c/reconcile.py:56-85 | two manifests reconcile exactly when every table holds the same multiset of (id, tenant) pairs, whatever the row order |
| `Reconcile.DigestsTell` | scripts/gate_c/reconcile.py:72-85 | each digest by itself tells the ids, and the ids with their owners |
| `Databases.DatabasesReconcileIff` | scripts/gate_c/manifest.py:43-66 | two databases reconcile exactly when each of the six tables holds the same ids with the same mapped owners, as often, in any order |
| `Databases.ManifestIsMadeIff` | scripts/gate_c/manifest.py:40-55 | of which databases a manifest can be made |

## Left out

- Discovery of companies for a campaign (service.py:1244-1279): the same insert as the CSV batch, from an external provider.
- Public proposal and presentation pages, dashboards, the rest of the listings: read-only.
- Audit rows, except the CRM ids of promotions; `updated_at` columns; surrogate ids of suppressions and policies: nothing modelled reads them.
- The JSON rendering of answers: an answer holds the row that was stored.
- An empty string as `campaign_id` of a prospect form: the code treats it like a missing one, the model only knows present and absent ids.
- The resend provider's memory of idempotency keys (service.py:1163): whether a repeated request makes it send another mail is part of the mail outcome.
- A commit that the database loses for another reason than a constraint, such as a broken connection or a crash between the provider call and the commit: a mail that left before it is in no table.
- A target that refuses the commit of an import as a whole, after having accepted every row.
- SQLite URLs are a scheme and a path, and file names are compared as text; query strings and URI file names are not split off.
- Generated proposal text: represented by the facts it is rendered from; HTML parsing, URL normalisation and CSV parsing: their results are inputs.
- Unicode beyond ASCII in `strip` and `lower`: identifiers, addresses and keys are compared in ASCII case.
- Two analyses created in the same instant: the model orders them by id, SQL leaves the order open.
- Floating point: delays, clocks and score quotients are exact.
- Messages of errors; the model keeps the code, and for the mapping file the class, of a refusal.
- The schema of a table is modelled by its rows: `id` and `tenant_id` columns missing from an empty table are not noticed.
- Locks of the limiter and of the databases: a check and a commit are single steps. Clearing the limiter (`reset`) is modelled but takes no part in its theorems.
