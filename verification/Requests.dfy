/** What a caller may ask for, and what the service answers. Whatever the service draws or
    is told from outside (ids, clock readings, audit results, transport outcomes) is part
    of the request, so a run over all requests is a run over all such choices. */
module Requests {
  import opened Text
  import opened Store

  datatype Caller = Caller(tenant: string, sub: string, roles: set<string>, scopes: set<string>) {
    predicate CanWrite() {
      "nova:write" in scopes || "platform_admin" in roles
    }
  }

  /** A field of a partial update: absent, explicitly null, or a value. */
  datatype Patch<+T> = Keep | Null | Set(value: T)

  /** A URL that `normalize_public_url` accepts, with the domain derived from it. */
  datatype Site = Site(url: string, domain: string)

  datatype ProspectForm = ProspectForm(
    campaign: Option<Id>, company: string, site: Option<Site>, email: Option<string>, verified: bool,
    qualification: int, value: int, info: Option<string>)

  /** One CSV data row after stripping, and the id drawn if it is created. */
  datatype CsvRow = CsvRow(id: Id, company: string, url: string, city: string, site: Option<Site>)

  datatype ProspectPatch = ProspectPatch(
    status: Patch<ProspectStatus>, email: Patch<string>, verified: Patch<bool>, doNotContact: Patch<bool>,
    qualification: Patch<int>, value: Patch<int>, assignee: Patch<string>, info: Patch<string>)

  datatype ContentPatch = ContentPatch(
    headline: Patch<string>, summary: Patch<string>, plan: Patch<string>, subject: Patch<string>, body: Patch<string>)

  datatype Audit =
    | UrlRefused(code: string)
    | Audited(score: int, evidence: nat, titles: seq<string>)
    | AuditRefused(code: string)
    | AuditCrashed(rowId: Id)

  /** What the mail transport reports, and whether a new mail left. The two are independent: a message may be taken
      before the connection breaks, and a repeated idempotency key is accepted without another mail. */
  datatype Transport = Accepted(deliveryId: string, left: bool) | Refused(code: string, left: bool)

  datatype DeliveryForm = DeliveryForm(
    proposal: Id, provider: Provider, testRecipient: Option<string>, shareToken: Option<string>,
    transport: Transport, now: Time, shareLag: nat, sendLag: nat)

  datatype CrmOutcome = CrmUnavailable | CrmRejected | CrmCrashed | CrmPromoted(ids: CrmIds, already: bool)

  datatype Request =
    | CreateCampaign(id: Id, made: Campaign)
    | CreateProspect(id: Id, form: ProspectForm, now: Time)
    | BulkCsv(campaign: Option<Id>, headers: Option<seq<string>>, rows: seq<CsvRow>, note: Option<string>)
    | Promote(prospect: Id, vertical: string, brand: string, includeEmail: bool, crm: CrmOutcome)
    | UpdateProspect(prospect: Id, patch: ProspectPatch, now: Time)
    | RunAnalysis(prospect: Id, id: Id, url: string, audit: Audit, now: Time)
    | GenerateProposal(prospect: Id, analysis: Option<Id>, id: Id)
    | UpdateProposal(proposal: Id, changes: ContentPatch)
    | ApproveProposal(proposal: Id, analysisVerified: bool, contactVerified: bool, contentApproved: bool,
                      legalBasisVerified: bool, note: Option<string>, now: Time)
    | CreateShare(proposal: Id, token: string, expires: Time)
    | Deliver(delivery: DeliveryForm)
    | AddSuppression(email: string, reason: string, about: Option<Id>)
    | UpdatePolicy(policy: Policy)

  /** Requests about prospects, campaigns and policies. */
  predicate IsIntake(r: Request) {
    r.CreateCampaign? || r.CreateProspect? || r.BulkCsv? || r.Promote? || r.UpdateProspect? || r.UpdatePolicy?
  }

  /** An authenticated request, or an opt-out link opened by a recipient. */
  datatype Command =
    | By(caller: Caller, request: Request)
    | OptOut(prospect: Id, token: Token)

  datatype Error =
    | WriteForbidden | CampaignNotFound | ProspectNotFound | ProposalNotFound
    | WebsiteInvalid | DomainDuplicate | ContactEmailRequired | ContactEmailInvalid
    | CsvHeaderRequired | CsvColumnsRequired | CsvTooManyRows
    | DoNotContact | CrmScopeRequired | CrmIsUnavailable | CrmHasRejected
    | AuditError(code: string) | AnalysisFailed | AnalysisRequired | EvidenceRequired
    | VersionConflict | ApprovedImmutable | VerificationIncomplete | ContactNotVerified | ContactSuppressed
    | NotApproved | RecipientRequired | TestRecipientForbidden | AlreadyProcessed | DailyLimitReached
    | ShareTokenInvalid | ShareTokenExpired | DeliveryError(code: string)
    | EmailInvalid | OptOutInvalid | InternalError

  datatype SkipReason = CompanyNameInvalid | WebsiteIsInvalid | DuplicateInBatch | DuplicateDomain

  datatype Skip = Skip(row: int, reason: SkipReason)

  datatype Response =
    | Refusal(error: Error)
    | CampaignOut(id: Id, campaign: Campaign)
    | ProspectOut(id: Id, prospect: Prospect)
    | BulkOut(created: seq<(Id, Prospect)>, skipped: seq<Skip>, rowCount: int)
    | PromotionOut(of: Id, crm: CrmIds, already: bool, evidence: Option<Id>, sentEmail: Option<string>)
    | AnalysisOut(id: Id, analysis: Analysis)
    | ProposalOut(id: Id, proposal: Proposal)
    | ShareOut(id: Id, token: string, expires: Time)
    | DeliveryOut(id: Id, status: Delivery, provider: Provider, deliveryId: string, external: bool, recipient: string)
    | SuppressionOut(email: string, row: Suppression)
    | OptOutDone
    | PolicyOut(policy: Policy)
}
