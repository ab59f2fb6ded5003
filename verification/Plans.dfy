/** What each request decides on the rows it reads: the answer, and the writes to commit.
    Guards come in the order the service checks them. */
module Plans {
  import opened Text
  import opened Order
  import opened Store
  import opened Requests

  datatype Plan = Plan(tenant: string, response: Response, writes: seq<Write>)

  function Refuse(t: string, error: Error): Plan {
    Plan(t, Refusal(error), [])
  }

  function Given<T>(p: Patch<T>, was: T): T {
    if p.Set? then p.value else was
  }

  function GivenOption<T>(p: Patch<T>, was: Option<T>): Option<T> {
    match p case Keep => was case Null => None case Set(v) => Some(v)
  }

  /** Python truthiness of an optional string. */
  predicate Truthy(x: Option<string>) {
    x.Some? && x.value != ""
  }

  // ----- intake

  function PlanCreateProspect(s: Db, c: Caller, id: Id, f: ProspectForm, now: Time): Plan {
    var t := c.tenant;
    if f.campaign.Some? && Find(s.campaigns, t, f.campaign.value).None? then Refuse(t, CampaignNotFound)
    else if f.site.None? then Refuse(t, WebsiteInvalid)
    else if DomainTaken(s.prospects, t, f.site.value.domain) then Refuse(t, DomainDuplicate)
    else if f.verified && !Truthy(f.email) then Refuse(t, ContactEmailRequired)
    else
      var p := Prospect(f.campaign, Strip(f.company), f.site.value.url, f.site.value.domain, Qualified,
                        f.email, f.verified, if f.verified then Some(now) else None, false,
                        f.qualification, f.value, Some(c.sub), f.info);
      Plan(t, ProspectOut(id, p), [NewProspect(id, p)])
  }

  const CSV_BULK_MAX_ROWS: int := 50

  const CSV_NOTE := "CSV bulk intake; relevance and contact basis must be verified before outreach."

  predicate HttpUrl(url: string) {
    var l := Lower(url);
    "https://" <= l || "http://" <= l
  }

  /** A row the batch could create: a name, a web address, and an address the audit accepts. */
  predicate ValidRow(r: CsvRow) {
    |r.company| >= 2 && HttpUrl(r.url) && r.site.Some?
  }

  function RowProspect(c: Caller, campaign: Option<Id>, note: string, r: CsvRow): Prospect
    requires ValidRow(r)
  {
    Prospect(campaign, r.company, r.site.value.url, r.site.value.domain, Qualified, None, false, None, false,
             0, 0, Some(c.sub), Some(note + "|" + r.city))
  }

  /** Row `i` is the first valid row of its domain, and the domain is not one of `taken`. */
  ghost predicate FirstOfNewDomain(rows: seq<CsvRow>, taken: set<string>, i: nat)
    requires i < |rows|
  {
    && ValidRow(rows[i])
    && rows[i].site.value.domain !in taken
    && forall j :: 0 <= j < i && ValidRow(rows[j]) ==> rows[j].site.value.domain != rows[i].site.value.domain
  }

  /** Indices of the rows to create, in file order, among the first `n`. */
  ghost function CreatedRows(rows: seq<CsvRow>, taken: set<string>, n: nat): (r: seq<nat>)
    requires n <= |rows|
    ensures forall k :: 0 <= k < |r| ==> r[k] < n && FirstOfNewDomain(rows, taken, r[k])
    ensures forall k, l :: 0 <= k < l < |r| ==> r[k] < r[l]
    ensures forall i :: 0 <= i < n && FirstOfNewDomain(rows, taken, i) ==> i in r
  {
    if n == 0 then []
    else CreatedRows(rows, taken, n - 1) + if FirstOfNewDomain(rows, taken, n - 1) then [n - 1] else []
  }

  ghost function SkipReasonOf(rows: seq<CsvRow>, i: nat): SkipReason
    requires i < |rows|
  {
    if |rows[i].company| < 2 then CompanyNameInvalid
    else if !ValidRow(rows[i]) then WebsiteIsInvalid
    else if exists j :: 0 <= j < i && ValidRow(rows[j]) && rows[j].site.value.domain == rows[i].site.value.domain
      then DuplicateInBatch
    else DuplicateDomain
  }

  /** The other rows, each with the reason the batch reports. The header is row 1. */
  ghost function SkippedRows(rows: seq<CsvRow>, taken: set<string>, n: nat): seq<Skip>
    requires n <= |rows|
  {
    if n == 0 then []
    else SkippedRows(rows, taken, n - 1)
         + if FirstOfNewDomain(rows, taken, n - 1) then [] else [Skip(n + 1, SkipReasonOf(rows, n - 1))]
  }

  function DomainsOf(prospects: Table<Prospect>, t: string): set<string> {
    set k | k in prospects && prospects[k].tenant == t :: prospects[k].row.domain
  }

  /** The created rows, with their ids, in file order. */
  ghost function BulkCreated(c: Caller, campaign: Option<Id>, note: string, rows: seq<CsvRow>, taken: set<string>,
                             n: nat): seq<(Id, Prospect)>
    requires n <= |rows|
  {
    if n == 0 then []
    else BulkCreated(c, campaign, note, rows, taken, n - 1)
         + if FirstOfNewDomain(rows, taken, n - 1)
           then [(rows[n - 1].id, RowProspect(c, campaign, note, rows[n - 1]))] else []
  }

  lemma {:induction false} BulkCreatedRows(c: Caller, campaign: Option<Id>, note: string, rows: seq<CsvRow>,
                                           taken: set<string>, n: nat)
    requires n <= |rows|
    ensures var chosen := CreatedRows(rows, taken, n);
      var made := BulkCreated(c, campaign, note, rows, taken, n);
      && |made| == |chosen|
      && forall k :: 0 <= k < |made| ==>
           made[k] == (rows[chosen[k]].id, RowProspect(c, campaign, note, rows[chosen[k]]))
  {
    if n != 0 { BulkCreatedRows(c, campaign, note, rows, taken, n - 1); }
  }

  function Inserts(created: seq<(Id, Prospect)>): (r: seq<Write>)
    ensures |r| == |created|
    ensures forall k :: 0 <= k < |r| ==> r[k] == NewProspect(created[k].0, created[k].1)
  {
    seq(|created|, k requires 0 <= k < |created| => NewProspect(created[k].0, created[k].1))
  }

  function NoteOf(note: Option<string>): string {
    var n := if note.Some? then Strip(note.value) else "";
    if n != "" then n else CSV_NOTE
  }

  predicate HasRequiredColumns(headers: seq<string>) {
    (exists h :: h in headers && Norm(h) == "company_name") && (exists h :: h in headers && Norm(h) == "website_url")
  }

  ghost function PlanBulkCsv(s: Db, c: Caller, campaign: Option<Id>, headers: Option<seq<string>>, rows: seq<CsvRow>,
                             note: Option<string>): Plan
  {
    var t := c.tenant;
    if campaign.Some? && Find(s.campaigns, t, campaign.value).None? then Refuse(t, CampaignNotFound)
    else if headers.None? then Refuse(t, CsvHeaderRequired)
    else if !HasRequiredColumns(headers.value) then Refuse(t, CsvColumnsRequired)
    else if |rows| > CSV_BULK_MAX_ROWS then Refuse(t, CsvTooManyRows)
    else
      var taken := DomainsOf(s.prospects, t);
      var created := BulkCreated(c, campaign, NoteOf(note), rows, taken, |rows|);
      Plan(t, BulkOut(created, SkippedRows(rows, taken, |rows|), |rows|), Inserts(created))
  }

  // ----- handing a prospect to the CRM

  ghost function PlanPromote(s: Db, c: Caller, pid: Id, vertical: string, brand: string, includeEmail: bool,
                             crm: CrmOutcome): Plan
  {
    var t := c.tenant;
    match Find(s.prospects, t, pid)
    case None => Refuse(t, ProspectNotFound)
    case Some(p) =>
      if p.doNotContact then Refuse(t, DoNotContact)
      else if Strip(vertical) == "" || Strip(brand) == "" then Refuse(t, CrmScopeRequired)
      else
        match crm
        case CrmUnavailable => Refuse(t, CrmIsUnavailable)
        case CrmRejected => Refuse(t, CrmHasRejected)
        case CrmCrashed => Refuse(t, InternalError)
        case CrmPromoted(ids, already) =>
          var email := if includeEmail && p.verified && Truthy(p.email) then p.email else None;
          Plan(t, PromotionOut(pid, ids, already, Newest(CompleteOf(s.analyses, t, pid)), email),
               [SetStatus(pid, Contacted), Record(PromotedFact(pid, ids))])
  }

  // ----- editing a prospect

  function NormalizedEmail(p: Patch<string>): Patch<string> {
    if p.Set? && p.value != "" then Set(Norm(p.value)) else p
  }

  function Patched(p: Prospect, d: ProspectPatch, now: Time): Prospect {
    p.(status := Given(d.status, p.status),
       email := GivenOption(NormalizedEmail(d.email), p.email),
       verified := Given(d.verified, p.verified),
       verifiedAt := if d.verified.Keep? then p.verifiedAt else if d.verified == Set(true) then Some(now) else None,
       doNotContact := Given(d.doNotContact, p.doNotContact),
       qualification := Given(d.qualification, p.qualification),
       value := Given(d.value, p.value),
       assignee := GivenOption(d.assignee, p.assignee),
       info := GivenOption(d.info, p.info))
  }

  /** A column that the schema declares NOT NULL is set to null, which the database refuses. */
  predicate NullsRequired(d: ProspectPatch) {
    d.status.Null? || d.verified.Null? || d.doNotContact.Null? || d.qualification.Null? || d.value.Null?
  }

  function PlanUpdateProspect(s: Db, c: Caller, pid: Id, d: ProspectPatch, now: Time): Plan {
    var t := c.tenant;
    match Find(s.prospects, t, pid)
    case None => Refuse(t, ProspectNotFound)
    case Some(p) =>
      var q := Patched(p, d, now);
      if d.email.Set? && d.email.value != "" && '@' !in Norm(d.email.value) then Refuse(t, ContactEmailInvalid)
      else if d.verified == Set(true) && !Truthy(q.email) then Refuse(t, ContactEmailRequired)
      else if NullsRequired(d) then Refuse(t, InternalError)
      else
        var suppress :=
          if d.doNotContact == Set(true) && Truthy(q.email)
          then [Suppress(Norm(q.email.value), Suppression("operator", "operator", Some(pid), Some(c.sub)))] else [];
        Plan(t, ProspectOut(pid, q), [SetProspect(pid, q)] + suppress)
  }

  // ----- analysing the website

  function PlanRunAnalysis(s: Db, c: Caller, pid: Id, id: Id, url: string, audit: Audit, now: Time): Plan {
    var t := c.tenant;
    match Find(s.prospects, t, pid)
    case None => Refuse(t, ProspectNotFound)
    case Some(p) =>
      match audit
      case UrlRefused(code) => Refuse(t, AuditError(code))
      case Audited(score, evidence, titles) =>
        var a := Analysis(pid, Complete, c.sub, url, score, evidence, titles, now, None);
        Plan(t, AnalysisOut(id, a),
             [NewAnalysis(id, a),
              SetProspect(pid, p.(qualification := if p.qualification < score then score else p.qualification,
                                  status := AnalysisReady))])
      case AuditRefused(code) =>
        Plan(t, Refusal(AuditError(code)),
             [NewAnalysis(id, Analysis(pid, Failed, c.sub, url, 0, 0, [], now, Some(code)))])
      case AuditCrashed(other) =>
        Plan(t, Refusal(AnalysisFailed),
             [NewAnalysis(other, Analysis(pid, Failed, c.sub, url, 0, 0, [], now, Some("ANALYSIS_FAILED")))])
  }

  /** `_latest_complete_analysis`: the newest completed analysis, or the named one if it is such. */
  ghost function PickAnalysis(s: Db, t: string, pid: Id, wanted: Option<Id>): (r: Option<Id>)
    ensures r.Some? ==> r.value in CompleteOf(s.analyses, t, pid)
  {
    var found := CompleteOf(s.analyses, t, pid);
    if Truthy(wanted) then (if wanted.value in found then wanted else None) else Newest(found)
  }

  // ----- proposals

  /** The generated text, represented by the facts it is rendered from. */
  function ProposalCopy(p: Prospect, a: Analysis): Content {
    Content(p.company, p.company + "|" + JoinTitles(a.titles), JoinTitles(a.titles), p.domain,
            (if p.info.Some? then p.info.value else "") + "|" + p.domain + "|" + JoinTitles(a.titles))
  }

  function JoinTitles(titles: seq<string>): string {
    if titles == [] then "" else titles[0] + ", " + JoinTitles(titles[1..])
  }

  function NewDraft(c: Caller, pid: Id, aid: Id, version: int, copy: Content): Proposal {
    Proposal(pid, aid, version, c.sub, Draft, copy, None, None, None, None, NotQueued, None, None, None, None)
  }

  ghost function PlanGenerate(s: Db, c: Caller, pid: Id, analysis: Option<Id>, id: Id): Plan {
    var t := c.tenant;
    match Find(s.prospects, t, pid)
    case None => Refuse(t, ProspectNotFound)
    case Some(p) =>
      match PickAnalysis(s, t, pid, analysis)
      case None => Refuse(t, AnalysisRequired)
      case Some(aid) =>
        var row := NewDraft(c, pid, aid, CurrentMax(s.proposals, t, pid) + 1,
                            ProposalCopy(p, CompleteOf(s.analyses, t, pid)[aid].row));
        Plan(t, ProposalOut(id, row), [NewProposal(id, row), SetStatus(pid, ProposalReady)])
  }

  function Edited(was: Content, d: ContentPatch): Content {
    Content(Given(d.headline, was.headline), Given(d.summary, was.summary),
            if d.plan.Null? then "null" else Given(d.plan, was.plan),
            Given(d.subject, was.subject), Given(d.body, was.body))
  }

  function PlanUpdateProposal(s: Db, c: Caller, id: Id, d: ContentPatch): Plan {
    var t := c.tenant;
    match Find(s.proposals, t, id)
    case None => Refuse(t, ProposalNotFound)
    case Some(row) =>
      if row.status == Approved then Refuse(t, ApprovedImmutable)
      else if d.headline.Null? || d.summary.Null? || d.subject.Null? || d.body.Null? then Refuse(t, InternalError)
      else
        var edited := row.(content := Edited(row.content, d));
        Plan(t, ProposalOut(id, edited), [SetProposal(id, edited, None)])
  }

  function PlanApprove(s: Db, c: Caller, id: Id, v: Review, now: Time): Plan {
    var t := c.tenant;
    match Find(s.proposals, t, id)
    case None => Refuse(t, ProposalNotFound)
    case Some(row) =>
      match Find(s.prospects, t, row.prospect)
      case None => Refuse(t, ProspectNotFound)
      case Some(p) =>
        if !(v.analysisVerified && v.contactVerified && v.contentApproved && v.legalBasisVerified)
          then Refuse(t, VerificationIncomplete)
        else if !p.verified || !Truthy(p.email) then Refuse(t, ContactNotVerified)
        else if p.doNotContact || IsSuppressed(s.suppressions, t, p.email.value) then Refuse(t, ContactSuppressed)
        else if row.analysis !in CompleteOf(s.analyses, t, row.prospect) then Refuse(t, AnalysisRequired)
        else if CompleteOf(s.analyses, t, row.prospect)[row.analysis].row.evidence < 1 then Refuse(t, EvidenceRequired)
        else
          var approved := row.(status := Approved, review := Some(v), approvedBy := Some(c.sub),
                               approvedAt := Some(now));
          Plan(t, ProposalOut(id, approved),
               [SetProposal(id, approved, Some(ApprovedFact(id, v, row.content))),
                SetProspect(row.prospect, p.(status := ApprovedForContact))])
  }

  function PlanCreateShare(s: Db, c: Caller, id: Id, token: string, expires: Time): Plan {
    var t := c.tenant;
    match Find(s.proposals, t, id)
    case None => Refuse(t, ProposalNotFound)
    case Some(row) =>
      if row.status != Approved then Refuse(t, NotApproved)
      else Plan(t, ShareOut(id, token, expires),
                [SetProposal(id, row.(share := Some(Share(Sha256(token), expires))), None)])
  }

  // ----- delivery

  const DEFAULT_DAILY_LIMIT: int := 20

  /** The limit in force: the campaign's if the prospect has one, else the policy's, else 20. */
  function DailyLimit(s: Db, t: string, p: Prospect): Option<int> {
    if p.campaign.Some? then
      match Find(s.campaigns, t, p.campaign.value)
      case None => None
      case Some(campaign) => Some(campaign.dailyLimit)
    else Some(if t in s.policies then s.policies[t].dailyLimit else DEFAULT_DAILY_LIMIT)
  }

  /** Guards that hold back a real send; a test send to the operator skips them. */
  function RealSendRefusal(s: Db, t: string, row: Proposal, p: Prospect, recipient: string, now: Time): Option<Error> {
    if !p.verified then Some(ContactNotVerified)
    else if p.doNotContact || IsSuppressed(s.suppressions, t, recipient) then Some(ContactSuppressed)
    else if row.Processed() then Some(AlreadyProcessed)
    else match DailyLimit(s, t, p)
      case None => Some(CampaignNotFound)
      case Some(limit) => if |Counted(s.proposals, t, Midnight(now))| >= limit then Some(DailyLimitReached) else None
  }

  function ShareRefusal(row: Proposal, token: Option<string>, now: Time): Option<Error> {
    if !Truthy(token) then None
    else if row.share.None? || row.share.value.hash != Sha256(token.value) then Some(ShareTokenInvalid)
    else if row.share.value.expires < now then Some(ShareTokenExpired)
    else None
  }

  function Recipient(f: DeliveryForm, p: Prospect): string {
    Norm(if Truthy(f.testRecipient) then f.testRecipient.value else if Truthy(p.email) then p.email.value else "")
  }

  /** `queue` and `mock` always accept and never leave the building. */
  function Receipt(f: DeliveryForm): Transport {
    if f.provider.Queue? || f.provider.Mock?
      then Accepted(if f.transport.Accepted? then f.transport.deliveryId else "", false)
    else f.transport
  }

  predicate External(f: DeliveryForm) {
    f.provider.Resend? || f.provider.SmtpGeneric?
  }

  /** A new mail goes out, whatever the provider then reports. */
  predicate Leaves(f: DeliveryForm) {
    External(f) && f.transport.left
  }

  /** What the log says about the provider call. */
  function Attempt(s: Db, c: Caller, f: DeliveryForm, row: Proposal, p: Prospect): Fact {
    var recipient := Recipient(f, p);
    var limit := match DailyLimit(s, c.tenant, p) case None => 0 case Some(l) => l;
    AttemptFact(f.proposal, recipient, row.content, f.testRecipient.Some?, c.sub, f.now + f.shareLag + f.sendLag, limit,
                Receipt(f).Accepted?, Leaves(f), Link(row.prospect, OptOutToken(c.tenant, row.prospect, recipient)))
  }

  function ResolvedStatus(f: DeliveryForm): Delivery {
    if External(f) then Delivered else if f.provider.Queue? then Queued else MockDelivered
  }

  function PlanDeliver(s: Db, c: Caller, f: DeliveryForm): Plan {
    var t := c.tenant;
    match Find(s.proposals, t, f.proposal)
    case None => Refuse(t, ProposalNotFound)
    case Some(row) =>
      match Find(s.prospects, t, row.prospect)
      case None => Refuse(t, ProspectNotFound)
      case Some(p) =>
        var recipient := Recipient(f, p);
        var test := f.testRecipient.Some?;
        if row.status != Approved || row.approvedBy.None? then Refuse(t, NotApproved)
        else if recipient == "" || '@' !in recipient then Refuse(t, RecipientRequired)
        else if test && recipient != Norm(c.sub) then Refuse(t, TestRecipientForbidden)
        else if !test && RealSendRefusal(s, t, row, p, recipient, f.now).Some?
          then Refuse(t, RealSendRefusal(s, t, row, p, recipient, f.now).value)
        else if ShareRefusal(row, f.shareToken, f.now + f.shareLag).Some?
          then Refuse(t, ShareRefusal(row, f.shareToken, f.now + f.shareLag).value)
        else Send(s, c, f, row, p)
  }

  /** The provider call and what is recorded about it. */
  function Send(s: Db, c: Caller, f: DeliveryForm, row: Proposal, p: Prospect): Plan {
    var t := c.tenant;
    var test := f.testRecipient.Some?;
    var at := f.now + f.shareLag + f.sendLag;
    var fact := Some(Attempt(s, c, f, row, p));
    match Receipt(f)
    case Refused(code, _) =>
      var after := if test then row else row.(delivery := DeliveryFailed, provider := Some(f.provider));
      Plan(t, Refusal(DeliveryError(code)), [SetProposal(f.proposal, after, fact)])
    case Accepted(deliveryId, _) =>
      var status := ResolvedStatus(f);
      var after := if test then row else
        row.(delivery := status, provider := Some(f.provider), deliveryId := Some(deliveryId),
             deliveredAt := if External(f) then Some(at) else None, processedAt := Some(at));
      Plan(t, DeliveryOut(f.proposal, status, f.provider, deliveryId, External(f), Recipient(f, p)),
           [SetProposal(f.proposal, after, fact)])
  }

  // ----- suppression and policy

  function PlanAddSuppression(s: Db, c: Caller, email: string, reason: string, about: Option<Id>): Plan {
    var t := c.tenant;
    var e := Norm(email);
    var named := Truthy(about);
    if '@' !in e then Refuse(t, EmailInvalid)
    else if named && Find(s.prospects, t, about.value).None? then Refuse(t, ProspectNotFound)
    else
      var row := Suppression(reason, "operator", if named then about else None, Some(c.sub));
      var had := if (t, e) in s.suppressions then Some(s.suppressions[(t, e)]) else None;
      Plan(t, SuppressionOut(e, Upsert(had, row)),
           [Suppress(e, row)]
           + if named
             then [SetProspect(about.value, Find(s.prospects, t, about.value).value.(doNotContact := true))] else [])
  }

  /** Not tenant-scoped: the link names the prospect, and the token proves the right to use it. */
  function PlanOptOut(s: Db, pid: Id, token: Token): Plan {
    if pid !in s.prospects then Refuse("", OptOutInvalid)
    else
      var Owned(t, p) := s.prospects[pid];
      if !Truthy(p.email) || token != OptOutToken(t, pid, p.email.value) then Refuse(t, OptOutInvalid)
      else
        Plan(t, OptOutDone,
             [Suppress(Norm(p.email.value), Suppression("opt_out", "public_opt_out", Some(pid), None)),
              SetProspect(pid, p.(doNotContact := true))])
  }

  // ----- one request

  function ReviewOf(c: Caller, r: Request): Review
    requires r.ApproveProposal?
  {
    Review(r.analysisVerified, r.contactVerified, r.contentApproved, r.legalBasisVerified, r.note, c.sub, r.now)
  }

  ghost function PlanRequest(s: Db, c: Caller, r: Request): Plan {
    if !c.CanWrite() then Refuse(c.tenant, WriteForbidden)
    else
      match r
      case CreateCampaign(id, made) =>
        var campaign := made.(name := Strip(made.name));
        Plan(c.tenant, CampaignOut(id, campaign), [NewCampaign(id, campaign)])
      case CreateProspect(id, form, now) => PlanCreateProspect(s, c, id, form, now)
      case BulkCsv(campaign, headers, rows, note) => PlanBulkCsv(s, c, campaign, headers, rows, note)
      case Promote(pid, vertical, brand, includeEmail, crm) =>
        PlanPromote(s, c, pid, vertical, brand, includeEmail, crm)
      case UpdateProspect(pid, patch, now) => PlanUpdateProspect(s, c, pid, patch, now)
      case RunAnalysis(pid, id, url, audit, now) => PlanRunAnalysis(s, c, pid, id, url, audit, now)
      case GenerateProposal(pid, analysis, id) => PlanGenerate(s, c, pid, analysis, id)
      case UpdateProposal(id, changes) => PlanUpdateProposal(s, c, id, changes)
      case ApproveProposal(id, _, _, _, _, _, now) => PlanApprove(s, c, id, ReviewOf(c, r), now)
      case CreateShare(id, token, expires) => PlanCreateShare(s, c, id, token, expires)
      case Deliver(f) => PlanDeliver(s, c, f)
      case AddSuppression(email, reason, about) => PlanAddSuppression(s, c, email, reason, about)
      case UpdatePolicy(policy) =>
        var p := policy.(updatedBy := c.sub);
        Plan(c.tenant, PolicyOut(p), [SetPolicy(p)])
  }

  ghost function PlanCommand(s: Db, cmd: Command): Plan {
    match cmd
    case By(c, r) => PlanRequest(s, c, r)
    case OptOut(pid, token) => PlanOptOut(s, pid, token)
  }

  /** How a request reports that the database refused its commit. */
  function ConflictError(cmd: Command): Error {
    if cmd.By? && cmd.request.CreateProspect? then DomainDuplicate
    else if cmd.By? && cmd.request.GenerateProposal? then VersionConflict
    else InternalError
  }

  datatype Outcome = Outcome(db: Db, response: Response)

  function Finish(s: Db, cmd: Command, p: Plan): Outcome {
    match Commit(s, p.tenant, p.writes)
    case Some(after) => Outcome(after, p.response)
    case None => Outcome(s, Refusal(ConflictError(cmd)))
  }

  /** One request executed atomically: read, decide, commit. */
  ghost function Step(s: Db, cmd: Command): Outcome {
    Finish(s, cmd, PlanCommand(s, cmd))
  }

  /** A request with the given plan: carried out for a caller with write access, refused for any other. */
  ghost function Decided(s: Db, c: Caller, r: Request, plan: Plan): Outcome {
    if c.CanWrite() then Finish(s, By(c, r), plan) else Outcome(s, Refusal(WriteForbidden))
  }

  /** `Step` carries out the plan of the request's own kind. */
  lemma StepIsDecided(s: Db, c: Caller, r: Request)
    ensures r.CreateProspect? ==> Step(s, By(c, r)) == Decided(s, c, r, PlanCreateProspect(s, c, r.id, r.form, r.now))
    ensures r.BulkCsv? ==>
      Step(s, By(c, r)) == Decided(s, c, r, PlanBulkCsv(s, c, r.campaign, r.headers, r.rows, r.note))
    ensures r.Promote? ==>
      Step(s, By(c, r)) == Decided(s, c, r, PlanPromote(s, c, r.prospect, r.vertical, r.brand, r.includeEmail, r.crm))
    ensures r.UpdateProspect? ==>
      Step(s, By(c, r)) == Decided(s, c, r, PlanUpdateProspect(s, c, r.prospect, r.patch, r.now))
    ensures r.RunAnalysis? ==>
      Step(s, By(c, r)) == Decided(s, c, r, PlanRunAnalysis(s, c, r.prospect, r.id, r.url, r.audit, r.now))
    ensures r.GenerateProposal? ==>
      Step(s, By(c, r)) == Decided(s, c, r, PlanGenerate(s, c, r.prospect, r.analysis, r.id))
    ensures r.UpdateProposal? ==> Step(s, By(c, r)) == Decided(s, c, r, PlanUpdateProposal(s, c, r.proposal, r.changes))
    ensures r.ApproveProposal? ==>
      Step(s, By(c, r)) == Decided(s, c, r, PlanApprove(s, c, r.proposal, ReviewOf(c, r), r.now))
    ensures r.CreateShare? ==>
      Step(s, By(c, r)) == Decided(s, c, r, PlanCreateShare(s, c, r.proposal, r.token, r.expires))
    ensures r.Deliver? ==> Step(s, By(c, r)) == Decided(s, c, r, PlanDeliver(s, c, r.delivery))
    ensures r.AddSuppression? ==>
      Step(s, By(c, r)) == Decided(s, c, r, PlanAddSuppression(s, c, r.email, r.reason, r.about))
  {}

  // ----- accepted requests with two writes, carried out

  lemma UpdateProspectCarriedOut(s: Db, c: Caller, pid: Id, d: ProspectPatch, now: Time)
    requires PlanUpdateProspect(s, c, pid, d, now).response.ProspectOut?
    ensures var q := Patched(s.prospects[pid].row, d, now);
      var stored := Apply(s, c.tenant, SetProspect(pid, q));
      Finish(s, By(c, UpdateProspect(pid, d, now)), PlanUpdateProspect(s, c, pid, d, now)) ==
        Outcome(if d.doNotContact == Set(true) && Truthy(q.email)
                then Apply(stored, c.tenant,
                           Suppress(Norm(q.email.value), Suppression("operator", "operator", Some(pid), Some(c.sub))))
                else stored,
                ProspectOut(pid, q))
  {
    var ws := PlanUpdateProspect(s, c, pid, d, now).writes;
    if |ws| == 1 {
      assert ws == [ws[0]];
      OneWrite(s, c.tenant, ws[0]);
    } else {
      assert ws == [ws[0], ws[1]];
      TwoWrites(s, c.tenant, ws[0], ws[1]);
    }
  }

  lemma GenerateCarriedOut(s: Db, c: Caller, pid: Id, analysis: Option<Id>, id: Id)
    requires PlanGenerate(s, c, pid, analysis, id).response.ProposalOut?
    ensures var plan := PlanGenerate(s, c, pid, analysis, id); var row := plan.response.proposal;
      Finish(s, By(c, GenerateProposal(pid, analysis, id)), plan) ==
        if id in s.proposals || HasVersion(s.proposals, pid, row.version) then Outcome(s, Refusal(VersionConflict))
        else Outcome(s.(proposals := s.proposals[id := Owned(c.tenant, row)],
                        prospects := s.prospects[pid := Owned(c.tenant,
                                                              s.prospects[pid].row.(status := ProposalReady))]),
                     plan.response)
  {
    var row := PlanGenerate(s, c, pid, analysis, id).response.proposal;
    if id !in s.proposals && !HasVersion(s.proposals, pid, row.version) {
      TwoWrites(s, c.tenant, NewProposal(id, row), SetStatus(pid, ProposalReady));
    }
  }

  lemma PromoteCarriedOut(s: Db, c: Caller, pid: Id, vertical: string, brand: string, includeEmail: bool,
                          crm: CrmOutcome)
    requires PlanPromote(s, c, pid, vertical, brand, includeEmail, crm).response.PromotionOut?
    ensures Finish(s, By(c, Promote(pid, vertical, brand, includeEmail, crm)),
                   PlanPromote(s, c, pid, vertical, brand, includeEmail, crm)) ==
      Outcome(s.(prospects := s.prospects[pid := Owned(c.tenant, s.prospects[pid].row.(status := Contacted))],
                 journal := s.journal + [Owned(c.tenant, PromotedFact(pid, crm.ids))]),
              PlanPromote(s, c, pid, vertical, brand, includeEmail, crm).response)
  {
    TwoWrites(s, c.tenant, SetStatus(pid, Contacted), Record(PromotedFact(pid, crm.ids)));
  }

  lemma AddSuppressionCarriedOut(s: Db, c: Caller, email: string, reason: string, about: Option<Id>)
    requires PlanAddSuppression(s, c, email, reason, about).response.SuppressionOut?
    ensures var t, e, named := c.tenant, Norm(email), Truthy(about);
      var row := Suppression(reason, "operator", if named then about else None, Some(c.sub));
      var marked := Apply(s, t, Suppress(e, row));
      Finish(s, By(c, AddSuppression(email, reason, about)), PlanAddSuppression(s, c, email, reason, about)) ==
        Outcome(if named then Apply(marked, t, SetProspect(about.value,
                                                           s.prospects[about.value].row.(doNotContact := true)))
                else marked,
                PlanAddSuppression(s, c, email, reason, about).response)
  {
    var ws := PlanAddSuppression(s, c, email, reason, about).writes;
    if |ws| == 1 {
      assert ws == [ws[0]];
      OneWrite(s, c.tenant, ws[0]);
    } else {
      assert ws == [ws[0], ws[1]];
      TwoWrites(s, c.tenant, ws[0], ws[1]);
    }
  }

  lemma SetCarriedOut(s: Db, cmd: Command, plan: Plan)
    requires |plan.writes| == 1 && plan.writes[0].SetProposal?
    ensures Finish(s, cmd, plan) == Outcome(Apply(s, plan.tenant, plan.writes[0]), plan.response)
  {
    assert plan.writes == [plan.writes[0]];
    OneWrite(s, plan.tenant, plan.writes[0]);
  }

  lemma DeliveryCarriedOut(s: Db, c: Caller, f: DeliveryForm, row: Proposal, r: Response, fact: Fact)
    requires c.CanWrite() && PlanDeliver(s, c, f) == Plan(c.tenant, r, [SetProposal(f.proposal, row, Some(fact))])
    ensures Decided(s, c, Deliver(f), PlanDeliver(s, c, f)) == Outcome(
      s.(proposals := s.proposals[f.proposal := Owned(c.tenant, row)],
         journal := s.journal + [Owned(c.tenant, fact)]), r)
  {
    SetCarriedOut(s, By(c, Deliver(f)), PlanDeliver(s, c, f));
  }
}
