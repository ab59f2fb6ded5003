/** The service itself: tables that requests update in place, each request proved to do what
    `Step` says, error for error and row for row. */
module Service {
  import opened Text
  import opened Order
  import opened Store
  import opened Requests
  import opened Plans

  class ProspectingService {
    var campaigns: Table<Campaign>
    var prospects: Table<Prospect>
    var analyses: Table<Analysis>
    var proposals: Table<Proposal>
    var policies: map<string, Policy>
    var suppressions: map<(string, string), Suppression>
    ghost var journal: seq<Owned<Fact>>

    ghost function Snapshot(): Db
      reads this
    {
      Db(campaigns, prospects, analyses, proposals, policies, suppressions, journal)
    }

    constructor ()
      ensures Snapshot() == EMPTY_DB
    {
      campaigns, prospects, analyses, proposals := map[], map[], map[], map[];
      policies, suppressions, journal := map[], map[], [];
    }

    method CreateCampaign(c: Caller, id: Id, made: Campaign) returns (r: Response)
      modifies this
      ensures Outcome(Snapshot(), r) == Step(old(Snapshot()), By(c, Request.CreateCampaign(id, made)))
    {
      if !c.CanWrite() { return Refusal(WriteForbidden); }
      var row := made.(name := Strip(made.name));
      OneWrite(Snapshot(), c.tenant, NewCampaign(id, row));
      if id in campaigns { return Refusal(InternalError); }
      campaigns := campaigns[id := Owned(c.tenant, row)];
      return CampaignOut(id, row);
    }

    method CreateProspect(c: Caller, id: Id, f: ProspectForm, now: Time) returns (r: Response)
      modifies this
      ensures Outcome(Snapshot(), r) == Decided(old(Snapshot()), c, Request.CreateProspect(id, f, now),
        PlanCreateProspect(old(Snapshot()), c, id, f, now))
    {
      if !c.CanWrite() { return Refusal(WriteForbidden); }
      if f.campaign.Some? && Find(campaigns, c.tenant, f.campaign.value).None? { return Refusal(CampaignNotFound); }
      if f.site.None? { return Refusal(WebsiteInvalid); }
      var domain := f.site.value.domain;
      if DomainTaken(prospects, c.tenant, domain) { return Refusal(DomainDuplicate); }
      if f.verified && !Truthy(f.email) { return Refusal(ContactEmailRequired); }
      var row := Prospect(f.campaign, Strip(f.company), f.site.value.url, domain, Qualified, f.email, f.verified,
                          None, false, f.qualification, f.value, Some(c.sub), f.info);
      if f.verified { row := row.(verifiedAt := Some(now)); }
      OneWrite(Snapshot(), c.tenant, NewProspect(id, row));
      if id in prospects { return Refusal(DomainDuplicate); }
      prospects := prospects[id := Owned(c.tenant, row)];
      return ProspectOut(id, row);
    }

    /** `_upsert_suppression`: at most one row per tenant and address. */
    method UpsertSuppression(t: string, email: string, row: Suppression) returns (stored: Suppression)
      modifies this`suppressions, this`journal
      ensures Snapshot() == Apply(old(Snapshot()), t, Suppress(Norm(email), row))
      ensures stored == Upsert(if (t, Norm(email)) in old(suppressions)
                               then Some(old(suppressions)[(t, Norm(email))]) else None, row)
    {
      var key := (t, Norm(email));
      if key in suppressions {
        stored := suppressions[key].(reason := row.reason, source := row.source);
      } else {
        stored := row;
      }
      suppressions := suppressions[key := stored];
      journal := journal + [Owned(t, SuppressedFact(key.1))];
    }

    /** Assigns every field the request names; the verification time follows the verified flag. */
    static method SetFields(was: Prospect, d: ProspectPatch, now: Time) returns (row: Prospect)
      requires !NullsRequired(d)
      ensures row == Patched(was, d, now)
    {
      row := was;
      row := row.(status := Given(d.status, row.status));
      row := row.(email := GivenOption(NormalizedEmail(d.email), row.email));
      row := row.(verified := Given(d.verified, row.verified));
      row := row.(doNotContact := Given(d.doNotContact, row.doNotContact));
      row := row.(qualification := Given(d.qualification, row.qualification));
      row := row.(value := Given(d.value, row.value));
      row := row.(assignee := GivenOption(d.assignee, row.assignee));
      row := row.(info := GivenOption(d.info, row.info));
      if !d.verified.Keep? {
        row := row.(verifiedAt := if row.verified then Some(now) else None);
      }
    }

    method CheckEdit(c: Caller, pid: Id, d: ProspectPatch, ghost now: Time) returns (refusal: Option<Error>)
      ensures refusal.Some? ==> PlanUpdateProspect(Snapshot(), c, pid, d, now) == Refuse(c.tenant, refusal.value)
      ensures refusal.None? ==> PlanUpdateProspect(Snapshot(), c, pid, d, now).response.ProspectOut?
    {
      if Find(prospects, c.tenant, pid).None? {
        return Some(ProspectNotFound);
      }
      if d.email.Set? && d.email.value != "" && '@' !in Norm(d.email.value) { return Some(ContactEmailInvalid); }
      if d.verified == Set(true) && !Truthy(GivenOption(NormalizedEmail(d.email), prospects[pid].row.email)) {
        return Some(ContactEmailRequired);
      }
      if NullsRequired(d) { return Some(InternalError); }
      return None;
    }

    method UpdateProspect(c: Caller, pid: Id, d: ProspectPatch, now: Time) returns (r: Response)
      modifies this
      ensures Outcome(Snapshot(), r) == Decided(old(Snapshot()), c, Request.UpdateProspect(pid, d, now),
        PlanUpdateProspect(old(Snapshot()), c, pid, d, now))
    {
      ghost var s := Snapshot();
      if !c.CanWrite() { return Refusal(WriteForbidden); }
      var refusal := CheckEdit(c, pid, d, now);
      if refusal.Some? { return Refusal(refusal.value); }
      UpdateProspectCarriedOut(s, c, pid, d, now);
      var row := SetFields(prospects[pid].row, d, now);
      prospects := prospects[pid := Owned(c.tenant, row)];
      if d.doNotContact == Set(true) && Truthy(row.email) {
        var mark := Suppression("operator", "operator", Some(pid), Some(c.sub));
        var stored := UpsertSuppression(c.tenant, row.email.value, mark);
      }
      r := ProspectOut(pid, row);
    }

    /** The guards before the CRM call, and the errors that the call itself can raise. */
    method CheckPromotion(c: Caller, pid: Id, vertical: string, brand: string, ghost includeEmail: bool,
                          crm: CrmOutcome)
      returns (refusal: Option<Error>)
      ensures refusal.Some? ==>
        PlanPromote(Snapshot(), c, pid, vertical, brand, includeEmail, crm) == Refuse(c.tenant, refusal.value)
      ensures refusal.None? ==> PlanPromote(Snapshot(), c, pid, vertical, brand, includeEmail,
                                            crm).response.PromotionOut?
    {
      if Find(prospects, c.tenant, pid).None? { return Some(ProspectNotFound); }
      if prospects[pid].row.doNotContact { return Some(DoNotContact); }
      if Strip(vertical) == "" || Strip(brand) == "" { return Some(CrmScopeRequired); }
      if crm.CrmUnavailable? { return Some(CrmIsUnavailable); }
      if crm.CrmRejected? { return Some(CrmHasRejected); }
      if crm.CrmCrashed? { return Some(InternalError); }
      return None;
    }

    /** Hands the prospect to the CRM; only after the CRM has answered is anything stored. */
    method PromoteProspect(c: Caller, pid: Id, vertical: string, brand: string, includeEmail: bool, crm: CrmOutcome)
      returns (r: Response)
      modifies this
      ensures Outcome(Snapshot(), r) == Decided(old(Snapshot()), c, Promote(pid, vertical, brand, includeEmail, crm),
        PlanPromote(old(Snapshot()), c, pid, vertical, brand, includeEmail, crm))
    {
      ghost var s := Snapshot();
      if !c.CanWrite() { return Refusal(WriteForbidden); }
      var refusal := CheckPromotion(c, pid, vertical, brand, includeEmail, crm);
      if refusal.Some? { return Refusal(refusal.value); }
      var row := prospects[pid].row;
      var evidence := LatestComplete(c.tenant, pid);
      var email := None;
      if includeEmail && row.verified && Truthy(row.email) { email := row.email; }
      r := PromotionOut(pid, crm.ids, crm.already, evidence, email);
      prospects := prospects[pid := Owned(c.tenant, row.(status := Contacted))];
      journal := journal + [Owned(c.tenant, PromotedFact(pid, crm.ids))];
      PromoteCarriedOut(s, c, pid, vertical, brand, includeEmail, crm);
    }

    /** `order_by(created_at.desc()).first()` over completed analyses. */
    method LatestComplete(t: string, pid: Id) returns (best: Option<Id>)
      ensures best == Newest(CompleteOf(analyses, t, pid))
    {
      best := None;
      var found := CompleteOf(analyses, t, pid);
      var todo := found.Keys;
      while todo != {}
        invariant todo <= found.Keys
        invariant best.None? ==> todo == found.Keys
        invariant best.Some? ==>
          best.value in found && forall b :: b in found && b !in todo ==> NotNewer(found, b, best.value)
        decreases |todo|
      {
        var k :| k in todo;
        todo := todo - {k};
        TextLeIsTotal();
        if best.None? || !NotNewer(found, k, best.value) { best := Some(k); }
      }
      if best.Some? {
        assert IsNewest(found, best.value);
        NewestUnique(found, best.value, Newest(found).value);
      }
    }

    /** `select max(version)` for one prospect of the tenant, or 0. */
    method MaxVersion(t: string, pid: Id) returns (top: int)
      ensures top == CurrentMax(proposals, t, pid)
    {
      var found := VersionsOf(proposals, t, pid);
      var todo, best := found, None;
      while todo != {}
        invariant todo <= found
        invariant best.None? ==> todo == found
        invariant best.Some? ==> best.value in found && forall v :: v in found && v !in todo ==> v <= best.value
        decreases |todo|
      {
        var v :| v in todo;
        todo := todo - {v};
        if best.None? || best.value < v { best := Some(v); }
      }
      top := if best.Some? then best.value else 0;
    }

    /** `flush` of a new analysis: the primary key decides. */
    method InsertAnalysis(t: string, id: Id, row: Analysis) returns (ok: bool)
      modifies this`analyses
      ensures ok == Allowed(old(Snapshot()), t, NewAnalysis(id, row))
      ensures Snapshot() == if ok then Apply(old(Snapshot()), t, NewAnalysis(id, row)) else old(Snapshot())
    {
      ok := id !in analyses;
      if ok { analyses := analyses[id := Owned(t, row)]; }
    }

    method RunAnalysis(c: Caller, pid: Id, id: Id, url: string, audit: Audit, now: Time) returns (r: Response)
      modifies this
      ensures Outcome(Snapshot(), r) == Decided(old(Snapshot()), c, Request.RunAnalysis(pid, id, url, audit, now),
        PlanRunAnalysis(old(Snapshot()), c, pid, id, url, audit, now))
    {
      ghost var s := Snapshot();
      if !c.CanWrite() { return Refusal(WriteForbidden); }
      if Find(prospects, c.tenant, pid).None? { return Refusal(ProspectNotFound); }
      var prospect := prospects[pid].row;
      match audit {
        case UrlRefused(code) => return Refusal(AuditError(code));
        case Audited(score, evidence, titles) =>
          var row := Analysis(pid, Complete, c.sub, url, score, evidence, titles, now, None);
          var ok := InsertAnalysis(c.tenant, id, row);
          if !ok { return Refusal(InternalError); }
          if prospect.qualification < score { prospect := prospect.(qualification := score); }
          prospect := prospect.(status := AnalysisReady);
          prospects := prospects[pid := Owned(c.tenant, prospect)];
          TwoWrites(s, c.tenant, NewAnalysis(id, row), SetProspect(pid, prospect));
          return AnalysisOut(id, row);
        case AuditRefused(code) =>
          var row := Analysis(pid, Failed, c.sub, url, 0, 0, [], now, Some(code));
          OneWrite(s, c.tenant, NewAnalysis(id, row));
          var ok := InsertAnalysis(c.tenant, id, row);
          return Refusal(if ok then AuditError(code) else InternalError);
        case AuditCrashed(other) =>
          var row := Analysis(pid, Failed, c.sub, url, 0, 0, [], now, Some("ANALYSIS_FAILED"));
          OneWrite(s, c.tenant, NewAnalysis(other, row));
          var ok := InsertAnalysis(c.tenant, other, row);
          return Refusal(if ok then AnalysisFailed else InternalError);
      }
    }

    /** `_latest_complete_analysis` */
    method Pick(t: string, pid: Id, wanted: Option<Id>) returns (picked: Option<Id>)
      ensures picked == PickAnalysis(Snapshot(), t, pid, wanted)
    {
      if Truthy(wanted) {
        picked := if IsComplete(analyses, t, pid, wanted.value) then wanted else None;
      } else {
        picked := LatestComplete(t, pid);
      }
    }

    method GenerateProposal(c: Caller, pid: Id, analysis: Option<Id>, id: Id) returns (r: Response)
      modifies this
      ensures Outcome(Snapshot(), r) == Decided(old(Snapshot()), c, Request.GenerateProposal(pid, analysis, id),
        PlanGenerate(old(Snapshot()), c, pid, analysis, id))
    {
      ghost var s := Snapshot();
      if !c.CanWrite() { return Refusal(WriteForbidden); }
      if Find(prospects, c.tenant, pid).None? { return Refusal(ProspectNotFound); }
      var prospect := prospects[pid].row;
      var picked := Pick(c.tenant, pid, analysis);
      if picked.None? { return Refusal(AnalysisRequired); }
      var top := MaxVersion(c.tenant, pid);
      var row := NewDraft(c, pid, picked.value, top + 1, ProposalCopy(prospect, analyses[picked.value].row));
      assert PlanGenerate(s, c, pid, analysis, id).response == ProposalOut(id, row);
      GenerateCarriedOut(s, c, pid, analysis, id);
      if id in proposals || HasVersion(proposals, pid, top + 1) { return Refusal(VersionConflict); }
      proposals := proposals[id := Owned(c.tenant, row)];
      prospects := prospects[pid := Owned(c.tenant, prospect.(status := ProposalReady))];
      return ProposalOut(id, row);
    }

    method UpdateProposal(c: Caller, id: Id, d: ContentPatch) returns (r: Response)
      modifies this
      ensures Outcome(Snapshot(), r) == Decided(old(Snapshot()), c, Request.UpdateProposal(id, d),
        PlanUpdateProposal(old(Snapshot()), c, id, d))
    {
      if !c.CanWrite() { return Refusal(WriteForbidden); }
      if Find(proposals, c.tenant, id).None? { return Refusal(ProposalNotFound); }
      var row := proposals[id].row;
      if row.status == Approved { return Refusal(ApprovedImmutable); }
      if d.headline.Null? || d.summary.Null? || d.subject.Null? || d.body.Null? { return Refusal(InternalError); }
      var content := row.content;
      content := content.(headline := Given(d.headline, content.headline));
      content := content.(summary := Given(d.summary, content.summary));
      content := content.(plan := if d.plan.Null? then "null" else Given(d.plan, content.plan));
      content := content.(subject := Given(d.subject, content.subject));
      content := content.(body := Given(d.body, content.body));
      row := row.(content := content);
      OneWrite(Snapshot(), c.tenant, SetProposal(id, row, None));
      proposals := proposals[id := Owned(c.tenant, row)];
      return ProposalOut(id, row);
    }

    method ApproveProposal(c: Caller, id: Id, av: bool, cv: bool, ca: bool, lv: bool, note: Option<string>, now: Time)
      returns (r: Response)
      modifies this
      ensures Outcome(Snapshot(), r)
        == Decided(old(Snapshot()), c, Request.ApproveProposal(id, av, cv, ca, lv, note, now),
                   PlanApprove(old(Snapshot()), c, id, Review(av, cv, ca, lv, note, c.sub, now), now))
    {
      ghost var s := Snapshot();
      if !c.CanWrite() { return Refusal(WriteForbidden); }
      if Find(proposals, c.tenant, id).None? { return Refusal(ProposalNotFound); }
      var row := proposals[id].row;
      if Find(prospects, c.tenant, row.prospect).None? { return Refusal(ProspectNotFound); }
      var prospect := prospects[row.prospect].row;
      if !(av && cv && ca && lv) { return Refusal(VerificationIncomplete); }
      if !prospect.verified || !Truthy(prospect.email) { return Refusal(ContactNotVerified); }
      if prospect.doNotContact || IsSuppressed(suppressions, c.tenant, prospect.email.value) {
        return Refusal(ContactSuppressed);
      }
      if !IsComplete(analyses, c.tenant, row.prospect, row.analysis) { return Refusal(AnalysisRequired); }
      if analyses[row.analysis].row.evidence < 1 { return Refusal(EvidenceRequired); }
      var v := Review(av, cv, ca, lv, note, c.sub, now);
      journal := journal + [Owned(c.tenant, ApprovedFact(id, v, row.content))];
      row := row.(status := Approved, review := Some(v), approvedBy := Some(c.sub), approvedAt := Some(now));
      proposals := proposals[id := Owned(c.tenant, row)];
      prospect := prospect.(status := ApprovedForContact);
      prospects := prospects[row.prospect := Owned(c.tenant, prospect)];
      TwoWrites(s, c.tenant, SetProposal(id, row, Some(ApprovedFact(id, v, row.content))),
                SetProspect(row.prospect, prospect));
      return ProposalOut(id, row);
    }

    method CreateShare(c: Caller, id: Id, token: string, expires: Time) returns (r: Response)
      modifies this
      ensures Outcome(Snapshot(), r) == Decided(old(Snapshot()), c, Request.CreateShare(id, token, expires),
        PlanCreateShare(old(Snapshot()), c, id, token, expires))
    {
      if !c.CanWrite() { return Refusal(WriteForbidden); }
      if Find(proposals, c.tenant, id).None? { return Refusal(ProposalNotFound); }
      var row := proposals[id].row;
      if row.status != Approved { return Refusal(NotApproved); }
      row := row.(share := Some(Share(Sha256(token), expires)));
      OneWrite(Snapshot(), c.tenant, SetProposal(id, row, None));
      proposals := proposals[id := Owned(c.tenant, row)];
      return ShareOut(id, token, expires);
    }

    /** Everything that can hold a delivery back, in order. */
    method CheckDelivery(c: Caller, f: DeliveryForm) returns (refusal: Option<Error>)
      ensures refusal.Some? ==> PlanDeliver(Snapshot(), c, f) == Refuse(c.tenant, refusal.value)
      ensures refusal.None? ==>
        && Find(proposals, c.tenant, f.proposal).Some?
        && Find(prospects, c.tenant, proposals[f.proposal].row.prospect).Some?
        && PlanDeliver(Snapshot(), c, f)
           == Send(Snapshot(), c, f, proposals[f.proposal].row, prospects[proposals[f.proposal].row.prospect].row)
    {
      var t := c.tenant;
      if Find(proposals, t, f.proposal).None? { return Some(ProposalNotFound); }
      var row := proposals[f.proposal].row;
      if Find(prospects, t, row.prospect).None? { return Some(ProspectNotFound); }
      var prospect := prospects[row.prospect].row;
      if row.status != Approved || row.approvedBy.None? { return Some(NotApproved); }
      var recipient := Recipient(f, prospect);
      if recipient == "" || '@' !in recipient { return Some(RecipientRequired); }
      if f.testRecipient.Some? {
        if recipient != Norm(c.sub) { return Some(TestRecipientForbidden); }
      } else {
        if !prospect.verified { return Some(ContactNotVerified); }
        if prospect.doNotContact || IsSuppressed(suppressions, t, recipient) { return Some(ContactSuppressed); }
        if row.Processed() { return Some(AlreadyProcessed); }
        var limit := if t in policies then policies[t].dailyLimit else DEFAULT_DAILY_LIMIT;
        if prospect.campaign.Some? {
          if Find(campaigns, t, prospect.campaign.value).None? { return Some(CampaignNotFound); }
          limit := campaigns[prospect.campaign.value].row.dailyLimit;
        }
        if |Counted(proposals, t, Midnight(f.now))| >= limit { return Some(DailyLimitReached); }
      }
      refusal := ShareRefusal(row, f.shareToken, f.now + f.shareLag);
    }

    /** Calls the mail provider and works out the new row; a test send leaves the row as it is. */
    static method CallProvider(ghost s: Db, c: Caller, f: DeliveryForm, was: Proposal, prospect: Prospect)
      returns (row: Proposal, r: Response, ghost fact: Fact)
      ensures Send(s, c, f, was, prospect) == Plan(c.tenant, r, [SetProposal(f.proposal, row, Some(fact))])
      ensures f.testRecipient.Some? ==> row == was
      ensures r.Refusal? <==> Receipt(f).Refused?
    {
      row := was;
      var test := f.testRecipient.Some?;
      var at := f.now + f.shareLag + f.sendLag;
      var receipt := Receipt(f);
      fact := Attempt(s, c, f, row, prospect);
      if receipt.Refused? {
        if !test {
          row := row.(delivery := DeliveryFailed, provider := Some(f.provider));
        }
        r := Refusal(DeliveryError(receipt.code));
      } else {
        var status := ResolvedStatus(f);
        if !test {
          row := row.(delivery := status, provider := Some(f.provider), deliveryId := Some(receipt.deliveryId),
                      deliveredAt := if External(f) then Some(at) else None, processedAt := Some(at));
        }
        r := DeliveryOut(f.proposal, status, f.provider, receipt.deliveryId, External(f), Recipient(f, prospect));
      }
    }

    method DeliverProposal(c: Caller, f: DeliveryForm) returns (r: Response)
      modifies this
      ensures Outcome(Snapshot(), r)
        == Decided(old(Snapshot()), c, Deliver(f), PlanDeliver(old(Snapshot()), c, f))
    {
      ghost var s := Snapshot();
      if !c.CanWrite() { return Refusal(WriteForbidden); }
      var refusal := CheckDelivery(c, f);
      if refusal.Some? { return Refusal(refusal.value); }
      var was := proposals[f.proposal].row;
      var row;
      ghost var fact;
      row, r, fact := CallProvider(s, c, f, was, prospects[was.prospect].row);
      DeliveryCarriedOut(s, c, f, row, r, fact);
      proposals := proposals[f.proposal := Owned(c.tenant, row)];
      journal := journal + [Owned(c.tenant, fact)];
    }

    method CheckSuppression(c: Caller, email: string, ghost reason: string,
                            about: Option<Id>) returns (refusal: Option<Error>)
      ensures refusal.Some? ==>
        PlanAddSuppression(Snapshot(), c, email, reason, about) == Refuse(c.tenant, refusal.value)
      ensures refusal.None? ==> PlanAddSuppression(Snapshot(), c, email, reason, about).response.SuppressionOut?
      ensures refusal.None? && Truthy(about) ==> Find(prospects, c.tenant, about.value).Some?
    {
      if '@' !in Norm(email) { return Some(EmailInvalid); }
      if Truthy(about) && Find(prospects, c.tenant, about.value).None? { return Some(ProspectNotFound); }
      return None;
    }

    method AddSuppression(c: Caller, email: string, reason: string, about: Option<Id>) returns (r: Response)
      modifies this
      ensures Outcome(Snapshot(), r) == Decided(old(Snapshot()), c, Request.AddSuppression(email, reason, about),
        PlanAddSuppression(old(Snapshot()), c, email, reason, about))
    {
      ghost var s := Snapshot();
      if !c.CanWrite() { return Refusal(WriteForbidden); }
      var refusal := CheckSuppression(c, email, reason, about);
      if refusal.Some? { return Refusal(refusal.value); }
      AddSuppressionCarriedOut(s, c, email, reason, about);
      var named := Truthy(about);
      NormIdempotent(email);
      var row := Suppression(reason, "operator", if named then about else None, Some(c.sub));
      var stored := UpsertSuppression(c.tenant, Norm(email), row);
      if named {
        prospects := prospects[about.value := Owned(c.tenant, prospects[about.value].row.(doNotContact := true))];
      }
      return SuppressionOut(Norm(email), stored);
    }

    /** Opened by a recipient, without authentication: the token decides. */
    method PublicOptOut(pid: Id, token: Token) returns (r: Response)
      modifies this
      ensures Outcome(Snapshot(), r)
        == Finish(old(Snapshot()), OptOut(pid, token), PlanOptOut(old(Snapshot()), pid, token))
    {
      ghost var s := Snapshot();
      if pid !in prospects { return Refusal(OptOutInvalid); }
      var t, prospect := prospects[pid].tenant, prospects[pid].row;
      if !Truthy(prospect.email) || token != OptOutToken(t, pid, prospect.email.value) {
        return Refusal(OptOutInvalid);
      }
      var mark := Suppression("opt_out", "public_opt_out", Some(pid), None);
      var stored := UpsertSuppression(t, prospect.email.value, mark);
      prospect := prospect.(doNotContact := true);
      prospects := prospects[pid := Owned(t, prospect)];
      TwoWrites(s, t, Suppress(Norm(prospect.email.value), mark), SetProspect(pid, prospect));
      return OptOutDone;
    }

    method UpdatePolicy(c: Caller, policy: Policy) returns (r: Response)
      modifies this
      ensures Outcome(Snapshot(), r) == Step(old(Snapshot()), By(c, Request.UpdatePolicy(policy)))
    {
      if !c.CanWrite() { return Refusal(WriteForbidden); }
      var row := policy.(updatedBy := c.sub);
      OneWrite(Snapshot(), c.tenant, SetPolicy(row));
      policies := policies[c.tenant := row];
      return PolicyOut(row);
    }

    /** One pass over the data rows, remembering the domains seen; a row is skipped with its reason or flushed. */
    method CreateFromCsv(c: Caller, campaign: Option<Id>, headers: Option<seq<string>>, rows: seq<CsvRow>,
                         note: Option<string>) returns (r: Response)
      modifies this
      ensures Outcome(Snapshot(), r) == Decided(old(Snapshot()), c, BulkCsv(campaign, headers, rows, note),
        PlanBulkCsv(old(Snapshot()), c, campaign, headers, rows, note))
    {
      ghost var s := Snapshot();
      if !c.CanWrite() { return Refusal(WriteForbidden); }
      if campaign.Some? && Find(campaigns, c.tenant, campaign.value).None? { return Refusal(CampaignNotFound); }
      if headers.None? { return Refusal(CsvHeaderRequired); }
      if !HasRequiredColumns(headers.value) { return Refusal(CsvColumnsRequired); }
      if |rows| > CSV_BULK_MAX_ROWS { return Refusal(CsvTooManyRows); }
      var created, skipped, clash := FlushRows(c, campaign, NoteOf(note), rows);
      if clash { return Refusal(InternalError); }
      return BulkOut(created, skipped, |rows|);
    }

    method FlushRows(c: Caller, campaign: Option<Id>, note: string, rows: seq<CsvRow>)
      returns (created: seq<(Id, Prospect)>, skipped: seq<Skip>, clash: bool)
      modifies this`prospects
      ensures !clash ==> created == BulkCreated(c, campaign, note, rows, DomainsOf(old(prospects), c.tenant), |rows|)
      ensures !clash ==> skipped == SkippedRows(rows, DomainsOf(old(prospects), c.tenant), |rows|)
      ensures Commit(old(Snapshot()), c.tenant,
                     Inserts(BulkCreated(c, campaign, note, rows, DomainsOf(old(prospects), c.tenant), |rows|)))
        == if clash then None else Some(Snapshot())
      ensures clash ==> prospects == old(prospects)
    {
      ghost var s, taken := Snapshot(), DomainsOf(prospects, c.tenant);
      var before := prospects;
      created, skipped, clash := [], [], false;
      var seen: set<string> := {};
      var i := 0;
      while i < |rows|
        invariant 0 <= i <= |rows|
        invariant seen == SeenDomains(rows, i)
        invariant forall d :: d !in seen ==> (DomainTaken(prospects, c.tenant, d) <==> d in taken)
        invariant created == BulkCreated(c, campaign, note, rows, taken, i)
        invariant skipped == SkippedRows(rows, taken, i)
        invariant Commit(s, c.tenant, Inserts(created)) == Some(Snapshot())
      {
        var ok;
        created, skipped, ok := FlushRow(c, campaign, note, rows, i, seen, created, skipped, s, taken);
        i := i + 1;
        if !ok {
          BulkFails(s, c, campaign, note, rows, taken, i);
          prospects, clash := before, true;
          return;
        }
        if ValidRow(rows[i - 1]) { seen := seen + {rows[i - 1].site.value.domain}; }
      }
    }

    /** One row: listed as skipped with the reason, or flushed as a new prospect. */
    method FlushRow(c: Caller, campaign: Option<Id>, note: string, rows: seq<CsvRow>, i: nat, seen: set<string>,
                    made: seq<(Id, Prospect)>, passed: seq<Skip>, ghost s: Db, ghost taken: set<string>)
      returns (created: seq<(Id, Prospect)>, skipped: seq<Skip>, ok: bool)
      requires i < |rows| && seen == SeenDomains(rows, i)
      requires made == BulkCreated(c, campaign, note, rows, taken, i) && passed == SkippedRows(rows, taken, i)
      requires forall d :: d !in seen ==> (DomainTaken(prospects, c.tenant, d) <==> d in taken)
      requires Commit(s, c.tenant, Inserts(made)) == Some(Snapshot())
      modifies this`prospects
      ensures created == BulkCreated(c, campaign, note, rows, taken, i + 1)
          && skipped == SkippedRows(rows, taken, i + 1)
      ensures Commit(s, c.tenant, Inserts(created)) == if ok then Some(Snapshot()) else None
      ensures forall d :: d !in SeenDomains(rows, i + 1) ==> (DomainTaken(prospects, c.tenant, d) <==> d in taken)
    {
      var row := rows[i];
      created, skipped, ok := made, passed, true;
      var reason := ReasonToSkip(row, seen, prospects, c.tenant);
      ReasonIsRight(rows, i, taken, prospects, c.tenant);
      if reason.Some? {
        skipped := skipped + [Skip(i + 2, reason.value)];
      } else {
        var prospect := RowProspect(c, campaign, note, row);
        ok := Flush(c.tenant, row.id, prospect, s, created);
        created := created + [(row.id, prospect)];
      }
    }

    /** `flush` of one new prospect inside the running transaction: the primary key decides. */
    method Flush(t: string, id: Id, p: Prospect, ghost s: Db, ghost earlier: seq<(Id, Prospect)>) returns (ok: bool)
      requires Commit(s, t, Inserts(earlier)) == Some(Snapshot()) && !DomainTaken(prospects, t, p.domain)
      modifies this`prospects
      ensures Commit(s, t, Inserts(earlier + [(id, p)])) == if ok then Some(Snapshot()) else None
      ensures ok ==> prospects == old(prospects)[id := Owned(t, p)]
      ensures forall d :: d != p.domain ==> (DomainTaken(prospects, t, d) <==> DomainTaken(old(prospects), t, d))
    {
      FlushStep(s, t, earlier, (id, p), Snapshot());
      ok := id !in prospects;
      if ok {
        TakenAfterInsert(prospects, t, id, p);
        prospects := prospects[id := Owned(t, p)];
      }
    }
  }

  /** The first reason that applies, checked against the domains seen in the file and those in the table. */
  function ReasonToSkip(row: CsvRow, seen: set<string>, prospects: Table<Prospect>, t: string): Option<SkipReason> {
    if |row.company| < 2 then Some(CompanyNameInvalid)
    else if !HttpUrl(row.url) || row.site.None? then Some(WebsiteIsInvalid)
    else if row.site.value.domain in seen then Some(DuplicateInBatch)
    else if DomainTaken(prospects, t, row.site.value.domain) then Some(DuplicateDomain)
    else None
  }

  lemma ReasonIsRight(rows: seq<CsvRow>, i: nat, taken: set<string>, prospects: Table<Prospect>, t: string)
    requires i < |rows|
    requires forall d :: d !in SeenDomains(rows, i) ==> (DomainTaken(prospects, t, d) <==> d in taken)
    ensures var reason := ReasonToSkip(rows[i], SeenDomains(rows, i), prospects, t);
      && (reason.None? <==> FirstOfNewDomain(rows, taken, i))
      && (reason.Some? ==> reason.value == SkipReasonOf(rows, i))
  {
    if rows[i].site.Some? { SeenMeans(rows, i, rows[i].site.value.domain); }
  }

  lemma TakenAfterInsert(prospects: Table<Prospect>, t: string, id: Id, p: Prospect)
    requires id !in prospects
    ensures forall d :: d != p.domain ==>
      (DomainTaken(prospects[id := Owned(t, p)], t, d) <==> DomainTaken(prospects, t, d))
  {
    var after := prospects[id := Owned(t, p)];
    forall d | d != p.domain ensures DomainTaken(after, t, d) <==> DomainTaken(prospects, t, d) {
      if DomainTaken(prospects, t, d) {
        var k :| k in prospects && prospects[k].tenant == t && prospects[k].row.domain == d;
        assert k in after;
      }
    }
  }

  lemma {:induction false} CommitConcat(s: Db, t: string, a: seq<Write>, b: seq<Write>)
    ensures Commit(s, t, a + b) == match Commit(s, t, a) case None => None case Some(mid) => Commit(mid, t, b)
    decreases |a|
  {
    if a == [] {
      assert a + b == b;
    } else {
      assert (a + b)[1..] == a[1..] + b;
      if Allowed(s, t, a[0]) { CommitConcat(Apply(s, t, a[0]), t, a[1..], b); }
    }
  }

  lemma FlushStep(s: Db, t: string, created: seq<(Id, Prospect)>, next: (Id, Prospect), now: Db)
    requires Commit(s, t, Inserts(created)) == Some(now)
    ensures Commit(s, t, Inserts(created + [next])) ==
      if Allowed(now, t, NewProspect(next.0, next.1)) then Some(Apply(now, t, NewProspect(next.0, next.1))) else None
  {
    assert Inserts(created + [next]) == Inserts(created) + [NewProspect(next.0, next.1)];
    CommitConcat(s, t, Inserts(created), [NewProspect(next.0, next.1)]);
    OneWrite(now, t, NewProspect(next.0, next.1));
  }

  lemma {:induction false} BulkPrefix(c: Caller, campaign: Option<Id>, note: string, rows: seq<CsvRow>,
                                      taken: set<string>, i: nat, n: nat)
    requires i <= n <= |rows|
    ensures BulkCreated(c, campaign, note, rows, taken, i) <= BulkCreated(c, campaign, note, rows, taken, n)
  {
    if i < n { BulkPrefix(c, campaign, note, rows, taken, i, n - 1); }
  }

  /** A batch whose first rows fail to commit fails as a whole. */
  lemma BulkFails(s: Db, c: Caller, campaign: Option<Id>, note: string, rows: seq<CsvRow>, taken: set<string>, i: nat)
    requires i <= |rows| && Commit(s, c.tenant, Inserts(BulkCreated(c, campaign, note, rows, taken, i))).None?
    ensures Commit(s, c.tenant, Inserts(BulkCreated(c, campaign, note, rows, taken, |rows|))).None?
  {
    BulkPrefix(c, campaign, note, rows, taken, i, |rows|);
    var some := Inserts(BulkCreated(c, campaign, note, rows, taken, i));
    var all := Inserts(BulkCreated(c, campaign, note, rows, taken, |rows|));
    assert all == some + all[|some|..];
    CommitConcat(s, c.tenant, some, all[|some|..]);
  }

  ghost function SeenDomains(rows: seq<CsvRow>, n: nat): set<string>
    requires n <= |rows|
  {
    if n == 0 then {}
    else SeenDomains(rows, n - 1) + if ValidRow(rows[n - 1]) then {rows[n - 1].site.value.domain} else {}
  }

  lemma {:induction false} SeenMeans(rows: seq<CsvRow>, n: nat, d: string)
    requires n <= |rows|
    ensures d in SeenDomains(rows, n) <==> exists j :: 0 <= j < n && ValidRow(rows[j]) && rows[j].site.value.domain == d
  {
    if n != 0 { SeenMeans(rows, n - 1, d); }
  }
}
