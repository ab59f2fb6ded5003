/** What the requests about campaigns, prospects, analyses, suppressions and policies store, field by field. */
module ProspectRules {
  import opened Text
  import opened Store
  import opened Requests
  import opened Plans
  import opened DeliveryRules

  // ----- campaigns and policies

  lemma CampaignIsStored(s: Db, c: Caller, id: Id, made: Campaign)
    requires MayWrite(c) && id !in s.campaigns
    ensures var campaign := made.(name := Strip(made.name));
      Step(s, By(c, CreateCampaign(id, made)))
      == Outcome(s.(campaigns := s.campaigns[id := Owned(c.tenant, campaign)]), CampaignOut(id, campaign))
  {
    OneWrite(s, c.tenant, NewCampaign(id, made.(name := Strip(made.name))));
  }

  lemma PolicyIsStored(s: Db, c: Caller, policy: Policy)
    requires MayWrite(c)
    ensures var signed := policy.(updatedBy := c.sub);
      Step(s, By(c, UpdatePolicy(policy)))
      == Outcome(s.(policies := s.policies[c.tenant := signed]), PolicyOut(signed))
  {
    OneWrite(s, c.tenant, SetPolicy(policy.(updatedBy := c.sub)));
  }

  // ----- creating a prospect

  ghost predicate HasDomain(s: Db, t: string, domain: string) {
    exists k :: Holds(s.prospects, t, k) && s.prospects[k].row.domain == domain
  }

  lemma DomainMeans(s: Db, t: string, domain: string)
    ensures DomainTaken(s.prospects, t, domain) <==> HasDomain(s, t, domain)
  {
    if DomainTaken(s.prospects, t, domain) {
      var k :| k in s.prospects && s.prospects[k].tenant == t && s.prospects[k].row.domain == domain;
      assert Holds(s.prospects, t, k);
    }
  }

  /** The first objection to a new prospect. */
  ghost function IntakeObjection(s: Db, t: string, f: ProspectForm): Option<Error> {
    if f.campaign.Some? && !Holds(s.campaigns, t, f.campaign.value) then Some(CampaignNotFound)
    else if f.site.None? then Some(WebsiteInvalid)
    else if HasDomain(s, t, f.site.value.domain) then Some(DomainDuplicate)
    else if f.verified && (f.email == None || f.email == Some("")) then Some(ContactEmailRequired)
    else None
  }

  /** A prospect is created exactly when its campaign is the tenant's, its domain is new to the tenant, and a verified
      contact has an address; it starts as qualified, contactable and assigned to the caller. */
  lemma CreatedIff(s: Db, c: Caller, id: Id, f: ProspectForm, now: Time)
    requires MayWrite(c) && id !in s.prospects
    ensures var after := Step(s, By(c, CreateProspect(id, f, now)));
      match IntakeObjection(s, c.tenant, f)
      case Some(error) => after == Outcome(s, Refusal(error))
      case None =>
        && after.response.ProspectOut? && after.response.id == id
        && var p := after.response.prospect;
        && after.db == s.(prospects := s.prospects[id := Owned(c.tenant, p)])
        && p.campaign == f.campaign && p.company == Strip(f.company) && p.url == f.site.value.url
        && p.domain == f.site.value.domain && p.status == Qualified && p.email == f.email
        && p.verified == f.verified && p.verifiedAt == (if f.verified then Some(now) else None) && !p.doNotContact
        && p.qualification == f.qualification && p.value == f.value && p.assignee == Some(c.sub) && p.info == f.info
  {
    StepIsDecided(s, c, CreateProspect(id, f, now));
    if f.site.Some? { DomainMeans(s, c.tenant, f.site.value.domain); }
    var plan := PlanCreateProspect(s, c, id, f, now);
    if plan.writes != [] { OneWrite(s, c.tenant, plan.writes[0]); }
  }

  // ----- editing a prospect

  /** A required column after an edit. */
  predicate Edits<T(==)>(was: T, change: Patch<T>, now: T) {
    match change case Keep => now == was case Set(v) => now == v case Null => false
  }

  /** A nullable column after an edit. */
  predicate EditsOption<T(==)>(was: Option<T>, change: Patch<T>, now: Option<T>) {
    match change case Keep => now == was case Set(v) => now == Some(v) case Null => now == None
  }

  /** The stored address: an empty one as it is, any other in its normal form. */
  function AddressAfter(was: Option<string>, change: Patch<string>): Option<string> {
    match change
    case Keep => was
    case Null => None
    case Set(v) => Some(if v == "" then "" else Norm(v))
  }

  predicate IsEdited(p: Prospect, d: ProspectPatch, now: Time, q: Prospect) {
    && Edits(p.status, d.status, q.status) && q.email == AddressAfter(p.email, d.email)
    && Edits(p.verified, d.verified, q.verified) && Edits(p.doNotContact, d.doNotContact, q.doNotContact)
    && q.verifiedAt == (match d.verified
                        case Keep => p.verifiedAt
                        case Set(on) => if on then Some(now) else None
                        case Null => None)
    && Edits(p.qualification, d.qualification, q.qualification) && Edits(p.value, d.value, q.value)
    && EditsOption(p.assignee, d.assignee, q.assignee) && EditsOption(p.info, d.info, q.info)
    && q.campaign == p.campaign && q.company == p.company && q.url == p.url && q.domain == p.domain
  }

  lemma PatchedIsEdited(p: Prospect, d: ProspectPatch, now: Time)
    ensures NullsRequired(d) || IsEdited(p, d, now, Patched(p, d, now))
    ensures Patched(p, d, now).email == AddressAfter(p.email, d.email)
  {}

  /** The first objection to an edit. */
  function EditObjection(p: Prospect, d: ProspectPatch): Option<Error> {
    var email := AddressAfter(p.email, d.email);
    if d.email.Set? && d.email.value != "" && '@' !in Norm(d.email.value) then Some(ContactEmailInvalid)
    else if d.verified == Set(true) && (email == None || email == Some("")) then Some(ContactEmailRequired)
    else if d.status.Null? || d.verified.Null? || d.doNotContact.Null? || d.qualification.Null? || d.value.Null?
      then Some(InternalError)
    else None
  }

  /** The row of the suppression list after an operator suppresses an address: its reason and source are the operator's,
      its prospect and creator those of the first time. */
  function Listing(s: Db, t: string, email: string, reason: string, source: string, about: Option<Id>,
                   actor: Option<string>): Suppression {
    if (t, email) in s.suppressions
    then Suppression(reason, source, s.suppressions[(t, email)].prospect, s.suppressions[(t, email)].actor)
    else Suppression(reason, source, about, actor)
  }

  /** The store with the address suppressed. */
  function WithSuppression(s: Db, t: string, email: string, reason: string, source: string, about: Option<Id>,
                           actor: Option<string>): Db {
    s.(suppressions := s.suppressions[(t, email) := Listing(s, t, email, reason, source, about, actor)],
       journal := s.journal + [Owned(t, SuppressedFact(email))])
  }

  lemma SuppressMeans(s: Db, t: string, email: string, row: Suppression)
    ensures Apply(s, t, Suppress(email, row))
      == WithSuppression(s, t, email, row.reason, row.source, row.prospect, row.actor)
  {}

  /** An accepted edit sets exactly the named fields, and the verification time with the verification; a contact marked
      as not to be contacted is also suppressed under the address stored then. */
  lemma EditStores(s: Db, c: Caller, pid: Id, d: ProspectPatch, now: Time)
    requires MayWrite(c) && Holds(s.prospects, c.tenant, pid)
    ensures var p, after := s.prospects[pid].row, Step(s, By(c, UpdateProspect(pid, d, now)));
      match EditObjection(p, d)
      case Some(error) => after == Outcome(s, Refusal(error))
      case None =>
        && after.response.ProspectOut? && after.response.id == pid
        && var q := after.response.prospect;
        && IsEdited(p, d, now, q)
        && var stored := s.(prospects := s.prospects[pid := Owned(c.tenant, q)]);
           after.db == if d.doNotContact == Set(true) && q.email != None && q.email != Some("")
                       then WithSuppression(stored, c.tenant, Norm(q.email.value), "operator", "operator", Some(pid),
                                            Some(c.sub))
                       else stored
  {
    StepIsDecided(s, c, UpdateProspect(pid, d, now));
    PatchedIsEdited(s.prospects[pid].row, d, now);
    if PlanUpdateProspect(s, c, pid, d, now).response.ProspectOut? {
      UpdateProspectCarriedOut(s, c, pid, d, now);
      var q := Patched(s.prospects[pid].row, d, now);
      if q.email.Some? {
        SuppressMeans(Apply(s, c.tenant, SetProspect(pid, q)), c.tenant, Norm(q.email.value),
                      Suppression("operator", "operator", Some(pid), Some(c.sub)));
      }
    }
  }

  // ----- suppressing and opting out

  /** An operator's suppression lists the normal form of the address, and marks the prospect if one is named. */
  lemma SuppressionStores(s: Db, c: Caller, email: string, reason: string, about: Option<Id>)
    requires MayWrite(c)
    ensures var t, e, after := c.tenant, Norm(email), Step(s, By(c, Request.AddSuppression(email, reason, about)));
      var named := about != None && about != Some("");
      if '@' !in e then after == Outcome(s, Refusal(EmailInvalid))
      else if named && !Holds(s.prospects, t, about.value) then after == Outcome(s, Refusal(ProspectNotFound))
      else
        var listed := WithSuppression(s, t, e, reason, "operator", if named then about else None, Some(c.sub));
        && after.response == SuppressionOut(e, listed.suppressions[(t, e)])
        && after.db ==
           if named
           then listed.(prospects := s.prospects[about.value :=
             Owned(t, s.prospects[about.value].row.(doNotContact := true))])
           else listed
  {
    StepIsDecided(s, c, Request.AddSuppression(email, reason, about));
    if PlanAddSuppression(s, c, email, reason, about).response.SuppressionOut? {
      AddSuppressionCarriedOut(s, c, email, reason, about);
      SuppressMeans(s, c.tenant, Norm(email),
                    Suppression(reason, "operator", if Truthy(about) then about else None, Some(c.sub)));
    }
  }

  /** An opt-out that is accepted lists the prospect's own address, by nobody, and marks the prospect. */
  lemma OptOutStores(s: Db, pid: Id, token: Token)
    ensures var after := Step(s, OptOut(pid, token));
      if pid in s.prospects && s.prospects[pid].row.email.Some? && s.prospects[pid].row.email.value != ""
         && token == Hmac(s.prospects[pid].tenant + ":" + pid + ":" + Norm(s.prospects[pid].row.email.value))
      then
        var t, p := s.prospects[pid].tenant, s.prospects[pid].row;
        && after.response == OptOutDone
        && after.db == WithSuppression(s, t, Norm(p.email.value), "opt_out", "public_opt_out", Some(pid), None)
             .(prospects := s.prospects[pid := Owned(t, p.(doNotContact := true))])
      else after == Outcome(s, Refusal(OptOutInvalid))
  {
    var plan := PlanOptOut(s, pid, token);
    if plan.writes != [] {
      TwoWrites(s, plan.tenant, plan.writes[0], plan.writes[1]);
      SuppressMeans(s, plan.tenant, plan.writes[0].email, plan.writes[0].suppression);
    }
  }

  // ----- analyses

  function FailedAnalysis(c: Caller, pid: Id, url: string, now: Time, code: string): Analysis {
    Analysis(pid, Failed, c.sub, url, 0, 0, [], now, Some(code))
  }

  /** A completed audit is stored and raises the prospect's qualification to the score if that is more; a failed one is
      stored as failed and leaves the prospect alone; an address that is not accepted stores nothing. */
  lemma AnalysisStores(s: Db, c: Caller, pid: Id, id: Id, url: string, audit: Audit, now: Time)
    requires MayWrite(c) && Holds(s.prospects, c.tenant, pid) && id !in s.analyses
    requires audit.AuditCrashed? ==> audit.rowId !in s.analyses
    ensures var p, after := s.prospects[pid].row, Step(s, By(c, RunAnalysis(pid, id, url, audit, now)));
      match audit
      case UrlRefused(code) => after == Outcome(s, Refusal(AuditError(code)))
      case AuditRefused(code) =>
        after == Outcome(s.(analyses := s.analyses[id := Owned(c.tenant, FailedAnalysis(c, pid, url, now, code))]),
                         Refusal(AuditError(code)))
      case AuditCrashed(other) =>
        var failed := FailedAnalysis(c, pid, url, now, "ANALYSIS_FAILED");
        after == Outcome(s.(analyses := s.analyses[other := Owned(c.tenant, failed)]), Refusal(AnalysisFailed))
      case Audited(score, evidence, titles) =>
        && after.response == AnalysisOut(id, Analysis(pid, Complete, c.sub, url, score, evidence, titles, now, None))
        && exists q: Prospect ::
           && q == p.(status := AnalysisReady, qualification := q.qualification)
           && q.qualification in {p.qualification, score} && p.qualification <= q.qualification
           && score <= q.qualification
           && after.db == s.(analyses := s.analyses[id := Owned(c.tenant, after.response.analysis)],
                             prospects := s.prospects[pid := Owned(c.tenant, q)])
  {
    StepIsDecided(s, c, RunAnalysis(pid, id, url, audit, now));
    var ws := PlanRunAnalysis(s, c, pid, id, url, audit, now).writes;
    if |ws| == 1 {
      OneWrite(s, c.tenant, ws[0]);
    } else if |ws| == 2 {
      TwoWrites(s, c.tenant, ws[0], ws[1]);
      var q := ws[1].prospect;
      assert q == s.prospects[pid].row.(status := AnalysisReady, qualification := q.qualification);
    }
  }

  // ----- promoting

  /** What the CRM is told and what a promotion answers: the newest complete analysis as evidence, and the address only
      of a verified contact whose address is to be sent. */
  lemma PromotionAnswers(s: Db, c: Caller, pid: Id, vertical: string, brand: string, includeEmail: bool,
                         crm: CrmOutcome)
    requires MayWrite(c) && Holds(s.prospects, c.tenant, pid)
    ensures var p, r := s.prospects[pid].row, Step(s, By(c, Promote(pid, vertical, brand, includeEmail, crm))).response;
      if p.doNotContact then r == Refusal(DoNotContact)
      else if Strip(vertical) == "" || Strip(brand) == "" then r == Refusal(CrmScopeRequired)
      else
        match crm
        case CrmUnavailable => r == Refusal(CrmIsUnavailable)
        case CrmRejected => r == Refusal(CrmHasRejected)
        case CrmCrashed => r == Refusal(InternalError)
        case CrmPromoted(ids, already) =>
          && r.PromotionOut? && r.of == pid && r.crm == ids && r.already == already
          && r.sentEmail == (if includeEmail && p.verified && p.email != Some("") then p.email else None)
          && (match r.evidence
              case None => !exists k :: IsComplete(s.analyses, c.tenant, pid, k)
              case Some(k) =>
                && IsComplete(s.analyses, c.tenant, pid, k)
                && forall other :: IsComplete(s.analyses, c.tenant, pid, other) ==>
                     s.analyses[other].row.createdAt <= s.analyses[k].row.createdAt)
  {
    StepIsDecided(s, c, Promote(pid, vertical, brand, includeEmail, crm));
    NewestIsNewest(s, c.tenant, pid);
    if PlanPromote(s, c, pid, vertical, brand, includeEmail, crm).response.PromotionOut? {
      PromoteCarriedOut(s, c, pid, vertical, brand, includeEmail, crm);
    }
  }

  lemma NewestIsNewest(s: Db, t: string, pid: Id)
    ensures match Newest(CompleteOf(s.analyses, t, pid))
      case None => !exists k :: IsComplete(s.analyses, t, pid, k)
      case Some(k) =>
        && IsComplete(s.analyses, t, pid, k)
        && forall other :: IsComplete(s.analyses, t, pid, other) ==>
             s.analyses[other].row.createdAt <= s.analyses[k].row.createdAt
  {
    var found := CompleteOf(s.analyses, t, pid);
    assert forall k :: k in found <==> IsComplete(s.analyses, t, pid, k);
    if Newest(found).Some? {
      var k := Newest(found).value;
      forall other | IsComplete(s.analyses, t, pid, other)
        ensures s.analyses[other].row.createdAt <= s.analyses[k].row.createdAt
      {
        assert NotNewer(found, other, k);
      }
    }
  }
}
