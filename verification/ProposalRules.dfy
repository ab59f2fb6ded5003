/** When proposals are generated, edited, approved and shared, and what is stored, field by field. */
module ProposalRules {
  import opened Text
  import opened Store
  import opened Requests
  import opened Plans
  import opened Invariants
  import opened Safety
  import opened DeliveryRules

  // ----- approval

  /** The contact may be written to, and the analysis behind the proposal is complete and has evidence. */
  predicate IsApprovable(s: Db, t: string, row: Proposal, p: Prospect) {
    && p.email.Some? && p.email.value != "" && MayContact(s, t, p, Norm(p.email.value))
    && IsAnalysed(s, t, row) && s.analyses[row.analysis].row.evidence >= 1
  }

  predicate IsAnalysed(s: Db, t: string, row: Proposal) {
    && Holds(s.analyses, t, row.analysis) && s.analyses[row.analysis].row.prospect == row.prospect
    && s.analyses[row.analysis].row.status == Complete
  }

  /** The first check of an approval that fails. */
  function Objection(s: Db, t: string, row: Proposal, p: Prospect, v: Review): Option<Error> {
    if !v.analysisVerified || !v.contactVerified || !v.contentApproved || !v.legalBasisVerified
      then Some(VerificationIncomplete)
    else if !p.verified || p.email == None || p.email == Some("") then Some(ContactNotVerified)
    else if !MayContact(s, t, p, Norm(p.email.value)) then Some(ContactSuppressed)
    else if !IsAnalysed(s, t, row) then Some(AnalysisRequired)
    else if s.analyses[row.analysis].row.evidence < 1 then Some(EvidenceRequired)
    else None
  }

  lemma ObjectionMeans(s: Db, t: string, row: Proposal, p: Prospect, v: Review)
    ensures Objection(s, t, row, p, v).None? <==>
      && v.analysisVerified && v.contactVerified && v.contentApproved && v.legalBasisVerified
      && IsApprovable(s, t, row, p)
  {}

  lemma ApprovalIsPlanned(s: Db, c: Caller, id: Id, v: Review, now: Time)
    requires IsOurs(s, c.tenant, id)
    ensures var row := s.proposals[id].row; var p := s.prospects[row.prospect].row;
      var approved := row.(status := Approved, review := Some(v), approvedBy := Some(c.sub), approvedAt := Some(now));
      PlanApprove(s, c, id, v, now) ==
        match Objection(s, c.tenant, row, p, v)
        case Some(error) => Refuse(c.tenant, error)
        case None => Plan(c.tenant, ProposalOut(id, approved),
                          [SetProposal(id, approved, Some(ApprovedFact(id, v, row.content))),
                           SetProspect(row.prospect, p.(status := ApprovedForContact))])
  {}

  /** An approval is accepted if and only if the caller may write, all four checks are true, the contact is verified,
      reachable and not suppressed, and the analysis is complete and has evidence. It then records the caller, the time
      and the four checks in the proposal, moves the prospect on, and changes nothing else. */
  lemma ApprovedIff(s: Db, c: Caller, id: Id, av: bool, cv: bool, ca: bool, lv: bool, note: Option<string>, now: Time)
    ensures var after := Step(s, By(c, ApproveProposal(id, av, cv, ca, lv, note, now)));
      if MayWrite(c) && IsOurs(s, c.tenant, id) && av && cv && ca && lv
        && IsApprovable(s, c.tenant, s.proposals[id].row, s.prospects[s.proposals[id].row.prospect].row)
      then
        var row := s.proposals[id].row; var p := s.prospects[row.prospect].row;
        var review := Review(true, true, true, true, note, c.sub, now);
        var approved :=
          row.(status := Approved, review := Some(review), approvedBy := Some(c.sub), approvedAt := Some(now));
        && after.response == ProposalOut(id, approved)
        && after.db == s.(proposals := s.proposals[id := Owned(c.tenant, approved)],
                          prospects :=
                            s.prospects[row.prospect := Owned(c.tenant, p.(status := ApprovedForContact))],
                          journal := s.journal + [Owned(c.tenant, ApprovedFact(id, review, row.content))])
      else after.db == s && after.response.Refusal?
  {
    var v := Review(av, cv, ca, lv, note, c.sub, now);
    StepIsDecided(s, c, ApproveProposal(id, av, cv, ca, lv, note, now));
    if IsOurs(s, c.tenant, id) {
      var row := s.proposals[id].row;
      var p := s.prospects[row.prospect].row;
      ApprovalIsPlanned(s, c, id, v, now);
      ObjectionMeans(s, c.tenant, row, p, v);
      if MayWrite(c) && Objection(s, c.tenant, row, p, v).None? {
        var approved :=
          row.(status := Approved, review := Some(v), approvedBy := Some(c.sub), approvedAt := Some(now));
        TwoWrites(s, c.tenant, SetProposal(id, approved, Some(ApprovedFact(id, v, row.content))),
                  SetProspect(row.prospect, p.(status := ApprovedForContact)));
      }
    }
  }

  /** A refused approval gets the error of the first check that fails. */
  lemma ApprovalRefusedFor(s: Db, c: Caller, id: Id, av: bool, cv: bool, ca: bool, lv: bool, note: Option<string>,
                           now: Time)
    requires MayWrite(c)
    ensures var after := Step(s, By(c, ApproveProposal(id, av, cv, ca, lv, note, now)));
      && (!Holds(s.proposals, c.tenant, id) ==> after == Outcome(s, Refusal(ProposalNotFound)))
      && (Holds(s.proposals, c.tenant, id) && !IsOurs(s, c.tenant, id) ==>
            after == Outcome(s, Refusal(ProspectNotFound)))
      && (IsOurs(s, c.tenant, id) ==>
            var row := s.proposals[id].row; var p := s.prospects[row.prospect].row;
            var error := Objection(s, c.tenant, row, p, Review(av, cv, ca, lv, note, c.sub, now));
            error.Some? ==> after == Outcome(s, Refusal(error.value)))
  {
    StepIsDecided(s, c, ApproveProposal(id, av, cv, ca, lv, note, now));
    if IsOurs(s, c.tenant, id) { ApprovalIsPlanned(s, c, id, Review(av, cv, ca, lv, note, c.sub, now), now); }
  }

  // ----- generating

  /** A completed analysis of this tenant and prospect. */
  predicate IsUsable(s: Db, t: string, pid: Id, k: Id) {
    Holds(s.analyses, t, k) && s.analyses[k].row.prospect == pid && s.analyses[k].row.status == Complete
  }

  /** The analysis a proposal is made from: the one asked for, or otherwise one that no usable one is newer than. */
  ghost predicate IsBasis(s: Db, t: string, pid: Id, wanted: Option<Id>, k: Id) {
    && IsUsable(s, t, pid, k)
    && (if wanted.Some? && wanted.value != "" then k == wanted.value
        else forall other :: IsUsable(s, t, pid, other) ==>
               s.analyses[other].row.createdAt <= s.analyses[k].row.createdAt)
  }

  lemma PickedIsBasis(s: Db, t: string, pid: Id, wanted: Option<Id>)
    ensures PickAnalysis(s, t, pid, wanted).Some? ==> IsBasis(s, t, pid, wanted, PickAnalysis(s, t, pid, wanted).value)
    ensures PickAnalysis(s, t, pid, wanted).None? ==> !exists k :: IsBasis(s, t, pid, wanted, k)
  {
    var found := CompleteOf(s.analyses, t, pid);
    assert forall k :: k in found <==> IsUsable(s, t, pid, k);
    if PickAnalysis(s, t, pid, wanted).Some? && !Truthy(wanted) {
      var k := Newest(found).value;
      forall other | IsUsable(s, t, pid, other)
        ensures s.analyses[other].row.createdAt <= s.analyses[k].row.createdAt
      {
        assert NotNewer(found, other, k);
      }
    }
  }

  /** A draft by the caller: no review, no approver, no share and no delivery. */
  ghost predicate IsFreshDraft(row: Proposal, c: Caller, pid: Id, aid: Id, p: Prospect, a: Analysis) {
    && row.prospect == pid && row.analysis == aid && row.createdBy == c.sub && row.status == Draft
    && row.review == None && row.approvedBy == None && row.approvedAt == None && row.share == None
    && row.delivery == NotQueued && row.provider == None && row.deliveryId == None && row.deliveredAt == None
    && row.processedAt == None
    && row.content.headline == p.company && row.content.subject == p.domain
    && row.content.plan == JoinTitles(a.titles) && row.content.summary == p.company + "|" + row.content.plan
    && row.content.body
       == (if p.info.Some? then p.info.value else "") + "|" + p.domain + "|" + row.content.plan
  }

  /** The versions of the tenant's proposals for the prospect are all smaller, and the one before is there. */
  ghost predicate IsNextVersion(s: Db, t: string, pid: Id, version: int) {
    && (forall k :: Holds(s.proposals, t, k) && s.proposals[k].row.prospect == pid ==>
          s.proposals[k].row.version < version)
    && (version == 1 || exists k ::
          Holds(s.proposals, t, k) && s.proposals[k].row.prospect == pid && s.proposals[k].row.version == version - 1)
  }

  lemma MaxIsNext(s: Db, t: string, pid: Id)
    requires Versions(s.proposals)
    ensures IsNextVersion(s, t, pid, CurrentMax(s.proposals, t, pid) + 1)
  {
    var versions, m := VersionsOf(s.proposals, t, pid), CurrentMax(s.proposals, t, pid);
    forall k | Holds(s.proposals, t, k) && s.proposals[k].row.prospect == pid
      ensures s.proposals[k].row.version <= m
    {
      assert s.proposals[k].row.version in versions;
    }
    if versions != {} {
      var k :| k in s.proposals && s.proposals[k].tenant == t && s.proposals[k].row.prospect == pid
               && s.proposals[k].row.version == m;
      assert Holds(s.proposals, t, k);
    }
  }

  lemma GenerationIsPlanned(s: Db, c: Caller, pid: Id, wanted: Option<Id>, id: Id)
    requires Versions(s.proposals)
    ensures var plan := PlanGenerate(s, c, pid, wanted, id);
      if !Holds(s.prospects, c.tenant, pid) then plan == Refuse(c.tenant, ProspectNotFound)
      else if plan.response.Refusal?
      then plan == Refuse(c.tenant, AnalysisRequired) && !exists k :: IsBasis(s, c.tenant, pid, wanted, k)
      else
        && plan.response.ProposalOut? && plan.response.id == id
        && var row := plan.response.proposal;
        && plan.writes == [NewProposal(id, row), SetStatus(pid, ProposalReady)]
        && IsBasis(s, c.tenant, pid, wanted, row.analysis) && IsNextVersion(s, c.tenant, pid, row.version)
        && IsFreshDraft(row, c, pid, row.analysis, s.prospects[pid].row, s.analyses[row.analysis].row)
  {
    PickedIsBasis(s, c.tenant, pid, wanted);
    MaxIsNext(s, c.tenant, pid);
  }

  lemma PlannedVersionIsFree(s: Db, c: Caller, pid: Id, wanted: Option<Id>, id: Id)
    requires Ownership(s) && Versions(s.proposals) && !PlanGenerate(s, c, pid, wanted, id).response.Refusal?
    ensures PlanGenerate(s, c, pid, wanted, id).response.ProposalOut?
    ensures !HasVersion(s.proposals, pid, PlanGenerate(s, c, pid, wanted, id).response.proposal.version)
  {
    NextVersion(s, c.tenant, pid);
  }

  /** In a valid store a proposal is generated if and only if there is a usable analysis and the drawn id is new: from
      the analysis asked for, or else the newest complete one, as a draft of the next version that nobody has approved.
      The prospect is moved on, and nothing else changes. */
  lemma GeneratedIff(s: Db, c: Caller, pid: Id, wanted: Option<Id>, id: Id)
    requires Inv(s) && MayWrite(c) && Holds(s.prospects, c.tenant, pid)
    ensures var after := Step(s, By(c, GenerateProposal(pid, wanted, id)));
      if !exists k :: IsBasis(s, c.tenant, pid, wanted, k) then after == Outcome(s, Refusal(AnalysisRequired))
      else if id in s.proposals then after == Outcome(s, Refusal(VersionConflict))
      else
        && after.response.ProposalOut? && after.response.id == id
        && var row := after.response.proposal;
        && IsBasis(s, c.tenant, pid, wanted, row.analysis) && IsNextVersion(s, c.tenant, pid, row.version)
        && IsFreshDraft(row, c, pid, row.analysis, s.prospects[pid].row, s.analyses[row.analysis].row)
        && after.db == s.(proposals := s.proposals[id := Owned(c.tenant, row)],
                          prospects := s.prospects[pid := Owned(c.tenant,
                                                                s.prospects[pid].row.(status := ProposalReady))])
  {
    StepIsDecided(s, c, GenerateProposal(pid, wanted, id));
    GenerationIsPlanned(s, c, pid, wanted, id);
    if !PlanGenerate(s, c, pid, wanted, id).response.Refusal? {
      GenerateCarriedOut(s, c, pid, wanted, id);
      PlannedVersionIsFree(s, c, pid, wanted, id);
    }
  }

  // ----- editing and sharing

  /** A text column after an edit: unchanged when the field is absent. */
  predicate Becomes(was: string, change: Patch<string>, now: string) {
    match change case Keep => now == was case Set(v) => now == v case Null => false
  }

  /** A draft is edited field by field; an approved proposal, or a null in a column that must have text, is refused. */
  lemma EditedIff(s: Db, c: Caller, id: Id, d: ContentPatch)
    requires MayWrite(c) && Holds(s.proposals, c.tenant, id)
    ensures var row, after := s.proposals[id].row, Step(s, By(c, UpdateProposal(id, d)));
      if row.status == Approved then after == Outcome(s, Refusal(ApprovedImmutable))
      else if d.headline.Null? || d.summary.Null? || d.subject.Null? || d.body.Null?
      then after == Outcome(s, Refusal(InternalError))
      else
        && after.response.ProposalOut? && after.response.id == id
        && var edited := after.response.proposal;
        && after.db == s.(proposals := s.proposals[id := Owned(c.tenant, edited)])
        && edited == row.(content := edited.content)
        && Becomes(row.content.headline, d.headline, edited.content.headline)
        && Becomes(row.content.summary, d.summary, edited.content.summary)
        && Becomes(row.content.subject, d.subject, edited.content.subject)
        && Becomes(row.content.body, d.body, edited.content.body)
        && (if d.plan.Null? then edited.content.plan == "null"
            else Becomes(row.content.plan, d.plan, edited.content.plan))
  {
    StepIsDecided(s, c, UpdateProposal(id, d));
    var plan := PlanUpdateProposal(s, c, id, d);
    if plan.writes != [] { SetCarriedOut(s, By(c, UpdateProposal(id, d)), plan); }
  }

  /** Sharing stores the digest of the token and the expiry in an approved proposal, and answers the token itself. */
  lemma SharedIff(s: Db, c: Caller, id: Id, token: string, expires: Time)
    requires MayWrite(c) && Holds(s.proposals, c.tenant, id)
    ensures var row, after := s.proposals[id].row, Step(s, By(c, CreateShare(id, token, expires)));
      if row.status == Approved
      then
        var shared := row.(share := Some(Share(Sha256(token), expires)));
        after == Outcome(s.(proposals := s.proposals[id := Owned(c.tenant, shared)]), ShareOut(id, token, expires))
      else after == Outcome(s, Refusal(NotApproved))
  {
    StepIsDecided(s, c, CreateShare(id, token, expires));
    var plan := PlanCreateShare(s, c, id, token, expires);
    if plan.writes != [] { SetCarriedOut(s, By(c, CreateShare(id, token, expires)), plan); }
  }
}
