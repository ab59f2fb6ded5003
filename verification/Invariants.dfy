/** What every reachable store satisfies, which single writes keep it, and that every
    request only makes such writes. */
module Invariants {
  import opened Text
  import opened Order
  import opened Store
  import opened Requests
  import opened Plans

  // ----- the invariant

  /** Every child row belongs to the tenant of its parent; a proposal's analysis is complete and of its prospect. */
  ghost predicate Ownership(s: Db) {
    && (forall k :: k in s.prospects && s.prospects[k].row.campaign.Some? ==>
          Find(s.campaigns, s.prospects[k].tenant, s.prospects[k].row.campaign.value).Some?)
    && (forall k :: k in s.analyses ==> Find(s.prospects, s.analyses[k].tenant, s.analyses[k].row.prospect).Some?)
    && (forall k :: k in s.proposals ==> OwnedProposal(s, s.proposals[k]))
    && (forall key :: key in s.suppressions && s.suppressions[key].prospect.Some? ==>
          Find(s.prospects, key.0, s.suppressions[key].prospect.value).Some?)
  }

  ghost predicate OwnedProposal(s: Db, p: Owned<Proposal>) {
    && Find(s.prospects, p.tenant, p.row.prospect).Some?
    && IsComplete(s.analyses, p.tenant, p.row.prospect, p.row.analysis)
  }

  /** A tenant has at most one prospect per domain. */
  ghost predicate Domains(prospects: Table<Prospect>) {
    forall j, k :: j in prospects && k in prospects && j != k && prospects[j].tenant == prospects[k].tenant
      ==> prospects[j].row.domain != prospects[k].row.domain
  }

  /** The versions of each prospect's proposals are distinct and leave no gap above 1. */
  ghost predicate Versions(proposals: Table<Proposal>) {
    && (forall j, k :: j in proposals && k in proposals && j != k
          && proposals[j].row.prospect == proposals[k].row.prospect
          ==> proposals[j].row.version != proposals[k].row.version)
    && (forall k, v :: k in proposals && 1 <= v < proposals[k].row.version
          ==> HasVersion(proposals, proposals[k].row.prospect, v))
    && (forall k :: k in proposals ==> 1 <= proposals[k].row.version)
  }

  predicate AllChecked(v: Review) {
    v.analysisVerified && v.contactVerified && v.contentApproved && v.legalBasisVerified
  }

  /** An approved proposal names its approver, four true checks, and an analysis with evidence. */
  ghost predicate Reviews(proposals: Table<Proposal>, analyses: Table<Analysis>) {
    forall k :: k in proposals && proposals[k].row.status == Approved ==>
      && proposals[k].row.approvedBy.Some?
      && proposals[k].row.review.Some? && AllChecked(proposals[k].row.review.value)
      && proposals[k].row.analysis in analyses && analyses[proposals[k].row.analysis].row.evidence >= 1
  }

  /** A delivery to the prospect reached the provider call. */
  predicate IsAttempt(e: Owned<Fact>) {
    e.row.AttemptFact? && !e.row.test
  }

  /** ... and the provider accepted it. */
  predicate IsReal(e: Owned<Fact>) {
    IsAttempt(e) && e.row.accepted
  }

  /** ... and reported a failure. */
  predicate IsFailed(e: Owned<Fact>) {
    IsAttempt(e) && !e.row.accepted
  }

  /** ... and a mail left, whatever was reported. */
  predicate IsMailed(e: Owned<Fact>) {
    IsAttempt(e) && e.row.left
  }

  predicate RealSince(e: Owned<Fact>, t: string, since: Time) {
    IsReal(e) && e.tenant == t && since <= e.row.at
  }

  /** Rows and log agree: approvals and attempts carry the row's content, accepted deliveries are exactly the
      processed rows. */
  ghost predicate Ledger(proposals: Table<Proposal>, j: seq<Owned<Fact>>) {
    && (forall i :: 0 <= i < |j| && (j[i].row.ApprovedFact? || j[i].row.AttemptFact?) ==> Carries(proposals, j[i]))
    && (forall k :: k in proposals && proposals[k].row.status == Approved ==> ApprovalLogged(j, k))
    && (forall i :: 0 <= i < |j| && IsReal(j[i]) ==> SentRow(proposals, j[i]))
    && (forall k :: k in proposals && proposals[k].row.Processed() ==> SendLogged(j, k))
  }

  /** The rows that were attempted and are not processed are exactly those that say their delivery failed. */
  ghost predicate Tried(proposals: Table<Proposal>, j: seq<Owned<Fact>>) {
    && (forall i :: 0 <= i < |j| && IsAttempt(j[i]) ==> TriedRow(proposals, j[i]))
    && (forall k :: k in proposals && proposals[k].row.delivery.DeliveryFailed? ==> FailureLogged(j, k))
  }

  /** Entry `i` is the last approval of proposal `k` in the log. */
  ghost predicate IsLastApproval(j: seq<Owned<Fact>>, i: int, k: Id) {
    && 0 <= i < |j| && j[i].row.ApprovedFact? && j[i].row.proposal == k
    && forall m :: i < m < |j| && j[m].row.ApprovedFact? ==> j[m].row.proposal != k
  }

  /** The row carries the review, and names the actor and the time, of the last approval in the log. */
  ghost predicate SignedRow(row: Proposal, j: seq<Owned<Fact>>, k: Id) {
    exists i :: IsLastApproval(j, i, k) && SignedBy(row, j[i].row.review)
  }

  predicate SignedBy(row: Proposal, v: Review) {
    row.review == Some(v) && row.approvedBy == Some(v.actor) && row.approvedAt == Some(v.at)
  }

  ghost predicate Signed(proposals: Table<Proposal>, j: seq<Owned<Fact>>) {
    forall k :: k in proposals && proposals[k].row.status == Approved ==> SignedRow(proposals[k].row, j, k)
  }

  /** The row an approval or a mail is about is approved and has the content that was logged. */
  ghost predicate Carries(proposals: Table<Proposal>, e: Owned<Fact>)
    requires e.row.ApprovedFact? || e.row.AttemptFact?
  {
    && Find(proposals, e.tenant, e.row.proposal).Some?
    && proposals[e.row.proposal].row.status == Approved
    && proposals[e.row.proposal].row.content == e.row.content
    && (e.row.ApprovedFact? ==> AllChecked(e.row.review))
    && (e.row.AttemptFact? ==>
          && e.row.link == LinkFor(e.tenant, proposals[e.row.proposal].row, e.row.recipient)
          && e.row.recipient == Norm(e.row.recipient))
  }

  /** The opt-out link of a mail about a proposal. */
  function LinkFor(t: string, row: Proposal, recipient: string): Link {
    Link(row.prospect, OptOutToken(t, row.prospect, recipient))
  }

  ghost predicate TriedRow(proposals: Table<Proposal>, e: Owned<Fact>)
    requires IsAttempt(e)
  {
    && Find(proposals, e.tenant, e.row.proposal).Some?
    && (proposals[e.row.proposal].row.Processed() || proposals[e.row.proposal].row.delivery.DeliveryFailed?)
  }

  ghost predicate SentRow(proposals: Table<Proposal>, e: Owned<Fact>)
    requires IsReal(e)
  {
    && Find(proposals, e.tenant, e.row.proposal).Some?
    && proposals[e.row.proposal].row.Processed()
    && proposals[e.row.proposal].row.processedAt == Some(e.row.at)
  }

  ghost predicate ApprovalLogged(j: seq<Owned<Fact>>, k: Id) {
    exists i :: 0 <= i < |j| && j[i].row.ApprovedFact? && j[i].row.proposal == k
  }

  ghost predicate SendLogged(j: seq<Owned<Fact>>, k: Id) {
    exists i :: 0 <= i < |j| && IsReal(j[i]) && j[i].row.proposal == k
  }

  ghost predicate FailureLogged(j: seq<Owned<Fact>>, k: Id) {
    exists i :: 0 <= i < |j| && IsFailed(j[i]) && j[i].row.proposal == k
  }

  /** Every address whose suppression was logged is on the list. */
  ghost predicate Listed(suppressions: map<(string, string), Suppression>, j: seq<Owned<Fact>>) {
    forall i :: 0 <= i < |j| && j[i].row.SuppressedFact? ==> (j[i].tenant, j[i].row.email) in suppressions
  }

  /** After an accepted delivery of a proposal there is no other attempt at it. */
  ghost predicate SentOnce(j: seq<Owned<Fact>>) {
    forall a, b :: 0 <= a < b < |j| && IsReal(j[a]) && IsAttempt(j[b]) ==> j[a].row.proposal != j[b].row.proposal
  }

  /** Every mail handed to a provider comes after an approval of the same proposal. */
  ghost predicate ApprovedFirst(j: seq<Owned<Fact>>) {
    forall b :: 0 <= b < |j| && j[b].row.AttemptFact? ==>
      exists a :: 0 <= a < b && j[a].row.ApprovedFact? && j[a].tenant == j[b].tenant
                  && j[a].row.proposal == j[b].row.proposal
  }

  /** Once an address is suppressed in a tenant, any later mail to it there is a test mail to the operator's own
      address. */
  ghost predicate SuppressionHolds(j: seq<Owned<Fact>>) {
    forall a, b :: 0 <= a < b < |j| && j[a].row.SuppressedFact? && j[b].row.AttemptFact?
      && j[a].tenant == j[b].tenant && j[a].row.email == j[b].row.recipient
      ==> j[b].row.test && j[b].row.recipient == Norm(j[b].row.sub)
  }

  /** Accepted real sends of one tenant at or after `since`. */
  ghost function CountReal(j: seq<Owned<Fact>>, t: string, since: Time): nat {
    if j == [] then 0
    else CountReal(j[..|j| - 1], t, since) + if RealSince(j[|j| - 1], t, since) then 1 else 0
  }

  /** Right after each accepted real send, the tenant's sends of that day are within the limit the call used. */
  ghost predicate WithinBudget(j: seq<Owned<Fact>>) {
    forall i :: 0 <= i < |j| && IsReal(j[i]) ==>
      CountReal(j[..i + 1], j[i].tenant, Midnight(j[i].row.at)) <= j[i].row.limit
  }

  ghost predicate Inv(s: Db) {
    && Ownership(s) && Domains(s.prospects) && Versions(s.proposals) && Reviews(s.proposals, s.analyses)
    && Ledger(s.proposals, s.journal) && Tried(s.proposals, s.journal) && Listed(s.suppressions, s.journal)
    && Signed(s.proposals, s.journal)
    && SentOnce(s.journal) && ApprovedFirst(s.journal) && SuppressionHolds(s.journal) && WithinBudget(s.journal)
  }

  lemma EmptyStoreIsValid()
    ensures Inv(EMPTY_DB)
  {}

  // ----- writes that keep it

  /** The allowed changes of one proposal row, each with what the log says about it. */
  ghost predicate ProposalMove(s: Db, t: string, id: Id, was: Proposal, row: Proposal, fact: Option<Fact>) {
    match fact
    case None =>
      && row == was.(content := row.content, share := row.share)
      && (was.status == Approved ==> row.content == was.content)
    case Some(ApprovedFact(pid, v, content)) =>
      && pid == id && content == was.content && AllChecked(v)
      && row == was.(status := Approved, review := Some(v), approvedBy := Some(v.actor), approvedAt := Some(v.at))
      && was.analysis in s.analyses && s.analyses[was.analysis].row.evidence >= 1
    case Some(AttemptFact(pid, recipient, content, test, sub, at, limit, accepted, left, link)) =>
      && pid == id && content == was.content && was.status == Approved && link == LinkFor(t, was, recipient)
      && recipient == Norm(recipient)
      && (test ==> row == was && recipient == Norm(sub))
      && (!test ==> RealMove(s, t, was, row, recipient, at, limit, accepted))
    case _ => false
  }

  ghost predicate RealMove(s: Db, t: string, was: Proposal, row: Proposal, recipient: string, at: Time, limit: int,
                           accepted: bool)
  {
    && !was.Processed() && (t, recipient) !in s.suppressions
    && row == was.(delivery := row.delivery, provider := row.provider, deliveryId := row.deliveryId,
                   deliveredAt := row.deliveredAt, processedAt := row.processedAt)
    && row.Processed() == accepted && (!accepted ==> row.delivery.DeliveryFailed?)
    && (accepted ==> row.processedAt == Some(at) && |Counted(s.proposals, t, Midnight(at))| < limit)
    && Find(s.prospects, t, was.prospect).Some?
    && DailyLimit(s, t, Find(s.prospects, t, was.prospect).value) == Some(limit)
  }

  ghost predicate Fits(s: Db, t: string, w: Write) {
    match w
    case NewCampaign(id, _) => Allowed(s, t, w)
    case NewProspect(id, p) =>
      Allowed(s, t, w) && (p.campaign.Some? ==> Find(s.campaigns, t, p.campaign.value).Some?)
    case NewAnalysis(id, a) => Allowed(s, t, w) && Find(s.prospects, t, a.prospect).Some?
    case NewProposal(id, p) =>
      && Allowed(s, t, w) && Find(s.prospects, t, p.prospect).Some? && IsComplete(s.analyses, t, p.prospect, p.analysis)
      && 1 <= p.version && (forall v :: 1 <= v < p.version ==> HasVersion(s.proposals, p.prospect, v))
      && p.status == Draft && p.delivery.NotQueued? && p.approvedBy.None? && p.processedAt.None?
    case SetProspect(id, p) =>
      && Find(s.prospects, t, id).Some?
      && p.domain == s.prospects[id].row.domain && p.campaign == s.prospects[id].row.campaign
    case SetStatus(id, _) => Find(s.prospects, t, id).Some?
    case SetProposal(id, p, fact) =>
      Find(s.proposals, t, id).Some? && ProposalMove(s, t, id, s.proposals[id].row, p, fact)
    case SetPolicy(_) => true
    case Suppress(email, row) => row.prospect.Some? ==> Find(s.prospects, t, row.prospect.value).Some?
    case Record(fact) => fact.PromotedFact?
  }

  ghost predicate KeepsCampaigns(was: Table<Campaign>, now: Table<Campaign>) {
    forall k :: k in was ==> k in now && now[k].tenant == was[k].tenant
  }

  ghost predicate KeepsProspects(was: Table<Prospect>, now: Table<Prospect>) {
    forall k :: k in was ==> k in now && now[k].tenant == was[k].tenant && now[k].row.campaign == was[k].row.campaign
  }

  ghost predicate KeepsAnalyses(was: Table<Analysis>, now: Table<Analysis>) {
    forall k :: k in was ==> k in now && now[k] == was[k]
  }

  ghost predicate KeepsProposals(was: Table<Proposal>, now: Table<Proposal>) {
    forall k :: k in was ==> k in now && now[k].tenant == was[k].tenant && SameKey(was[k].row, now[k].row)
  }

  ghost predicate KeepsSuppressions(was: map<(string, string), Suppression>, now: map<(string, string), Suppression>) {
    forall key :: key in was ==> key in now && now[key].prospect == was[key].prospect
  }

  /** Rows stay, under the same tenant and parent; analyses do not change at all. */
  ghost predicate Keeps(s: Db, after: Db) {
    && KeepsCampaigns(s.campaigns, after.campaigns) && KeepsProspects(s.prospects, after.prospects)
    && KeepsAnalyses(s.analyses, after.analyses) && KeepsProposals(s.proposals, after.proposals)
    && KeepsSuppressions(s.suppressions, after.suppressions)
  }

  ghost predicate SameKey(a: Proposal, b: Proposal) {
    a.prospect == b.prospect && a.analysis == b.analysis && a.version == b.version
  }

  lemma MoveKeepsKey(s: Db, t: string, id: Id, was: Proposal, row: Proposal, fact: Option<Fact>)
    requires ProposalMove(s, t, id, was, row, fact)
    ensures SameKey(was, row)
  {}

  lemma ApplyKeepsProposals(s: Db, t: string, w: Write)
    requires Fits(s, t, w)
    ensures KeepsProposals(s.proposals, Apply(s, t, w).proposals)
  {
    if w.SetProposal? { MoveKeepsKey(s, t, w.id, s.proposals[w.id].row, w.proposal, w.fact); }
  }

  lemma ApplyKeepsProspects(s: Db, t: string, w: Write)
    requires Fits(s, t, w)
    ensures KeepsProspects(s.prospects, Apply(s, t, w).prospects)
  {
    match w
    case NewProspect(id, p) => PutKeepsProspects(s.prospects, id, Owned(t, p));
    case SetProspect(id, p) => PutKeepsProspects(s.prospects, id, Owned(t, p));
    case SetStatus(id, status) => PutKeepsProspects(s.prospects, id, Owned(t, s.prospects[id].row.(status := status)));
    case _ => assert Apply(s, t, w).prospects == s.prospects;
  }

  lemma PutKeepsProspects(prospects: Table<Prospect>, id: Id, p: Owned<Prospect>)
    requires id in prospects ==> prospects[id].tenant == p.tenant && prospects[id].row.campaign == p.row.campaign
    ensures KeepsProspects(prospects, prospects[id := p])
  {}

  lemma ApplyKeepsOthers(s: Db, t: string, w: Write)
    requires Fits(s, t, w)
    ensures KeepsCampaigns(s.campaigns, Apply(s, t, w).campaigns)
    ensures KeepsAnalyses(s.analyses, Apply(s, t, w).analyses)
    ensures KeepsSuppressions(s.suppressions, Apply(s, t, w).suppressions)
  {}

  lemma ApplyKeeps(s: Db, t: string, w: Write)
    requires Fits(s, t, w)
    ensures Keeps(s, Apply(s, t, w))
  {
    ApplyKeepsProposals(s, t, w);
    ApplyKeepsProspects(s, t, w);
    ApplyKeepsOthers(s, t, w);
  }

  /** What was owned stays owned. */
  lemma OldRowsOwned(s: Db, after: Db)
    requires Ownership(s) && Keeps(s, after)
    ensures forall k :: k in s.prospects && after.prospects[k].row.campaign.Some? ==>
      Find(after.campaigns, after.prospects[k].tenant, after.prospects[k].row.campaign.value).Some?
    ensures forall k :: k in s.analyses ==>
      Find(after.prospects, after.analyses[k].tenant, after.analyses[k].row.prospect).Some?
    ensures forall k :: k in s.proposals ==> OwnedProposal(after, after.proposals[k])
    ensures forall key :: key in s.suppressions && after.suppressions[key].prospect.Some? ==>
      Find(after.prospects, key.0, after.suppressions[key].prospect.value).Some?
  {}

  lemma ApplyKeepsOwnership(s: Db, t: string, w: Write)
    requires Ownership(s) && Fits(s, t, w)
    ensures Ownership(Apply(s, t, w))
  {
    ApplyKeeps(s, t, w);
    OldRowsOwned(s, Apply(s, t, w));
    NewRowsOwned(s, t, w);
  }

  lemma NewRowsOwned(s: Db, t: string, w: Write)
    requires Fits(s, t, w)
    ensures var after := Apply(s, t, w);
      && (forall k :: k in after.prospects && k !in s.prospects && after.prospects[k].row.campaign.Some? ==>
            Find(after.campaigns, after.prospects[k].tenant, after.prospects[k].row.campaign.value).Some?)
      && (forall k :: k in after.analyses && k !in s.analyses ==>
            Find(after.prospects, after.analyses[k].tenant, after.analyses[k].row.prospect).Some?)
      && (forall k :: k in after.proposals && k !in s.proposals ==> OwnedProposal(after, after.proposals[k]))
      && (forall key ::
            key in after.suppressions && key !in s.suppressions && after.suppressions[key].prospect.Some? ==>
            Find(after.prospects, key.0, after.suppressions[key].prospect.value).Some?)
  {}

  lemma VersionsSurvive(proposals: Table<Proposal>, after: Table<Proposal>, pid: Id, v: int)
    requires forall k :: k in proposals ==> k in after && SameKey(proposals[k].row, after[k].row)
    requires HasVersion(proposals, pid, v)
    ensures HasVersion(after, pid, v)
  {}

  lemma PutKeepsVersions(proposals: Table<Proposal>, id: Id, p: Owned<Proposal>)
    requires Versions(proposals)
    requires id in proposals ==> SameKey(proposals[id].row, p.row)
    requires id !in proposals ==>
      && !HasVersion(proposals, p.row.prospect, p.row.version) && 1 <= p.row.version
      && forall v :: 1 <= v < p.row.version ==> HasVersion(proposals, p.row.prospect, v)
    ensures Versions(proposals[id := p])
  {
    var after := proposals[id := p];
    forall k, v | k in after && 1 <= v < after[k].row.version ensures HasVersion(after, after[k].row.prospect, v) {
      assert HasVersion(proposals, after[k].row.prospect, v) by {
        assert k in proposals ==> SameKey(proposals[k].row, after[k].row);
      }
      VersionsSurvive(proposals, after, after[k].row.prospect, v);
    }
  }

  lemma PutKeepsReviews(proposals: Table<Proposal>, analyses: Table<Analysis>, id: Id, p: Owned<Proposal>)
    requires Reviews(proposals, analyses)
    requires p.row.status == Approved ==>
      && p.row.approvedBy.Some? && p.row.review.Some? && AllChecked(p.row.review.value)
      && p.row.analysis in analyses && analyses[p.row.analysis].row.evidence >= 1
    ensures Reviews(proposals[id := p], analyses)
  {}

  /** The log only grows. */
  lemma ApplyExtendsJournal(s: Db, t: string, w: Write)
    ensures s.journal <= Apply(s, t, w).journal
    ensures |Apply(s, t, w).journal| <= |s.journal| + 1
  {}

  // ----- appending to the log

  /** A row may change under the log as long as what the log says about it stays true. */
  lemma LedgerAppend(proposals: Table<Proposal>, j: seq<Owned<Fact>>, e: Owned<Fact>, p: Owned<Proposal>)
    requires Ledger(proposals, j) && (e.row.ApprovedFact? || e.row.AttemptFact?) && p.tenant == e.tenant
    requires Find(proposals, e.tenant, e.row.proposal).Some?
    requires var was := proposals[e.row.proposal].row;
      && p.row.status == Approved && p.row.content == was.content == e.row.content
      && (was.Processed() ==> p.row.Processed() && p.row.processedAt == was.processedAt && !IsReal(e))
      && p.row.prospect == was.prospect
      && (was.status != Approved ==> e.row.ApprovedFact?)
      && (e.row.ApprovedFact? ==> AllChecked(e.row.review))
      && (e.row.AttemptFact? ==>
            e.row.link == LinkFor(e.tenant, was, e.row.recipient) && e.row.recipient == Norm(e.row.recipient))
      && (IsReal(e) ==> p.row.Processed() && p.row.processedAt == Some(e.row.at))
      && (p.row.Processed() && !was.Processed() ==> IsReal(e))
    ensures Ledger(proposals[e.row.proposal := p], j + [e])
  {
    var after, log := proposals[e.row.proposal := p], j + [e];
    forall k | k in after && after[k].row.status == Approved ensures ApprovalLogged(log, k) {
      if k in proposals && proposals[k].row.status == Approved {
        var i :| 0 <= i < |j| && j[i].row.ApprovedFact? && j[i].row.proposal == k;
        assert log[i] == j[i];
      } else {
        assert log[|j|] == e;
      }
    }
    forall k | k in after && after[k].row.Processed() ensures SendLogged(log, k) {
      if k in proposals && proposals[k].row.Processed() {
        var i :| 0 <= i < |j| && IsReal(j[i]) && j[i].row.proposal == k;
        assert log[i] == j[i];
      } else {
        assert log[|j|] == e;
      }
    }
  }

  lemma TriedAppend(proposals: Table<Proposal>, j: seq<Owned<Fact>>, e: Owned<Fact>, p: Owned<Proposal>)
    requires Tried(proposals, j) && (e.row.ApprovedFact? || e.row.AttemptFact?) && p.tenant == e.tenant
    requires Find(proposals, e.tenant, e.row.proposal).Some?
    requires var was := proposals[e.row.proposal].row;
      && (IsAttempt(e) || was.delivery.DeliveryFailed? || was.Processed() ==>
            p.row.Processed() || p.row.delivery.DeliveryFailed?)
      && (p.row.delivery.DeliveryFailed? && !was.delivery.DeliveryFailed? ==> IsFailed(e))
    ensures Tried(proposals[e.row.proposal := p], j + [e])
  {
    var after, log := proposals[e.row.proposal := p], j + [e];
    forall k | k in after && after[k].row.delivery.DeliveryFailed? ensures FailureLogged(log, k) {
      if k in proposals && proposals[k].row.delivery.DeliveryFailed? {
        var i :| 0 <= i < |j| && IsFailed(j[i]) && j[i].row.proposal == k;
        assert log[i] == j[i];
      } else {
        assert log[|j|] == e;
      }
    }
  }

  lemma TriedPut(proposals: Table<Proposal>, j: seq<Owned<Fact>>, id: Id, p: Owned<Proposal>)
    requires Tried(proposals, j)
    requires id !in proposals ==> p.row.delivery.NotQueued?
    requires id in proposals ==> p.tenant == proposals[id].tenant && p.row.delivery == proposals[id].row.delivery
    ensures Tried(proposals[id := p], j)
  {}

  lemma TriedAppendOther(proposals: Table<Proposal>, j: seq<Owned<Fact>>, e: Owned<Fact>)
    requires Tried(proposals, j) && !e.row.AttemptFact?
    ensures Tried(proposals, j + [e])
  {
    var log := j + [e];
    forall k | FailureLogged(j, k) ensures FailureLogged(log, k) {
      var i :| 0 <= i < |j| && IsFailed(j[i]) && j[i].row.proposal == k;
      assert log[i] == j[i];
    }
  }

  lemma LastApprovalStays(j: seq<Owned<Fact>>, e: Owned<Fact>, i: int, k: Id)
    requires IsLastApproval(j, i, k) && (e.row.ApprovedFact? ==> e.row.proposal != k)
    ensures IsLastApproval(j + [e], i, k) && (j + [e])[i] == j[i]
  {}

  lemma SignedStays(row: Proposal, j: seq<Owned<Fact>>, e: Owned<Fact>, k: Id)
    requires SignedRow(row, j, k) && (e.row.ApprovedFact? ==> e.row.proposal != k)
    ensures SignedRow(row, j + [e], k)
  {
    var i :| IsLastApproval(j, i, k) && SignedBy(row, j[i].row.review);
    LastApprovalStays(j, e, i, k);
  }

  lemma SignedAppend(proposals: Table<Proposal>, j: seq<Owned<Fact>>, e: Owned<Fact>, p: Owned<Proposal>)
    requires Signed(proposals, j) && (e.row.ApprovedFact? || e.row.AttemptFact?) && e.row.proposal in proposals
    requires e.row.ApprovedFact? ==> SignedBy(p.row, e.row.review)
    requires e.row.AttemptFact? ==> SameSignature(proposals[e.row.proposal].row, p.row)
    ensures Signed(proposals[e.row.proposal := p], j + [e])
  {
    var after, log := proposals[e.row.proposal := p], j + [e];
    forall k | k in after && after[k].row.status == Approved ensures SignedRow(after[k].row, log, k) {
      if e.row.ApprovedFact? && k == e.row.proposal {
        assert IsLastApproval(log, |j|, k) && log[|j|] == e;
      } else {
        assert SignedRow(proposals[k].row, j, k);
        SignedStays(proposals[k].row, j, e, k);
        if k == e.row.proposal { SameSignatureSigned(proposals[k].row, p.row, log, k); }
      }
    }
  }

  predicate SameSignature(a: Proposal, b: Proposal) {
    a.status == b.status && a.review == b.review && a.approvedBy == b.approvedBy && a.approvedAt == b.approvedAt
  }

  lemma SameSignatureSigned(a: Proposal, b: Proposal, j: seq<Owned<Fact>>, k: Id)
    requires SignedRow(a, j, k) && SameSignature(a, b)
    ensures SignedRow(b, j, k)
  {
    var i :| IsLastApproval(j, i, k) && SignedBy(a, j[i].row.review);
    assert SignedBy(b, j[i].row.review);
  }

  lemma SignedPut(proposals: Table<Proposal>, j: seq<Owned<Fact>>, id: Id, p: Owned<Proposal>)
    requires Signed(proposals, j)
    requires if id in proposals then SameSignature(proposals[id].row, p.row) else p.row.status == Draft
    ensures Signed(proposals[id := p], j)
  {
    if id in proposals && p.row.status == Approved { SameSignatureSigned(proposals[id].row, p.row, j, id); }
  }

  lemma SignedAppendOther(proposals: Table<Proposal>, j: seq<Owned<Fact>>, e: Owned<Fact>)
    requires Signed(proposals, j) && !e.row.ApprovedFact?
    ensures Signed(proposals, j + [e])
  {
    forall k | k in proposals && proposals[k].row.status == Approved
      ensures SignedRow(proposals[k].row, j + [e], k)
    {
      SignedStays(proposals[k].row, j, e, k);
    }
  }

  lemma LedgerPut(proposals: Table<Proposal>, j: seq<Owned<Fact>>, id: Id, p: Owned<Proposal>)
    requires Ledger(proposals, j)
    requires id !in proposals ==> p.row.status == Draft && p.row.delivery.NotQueued?
    requires id in proposals ==>
      && p.tenant == proposals[id].tenant && p.row.status == proposals[id].row.status
      && p.row.prospect == proposals[id].row.prospect
      && (p.row.status == Approved ==> p.row.content == proposals[id].row.content)
      && p.row.delivery == proposals[id].row.delivery && p.row.processedAt == proposals[id].row.processedAt
    ensures Ledger(proposals[id := p], j)
  {}

  lemma LedgerAppendOther(proposals: Table<Proposal>, j: seq<Owned<Fact>>, e: Owned<Fact>)
    requires Ledger(proposals, j) && !e.row.ApprovedFact? && !e.row.AttemptFact?
    ensures Ledger(proposals, j + [e])
  {
    var log := j + [e];
    forall k | ApprovalLogged(j, k) ensures ApprovalLogged(log, k) {
      var i :| 0 <= i < |j| && j[i].row.ApprovedFact? && j[i].row.proposal == k;
      assert log[i] == j[i];
    }
    forall k | SendLogged(j, k) ensures SendLogged(log, k) {
      var i :| 0 <= i < |j| && IsReal(j[i]) && j[i].row.proposal == k;
      assert log[i] == j[i];
    }
  }

  lemma SentOnceAppend(proposals: Table<Proposal>, j: seq<Owned<Fact>>, e: Owned<Fact>)
    requires SentOnce(j) && Ledger(proposals, j)
    requires IsAttempt(e) ==> e.row.proposal in proposals && !proposals[e.row.proposal].row.Processed()
    ensures SentOnce(j + [e])
  {}

  lemma ApprovedFirstAppend(proposals: Table<Proposal>, j: seq<Owned<Fact>>, e: Owned<Fact>)
    requires ApprovedFirst(j) && Ledger(proposals, j)
    requires e.row.AttemptFact? ==>
      Find(proposals, e.tenant, e.row.proposal).Some? && proposals[e.row.proposal].row.status == Approved
    ensures ApprovedFirst(j + [e])
  {
    var log := j + [e];
    forall b | 0 <= b < |log| && log[b].row.AttemptFact?
      ensures exists a :: 0 <= a < b && log[a].row.ApprovedFact? && log[a].tenant == log[b].tenant
                          && log[a].row.proposal == log[b].row.proposal
    {
      if b < |j| {
        var a :| 0 <= a < b && j[a].row.ApprovedFact? && j[a].tenant == j[b].tenant
            && j[a].row.proposal == j[b].row.proposal;
        assert log[a] == j[a];
      } else {
        assert ApprovalLogged(j, e.row.proposal);
        var a :| 0 <= a < |j| && j[a].row.ApprovedFact? && j[a].row.proposal == e.row.proposal;
        assert log[a] == j[a] && Carries(proposals, j[a]);
      }
    }
  }

  lemma SuppressionAppend(suppressions: map<(string, string), Suppression>, j: seq<Owned<Fact>>, e: Owned<Fact>)
    requires SuppressionHolds(j) && Listed(suppressions, j)
    requires e.row.AttemptFact? ==>
      (e.row.test && e.row.recipient == Norm(e.row.sub)) || (e.tenant, e.row.recipient) !in suppressions
    ensures SuppressionHolds(j + [e])
  {}

  // ----- counting

  ghost function SentIds(j: seq<Owned<Fact>>, t: string, since: Time): set<Id> {
    if j == [] then {}
    else SentIds(j[..|j| - 1], t, since) + if RealSince(j[|j| - 1], t, since) then {j[|j| - 1].row.proposal} else {}
  }

  lemma {:induction false} SentIdsMeaning(j: seq<Owned<Fact>>, t: string, since: Time, id: Id)
    ensures id in SentIds(j, t, since) <==>
      exists i :: 0 <= i < |j| && RealSince(j[i], t, since) && j[i].row.proposal == id
  {
    if j != [] {
      var n := |j| - 1;
      SentIdsMeaning(j[..n], t, since, id);
      if id in SentIds(j[..n], t, since) {
        var i :| 0 <= i < n && RealSince(j[..n][i], t, since) && j[..n][i].row.proposal == id;
        assert j[i] == j[..n][i];
      }
      forall i | 0 <= i < n ensures j[i] == j[..n][i] {}
    }
  }

  lemma {:induction false} CountIsSize(j: seq<Owned<Fact>>, t: string, since: Time)
    requires SentOnce(j)
    ensures |SentIds(j, t, since)| == CountReal(j, t, since)
  {
    if j != [] {
      var n := |j| - 1;
      assert SentOnce(j[..n]);
      CountIsSize(j[..n], t, since);
      if RealSince(j[n], t, since) {
        SentIdsMeaning(j[..n], t, since, j[n].row.proposal);
        assert j[n].row.proposal !in SentIds(j[..n], t, since);
      }
    }
  }

  /** The daily query counts exactly the accepted real sends: the same proposals, each once. */
  lemma CountedAreSent(proposals: Table<Proposal>, j: seq<Owned<Fact>>, t: string, since: Time)
    requires Ledger(proposals, j) && SentOnce(j)
    ensures Counted(proposals, t, since) == SentIds(j, t, since)
    ensures |Counted(proposals, t, since)| == CountReal(j, t, since)
  {
    CountedIds(proposals, j, t, since);
    CountIsSize(j, t, since);
  }

  lemma CountedIds(proposals: Table<Proposal>, j: seq<Owned<Fact>>, t: string, since: Time)
    requires Ledger(proposals, j)
    ensures Counted(proposals, t, since) == SentIds(j, t, since)
  {
    forall k | k in Counted(proposals, t, since) ensures k in SentIds(j, t, since) {
      SentIdsMeaning(j, t, since, k);
      assert SendLogged(j, k);
      var i :| 0 <= i < |j| && IsReal(j[i]) && j[i].row.proposal == k;
      assert SentRow(proposals, j[i]);
      assert RealSince(j[i], t, since);
    }
    forall k | k in SentIds(j, t, since) ensures k in Counted(proposals, t, since) {
      SentIdsMeaning(j, t, since, k);
      var i :| 0 <= i < |j| && RealSince(j[i], t, since) && j[i].row.proposal == k;
      assert SentRow(proposals, j[i]);
    }
  }

  lemma BudgetAppend(proposals: Table<Proposal>, j: seq<Owned<Fact>>, e: Owned<Fact>)
    requires WithinBudget(j) && Ledger(proposals, j) && SentOnce(j)
    requires IsReal(e) ==> |Counted(proposals, e.tenant, Midnight(e.row.at))| < e.row.limit
    ensures WithinBudget(j + [e])
  {
    var log := j + [e];
    forall i | 0 <= i < |log| && IsReal(log[i])
      ensures CountReal(log[..i + 1], log[i].tenant, Midnight(log[i].row.at)) <= log[i].row.limit
    {
      if i < |j| {
        assert log[..i + 1] == j[..i + 1];
      } else {
        assert log[..i + 1] == log && log[..|j|] == j;
        CountedAreSent(proposals, j, e.tenant, Midnight(e.row.at));
      }
    }
  }

  // ----- every fitting write keeps the invariant

  lemma SetProposalKeepsLedger(s: Db, t: string, id: Id, p: Proposal, fact: Option<Fact>)
    requires Inv(s) && Fits(s, t, SetProposal(id, p, fact))
    ensures var after := Apply(s, t, SetProposal(id, p, fact));
      && Ledger(after.proposals, after.journal) && Tried(after.proposals, after.journal)
      && Signed(after.proposals, after.journal)
      && Listed(after.suppressions, after.journal) && SentOnce(after.journal) && ApprovedFirst(after.journal)
      && SuppressionHolds(after.journal) && WithinBudget(after.journal)
  {
    if fact.None? {
      LedgerPut(s.proposals, s.journal, id, Owned(t, p));
      TriedPut(s.proposals, s.journal, id, Owned(t, p));
      SignedPut(s.proposals, s.journal, id, Owned(t, p));
    } else {
      LoggedMoveKeepsSignatures(s, t, id, p, fact.value);
      LoggedMoveKeepsTries(s, t, id, p, fact.value);
      LoggedMoveKeepsJournal(s, t, id, p, fact.value);
      LoggedMoveKeepsLedger(s, t, id, p, fact.value);
    }
  }

  lemma LoggedMoveKeepsLedger(s: Db, t: string, id: Id, p: Proposal, fact: Fact)
    requires Inv(s) && Fits(s, t, SetProposal(id, p, Some(fact)))
    ensures Ledger(s.proposals[id := Owned(t, p)], s.journal + [Owned(t, fact)])
  {
    LedgerAppend(s.proposals, s.journal, Owned(t, fact), Owned(t, p));
  }

  lemma LoggedMoveKeepsTries(s: Db, t: string, id: Id, p: Proposal, fact: Fact)
    requires Tried(s.proposals, s.journal) && Fits(s, t, SetProposal(id, p, Some(fact)))
    ensures Tried(s.proposals[id := Owned(t, p)], s.journal + [Owned(t, fact)])
  {
    TriedAppend(s.proposals, s.journal, Owned(t, fact), Owned(t, p));
  }

  lemma LoggedMoveKeepsSignatures(s: Db, t: string, id: Id, p: Proposal, fact: Fact)
    requires Signed(s.proposals, s.journal) && Fits(s, t, SetProposal(id, p, Some(fact)))
    ensures Signed(s.proposals[id := Owned(t, p)], s.journal + [Owned(t, fact)])
  {
    SignedAppend(s.proposals, s.journal, Owned(t, fact), Owned(t, p));
  }

  lemma LoggedMoveKeepsJournal(s: Db, t: string, id: Id, p: Proposal, fact: Fact)
    requires Inv(s) && Fits(s, t, SetProposal(id, p, Some(fact)))
    ensures var log := s.journal + [Owned(t, fact)];
      Listed(s.suppressions, log) && SentOnce(log) && ApprovedFirst(log) && SuppressionHolds(log) && WithinBudget(log)
  {
    var e := Owned(t, fact);
    SentOnceAppend(s.proposals, s.journal, e);
    ApprovedFirstAppend(s.proposals, s.journal, e);
    SuppressionAppend(s.suppressions, s.journal, e);
    BudgetAppend(s.proposals, s.journal, e);
  }

  lemma OtherFactKeepsJournal(s: Db, e: Owned<Fact>)
    requires Inv(s) && !e.row.ApprovedFact? && !e.row.AttemptFact?
    ensures var log := s.journal + [e];
      && Ledger(s.proposals, log) && Tried(s.proposals, log) && Signed(s.proposals, log)
      && SentOnce(log) && ApprovedFirst(log)
      && SuppressionHolds(log) && WithinBudget(log)
  {
    LedgerAppendOther(s.proposals, s.journal, e);
    TriedAppendOther(s.proposals, s.journal, e);
    SignedAppendOther(s.proposals, s.journal, e);
    SentOnceAppend(s.proposals, s.journal, e);
    ApprovedFirstAppend(s.proposals, s.journal, e);
    SuppressionAppend(s.suppressions, s.journal, e);
    BudgetAppend(s.proposals, s.journal, e);
  }

  lemma PutProspectKeepsDomains(prospects: Table<Prospect>, id: Id, p: Owned<Prospect>)
    requires Domains(prospects)
    requires id in prospects ==> prospects[id].tenant == p.tenant && prospects[id].row.domain == p.row.domain
    requires id !in prospects ==> !DomainTaken(prospects, p.tenant, p.row.domain)
    ensures Domains(prospects[id := p])
  {}

  lemma ProspectWriteKeepsInv(s: Db, t: string, w: Write)
    requires Inv(s) && Fits(s, t, w) && (w.NewProspect? || w.SetProspect? || w.SetStatus?)
    ensures Inv(Apply(s, t, w))
  {
    ApplyKeepsOwnership(s, t, w);
    if w.SetStatus? {
      PutProspectKeepsDomains(s.prospects, w.id, Owned(t, s.prospects[w.id].row.(status := w.status)));
    } else {
      PutProspectKeepsDomains(s.prospects, w.id, Owned(t, w.prospect));
    }
  }

  lemma ProposalWriteKeepsInv(s: Db, t: string, w: Write)
    requires Inv(s) && Fits(s, t, w) && (w.NewProposal? || w.SetProposal?)
    ensures Inv(Apply(s, t, w))
  {
    ApplyKeepsOwnership(s, t, w);
    PutKeepsReviews(s.proposals, s.analyses, w.id, Owned(t, w.proposal));
    if w.SetProposal? {
      MoveKeepsKey(s, t, w.id, s.proposals[w.id].row, w.proposal, w.fact);
      SetProposalKeepsLedger(s, t, w.id, w.proposal, w.fact);
    } else {
      LedgerPut(s.proposals, s.journal, w.id, Owned(t, w.proposal));
      TriedPut(s.proposals, s.journal, w.id, Owned(t, w.proposal));
      SignedPut(s.proposals, s.journal, w.id, Owned(t, w.proposal));
    }
    PutKeepsVersions(s.proposals, w.id, Owned(t, w.proposal));
  }

  lemma UnloggedWriteKeepsInv(s: Db, t: string, w: Write)
    requires Inv(s) && Fits(s, t, w) && (w.NewCampaign? || w.NewAnalysis? || w.SetPolicy?)
    ensures Inv(Apply(s, t, w))
  {
    ApplyKeepsOwnership(s, t, w);
  }

  lemma SuppressKeepsInv(s: Db, t: string, email: string, row: Suppression)
    requires Inv(s) && Fits(s, t, Suppress(email, row))
    ensures Inv(Apply(s, t, Suppress(email, row)))
  {
    ApplyKeepsOwnership(s, t, Suppress(email, row));
    OtherFactKeepsJournal(s, Owned(t, SuppressedFact(email)));
  }

  lemma RecordKeepsInv(s: Db, t: string, fact: Fact)
    requires Inv(s) && Fits(s, t, Record(fact))
    ensures Inv(Apply(s, t, Record(fact)))
  {
    ApplyKeepsOwnership(s, t, Record(fact));
    OtherFactKeepsJournal(s, Owned(t, fact));
  }

  lemma ApplyKeepsInv(s: Db, t: string, w: Write)
    requires Inv(s) && Fits(s, t, w)
    ensures Inv(Apply(s, t, w))
  {
    if w.NewProspect? || w.SetProspect? || w.SetStatus? {
      ProspectWriteKeepsInv(s, t, w);
    } else if w.NewProposal? || w.SetProposal? {
      ProposalWriteKeepsInv(s, t, w);
    } else if w.Suppress? {
      SuppressKeepsInv(s, t, w.email, w.suppression);
    } else if w.Record? {
      RecordKeepsInv(s, t, w.happened);
    } else {
      UnloggedWriteKeepsInv(s, t, w);
    }
  }
}
