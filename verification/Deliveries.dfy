/** Deliveries, on whole schedules: what the providers' receipts say, how many mails leave, and what keeps the two
    apart. */
module Deliveries {
  import opened Text
  import opened Store
  import opened Requests
  import opened Plans
  import opened Invariants
  import opened Safety
  import opened Isolation
  import opened Concurrency
  import opened Guarantees

  // ----- receipts and mails

  lemma LoggedSendStays(ps: Table<Proposal>, j: seq<Owned<Fact>>, ps': Table<Proposal>, j': seq<Owned<Fact>>, k: Id)
    requires Ledger(ps, j) && Ledger(ps', j') && j <= j' && k in ps && ps[k].row.Processed()
    ensures k in ps' && ps'[k].row.Processed() && ps'[k].row.processedAt == ps[k].row.processedAt
  {}

  /** A processed proposal stays processed, with the same instant, whatever happens next. */
  lemma ProcessedIsAbsorbing(w: World, w': World, k: Id)
    requires Reachable(w) && Leads(w, w') && k in w.db.proposals && w.db.proposals[k].row.Processed()
    ensures k in w'.db.proposals && w'.db.proposals[k].row.Processed()
    ensures w'.db.proposals[k].row.processedAt == w.db.proposals[k].row.processedAt
  {
    ReachableLedger(w);
    LeadsToLedger(w, w');
    LoggedSendStays(w.db.proposals, w.db.journal, w'.db.proposals, w'.db.journal, k);
  }

  /** Receipts: once the provider has accepted a delivery of a proposal, no other attempt is made at it. */
  lemma AcceptedOnce(w: World, a: nat, b: nat)
    requires Reachable(w) && a < b < |w.db.journal| && IsReal(w.db.journal[a]) && IsAttempt(w.db.journal[b])
    ensures w.db.journal[a].row.proposal != w.db.journal[b].row.proposal
  {
    ReachableLedger(w);
  }

  /** Mails: when two leave for one proposal, the provider reported the first one as failed. */
  lemma SecondMailFollowsFailure(w: World, a: nat, b: nat)
    requires Reachable(w) && a < b < |w.db.journal| && IsMailed(w.db.journal[a]) && IsMailed(w.db.journal[b])
    requires w.db.journal[a].row.proposal == w.db.journal[b].row.proposal
    ensures IsFailed(w.db.journal[a])
  {
    ReachableLedger(w);
  }

  /** Everything that a delivery to the prospect is checked for, except that the proposal was processed before. */
  ghost predicate OtherwiseDeliverable(s: Db, c: Caller, f: DeliveryForm) {
    && f.testRecipient.None? && c.CanWrite()
    && Find(s.proposals, c.tenant, f.proposal).Some?
    && Find(s.prospects, c.tenant, s.proposals[f.proposal].row.prospect).Some?
    && PassesOtherChecks(s, c.tenant, f, s.proposals[f.proposal].row,
                         s.prospects[s.proposals[f.proposal].row.prospect].row)
  }

  ghost predicate PassesOtherChecks(s: Db, t: string, f: DeliveryForm, row: Proposal, p: Prospect) {
    && row.status == Approved && row.approvedBy.Some? && Recipient(f, p) != "" && '@' in Recipient(f, p)
    && p.verified && !p.doNotContact && !IsSuppressed(s.suppressions, t, Recipient(f, p))
    && DailyLimit(s, t, p).Some? && |Counted(s.proposals, t, Midnight(f.now))| < DailyLimit(s, t, p).value
    && ShareRefusal(row, f.shareToken, f.now + f.shareLag).None?
  }

  /** ... so it is sent exactly when the row is not processed. */
  lemma DeliverableUnlessProcessed(s: Db, c: Caller, f: DeliveryForm)
    requires OtherwiseDeliverable(s, c, f)
    ensures var row := s.proposals[f.proposal].row;
      PlanDeliver(s, c, f) ==
        if row.Processed() then Refuse(c.tenant, AlreadyProcessed)
        else Send(s, c, f, row, s.prospects[row.prospect].row)
  {}

  lemma SendIsLogged(s: Db, c: Caller, f: DeliveryForm, row: Proposal, p: Prospect)
    requires PlanDeliver(s, c, f) == Send(s, c, f, row, p) && c.CanWrite()
    ensures Step(s, By(c, Deliver(f))).db.journal == s.journal + [Owned(c.tenant, Attempt(s, c, f, row, p))]
  {
    StepIsDecided(s, c, Deliver(f));
    SetCarriedOut(s, By(c, Deliver(f)), PlanDeliver(s, c, f));
  }

  lemma TriedMeansProcessedOrFailed(proposals: Table<Proposal>, j: seq<Owned<Fact>>, a: nat)
    requires Tried(proposals, j) && a < |j| && IsAttempt(j[a])
    ensures Find(proposals, j[a].tenant, j[a].row.proposal).Some?
    ensures proposals[j[a].row.proposal].row.Processed() <==> !proposals[j[a].row.proposal].row.delivery.DeliveryFailed?
  {
    assert TriedRow(proposals, j[a]);
  }

  /** The exact condition for mailing a prospect again. After a mail for a proposal has left, a further delivery that
      meets every other check mails again if and only if the row says that its delivery failed; otherwise it is refused
      and nothing is logged. The row can be looked at before the call. */
  lemma MailsAgainIff(w: World, a: nat, c: Caller, f: DeliveryForm)
    requires Reachable(w) && a < |w.db.journal| && IsMailed(w.db.journal[a])
    requires w.db.journal[a].row.proposal == f.proposal
    requires OtherwiseDeliverable(w.db, c, f) && Leaves(f)
    ensures var j, after, n := w.db.journal, Step(w.db, By(c, Deliver(f))), |w.db.journal|;
      if w.db.proposals[f.proposal].row.delivery.DeliveryFailed?
      then |after.db.journal| == n + 1 && after.db.journal[..n] == j && IsMailed(after.db.journal[n])
           && after.db.journal[n].row.proposal == f.proposal
      else after.db == w.db && after.response == Refusal(AlreadyProcessed)
  {
    ReachableTried(w);
    TriedMeansProcessedOrFailed(w.db.proposals, w.db.journal, a);
    DeliverableIsLoggedOrRefused(w.db, c, f);
  }

  lemma ReachableTried(w: World)
    requires Reachable(w)
    ensures Tried(w.db.proposals, w.db.journal)
  {
    ReachableIsValid(w);
  }

  lemma DeliverableIsLoggedOrRefused(s: Db, c: Caller, f: DeliveryForm)
    requires OtherwiseDeliverable(s, c, f)
    ensures var row, after := s.proposals[f.proposal].row, Step(s, By(c, Deliver(f)));
      if row.Processed() then after == Outcome(s, Refusal(AlreadyProcessed))
      else after.db.journal == s.journal + [Owned(c.tenant, Attempt(s, c, f, row, s.prospects[row.prospect].row))]
  {
    DeliverableUnlessProcessed(s, c, f);
    var row := s.proposals[f.proposal].row;
    if row.Processed() {
      StepIsDecided(s, c, Deliver(f));
    } else {
      SendIsLogged(s, c, f, row, s.prospects[row.prospect].row);
    }
  }

  /** A row says that its delivery failed exactly when attempts were logged and all of them as failed. */
  lemma FailedMeansAttempted(w: World, k: Id)
    requires Reachable(w) && k in w.db.proposals
    ensures w.db.proposals[k].row.delivery.DeliveryFailed? <==>
      && FailureLogged(w.db.journal, k)
      && forall i :: 0 <= i < |w.db.journal| && IsAttempt(w.db.journal[i]) && w.db.journal[i].row.proposal == k ==>
           IsFailed(w.db.journal[i])
  {
    ReachableIsValid(w);
    FailedRow(w.db.proposals, w.db.journal, k);
  }

  lemma FailedRow(proposals: Table<Proposal>, j: seq<Owned<Fact>>, k: Id)
    requires Ledger(proposals, j) && Tried(proposals, j) && k in proposals
    ensures proposals[k].row.delivery.DeliveryFailed? <==>
      FailureLogged(j, k) && forall i :: 0 <= i < |j| && IsAttempt(j[i]) && j[i].row.proposal == k ==> IsFailed(j[i])
  {}

  /** A delivery that has read is not checked again: whatever was committed since, it sends when it commits. */
  lemma PendingDeliveryIsNotRechecked(w: World, t: string, tx: nat)
    requires (t, tx) in w.pending && w.pending[(t, tx)].plan.tenant == t
    requires |w.pending[(t, tx)].plan.writes| == 1 && w.pending[(t, tx)].plan.writes[0].SetProposal?
    ensures var p := w.pending[(t, tx)].plan; var after := Act(w, Conclude(t, tx));
      after.db == Apply(w.db, t, p.writes[0]) && after.pending == w.pending - {(t, tx)}
  {
    var p := w.pending[(t, tx)];
    SetCarriedOut(w.db, p.cmd, p.plan);
  }

  /** The transaction will commit an accepted delivery of the proposal. */
  ghost predicate WillAccept(p: Plan, t: string, k: Id) {
    && p.tenant == t && |p.writes| == 1 && p.writes[0].SetProposal? && p.writes[0].fact.Some?
    && IsReal(Owned(t, p.writes[0].fact.value)) && p.writes[0].fact.value.proposal == k
  }

  lemma AcceptedPlan(s: Db, c: Caller, f: DeliveryForm)
    requires PlanDeliver(s, c, f).response.DeliveryOut? && f.testRecipient.None? && c.CanWrite()
    ensures WillAccept(PlanCommand(s, By(c, Deliver(f))), c.tenant, f.proposal)
  {
    DeliveryPlan(s, c, f);
  }

  lemma ConcludeAccepted(w: World, t: string, tx: nat, k: Id)
    requires (t, tx) in w.pending && WillAccept(w.pending[(t, tx)].plan, t, k)
    ensures var after := Act(w, Conclude(t, tx)); var n := |w.db.journal|;
      && after.pending == w.pending - {(t, tx)} && |after.db.journal| == n + 1 && after.db.journal[..n] == w.db.journal
      && IsReal(after.db.journal[n]) && after.db.journal[n].row.proposal == k
  {
    PendingDeliveryIsNotRechecked(w, t, tx);
  }

  /** Being undisturbed is needed: of two deliveries that both read before either commits, both are accepted. */
  lemma OverlappingDeliveriesBothSend(w: World, c: Caller, f: DeliveryForm, g: DeliveryForm, m: nat, n: nat)
    requires m != n && (c.tenant, m) !in w.pending && (c.tenant, n) !in w.pending && c.CanWrite()
        && g.proposal == f.proposal
    requires PlanDeliver(w.db, c, f).response.DeliveryOut? && f.testRecipient.None?
    requires PlanDeliver(w.db, c, g).response.DeliveryOut? && g.testRecipient.None?
    ensures var first, second := Read(m, By(c, Deliver(f))), Read(n, By(c, Deliver(g)));
      var j, k := Schedule(w, [first, second, Conclude(c.tenant, m), Conclude(c.tenant, n)]).db.journal, |w.db.journal|;
      && |j| == k + 2 && j[..k] == w.db.journal && IsReal(j[k]) && IsReal(j[k + 1])
      && j[k].row.proposal == j[k + 1].row.proposal == f.proposal
  {
    var first, second := Read(m, By(c, Deliver(f))), Read(n, By(c, Deliver(g)));
    var two := Act(Act(w, first), second);
    AcceptedPlan(w.db, c, f);
    AcceptedPlan(w.db, c, g);
    BothRead(w, c, f, g, m, n);
    ConcludeAccepted(two, c.tenant, m, f.proposal);
    ConcludeAccepted(Act(two, Conclude(c.tenant, m)), c.tenant, n, f.proposal);
    FourActions(w, first, second, Conclude(c.tenant, m), Conclude(c.tenant, n));
  }

  lemma BothRead(w: World, c: Caller, f: DeliveryForm, g: DeliveryForm, m: nat, n: nat)
    requires m != n && (c.tenant, m) !in w.pending && (c.tenant, n) !in w.pending
    ensures var two := Act(Act(w, Read(m, By(c, Deliver(f)))), Read(n, By(c, Deliver(g))));
      && two.db == w.db && (c.tenant, m) in two.pending && (c.tenant, n) in two.pending
      && two.pending[(c.tenant, m)].plan == PlanCommand(w.db, By(c, Deliver(f)))
      && two.pending[(c.tenant, n)].plan == PlanCommand(w.db, By(c, Deliver(g)))
  {}

  lemma FourActions(w: World, a: Action, b: Action, c: Action, d: Action)
    ensures Schedule(w, [a, b, c, d]) == Act(Act(Act(Act(w, a), b), c), d)
  {
    assert [a, b, c, d][1..] == [b, c, d] && [b, c, d][1..] == [c, d] && [c, d][1..] == [d] && [d][1..] == [];
    assert Schedule(Act(Act(Act(w, a), b), c), [d]) == Act(Act(Act(Act(w, a), b), c), d);
    assert Schedule(Act(Act(w, a), b), [c, d]) == Schedule(Act(Act(Act(w, a), b), c), [d]);
    assert Schedule(Act(w, a), [b, c, d]) == Schedule(Act(Act(w, a), b), [c, d]);
  }

  /** One that reads after the other has committed is refused. */
  lemma SuccessiveDeliveriesSendOnce(s: Db, c: Caller, f: DeliveryForm, g: DeliveryForm)
    requires c.CanWrite() && g.proposal == f.proposal
    requires PlanDeliver(s, c, f).response.DeliveryOut? && f.testRecipient.None?
    requires PlanDeliver(s, c, g).response.DeliveryOut? && g.testRecipient.None?
    ensures PlanDeliver(Step(s, By(c, Deliver(f))).db, c, g) == Refuse(c.tenant, AlreadyProcessed)
  {
    StepIsDecided(s, c, Deliver(f));
    SetCarriedOut(s, By(c, Deliver(f)), PlanDeliver(s, c, f));
    var w := PlanDeliver(s, c, f).writes[0];
    AcceptedRow(s, c, f);
    ProcessedIsRefused(s, c, g, w.proposal, w.fact);
  }

  lemma AcceptedRow(s: Db, c: Caller, f: DeliveryForm)
    requires PlanDeliver(s, c, f).response.DeliveryOut? && f.testRecipient.None?
    ensures var w, was := PlanDeliver(s, c, f).writes[0], s.proposals[f.proposal].row;
      && w.SetProposal? && w.id == f.proposal && |PlanDeliver(s, c, f).writes| == 1
        && PlanDeliver(s, c, f).tenant == c.tenant
      && w.proposal.Processed() && w.proposal.prospect == was.prospect && w.proposal.status == was.status
      && w.proposal.approvedBy == was.approvedBy
  {}

  lemma ProcessedIsRefused(s: Db, c: Caller, g: DeliveryForm, row: Proposal, fact: Option<Fact>)
    requires PlanDeliver(s, c, g).response.DeliveryOut? && g.testRecipient.None? && row.Processed()
    requires var was := s.proposals[g.proposal].row;
      row.prospect == was.prospect && row.status == was.status && row.approvedBy == was.approvedBy
    ensures PlanDeliver(Apply(s, c.tenant, SetProposal(g.proposal, row, fact)), c, g)
        == Refuse(c.tenant, AlreadyProcessed)
  {}

  /** The daily query counts each accepted real send since then once, and nothing else. */
  lemma QueryCountsSends(w: World, t: string, since: Time)
    requires Reachable(w)
    ensures forall k :: k in Counted(w.db.proposals, t, since) <==>
      exists i :: 0 <= i < |w.db.journal| && RealSince(w.db.journal[i], t, since) && w.db.journal[i].row.proposal == k
    ensures |Counted(w.db.proposals, t, since)| == CountReal(w.db.journal, t, since)
  {
    ReachableLedger(w);
    CountedAreSent(w.db.proposals, w.db.journal, t, since);
    forall k ensures k in SentIds(w.db.journal, t, since) <==>
      exists i :: 0 <= i < |w.db.journal| && RealSince(w.db.journal[i], t, since) && w.db.journal[i].row.proposal == k
    {
      SentIdsMeaning(w.db.journal, t, since, k);
    }
  }

  /** Right after an accepted delivery, the accepted ones of its day number at most the limit the call used,
      also when midnight fell between the check and the write. */
  lemma BudgetHolds(w: World, i: nat)
    requires Reachable(w) && i < |w.db.journal| && IsReal(w.db.journal[i])
    ensures var e := w.db.journal[i];
      CountReal(w.db.journal[..i + 1], e.tenant, Midnight(e.row.at)) <= e.row.limit
  {
    ReachableLedger(w);
  }

  predicate SentOn(e: Owned<Fact>, t: string, day: Time) {
    IsReal(e) && e.tenant == t && Midnight(e.row.at) == day
  }

  /** Accepted real sends of the tenant on one day. */
  ghost function DayTotal(j: seq<Owned<Fact>>, t: string, day: Time): nat {
    if j == [] then 0 else DayTotal(j[..|j| - 1], t, day) + if SentOn(j[|j| - 1], t, day) then 1 else 0
  }

  lemma {:induction false} DayWithinCount(j: seq<Owned<Fact>>, t: string, day: Time)
    ensures DayTotal(j, t, day) <= CountReal(j, t, day)
  {
    if j != [] { DayWithinCount(j[..|j| - 1], t, day); }
  }

  lemma {:induction false} LastSendBoundsDay(j: seq<Owned<Fact>>, t: string, day: Time, most: int)
    requires WithinBudget(j) && 0 <= most
    requires forall i :: 0 <= i < |j| && SentOn(j[i], t, day) ==> j[i].row.limit <= most
    ensures DayTotal(j, t, day) <= most
  {
    if j != [] {
      var n := |j| - 1;
      if SentOn(j[n], t, day) {
        assert j[..n + 1] == j;
        DayWithinCount(j, t, day);
      } else {
        forall i | 0 <= i < n && IsReal(j[..n][i])
          ensures CountReal(j[..n][..i + 1], j[..n][i].tenant, Midnight(j[..n][i].row.at)) <= j[..n][i].row.limit
        {
          assert j[..n][..i + 1] == j[..i + 1] && j[..n][i] == j[i];
        }
        LastSendBoundsDay(j[..n], t, day, most);
      }
    }
  }

  /** Receipts: in no schedule does a tenant have more deliveries accepted in a day than the largest limit that was in
      force for one of them. The clock may do as it likes between requests. */
  lemma AcceptedWithinDailyLimit(w: World, t: string, day: Time, most: int)
    requires Reachable(w) && 0 <= most
    requires forall i :: 0 <= i < |w.db.journal| && SentOn(w.db.journal[i], t, day) ==>
      w.db.journal[i].row.limit <= most
    ensures DayTotal(w.db.journal, t, day) <= most
  {
    ReachableLedger(w);
    LastSendBoundsDay(w.db.journal, t, day, most);
  }

  predicate MailedOn(e: Owned<Fact>, t: string, day: Time) {
    IsMailed(e) && e.tenant == t && Midnight(e.row.at) == day
  }

  predicate FailedOn(e: Owned<Fact>, t: string, day: Time) {
    IsFailed(e) && e.tenant == t && Midnight(e.row.at) == day
  }

  /** Mails to prospects of the tenant that left on one day. */
  ghost function DayMails(j: seq<Owned<Fact>>, t: string, day: Time): nat {
    if j == [] then 0 else DayMails(j[..|j| - 1], t, day) + if MailedOn(j[|j| - 1], t, day) then 1 else 0
  }

  /** Deliveries of the tenant that were reported as failed on one day. */
  ghost function DayFailures(j: seq<Owned<Fact>>, t: string, day: Time): nat {
    if j == [] then 0 else DayFailures(j[..|j| - 1], t, day) + if FailedOn(j[|j| - 1], t, day) then 1 else 0
  }

  lemma {:induction false} MailsAreAcceptedOrFailed(j: seq<Owned<Fact>>, t: string, day: Time)
    ensures DayMails(j, t, day) <= DayTotal(j, t, day) + DayFailures(j, t, day)
  {
    if j != [] { MailsAreAcceptedOrFailed(j[..|j| - 1], t, day); }
  }

  /** Mails: on no day do more leave to a tenant's prospects than that limit plus the deliveries reported as failed. */
  lemma MailsWithinLimitAndFailures(w: World, t: string, day: Time, most: int)
    requires Reachable(w) && 0 <= most
    requires forall i :: 0 <= i < |w.db.journal| && SentOn(w.db.journal[i], t, day) ==>
      w.db.journal[i].row.limit <= most
    ensures DayMails(w.db.journal, t, day) <= most + DayFailures(w.db.journal, t, day)
  {
    AcceptedWithinDailyLimit(w, t, day, most);
    MailsAreAcceptedOrFailed(w.db.journal, t, day);
  }

  /** A delivery that is reported as failed is not counted, whether its mail left or not. */
  lemma FailuresAreNotCounted(s: Db, c: Caller, f: DeliveryForm, u: string, since: Time)
    requires Inv(s) && Receipt(f).Refused?
    ensures Counted(Step(s, By(c, Deliver(f))).db.proposals, u, since) == Counted(s.proposals, u, since)
  {
    StepIsDecided(s, c, Deliver(f));
    DeliverSends(s, c, f);
    var plan := PlanDeliver(s, c, f);
    if c.CanWrite() && plan.writes != [] { FailedSendKeepsCount(s, c, f, u, since); }
  }

  lemma FailedSendKeepsCount(s: Db, c: Caller, f: DeliveryForm, u: string, since: Time)
    requires Receipt(f).Refused? && PlanDeliver(s, c, f).writes != []
    ensures Counted(Finish(s, By(c, Deliver(f)), PlanDeliver(s, c, f)).db.proposals, u, since)
        == Counted(s.proposals, u, since)
  {
    SetCarriedOut(s, By(c, Deliver(f)), PlanDeliver(s, c, f));
  }

  /** The logged limit is the one in force: the campaign's, else the policy's, else 20. */
  lemma LoggedLimitIsInForce(s: Db, c: Caller, f: DeliveryForm)
    requires PlanDeliver(s, c, f).response.DeliveryOut? && f.testRecipient.None? && c.CanWrite()
    ensures var row := s.proposals[f.proposal].row; var p := s.prospects[row.prospect].row;
      var fact := Attempt(s, c, f, row, p);
      && Step(s, By(c, Deliver(f))).db.journal == s.journal + [Owned(c.tenant, fact)]
      && (p.campaign.None? ==> fact.limit == if c.tenant in s.policies then s.policies[c.tenant].dailyLimit else 20)
      && (p.campaign.Some? ==> fact.limit == s.campaigns[p.campaign.value].row.dailyLimit)
  {
    var row := s.proposals[f.proposal].row;
    SendIsLogged(s, c, f, row, s.prospects[row.prospect].row);
  }

  predicate IsRealAttempt(fact: Option<Fact>) {
    fact.Some? && fact.value.AttemptFact? && !fact.value.test
  }

  lemma ApplyKeepsCount(s: Db, t: string, w: Write, u: string, since: Time)
    requires Fits(s, t, w) && (w.SetProposal? ==> !IsRealAttempt(w.fact))
    ensures Counted(Apply(s, t, w).proposals, u, since) == Counted(s.proposals, u, since)
  {
    if w.SetProposal? {
      assert w.proposal.delivery == s.proposals[w.id].row.delivery;
      assert w.proposal.processedAt == s.proposals[w.id].row.processedAt;
    }
  }

  lemma {:induction false} CommitKeepsCount(s: Db, t: string, ws: seq<Write>, u: string, since: Time)
    requires AllFit(s, t, ws) && forall w :: w in ws && w.SetProposal? ==> !IsRealAttempt(w.fact)
    ensures Commit(s, t, ws).Some? ==>
      Counted(Commit(s, t, ws).value.proposals, u, since) == Counted(s.proposals, u, since)
    decreases |ws|
  {
    if ws != [] && Allowed(s, t, ws[0]) {
      ApplyKeepsCount(s, t, ws[0], u, since);
      CommitKeepsCount(Apply(s, t, ws[0]), t, ws[1..], u, since);
    }
  }

  ghost predicate NoRealAttempt(ws: seq<Write>) {
    forall w :: w in ws && w.SetProposal? ==> !IsRealAttempt(w.fact)
  }

  lemma TestsAreNotReal(s: Db, c: Caller, f: DeliveryForm)
    requires f.testRecipient.Some?
    ensures NoRealAttempt(PlanDeliver(s, c, f).writes)
  {}

  lemma ProposalEditsAreNotReal(s: Db, c: Caller, id: Id, d: ContentPatch, v: Review, now: Time, token: string,
                                expires: Time)
    ensures NoRealAttempt(PlanUpdateProposal(s, c, id, d).writes)
    ensures NoRealAttempt(PlanApprove(s, c, id, v, now).writes)
    ensures NoRealAttempt(PlanCreateShare(s, c, id, token, expires).writes)
  {}

  predicate WritesProposals(r: Request) {
    r.Deliver? || r.UpdateProposal? || r.ApproveProposal? || r.CreateShare?
  }

  lemma OthersWriteNoProposalState(s: Db, cmd: Command)
    requires cmd.By? ==> !WritesProposals(cmd.request) && !cmd.request.BulkCsv?
    ensures forall w :: w in PlanCommand(s, cmd).writes ==> !w.SetProposal?
  {}

  lemma PlansOfProposalRequests(s: Db, c: Caller, r: Request)
    ensures !c.CanWrite() ==> PlanRequest(s, c, r).writes == []
    ensures c.CanWrite() && r.Deliver? ==> PlanRequest(s, c, r) == PlanDeliver(s, c, r.delivery)
    ensures c.CanWrite() && r.UpdateProposal? ==>
      PlanRequest(s, c, r) == PlanUpdateProposal(s, c, r.proposal, r.changes)
    ensures c.CanWrite() && r.ApproveProposal? ==>
      PlanRequest(s, c, r) == PlanApprove(s, c, r.proposal, ReviewOf(c, r), r.now)
    ensures c.CanWrite() && r.CreateShare? ==>
      PlanRequest(s, c, r) == PlanCreateShare(s, c, r.proposal, r.token, r.expires)
  {}

  lemma OnlyRealDeliveriesAttempt(s: Db, cmd: Command)
    requires !(cmd.By? && cmd.request.Deliver? && cmd.request.delivery.testRecipient.None?)
    requires !(cmd.By? && cmd.request.BulkCsv?)
    ensures NoRealAttempt(PlanCommand(s, cmd).writes)
  {
    if cmd.By? && WritesProposals(cmd.request) {
      var c, r := cmd.caller, cmd.request;
      PlansOfProposalRequests(s, c, r);
      match r
      case Deliver(f) => TestsAreNotReal(s, c, f);
      case UpdateProposal(id, d) =>
        ProposalEditsAreNotReal(s, c, id, d, Review(true, true, true, true, None, "", 0), 0, "", 0);
      case ApproveProposal(id, _, _, _, _, _, now) =>
        ProposalEditsAreNotReal(s, c, id, ContentPatch(Keep, Keep, Keep, Keep, Keep), ReviewOf(c, r), now, "", 0);
      case CreateShare(id, token, expires) =>
        ProposalEditsAreNotReal(s, c, id, ContentPatch(Keep, Keep, Keep, Keep, Keep),
                                Review(true, true, true, true, None, "", 0), 0, token, expires);
    } else {
      OthersWriteNoProposalState(s, cmd);
    }
  }

  /** Edits, approvals, test sends and everything else that is not a real delivery leave every tenant's count alone. */
  lemma OnlyRealDeliveriesCount(s: Db, cmd: Command, u: string, since: Time)
    requires Inv(s) && !(cmd.By? && cmd.request.Deliver? && cmd.request.delivery.testRecipient.None?)
    ensures Counted(Step(s, cmd).db.proposals, u, since) == Counted(s.proposals, u, since)
  {
    PlanFits(s, cmd);
    if cmd.By? && cmd.request.BulkCsv? {
      BatchIsNoAttempt(s, cmd);
    } else {
      OnlyRealDeliveriesAttempt(s, cmd);
    }
    FinishKeepsCount(s, cmd, PlanCommand(s, cmd), u, since);
  }

  lemma BatchIsNoAttempt(s: Db, cmd: Command)
    requires cmd.By? && cmd.request.BulkCsv?
    ensures NoRealAttempt(PlanCommand(s, cmd).writes)
  {}

  lemma FinishKeepsCount(s: Db, cmd: Command, p: Plan, u: string, since: Time)
    requires AllFit(s, p.tenant, p.writes) && NoRealAttempt(p.writes)
    ensures Counted(Finish(s, cmd, p).db.proposals, u, since) == Counted(s.proposals, u, since)
  {
    CommitKeepsCount(s, p.tenant, p.writes, u, since);
  }

  /** The tenant's own policy limit does not bound its day: a real send that passes the other guards when the count
      has reached the policy limit goes through exactly when the prospect's campaign sets a higher limit. */
  lemma CampaignLimitOverridesPolicy(s: Db, t: string, row: Proposal, p: Prospect, recipient: string, now: Time)
    requires p.verified && !p.doNotContact && !IsSuppressed(s.suppressions, t, recipient) && !row.Processed()
    requires |Counted(s.proposals, t, Midnight(now))| >= if t in s.policies then s.policies[t].dailyLimit else 20
    ensures RealSendRefusal(s, t, row, p, recipient, now).None? <==>
      && p.campaign.Some? && Find(s.campaigns, t, p.campaign.value).Some?
      && |Counted(s.proposals, t, Midnight(now))| < s.campaigns[p.campaign.value].row.dailyLimit
  {}
}
