/** What a delivery is checked for and what it stores, field by field. */
module DeliveryRules {
  import opened Text
  import opened Store
  import opened Requests
  import opened Plans

  predicate MayWrite(c: Caller) {
    "nova:write" in c.scopes || "platform_admin" in c.roles
  }

  /** The tenant has a row of this id. */
  predicate Holds<T>(table: Table<T>, t: string, id: Id) {
    id in table && table[id].tenant == t
  }

  /** The proposal and its prospect are the tenant's. */
  predicate IsOurs(s: Db, t: string, k: Id) {
    Holds(s.proposals, t, k) && Holds(s.prospects, t, s.proposals[k].row.prospect)
  }

  /** The address as it was typed, the test recipient's if there is one. */
  function Typed(f: DeliveryForm, p: Prospect): string {
    if f.testRecipient.Some? && f.testRecipient.value != "" then f.testRecipient.value
    else if p.email.Some? then p.email.value else ""
  }

  /** The tenant's proposals that were queued, mocked or delivered since then. */
  function SentSince(s: Db, t: string, since: Time): set<Id> {
    set k | k in s.proposals && s.proposals[k].tenant == t
      && s.proposals[k].row.delivery in {Queued, MockDelivered, Delivered}
      && s.proposals[k].row.processedAt.Some? && since <= s.proposals[k].row.processedAt.value
  }

  function LimitInForce(s: Db, t: string, p: Prospect): int {
    match p.campaign
    case Some(k) => if Holds(s.campaigns, t, k) then s.campaigns[k].row.dailyLimit else 0
    case None => if t in s.policies then s.policies[t].dailyLimit else 20
  }

  /** The contact is verified and may be written to. */
  predicate MayContact(s: Db, t: string, p: Prospect, address: string) {
    p.verified && !p.doNotContact && (t, address) !in s.suppressions
  }

  /** The campaign, if there is one, is the tenant's, and today's limit is not reached. */
  predicate HasBudget(s: Db, t: string, p: Prospect, now: Time) {
    && (p.campaign.Some? ==> Holds(s.campaigns, t, p.campaign.value))
    && |SentSince(s, t, now - now % 86_400_000_000)| < LimitInForce(s, t, p)
  }

  /** The share token is the stored one, and has not expired. */
  predicate TokenFits(row: Proposal, token: string, at: Time) {
    row.share.Some? && row.share.value.hash == Sha256(token) && at <= row.share.value.expires
  }

  /** Everything a delivery needs of the proposal and the prospect. */
  predicate IsDeliverable(s: Db, c: Caller, f: DeliveryForm, row: Proposal, p: Prospect) {
    var address := Norm(Typed(f, p));
    && row.status == Approved && row.approvedBy.Some? && address != "" && '@' in address
    && (match f.testRecipient
        case Some(_) => address == Norm(c.sub)
        case None =>
          && MayContact(s, c.tenant, p, address) && row.delivery !in {Queued, MockDelivered, Delivered}
          && HasBudget(s, c.tenant, p, f.now))
    && (f.shareToken.Some? && f.shareToken.value != "" ==> TokenFits(row, f.shareToken.value, f.now + f.shareLag))
  }

  lemma LimitMeans(s: Db, t: string, p: Prospect)
    ensures DailyLimit(s, t, p)
      == if p.campaign.Some? && !Holds(s.campaigns, t, p.campaign.value) then None else Some(LimitInForce(s, t, p))
  {}

  lemma CountMeans(s: Db, t: string, since: Time)
    ensures Counted(s.proposals, t, since) == SentSince(s, t, since)
  {}

  lemma RecipientMeans(f: DeliveryForm, p: Prospect)
    ensures Recipient(f, p) == Norm(Typed(f, p)) == Norm(Recipient(f, p))
  {
    NormIdempotent(Typed(f, p));
  }

  lemma RealGuards(s: Db, t: string, row: Proposal, p: Prospect, address: string, now: Time)
    requires Norm(address) == address
    ensures RealSendRefusal(s, t, row, p, address, now).None? <==>
      MayContact(s, t, p, address) && row.delivery !in {Queued, MockDelivered, Delivered} && HasBudget(s, t, p, now)
  {
    LimitMeans(s, t, p);
    CountMeans(s, t, Midnight(now));
  }

  lemma DeliverableIsSent(s: Db, c: Caller, f: DeliveryForm)
    requires IsOurs(s, c.tenant, f.proposal)
    ensures var row := s.proposals[f.proposal].row; var p := s.prospects[row.prospect].row;
      if IsDeliverable(s, c, f, row, p) then PlanDeliver(s, c, f) == Send(s, c, f, row, p)
      else PlanDeliver(s, c, f).writes == [] && PlanDeliver(s, c, f).response.Refusal?
  {
    var row := s.proposals[f.proposal].row;
    var p := s.prospects[row.prospect].row;
    RecipientMeans(f, p);
    RealGuards(s, c.tenant, row, p, Recipient(f, p), f.now);
  }

  // ----- when an attempt is made

  /** The step logs an attempt at the proposal for its prospect. */
  ghost predicate LogsAttempt(s: Db, c: Caller, f: DeliveryForm) {
    exists e: Owned<Fact> ::
      && Step(s, By(c, Deliver(f))).db.journal == s.journal + [e]
      && e.tenant == c.tenant && e.row.AttemptFact? && !e.row.test && e.row.proposal == f.proposal
  }

  lemma SentIsLogged(s: Db, c: Caller, f: DeliveryForm, row: Proposal, p: Prospect)
    requires MayWrite(c) && PlanDeliver(s, c, f) == Send(s, c, f, row, p)
    ensures Step(s, By(c, Deliver(f))).db.journal == s.journal + [Owned(c.tenant, Attempt(s, c, f, row, p))]
  {
    StepIsDecided(s, c, Deliver(f));
    SetCarriedOut(s, By(c, Deliver(f)), PlanDeliver(s, c, f));
  }

  lemma NoWritesNoChange(s: Db, c: Caller, f: DeliveryForm)
    requires !MayWrite(c) || PlanDeliver(s, c, f).writes == []
    ensures Step(s, By(c, Deliver(f)))
      == Outcome(s, if MayWrite(c) then PlanDeliver(s, c, f).response else Refusal(WriteForbidden))
  {
    StepIsDecided(s, c, Deliver(f));
  }

  /** A delivery to a prospect is attempted if and only if the caller may write, the proposal and its prospect are the
      tenant's, the proposal is approved by someone and not processed, the contact has an address, is verified and not
      suppressed, today's limit is not reached, and the share token, if one is given, fits. Otherwise nothing changes.
  */
  lemma AttemptedIff(s: Db, c: Caller, f: DeliveryForm)
    requires f.testRecipient.None?
    ensures LogsAttempt(s, c, f) <==>
      && ("nova:write" in c.scopes || "platform_admin" in c.roles)
      && f.proposal in s.proposals && s.proposals[f.proposal].tenant == c.tenant
      && var row := s.proposals[f.proposal].row;
      && row.prospect in s.prospects && s.prospects[row.prospect].tenant == c.tenant
      && var p := s.prospects[row.prospect].row; var address := Norm(Typed(f, p));
      && row.status == Approved && row.approvedBy.Some? && address != "" && '@' in address
      && p.verified && !p.doNotContact && (c.tenant, address) !in s.suppressions
      && row.delivery !in {Queued, MockDelivered, Delivered}
      && (p.campaign.Some? ==> Holds(s.campaigns, c.tenant, p.campaign.value))
      && |SentSince(s, c.tenant, f.now - f.now % 86_400_000_000)| < LimitInForce(s, c.tenant, p)
      && (f.shareToken.Some? && f.shareToken.value != "" ==> TokenFits(row, f.shareToken.value, f.now + f.shareLag))
    ensures !LogsAttempt(s, c, f) ==>
      Step(s, By(c, Deliver(f))).db == s && Step(s, By(c, Deliver(f))).response.Refusal?
  {
    if MayWrite(c) && IsOurs(s, c.tenant, f.proposal) {
      var row := s.proposals[f.proposal].row;
      var p := s.prospects[row.prospect].row;
      DeliverableIsSent(s, c, f);
      if IsDeliverable(s, c, f, row, p) { SentIsLogged(s, c, f, row, p); } else { NoWritesNoChange(s, c, f); }
    } else {
      NoWritesNoChange(s, c, f);
    }
  }

  // ----- why it is refused

  /** The first check that fails, in the order of the service. */
  function Hindrance(s: Db, c: Caller, f: DeliveryForm, row: Proposal, p: Prospect): Option<Error> {
    var address := Norm(Typed(f, p));
    if row.status != Approved || row.approvedBy.None? then Some(NotApproved)
    else if address == "" || '@' !in address then Some(RecipientRequired)
    else if f.testRecipient.Some? && address != Norm(c.sub) then Some(TestRecipientForbidden)
    else if f.testRecipient.None? && !p.verified then Some(ContactNotVerified)
    else if f.testRecipient.None? && !MayContact(s, c.tenant, p, address) then Some(ContactSuppressed)
    else if f.testRecipient.None? && row.delivery in {Queued, MockDelivered, Delivered} then Some(AlreadyProcessed)
    else if f.testRecipient.None? && p.campaign.Some? && !Holds(s.campaigns, c.tenant, p.campaign.value)
      then Some(CampaignNotFound)
    else if f.testRecipient.None? && !HasBudget(s, c.tenant, p, f.now) then Some(DailyLimitReached)
    else if f.shareToken == None || f.shareToken == Some("") then None
    else if row.share.None? || row.share.value.hash != Sha256(f.shareToken.value) then Some(ShareTokenInvalid)
    else if !TokenFits(row, f.shareToken.value, f.now + f.shareLag) then Some(ShareTokenExpired)
    else None
  }

  lemma RealGuardsInOrder(s: Db, c: Caller, f: DeliveryForm, row: Proposal, p: Prospect, address: string)
    requires f.testRecipient.None? && address == Norm(Typed(f, p)) == Norm(address)
    requires row.status == Approved && row.approvedBy.Some? && address != "" && '@' in address
    ensures RealSendRefusal(s, c.tenant, row, p, address, f.now).Some? ==>
      Hindrance(s, c, f, row, p) == RealSendRefusal(s, c.tenant, row, p, address, f.now)
    ensures RealSendRefusal(s, c.tenant, row, p, address, f.now).None? ==>
      Hindrance(s, c, f, row, p) == ShareRefusal(row, f.shareToken, f.now + f.shareLag)
  {
    LimitMeans(s, c.tenant, p);
    CountMeans(s, c.tenant, Midnight(f.now));
  }

  lemma HindranceMeans(s: Db, c: Caller, f: DeliveryForm)
    requires IsOurs(s, c.tenant, f.proposal)
    ensures var row := s.proposals[f.proposal].row; var p := s.prospects[row.prospect].row;
      Hindrance(s, c, f, row, p).Some? ==>
        PlanDeliver(s, c, f) == Refuse(c.tenant, Hindrance(s, c, f, row, p).value)
  {
    var row := s.proposals[f.proposal].row;
    var p := s.prospects[row.prospect].row;
    RecipientMeans(f, p);
    if f.testRecipient.None? && row.status == Approved && row.approvedBy.Some? && Recipient(f, p) != ""
        && '@' in Recipient(f, p) {
      RealGuardsInOrder(s, c, f, row, p, Recipient(f, p));
    }
  }

  /** A delivery, real or test, that is refused gets the error of the first check that fails. */
  lemma RefusedWithTheFirstError(s: Db, c: Caller, f: DeliveryForm)
    ensures var after := Step(s, By(c, Deliver(f)));
      && (!MayWrite(c) ==> after == Outcome(s, Refusal(WriteForbidden)))
      && (MayWrite(c) && !Holds(s.proposals, c.tenant, f.proposal) ==> after == Outcome(s, Refusal(ProposalNotFound)))
      && (MayWrite(c) && Holds(s.proposals, c.tenant, f.proposal) && !IsOurs(s, c.tenant, f.proposal) ==>
            after == Outcome(s, Refusal(ProspectNotFound)))
      && (MayWrite(c) && IsOurs(s, c.tenant, f.proposal) ==>
            var row := s.proposals[f.proposal].row; var p := s.prospects[row.prospect].row;
            Hindrance(s, c, f, row, p).Some? ==> after == Outcome(s, Refusal(Hindrance(s, c, f, row, p).value)))
  {
    if IsOurs(s, c.tenant, f.proposal) { HindranceMeans(s, c, f); }
    if !MayWrite(c) || PlanDeliver(s, c, f).writes == [] { NoWritesNoChange(s, c, f); }
  }

  /** So a delivery goes out exactly when no check fails. */
  lemma NothingHindersIff(s: Db, c: Caller, f: DeliveryForm, row: Proposal, p: Prospect)
    ensures IsDeliverable(s, c, f, row, p) <==> Hindrance(s, c, f, row, p).None?
  {}

  // ----- what it stores and answers

  /** The row after the provider has answered. */
  function RowAfter(f: DeliveryForm, row: Proposal): Proposal {
    var at := f.now + f.shareLag + f.sendLag;
    if f.testRecipient.Some? then row
    else
      match f.provider
      case Queue => row.(delivery := Queued, provider := Some(Queue), deliveryId := Some(ReceiptId(f)),
                         deliveredAt := None, processedAt := Some(at))
      case Mock => row.(delivery := MockDelivered, provider := Some(Mock), deliveryId := Some(ReceiptId(f)),
                        deliveredAt := None, processedAt := Some(at))
      case _ =>
        if f.transport.Refused? then row.(delivery := DeliveryFailed, provider := Some(f.provider))
        else row.(delivery := Delivered, provider := Some(f.provider), deliveryId := Some(f.transport.deliveryId),
                  deliveredAt := Some(at), processedAt := Some(at))
  }

  function ReceiptId(f: DeliveryForm): string {
    if f.transport.Accepted? then f.transport.deliveryId else ""
  }

  predicate Mails(f: DeliveryForm) {
    f.provider != Queue && f.provider != Mock
  }

  function Answer(f: DeliveryForm, address: string): Response {
    if Mails(f) && f.transport.Refused? then Refusal(DeliveryError(f.transport.code))
    else DeliveryOut(f.proposal,
                     match f.provider case Queue => Queued case Mock => MockDelivered case _ => Delivered,
                     f.provider, ReceiptId(f), Mails(f), address)
  }

  /** A delivery that is attempted, real or test, stores the provider's verdict in the proposal's row and nothing else,
      logs the content and address it sent, and answers accordingly; a test leaves the row as it was. */
  lemma AttemptStores(s: Db, c: Caller, f: DeliveryForm)
    requires MayWrite(c) && IsOurs(s, c.tenant, f.proposal)
    requires var row := s.proposals[f.proposal].row; IsDeliverable(s, c, f, row, s.prospects[row.prospect].row)
    ensures var row := s.proposals[f.proposal].row; var p := s.prospects[row.prospect].row;
      var address, at := Norm(Typed(f, p)), f.now + f.shareLag + f.sendLag;
      var after := Step(s, By(c, Deliver(f)));
      && after.response == Answer(f, address)
      && |after.db.journal| == |s.journal| + 1
      && var e := after.db.journal[|s.journal|];
      && after.db == s.(proposals := s.proposals[f.proposal := Owned(c.tenant, RowAfter(f, row))],
                        journal := s.journal + [e])
      && e.tenant == c.tenant && e.row.AttemptFact? && e.row.proposal == f.proposal
      && e.row.recipient == address && e.row.content == row.content && e.row.test == f.testRecipient.Some?
      && e.row.sub == c.sub && e.row.at == at && e.row.accepted == (!Mails(f) || f.transport.Accepted?)
      && e.row.left == (Mails(f) && f.transport.left)
      && e.row.link == Link(row.prospect, Hmac(c.tenant + ":" + row.prospect + ":" + address))
      && (f.testRecipient.None? ==> e.row.limit == LimitInForce(s, c.tenant, p))
  {
    var row := s.proposals[f.proposal].row;
    var p := s.prospects[row.prospect].row;
    DeliverableIsSent(s, c, f);
    RecipientMeans(f, p);
    LimitMeans(s, c.tenant, p);
    SendMeans(s, c, f, row, p);
    StepIsDecided(s, c, Deliver(f));
    DeliveryCarriedOut(s, c, f, RowAfter(f, row), Answer(f, Norm(Typed(f, p))), Attempt(s, c, f, row, p));
  }

  lemma SendMeans(s: Db, c: Caller, f: DeliveryForm, row: Proposal, p: Prospect)
    ensures Send(s, c, f, row, p) == Plan(c.tenant, Answer(f, Norm(Typed(f, p))),
      [SetProposal(f.proposal, RowAfter(f, row), Some(Attempt(s, c, f, row, p)))])
  {
    RecipientMeans(f, p);
  }
}
