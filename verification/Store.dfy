/** The rows Nova owns, the tenant-scoped queries over them, and a transaction:
    a list of row writes that commits as a whole or not at all. */
module Store {
  import opened Text
  import opened Order

  type Id = string

  /** Microseconds since the epoch (naive UTC). */
  type Time = int

  const DAY: Time := 86_400_000_000

  function Midnight(t: Time): Time {
    t - t % DAY
  }

  /** A row together with its `tenant_id` column. */
  datatype Owned<+T> = Owned(tenant: string, row: T)
  type Table<T> = map<Id, Owned<T>>

  datatype Campaign = Campaign(name: string, minScore: int, dailyLimit: int, info: string)

  datatype ProspectStatus = Qualified | AnalysisReady | ProposalReady | ApprovedForContact | Contacted | Won | Lost

  datatype Prospect = Prospect(
    campaign: Option<Id>, company: string, url: string, domain: string, status: ProspectStatus,
    email: Option<string>, verified: bool, verifiedAt: Option<Time>, doNotContact: bool,
    qualification: int, value: int, assignee: Option<string>, info: Option<string>)

  datatype AnalysisStatus = Complete | Failed

  datatype Analysis = Analysis(
    prospect: Id, status: AnalysisStatus, requestedBy: string, url: string, score: int,
    evidence: nat, titles: seq<string>, createdAt: Time, error: Option<string>)

  /** Everything in a proposal that a recipient gets to see. */
  datatype Content = Content(headline: string, summary: string, plan: string, subject: string, body: string)

  datatype Review = Review(
    analysisVerified: bool, contactVerified: bool, contentApproved: bool, legalBasisVerified: bool,
    note: Option<string>, actor: string, at: Time)

  /** SHA-256 as an injective function: the digest of two tokens is equal only when the tokens are. */
  datatype Digest = Sha256(of: string)

  datatype Share = Share(hash: Digest, expires: Time)

  datatype Provider = Queue | Mock | Resend | SmtpGeneric

  datatype Delivery = NotQueued | Queued | MockDelivered | Delivered | DeliveryFailed

  datatype ProposalStatus = Draft | Approved

  datatype Proposal = Proposal(
    prospect: Id, analysis: Id, version: int, createdBy: string, status: ProposalStatus, content: Content,
    review: Option<Review>, approvedBy: Option<string>, approvedAt: Option<Time>, share: Option<Share>,
    delivery: Delivery, provider: Option<Provider>, deliveryId: Option<string>,
    deliveredAt: Option<Time>, processedAt: Option<Time>)
  {
    /** `delivery_status in {"queued", "mock_delivered", "delivered"}` */
    predicate Processed() {
      delivery.Queued? || delivery.MockDelivered? || delivery.Delivered?
    }
  }

  datatype Policy = Policy(mode: string, minimumScore: int, dailyLimit: int, updatedBy: string, info: string)

  datatype Suppression = Suppression(reason: string, source: string, prospect: Option<Id>, actor: Option<string>)

  datatype CrmIds = CrmIds(customer: string, lead: string, caseId: string)

  /** HMAC-SHA-256 as an injective function of the text it is computed over. */
  datatype Token = Hmac(of: string)

  /** `opt_out_token`: three parts joined by colons. */
  function OptOutToken(tenant: string, prospect: Id, email: string): Token {
    Hmac(tenant + ":" + prospect + ":" + Norm(email))
  }

  /** The opt-out link in a mail. */
  datatype Link = Link(prospect: Id, token: Token)

  /** What happened, in order. `accepted` is what the provider reported, `left` whether a new mail went out, which
      the service does not get to know. The service never reads this log: it exists to state
      theorems over whole runs. */
  datatype Fact =
    | ApprovedFact(proposal: Id, review: Review, content: Content)
    | AttemptFact(proposal: Id, recipient: string, content: Content, test: bool, sub: string,
                  at: Time, limit: int, accepted: bool, left: bool, link: Link)
    | SuppressedFact(email: string)
    | PromotedFact(prospect: Id, crm: CrmIds)

  datatype Db = Db(
    campaigns: Table<Campaign>, prospects: Table<Prospect>, analyses: Table<Analysis>,
    proposals: Table<Proposal>, policies: map<string, Policy>,
    suppressions: map<(string, string), Suppression>, journal: seq<Owned<Fact>>)

  const EMPTY_DB: Db := Db(map[], map[], map[], map[], map[], map[], [])

  // ----- tenant-scoped queries

  function Slice<T>(table: Table<T>, t: string): Table<T> {
    map k | k in table && table[k].tenant == t :: table[k]
  }

  /** `filter(tenant_id == t, id == id).first()` */
  function Find<T>(table: Table<T>, t: string, id: Id): Option<T> {
    if id in table && table[id].tenant == t then Some(table[id].row) else None
  }

  predicate DomainTaken(prospects: Table<Prospect>, t: string, domain: string) {
    exists k :: k in prospects && prospects[k].tenant == t && prospects[k].row.domain == domain
  }

  predicate HasVersion(proposals: Table<Proposal>, pid: Id, version: int) {
    exists k :: k in proposals && proposals[k].row.prospect == pid && proposals[k].row.version == version
  }

  function VersionsOf(proposals: Table<Proposal>, t: string, pid: Id): set<int> {
    set k | k in proposals && proposals[k].tenant == t && proposals[k].row.prospect == pid
      :: proposals[k].row.version
  }

  ghost function MaxInt(xs: set<int>): (m: int)
    ensures xs == {} ==> m == 0
    ensures xs != {} ==> m in xs
    ensures forall x :: x in xs ==> x <= m
  {
    if xs == {} then 0
    else
      MaxIntExists(xs);
      var m :| m in xs && forall x :: x in xs ==> x <= m;
      m
  }

  lemma MaxIntExists(xs: set<int>)
    requires xs != {}
    ensures exists m :: m in xs && forall x :: x in xs ==> x <= m
  {
    var g := GreatestExists(xs, (a: int, b: int) => a <= b);
  }

  /** `select max(version)`, or 0 when there is none. */
  ghost function CurrentMax(proposals: Table<Proposal>, t: string, pid: Id): int {
    MaxInt(VersionsOf(proposals, t, pid))
  }

  function CompleteOf(analyses: Table<Analysis>, t: string, pid: Id): Table<Analysis> {
    map k | k in analyses && IsComplete(analyses, t, pid, k) :: analyses[k]
  }

  predicate IsComplete(analyses: Table<Analysis>, t: string, pid: Id, id: Id) {
    id in analyses && analyses[id].tenant == t && analyses[id].row.prospect == pid
    && analyses[id].row.status == Complete
  }

  /** Newest first; rows created at the same instant are ordered by id, which SQL leaves open. */
  predicate NotNewer(found: Table<Analysis>, a: Id, b: Id)
    requires a in found && b in found
  {
    var x, y := found[a].row.createdAt, found[b].row.createdAt;
    x < y || (x == y && TextLe(a, b))
  }

  ghost predicate IsNewest(found: Table<Analysis>, a: Id) {
    a in found && forall b :: b in found ==> NotNewer(found, b, a)
  }

  lemma NewestExists(found: Table<Analysis>)
    requires found != map[]
    ensures exists a :: IsNewest(found, a)
  {
    TextLeIsTotal();
    var le := (a: Id, b: Id) =>
      if a in found && b in found then NotNewer(found, a, b)
      else if a in found then true else if b in found then false else TextLe(a, b);
    assert Total(le);
    var k :| k in found;
    var g := GreatestExists(found.Keys, le);
    assert IsNewest(found, g);
  }

  lemma NewestUnique(found: Table<Analysis>, a: Id, b: Id)
    requires IsNewest(found, a) && IsNewest(found, b)
    ensures a == b
  {
    TextTotal(a, b);
  }

  /** `order_by(created_at.desc()).first()` over the completed analyses of one prospect. */
  ghost function Newest(found: Table<Analysis>): (r: Option<Id>)
    ensures r.None? <==> found == map[]
    ensures r.Some? ==> IsNewest(found, r.value)
  {
    if found == map[] then None
    else
      NewestExists(found);
      var a :| IsNewest(found, a);
      Some(a)
  }

  /** The proposals the daily-limit query counts. */
  function Counted(proposals: Table<Proposal>, t: string, since: Time): set<Id> {
    set k | k in proposals && proposals[k].tenant == t && proposals[k].row.Processed()
            && proposals[k].row.processedAt.Some? && since <= proposals[k].row.processedAt.value
  }

  predicate IsSuppressed(suppressions: map<(string, string), Suppression>, t: string, email: string) {
    (t, Norm(email)) in suppressions
  }

  // ----- writes and transactions

  datatype Write =
    | NewCampaign(id: Id, campaign: Campaign)
    | NewProspect(id: Id, prospect: Prospect)
    | NewAnalysis(id: Id, analysis: Analysis)
    | NewProposal(id: Id, proposal: Proposal)
    | SetProspect(id: Id, prospect: Prospect)
    | SetStatus(id: Id, status: ProspectStatus)
    | SetProposal(id: Id, proposal: Proposal, fact: Option<Fact>)
    | SetPolicy(policy: Policy)
    | Suppress(email: string, suppression: Suppression)
    | Record(happened: Fact)

  /** Primary keys and the unique constraints (tenant, domain) and (prospect, version). */
  predicate Allowed(s: Db, t: string, w: Write) {
    match w
    case NewCampaign(id, _) => id !in s.campaigns
    case NewProspect(id, p) => id !in s.prospects && !DomainTaken(s.prospects, t, p.domain)
    case NewAnalysis(id, _) => id !in s.analyses
    case NewProposal(id, p) => id !in s.proposals && !HasVersion(s.proposals, p.prospect, p.version)
    case _ => true
  }

  function Upsert(had: Option<Suppression>, made: Suppression): Suppression {
    match had
    case None => made
    case Some(row) => row.(reason := made.reason, source := made.source)
  }

  function Apply(s: Db, t: string, w: Write): Db {
    match w
    case NewCampaign(id, c) => s.(campaigns := s.campaigns[id := Owned(t, c)])
    case NewProspect(id, p) => s.(prospects := s.prospects[id := Owned(t, p)])
    case NewAnalysis(id, a) => s.(analyses := s.analyses[id := Owned(t, a)])
    case NewProposal(id, p) => s.(proposals := s.proposals[id := Owned(t, p)])
    case SetProspect(id, p) => s.(prospects := s.prospects[id := Owned(t, p)])
    case SetStatus(id, status) =>
      (match Find(s.prospects, t, id)
       case None => s
       case Some(p) => s.(prospects := s.prospects[id := Owned(t, p.(status := status))]))
    case SetProposal(id, p, fact) =>
      s.(proposals := s.proposals[id := Owned(t, p)],
         journal := if fact.Some? then s.journal + [Owned(t, fact.value)] else s.journal)
    case SetPolicy(p) => s.(policies := s.policies[t := p])
    case Suppress(email, row) =>
      var had := if (t, email) in s.suppressions then Some(s.suppressions[(t, email)]) else None;
      s.(suppressions := s.suppressions[(t, email) := Upsert(had, row)],
         journal := s.journal + [Owned(t, SuppressedFact(email))])
    case Record(fact) => s.(journal := s.journal + [Owned(t, fact)])
  }

  /** All writes in order, or `None` when a constraint is violated and the transaction rolls back. */
  function Commit(s: Db, t: string, ws: seq<Write>): Option<Db>
    decreases |ws|
  {
    if ws == [] then Some(s)
    else if !Allowed(s, t, ws[0]) then None
    else Commit(Apply(s, t, ws[0]), t, ws[1..])
  }

  lemma OneWrite(s: Db, t: string, w: Write)
    ensures Commit(s, t, [w]) == if Allowed(s, t, w) then Some(Apply(s, t, w)) else None
  {}

  lemma TwoWrites(s: Db, t: string, v: Write, w: Write)
    requires Allowed(s, t, v) && Allowed(Apply(s, t, v), t, w)
    ensures Commit(s, t, [v, w]) == Some(Apply(Apply(s, t, v), t, w))
  {
    assert [v, w][1..] == [w] && [w][1..] == [];
    assert Commit(Apply(s, t, v), t, [w]) == Commit(Apply(Apply(s, t, v), t, w), t, []);
  }
}
