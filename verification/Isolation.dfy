/** A request decides on, and changes, the rows of its own tenant only. */
module Isolation {
  import opened Text
  import opened Store
  import opened Requests
  import opened Plans
  import opened Invariants
  import opened Safety

  // ----- what a tenant owns

  function Entries(j: seq<Owned<Fact>>, t: string): seq<Owned<Fact>> {
    if j == [] then [] else Entries(j[..|j| - 1], t) + if j[|j| - 1].tenant == t then [j[|j| - 1]] else []
  }

  /** The database as it would be with tenant `t` alone in it. */
  function View(s: Db, t: string): Db {
    Db(Slice(s.campaigns, t), Slice(s.prospects, t), Slice(s.analyses, t), Slice(s.proposals, t),
       OwnPolicy(s.policies, t), OwnSuppressions(s.suppressions, t),
       Entries(s.journal, t))
  }

  // ----- queries of a tenant see only its slice

  lemma FindInSlice<T>(table: Table<T>, t: string)
    ensures forall id :: Find(Slice(table, t), t, id) == Find(table, t, id)
  {}

  lemma DomainsInSlice(prospects: Table<Prospect>, t: string)
    ensures forall d :: DomainTaken(Slice(prospects, t), t, d) == DomainTaken(prospects, t, d)
    ensures DomainsOf(Slice(prospects, t), t) == DomainsOf(prospects, t)
  {
    var own := Slice(prospects, t);
    forall d ensures DomainTaken(own, t, d) == DomainTaken(prospects, t, d)
             ensures d in DomainsOf(own, t) <==> d in DomainsOf(prospects, t) {
      if DomainTaken(prospects, t, d) {
        var k :| k in prospects && prospects[k].tenant == t && prospects[k].row.domain == d;
        assert k in own;
      }
    }
  }

  lemma VersionsInSlice(proposals: Table<Proposal>, t: string, pid: Id)
    ensures CurrentMax(Slice(proposals, t), t, pid) == CurrentMax(proposals, t, pid)
  {
    var own := Slice(proposals, t);
    forall v ensures v in VersionsOf(own, t, pid) <==> v in VersionsOf(proposals, t, pid) {
      if v in VersionsOf(proposals, t, pid) {
        var k :| k in proposals && proposals[k].tenant == t && proposals[k].row.prospect == pid
                 && proposals[k].row.version == v;
        assert k in own;
      }
    }
    assert VersionsOf(own, t, pid) == VersionsOf(proposals, t, pid);
  }

  lemma CompleteInSlice(analyses: Table<Analysis>, t: string, pid: Id)
    ensures CompleteOf(Slice(analyses, t), t, pid) == CompleteOf(analyses, t, pid)
  {}

  lemma CountedInSlice(proposals: Table<Proposal>, t: string, since: Time)
    ensures Counted(Slice(proposals, t), t, since) == Counted(proposals, t, since)
  {}

  // ----- writes stay within the tenant

  /** The row the write targets is not another tenant's. */
  ghost predicate NotOthers(s: Db, t: string, w: Write) {
    match w
    case NewCampaign(id, _) => id in s.campaigns ==> s.campaigns[id].tenant == t
    case NewProspect(id, _) => id in s.prospects ==> s.prospects[id].tenant == t
    case NewAnalysis(id, _) => id in s.analyses ==> s.analyses[id].tenant == t
    case NewProposal(id, p) =>
      && (id in s.proposals ==> s.proposals[id].tenant == t)
      && (forall k :: k in s.proposals && s.proposals[k].row.prospect == p.prospect ==> s.proposals[k].tenant == t)
    case SetProspect(id, _) => id in s.prospects ==> s.prospects[id].tenant == t
    case SetProposal(id, _, _) => id in s.proposals ==> s.proposals[id].tenant == t
    case _ => true
  }

  lemma ApplyKeepsNotOthers(s: Db, t: string, v: Write, w: Write)
    requires NotOthers(s, t, v) && NotOthers(s, t, w)
    ensures NotOthers(Apply(s, t, v), t, w)
  {}

  lemma PutInSlice<T>(table: Table<T>, t: string, id: Id, row: T)
    ensures Slice(table[id := Owned(t, row)], t) == Slice(table, t)[id := Owned(t, row)]
  {}

  lemma PutOutsideSlice<T>(table: Table<T>, t: string, u: string, id: Id, row: T)
    requires u != t && (id in table ==> table[id].tenant == t)
    ensures Slice(table[id := Owned(t, row)], u) == Slice(table, u)
  {}

  lemma AllowedOnSlice(s: Db, t: string, w: Write)
    requires NotOthers(s, t, w)
    ensures Allowed(View(s, t), t, w) == Allowed(s, t, w)
  {
    DomainsInSlice(s.prospects, t);
    if w.NewProposal? && HasVersion(s.proposals, w.proposal.prospect, w.proposal.version) {
      var k :| k in s.proposals && s.proposals[k].row.prospect == w.proposal.prospect
               && s.proposals[k].row.version == w.proposal.version;
      assert k in View(s, t).proposals;
    }
  }

  lemma TablesOnSlice(s: Db, alone: Db, t: string, w: Write)
    requires alone.campaigns == Slice(s.campaigns, t) && alone.prospects == Slice(s.prospects, t)
    requires alone.analyses == Slice(s.analyses, t) && alone.proposals == Slice(s.proposals, t)
    ensures var after, now := Apply(s, t, w), Apply(alone, t, w);
      && Slice(after.campaigns, t) == now.campaigns && Slice(after.prospects, t) == now.prospects
      && Slice(after.analyses, t) == now.analyses && Slice(after.proposals, t) == now.proposals
  {
    FindInSlice(s.prospects, t);
    match w
    case NewCampaign(id, c) => PutInSlice(s.campaigns, t, id, c);
    case NewProspect(id, p) => PutInSlice(s.prospects, t, id, p);
    case NewAnalysis(id, a) => PutInSlice(s.analyses, t, id, a);
    case NewProposal(id, p) => PutInSlice(s.proposals, t, id, p);
    case SetProspect(id, p) => PutInSlice(s.prospects, t, id, p);
    case SetStatus(id, status) =>
      if Find(s.prospects, t, id).Some? {
        PutInSlice(s.prospects, t, id, Find(s.prospects, t, id).value.(status := status));
      }
    case SetProposal(id, p, fact) => PutInSlice(s.proposals, t, id, p);
    case _ =>
  }

  lemma JournalOnSlice(s: Db, alone: Db, t: string, w: Write)
    requires alone.journal == Entries(s.journal, t)
    ensures Entries(Apply(s, t, w).journal, t) == Apply(alone, t, w).journal
  {}

  function OwnPolicy(policies: map<string, Policy>, t: string): map<string, Policy> {
    map k | k in policies && k == t :: policies[k]
  }

  function OwnSuppressions(rows: map<(string, string), Suppression>, t: string): map<(string, string), Suppression> {
    map k | k in rows && k.0 == t :: rows[k]
  }

  lemma PoliciesOnSlice(s: Db, alone: Db, t: string, w: Write)
    requires alone.policies == OwnPolicy(s.policies, t)
    ensures OwnPolicy(Apply(s, t, w).policies, t) == Apply(alone, t, w).policies
  {}

  lemma SuppressionsOnSlice(s: Db, alone: Db, t: string, w: Write)
    requires alone.suppressions == OwnSuppressions(s.suppressions, t)
    ensures OwnSuppressions(Apply(s, t, w).suppressions, t) == Apply(alone, t, w).suppressions
  {}

  lemma ListsOffSlice(s: Db, t: string, w: Write, u: string)
    requires u != t
    ensures OwnPolicy(Apply(s, t, w).policies, u) == OwnPolicy(s.policies, u)
    ensures OwnSuppressions(Apply(s, t, w).suppressions, u) == OwnSuppressions(s.suppressions, u)
  {}

  lemma ApplyOnSlice(s: Db, t: string, w: Write)
    ensures View(Apply(s, t, w), t) == Apply(View(s, t), t, w)
  {
    var alone := View(s, t);
    TablesOnSlice(s, alone, t, w);
    JournalOnSlice(s, alone, t, w);
    PoliciesOnSlice(s, alone, t, w);
    SuppressionsOnSlice(s, alone, t, w);
    ViewIs(Apply(s, t, w), t, Apply(alone, t, w));
  }

  lemma ViewIs(s: Db, t: string, alone: Db)
    requires Slice(s.campaigns, t) == alone.campaigns && Slice(s.prospects, t) == alone.prospects
    requires Slice(s.analyses, t) == alone.analyses && Slice(s.proposals, t) == alone.proposals
    requires OwnPolicy(s.policies, t) == alone.policies && OwnSuppressions(s.suppressions, t) == alone.suppressions
    requires Entries(s.journal, t) == alone.journal
    ensures View(s, t) == alone
  {}

  lemma TablesOffSlice(s: Db, t: string, w: Write, u: string)
    requires u != t && NotOthers(s, t, w)
    ensures var after := Apply(s, t, w);
      && Slice(after.campaigns, u) == Slice(s.campaigns, u) && Slice(after.prospects, u) == Slice(s.prospects, u)
      && Slice(after.analyses, u) == Slice(s.analyses, u) && Slice(after.proposals, u) == Slice(s.proposals, u)
  {
    match w
    case NewCampaign(id, c) => PutOutsideSlice(s.campaigns, t, u, id, c);
    case NewProspect(id, p) => PutOutsideSlice(s.prospects, t, u, id, p);
    case NewAnalysis(id, a) => PutOutsideSlice(s.analyses, t, u, id, a);
    case NewProposal(id, p) => PutOutsideSlice(s.proposals, t, u, id, p);
    case SetProspect(id, p) => PutOutsideSlice(s.prospects, t, u, id, p);
    case SetStatus(id, status) =>
      if Find(s.prospects, t, id).Some? {
        PutOutsideSlice(s.prospects, t, u, id, Find(s.prospects, t, id).value.(status := status));
      }
    case SetProposal(id, p, fact) => PutOutsideSlice(s.proposals, t, u, id, p);
    case _ =>
  }

  lemma JournalOffSlice(s: Db, t: string, w: Write, u: string)
    requires u != t
    ensures Entries(Apply(s, t, w).journal, u) == Entries(s.journal, u)
  {}

  lemma ApplyOffSlice(s: Db, t: string, w: Write, u: string)
    requires u != t && NotOthers(s, t, w)
    ensures View(Apply(s, t, w), u) == View(s, u)
  {
    TablesOffSlice(s, t, w, u);
    JournalOffSlice(s, t, w, u);
    ListsOffSlice(s, t, w, u);
    ViewIs(Apply(s, t, w), u, View(s, u));
  }

  lemma {:induction false} CommitOnSlice(s: Db, t: string, ws: seq<Write>)
    requires forall k :: 0 <= k < |ws| ==> NotOthers(s, t, ws[k])
    ensures Commit(View(s, t), t, ws) ==
      match Commit(s, t, ws) case None => None case Some(after) => Some(View(after, t))
    decreases |ws|
  {
    if ws != [] {
      AllowedOnSlice(s, t, ws[0]);
      if Allowed(s, t, ws[0]) {
        ApplyOnSlice(s, t, ws[0]);
        forall k | 0 <= k < |ws| ensures NotOthers(Apply(s, t, ws[0]), t, ws[k]) {
          ApplyKeepsNotOthers(s, t, ws[0], ws[k]);
        }
        CommitOnSlice(Apply(s, t, ws[0]), t, ws[1..]);
      }
    }
  }

  lemma {:induction false} CommitOffSlice(s: Db, t: string, ws: seq<Write>, u: string)
    requires u != t && forall k :: 0 <= k < |ws| ==> NotOthers(s, t, ws[k])
    ensures Commit(s, t, ws).Some? ==> View(Commit(s, t, ws).value, u) == View(s, u)
    decreases |ws|
  {
    if ws != [] && Allowed(s, t, ws[0]) {
      ApplyOffSlice(s, t, ws[0], u);
      forall k | 0 <= k < |ws| ensures NotOthers(Apply(s, t, ws[0]), t, ws[k]) {
        ApplyKeepsNotOthers(s, t, ws[0], ws[k]);
      }
      CommitOffSlice(Apply(s, t, ws[0]), t, ws[1..], u);
    }
  }

  // ----- fresh ids

  ghost function Ids(s: Db): set<Id> {
    s.campaigns.Keys + s.prospects.Keys + s.analyses.Keys + s.proposals.Keys
  }

  function NewIds(cmd: Command): set<Id> {
    match cmd
    case OptOut(_, _) => {}
    case By(_, r) =>
      match r
      case CreateCampaign(id, _) => {id}
      case CreateProspect(id, _, _) => {id}
      case BulkCsv(_, _, rows, _) => set row | row in rows :: row.id
      case RunAnalysis(_, id, _, audit, _) => if audit.AuditCrashed? then {id, audit.rowId} else {id}
      case GenerateProposal(_, _, id) => {id}
      case _ => {}
  }

  lemma BulkIds(c: Caller, campaign: Option<Id>, note: string, rows: seq<CsvRow>, taken: set<string>)
    ensures forall w :: w in Inserts(BulkCreated(c, campaign, note, rows, taken, |rows|)) ==>
      w.NewProspect? && exists i :: 0 <= i < |rows| && rows[i].id == w.id
  {
    BulkCreatedRows(c, campaign, note, rows, taken, |rows|);
    var created, chosen := BulkCreated(c, campaign, note, rows, taken, |rows|), CreatedRows(rows, taken, |rows|);
    forall w | w in Inserts(created) ensures w.NewProspect? && exists i :: 0 <= i < |rows| && rows[i].id == w.id {
      var k :| 0 <= k < |created| && w == NewProspect(created[k].0, created[k].1);
      assert rows[chosen[k]].id == w.id;
    }
  }

  // ----- every request is local to its tenant

  function WriteIds(w: Write): set<Id> {
    match w
    case NewCampaign(id, _) => {id}
    case NewProspect(id, _) => {id}
    case NewAnalysis(id, _) => {id}
    case NewProposal(id, _) => {id}
    case _ => {}
  }

  /** The request decides the same on its tenant's slice, and only targets rows of that tenant or new ones,
      under ids drawn for it. */
  ghost predicate Local(s: Db, t: string, onSlice: Plan, onAll: Plan, drawn: set<Id>) {
    onSlice == onAll && forall w :: w in onAll.writes ==> NotOthers(s, t, w) && WriteIds(w) <= drawn
  }

  lemma CreateProspectIsLocal(s: Db, c: Caller, id: Id, f: ProspectForm, now: Time)
    requires id !in s.prospects
    ensures Local(s, c.tenant, PlanCreateProspect(View(s, c.tenant), c, id, f, now),
                  PlanCreateProspect(s, c, id, f, now), {id})
  {
    FindInSlice(s.campaigns, c.tenant);
    DomainsInSlice(s.prospects, c.tenant);
  }

  lemma BulkIsLocal(s: Db, c: Caller, campaign: Option<Id>, headers: Option<seq<string>>, rows: seq<CsvRow>,
                    note: Option<string>)
    requires forall row :: row in rows ==> row.id !in s.prospects
    ensures Local(s, c.tenant, PlanBulkCsv(View(s, c.tenant), c, campaign, headers, rows, note),
                  PlanBulkCsv(s, c, campaign, headers, rows, note), set row | row in rows :: row.id)
  {
    FindInSlice(s.campaigns, c.tenant);
    DomainsInSlice(s.prospects, c.tenant);
    BulkIds(c, campaign, NoteOf(note), rows, DomainsOf(s.prospects, c.tenant));
  }

  lemma PromoteIsLocal(s: Db, c: Caller, pid: Id, vertical: string, brand: string, includeEmail: bool, crm: CrmOutcome)
    ensures Local(s, c.tenant, PlanPromote(View(s, c.tenant), c, pid, vertical, brand, includeEmail, crm),
                  PlanPromote(s, c, pid, vertical, brand, includeEmail, crm), {})
  {
    FindInSlice(s.prospects, c.tenant);
    CompleteInSlice(s.analyses, c.tenant, pid);
  }

  lemma UpdateProspectIsLocal(s: Db, c: Caller, pid: Id, d: ProspectPatch, now: Time)
    ensures Local(s, c.tenant, PlanUpdateProspect(View(s, c.tenant), c, pid, d, now),
                  PlanUpdateProspect(s, c, pid, d, now), {})
  {
    FindInSlice(s.prospects, c.tenant);
  }

  lemma RunAnalysisIsLocal(s: Db, c: Caller, pid: Id, id: Id, url: string, audit: Audit, now: Time)
    requires id !in s.analyses && (audit.AuditCrashed? ==> audit.rowId !in s.analyses)
    ensures Local(s, c.tenant, PlanRunAnalysis(View(s, c.tenant), c, pid, id, url, audit, now),
                  PlanRunAnalysis(s, c, pid, id, url, audit, now),
                      if audit.AuditCrashed? then {id, audit.rowId} else {id})
  {}

  lemma OwnProposalsOnly(s: Db, t: string, pid: Id)
    requires Ownership(s) && Find(s.prospects, t, pid).Some?
    ensures forall k :: k in s.proposals && s.proposals[k].row.prospect == pid ==> s.proposals[k].tenant == t
  {}

  lemma GenerateReadsOwnRows(s: Db, c: Caller, pid: Id, analysis: Option<Id>, id: Id)
    ensures PlanGenerate(View(s, c.tenant), c, pid, analysis, id) == PlanGenerate(s, c, pid, analysis, id)
  {
    FindInSlice(s.prospects, c.tenant);
    CompleteInSlice(s.analyses, c.tenant, pid);
    VersionsInSlice(s.proposals, c.tenant, pid);
  }

  lemma GenerateIsLocal(s: Db, c: Caller, pid: Id, analysis: Option<Id>, id: Id)
    requires Ownership(s) && id !in s.proposals
    ensures Local(s, c.tenant, PlanGenerate(View(s, c.tenant), c, pid, analysis, id),
                  PlanGenerate(s, c, pid, analysis, id), {id})
  {
    GenerateReadsOwnRows(s, c, pid, analysis, id);
    GenerateWrites(s, c, pid, analysis, id);
    var ws := PlanGenerate(s, c, pid, analysis, id).writes;
    if ws != [] {
      OwnProposalsOnly(s, c.tenant, pid);
      assert NotOthers(s, c.tenant, ws[0]) && NotOthers(s, c.tenant, ws[1]);
    }
  }

  lemma GenerateWrites(s: Db, c: Caller, pid: Id, analysis: Option<Id>, id: Id)
    ensures var ws := PlanGenerate(s, c, pid, analysis, id).writes;
      ws == [] ||
        (Find(s.prospects, c.tenant, pid).Some? && |ws| == 2 && ws[0].NewProposal? && ws[0].id == id
         && ws[0].proposal.prospect == pid && ws[1].SetStatus?)
  {}

  lemma UpdateProposalIsLocal(s: Db, c: Caller, id: Id, d: ContentPatch)
    ensures Local(s, c.tenant, PlanUpdateProposal(View(s, c.tenant), c, id, d), PlanUpdateProposal(s, c, id, d), {})
  {}

  lemma ApproveIsLocal(s: Db, c: Caller, id: Id, v: Review, now: Time)
    ensures Local(s, c.tenant, PlanApprove(View(s, c.tenant), c, id, v, now), PlanApprove(s, c, id, v, now), {})
  {
    FindInSlice(s.proposals, c.tenant);
    FindInSlice(s.prospects, c.tenant);
    if Find(s.proposals, c.tenant, id).Some? {
      CompleteInSlice(s.analyses, c.tenant, Find(s.proposals, c.tenant, id).value.prospect);
    }
  }

  lemma CreateShareIsLocal(s: Db, c: Caller, id: Id, token: string, expires: Time)
    ensures Local(s, c.tenant, PlanCreateShare(View(s, c.tenant), c, id, token, expires),
                  PlanCreateShare(s, c, id, token, expires), {})
  {}

  lemma RefusalInSlice(s: Db, t: string, row: Proposal, p: Prospect, recipient: string, now: Time)
    ensures DailyLimit(View(s, t), t, p) == DailyLimit(s, t, p)
    ensures RealSendRefusal(View(s, t), t, row, p, recipient, now) == RealSendRefusal(s, t, row, p, recipient, now)
  {
    FindInSlice(s.campaigns, t);
    CountedInSlice(s.proposals, t, Midnight(now));
  }

  lemma SendInSlice(s: Db, c: Caller, f: DeliveryForm, row: Proposal, p: Prospect)
    ensures Send(View(s, c.tenant), c, f, row, p) == Send(s, c, f, row, p)
  {
    RefusalInSlice(s, c.tenant, row, p, "", 0);
  }

  lemma DeliverWritesItsRow(s: Db, c: Caller, f: DeliveryForm)
    ensures forall w :: w in PlanDeliver(s, c, f).writes ==> w.SetProposal? && w.id == f.proposal
    ensures PlanDeliver(s, c, f).writes != [] ==> Find(s.proposals, c.tenant, f.proposal).Some?
  {}

  lemma DeliverIsLocal(s: Db, c: Caller, f: DeliveryForm)
    ensures Local(s, c.tenant, PlanDeliver(View(s, c.tenant), c, f), PlanDeliver(s, c, f), {})
  {
    DeliverReadsOwnRows(s, c, f);
    DeliverWritesItsRow(s, c, f);
  }

  lemma DeliverReadsOwnRows(s: Db, c: Caller, f: DeliveryForm)
    ensures PlanDeliver(View(s, c.tenant), c, f) == PlanDeliver(s, c, f)
  {
    FindInSlice(s.proposals, c.tenant);
    FindInSlice(s.prospects, c.tenant);
    if Find(s.proposals, c.tenant, f.proposal).Some? {
      var row := Find(s.proposals, c.tenant, f.proposal).value;
      if Find(s.prospects, c.tenant, row.prospect).Some? {
        var p := Find(s.prospects, c.tenant, row.prospect).value;
        RefusalInSlice(s, c.tenant, row, p, Recipient(f, p), f.now);
        SendInSlice(s, c, f, row, p);
      }
    }
  }

  lemma AddSuppressionIsLocal(s: Db, c: Caller, email: string, reason: string, about: Option<Id>)
    ensures Local(s, c.tenant, PlanAddSuppression(View(s, c.tenant), c, email, reason, about),
                  PlanAddSuppression(s, c, email, reason, about), {})
  {
    AddSuppressionReadsOwnRows(s, c, email, reason, about);
    AddSuppressionWrites(s, c, email, reason, about);
  }

  lemma AddSuppressionReadsOwnRows(s: Db, c: Caller, email: string, reason: string, about: Option<Id>)
    ensures PlanAddSuppression(View(s, c.tenant), c, email, reason, about)
        == PlanAddSuppression(s, c, email, reason, about)
  {
    FindInSlice(s.prospects, c.tenant);
  }

  lemma AddSuppressionWrites(s: Db, c: Caller, email: string, reason: string, about: Option<Id>)
    ensures forall w :: w in PlanAddSuppression(s, c, email, reason, about).writes ==>
      w.Suppress? || (w.SetProspect? && Find(s.prospects, c.tenant, w.id).Some?)
  {}

  lemma IntakeIsLocal(s: Db, c: Caller, r: Request)
    requires Ownership(s) && NewIds(By(c, r)) !! Ids(s) && IsIntake(r)
    ensures Local(s, c.tenant, PlanRequest(View(s, c.tenant), c, r), PlanRequest(s, c, r), NewIds(By(c, r)))
  {
    if c.CanWrite() {
      match r
      case CreateProspect(id, form, now) => assert id in NewIds(By(c, r)); CreateProspectIsLocal(s, c, id, form, now);
      case BulkCsv(campaign, headers, rows, note) =>
        assert forall row :: row in rows ==> row.id in NewIds(By(c, r));
        BulkIsLocal(s, c, campaign, headers, rows, note);
      case Promote(pid, vertical, brand, includeEmail, crm) =>
        PromoteIsLocal(s, c, pid, vertical, brand, includeEmail, crm);
      case UpdateProspect(pid, patch, now) => UpdateProspectIsLocal(s, c, pid, patch, now);
      case CreateCampaign(id, made) => assert id in NewIds(By(c, r));
      case UpdatePolicy(policy) =>
    }
  }

  lemma OutreachIsLocal(s: Db, c: Caller, r: Request)
    requires Ownership(s) && NewIds(By(c, r)) !! Ids(s) && !IsIntake(r)
    ensures Local(s, c.tenant, PlanRequest(View(s, c.tenant), c, r), PlanRequest(s, c, r), NewIds(By(c, r)))
  {
    if c.CanWrite() {
      match r
      case RunAnalysis(pid, id, url, audit, now) =>
        assert id in NewIds(By(c, r)) && (audit.AuditCrashed? ==> audit.rowId in NewIds(By(c, r)));
        RunAnalysisIsLocal(s, c, pid, id, url, audit, now);
      case GenerateProposal(pid, analysis, id) =>
        assert id in NewIds(By(c, r)); GenerateIsLocal(s, c, pid, analysis, id);
      case UpdateProposal(id, changes) => UpdateProposalIsLocal(s, c, id, changes);
      case ApproveProposal(id, _, _, _, _, _, now) =>
        ApproveIsLocal(s, c, id, ReviewOf(c, r), now);
      case CreateShare(id, token, expires) => CreateShareIsLocal(s, c, id, token, expires);
      case Deliver(f) => DeliverIsLocal(s, c, f);
      case AddSuppression(email, reason, about) => AddSuppressionIsLocal(s, c, email, reason, about);
    }
  }

  lemma RequestIsLocal(s: Db, c: Caller, r: Request)
    requires Ownership(s) && NewIds(By(c, r)) !! Ids(s)
    ensures Local(s, c.tenant, PlanRequest(View(s, c.tenant), c, r), PlanRequest(s, c, r), NewIds(By(c, r)))
  {
    if IsIntake(r) { IntakeIsLocal(s, c, r); } else { OutreachIsLocal(s, c, r); }
  }

  lemma OptOutWritesOwnRows(s: Db, pid: Id, token: Token)
    ensures var p := PlanOptOut(s, pid, token); forall w :: w in p.writes ==> NotOthers(s, p.tenant, w)
  {}

  lemma OptOutDrawsNoIds(s: Db, pid: Id, token: Token)
    ensures forall w :: w in PlanOptOut(s, pid, token).writes ==> WriteIds(w) == {}
  {}

  lemma OptOutOnSlice(s: Db, pid: Id, token: Token, t: string)
    ensures pid in s.prospects && s.prospects[pid].tenant == t ==>
      PlanOptOut(View(s, t), pid, token) == PlanOptOut(s, pid, token)
    ensures !(pid in s.prospects && s.prospects[pid].tenant == t) ==> PlanOptOut(View(s, t), pid, token).writes == []
    ensures pid in s.prospects ==> PlanOptOut(s, pid, token).tenant == s.prospects[pid].tenant
    ensures pid !in s.prospects ==> PlanOptOut(s, pid, token).writes == []
  {}

  // ----- one step

  /** What the tenant itself asked for, and opt-out links, which do not say whose they are. */
  predicate Concerns(cmd: Command, t: string) {
    cmd.By? ==> cmd.caller.tenant == t
  }

  /** A request of another tenant changes nothing this tenant owns. */
  lemma OtherTenantsUnchanged(s: Db, c: Caller, r: Request, u: string)
    requires Ownership(s) && NewIds(By(c, r)) !! Ids(s) && c.tenant != u
    ensures View(Step(s, By(c, r)).db, u) == View(s, u)
  {
    RequestIsLocal(s, c, r);
    RequestTenant(s, c, r);
    CommitOffSlice(s, c.tenant, PlanRequest(s, c, r).writes, u);
  }

  /** The tenant's own request does to its slice, and answers, what it would on the slice alone. */
  lemma OwnStepOnSlice(s: Db, c: Caller, r: Request)
    requires Ownership(s) && NewIds(By(c, r)) !! Ids(s)
    ensures View(Step(s, By(c, r)).db, c.tenant) == Step(View(s, c.tenant), By(c, r)).db
    ensures Step(s, By(c, r)).response == Step(View(s, c.tenant), By(c, r)).response
  {
    RequestIsLocal(s, c, r);
    RequestTenant(s, c, r);
    CommitOnSlice(s, c.tenant, PlanRequest(s, c, r).writes);
  }

  lemma OptOutStepOnSlice(s: Db, pid: Id, token: Token, t: string)
    ensures View(Step(s, OptOut(pid, token)).db, t) == Step(View(s, t), OptOut(pid, token)).db
  {
    var p := PlanOptOut(s, pid, token);
    OptOutWritesOwnRows(s, pid, token);
    OptOutOnSlice(s, pid, token, t);
    if pid in s.prospects {
      if p.tenant == t {
        CommitOnSlice(s, t, p.writes);
      } else {
        CommitOffSlice(s, p.tenant, p.writes, t);
      }
    }
  }

  // ----- ids

  lemma {:induction false} CommitIds(s: Db, t: string, ws: seq<Write>, drawn: set<Id>)
    requires AllFit(s, t, ws) && forall k :: 0 <= k < |ws| ==> WriteIds(ws[k]) <= drawn
    ensures Commit(s, t, ws).Some? ==> Ids(Commit(s, t, ws).value) <= Ids(s) + drawn
    decreases |ws|
  {
    if ws != [] && Allowed(s, t, ws[0]) {
      assert Ids(Apply(s, t, ws[0])) <= Ids(s) + drawn by {
        assert WriteIds(ws[0]) <= drawn;
        ApplyIds(s, t, ws[0]);
      }
      CommitIds(Apply(s, t, ws[0]), t, ws[1..], drawn);
    }
  }

  lemma ApplyIds(s: Db, t: string, w: Write)
    requires Fits(s, t, w)
    ensures Ids(Apply(s, t, w)) <= Ids(s) + WriteIds(w)
  {}

  lemma StepIds(s: Db, cmd: Command)
    requires Inv(s) && NewIds(cmd) !! Ids(s)
    ensures Ids(Step(s, cmd).db) <= Ids(s) + NewIds(cmd)
  {
    var p := PlanCommand(s, cmd);
    PlanFits(s, cmd);
    if cmd.By? {
      RequestIsLocal(s, cmd.caller, cmd.request);
    } else {
      OptOutDrawsNoIds(s, cmd.prospect, cmd.token);
    }
    CommitIds(s, p.tenant, p.writes, NewIds(cmd));
  }

  lemma StepOnView(s: Db, cmd: Command, t: string)
    requires Inv(s) && NewIds(cmd) !! Ids(s)
    ensures View(Step(s, cmd).db, t) == if Concerns(cmd, t) then Step(View(s, t), cmd).db else View(s, t)
  {
    match cmd
    case OptOut(pid, token) => OptOutStepOnSlice(s, pid, token, t);
    case By(c, r) => if c.tenant == t { OwnStepOnSlice(s, c, r); } else { OtherTenantsUnchanged(s, c, r, t); }
  }
}
