/** Every request only makes fitting writes, so the invariant holds in every run;
    the guarantees the service promises are read off it. */
module Safety {
  import opened Text
  import opened Order
  import opened Store
  import opened Requests
  import opened Plans
  import opened Invariants

  /** Each write fits the store it is applied to, as far as the transaction gets. */
  ghost predicate AllFit(s: Db, t: string, ws: seq<Write>)
    decreases |ws|
  {
    ws == [] || !Allowed(s, t, ws[0]) || (Fits(s, t, ws[0]) && AllFit(Apply(s, t, ws[0]), t, ws[1..]))
  }

  lemma {:induction false} CommitKeepsInv(s: Db, t: string, ws: seq<Write>)
    requires Inv(s) && AllFit(s, t, ws) && Commit(s, t, ws).Some?
    ensures Inv(Commit(s, t, ws).value)
    decreases |ws|
  {
    if ws != [] {
      ApplyKeepsInv(s, t, ws[0]);
      CommitKeepsInv(Apply(s, t, ws[0]), t, ws[1..]);
    }
  }

  lemma OneFits(s: Db, t: string, w: Write)
    requires Fits(s, t, w)
    ensures AllFit(s, t, [w])
  {}

  lemma TwoFit(s: Db, t: string, v: Write, w: Write)
    requires Allowed(s, t, v) ==> Fits(s, t, v) && Fits(Apply(s, t, v), t, w)
    ensures AllFit(s, t, [v, w])
  {}

  lemma {:induction false} InsertsFit(s: Db, t: string, campaign: Option<Id>, ws: seq<Write>)
    requires campaign.Some? ==> Find(s.campaigns, t, campaign.value).Some?
    requires forall k :: 0 <= k < |ws| ==> ws[k].NewProspect? && ws[k].prospect.campaign == campaign
    ensures AllFit(s, t, ws)
    decreases |ws|
  {
    if ws != [] && Allowed(s, t, ws[0]) {
      InsertsFit(Apply(s, t, ws[0]), t, campaign, ws[1..]);
    }
  }

  lemma UpdateProspectFits(s: Db, c: Caller, pid: Id, d: ProspectPatch, now: Time)
    ensures AllFit(s, c.tenant, PlanUpdateProspect(s, c, pid, d, now).writes)
  {}

  lemma RunAnalysisFits(s: Db, c: Caller, pid: Id, id: Id, url: string, audit: Audit, now: Time)
    ensures AllFit(s, c.tenant, PlanRunAnalysis(s, c, pid, id, url, audit, now).writes)
  {}

  /** The next version is the one after the greatest, so all smaller ones exist and it is free. */
  lemma NextVersion(s: Db, t: string, pid: Id)
    requires Ownership(s) && Versions(s.proposals) && Find(s.prospects, t, pid).Some?
    ensures 1 <= CurrentMax(s.proposals, t, pid) + 1
    ensures forall v :: 1 <= v <= CurrentMax(s.proposals, t, pid) ==> HasVersion(s.proposals, pid, v)
    ensures !HasVersion(s.proposals, pid, CurrentMax(s.proposals, t, pid) + 1)
  {
    var versions, m := VersionsOf(s.proposals, t, pid), CurrentMax(s.proposals, t, pid);
    forall k | k in s.proposals && s.proposals[k].row.prospect == pid ensures s.proposals[k].row.version in versions {
      assert Find(s.prospects, s.proposals[k].tenant, pid).Some?;
    }
    if versions != {} {
      var k :| k in s.proposals && s.proposals[k].tenant == t && s.proposals[k].row.prospect == pid
               && s.proposals[k].row.version == m;
      assert HasVersion(s.proposals, pid, m);
    }
  }

  lemma GenerateFits(s: Db, c: Caller, pid: Id, analysis: Option<Id>, id: Id)
    requires Inv(s)
    ensures AllFit(s, c.tenant, PlanGenerate(s, c, pid, analysis, id).writes)
  {
    var t, ws := c.tenant, PlanGenerate(s, c, pid, analysis, id).writes;
    if ws != [] {
      NextVersion(s, t, pid);
      assert ws == [ws[0], ws[1]];
      TwoFit(s, t, ws[0], ws[1]);
    }
  }

  lemma ApproveFits(s: Db, c: Caller, id: Id, v: Review, now: Time)
    requires v.actor == c.sub && v.at == now
    ensures AllFit(s, c.tenant, PlanApprove(s, c, id, v, now).writes)
  {
    var t, ws := c.tenant, PlanApprove(s, c, id, v, now).writes;
    if ws != [] { assert ws == [ws[0], ws[1]]; TwoFit(s, t, ws[0], ws[1]); }
  }

  /** Counting from a later midnight counts no more, even when the day changes between check and write. */
  lemma LaterCountsFewer(proposals: Table<Proposal>, t: string, early: Time, late: Time)
    requires early <= late
    ensures |Counted(proposals, t, Midnight(late))| <= |Counted(proposals, t, Midnight(early))|
  {
    assert Midnight(early) <= Midnight(late) by {
      assert early == DAY * (early / DAY) + early % DAY && late == DAY * (late / DAY) + late % DAY;
    }
    var a, b := Counted(proposals, t, Midnight(late)), Counted(proposals, t, Midnight(early));
    assert a <= b;
    SubsetSize(a, b);
  }

  lemma {:induction false} SubsetSize<T>(a: set<T>, b: set<T>)
    requires a <= b
    ensures |a| <= |b|
  {
    if a != {} {
      var x :| x in a;
      SubsetSize(a - {x}, b - {x});
    }
  }

  /** The guards have been passed, so the provider is called. */
  ghost predicate Sendable(s: Db, c: Caller, f: DeliveryForm, row: Proposal, p: Prospect) {
    && Find(s.proposals, c.tenant, f.proposal) == Some(row) && Find(s.prospects, c.tenant, row.prospect) == Some(p)
    && row.status == Approved
    && (if f.testRecipient.Some? then Recipient(f, p) == Norm(c.sub)
        else RealSendRefusal(s, c.tenant, row, p, Recipient(f, p), f.now).None?)
  }

  lemma DeliverSends(s: Db, c: Caller, f: DeliveryForm)
    ensures var plan := PlanDeliver(s, c, f);
      plan.writes == [] ||
        (Find(s.proposals, c.tenant, f.proposal).Some?
         && var row := Find(s.proposals, c.tenant, f.proposal).value;
            Find(s.prospects, c.tenant, row.prospect).Some?
            && var p := Find(s.prospects, c.tenant, row.prospect).value;
               Sendable(s, c, f, row, p) && plan == Send(s, c, f, row, p))
  {}

  lemma SendFits(s: Db, c: Caller, f: DeliveryForm, row: Proposal, p: Prospect)
    requires Sendable(s, c, f, row, p)
    ensures |Send(s, c, f, row, p).writes| == 1 && Fits(s, c.tenant, Send(s, c, f, row, p).writes[0])
  {
    if f.testRecipient.None? {
      RealSendMoves(s, c, f, row, p);
    } else {
      NormIdempotent(c.sub);
    }
  }

  lemma RealSendMoves(s: Db, c: Caller, f: DeliveryForm, row: Proposal, p: Prospect)
    requires Sendable(s, c, f, row, p) && f.testRecipient.None?
    ensures var w := Send(s, c, f, row, p).writes[0]; var fact := w.fact.value;
      && RealMove(s, c.tenant, row, w.proposal, fact.recipient, fact.at, fact.limit, fact.accepted)
      && fact.recipient == Norm(fact.recipient)
  {
    LaterCountsFewer(s.proposals, c.tenant, f.now, f.now + f.shareLag + f.sendLag);
    NormIdempotent(if Truthy(p.email) then p.email.value else "");
  }

  lemma DeliverFits(s: Db, c: Caller, f: DeliveryForm)
    ensures AllFit(s, c.tenant, PlanDeliver(s, c, f).writes)
  {
    var plan := PlanDeliver(s, c, f);
    DeliverSends(s, c, f);
    if plan.writes != [] {
      var row := Find(s.proposals, c.tenant, f.proposal).value;
      SendFits(s, c, f, row, Find(s.prospects, c.tenant, row.prospect).value);
      assert plan.writes == [plan.writes[0]];
      OneFits(s, c.tenant, plan.writes[0]);
    }
  }

  lemma AddSuppressionFits(s: Db, c: Caller, email: string, reason: string, about: Option<Id>)
    ensures AllFit(s, c.tenant, PlanAddSuppression(s, c, email, reason, about).writes)
  {}

  lemma OptOutFits(s: Db, pid: Id, token: Token)
    ensures var p := PlanOptOut(s, pid, token); AllFit(s, p.tenant, p.writes)
  {}

  lemma CreateProspectFits(s: Db, c: Caller, id: Id, f: ProspectForm, now: Time)
    ensures AllFit(s, c.tenant, PlanCreateProspect(s, c, id, f, now).writes)
  {}

  lemma BulkFits(s: Db, c: Caller, campaign: Option<Id>, headers: Option<seq<string>>, rows: seq<CsvRow>,
                 note: Option<string>)
    ensures AllFit(s, c.tenant, PlanBulkCsv(s, c, campaign, headers, rows, note).writes)
  {
    var ws := PlanBulkCsv(s, c, campaign, headers, rows, note).writes;
    if ws != [] {
      BulkCreatedRows(c, campaign, NoteOf(note), rows, DomainsOf(s.prospects, c.tenant), |rows|);
      InsertsFit(s, c.tenant, campaign, ws);
    }
  }

  lemma PromoteFits(s: Db, c: Caller, pid: Id, vertical: string, brand: string, includeEmail: bool, crm: CrmOutcome)
    ensures AllFit(s, c.tenant, PlanPromote(s, c, pid, vertical, brand, includeEmail, crm).writes)
  {}

  lemma UpdateProposalFits(s: Db, c: Caller, id: Id, d: ContentPatch)
    ensures AllFit(s, c.tenant, PlanUpdateProposal(s, c, id, d).writes)
  {}

  lemma CreateShareFits(s: Db, c: Caller, id: Id, token: string, expires: Time)
    ensures AllFit(s, c.tenant, PlanCreateShare(s, c, id, token, expires).writes)
  {}

  lemma IntakeFits(s: Db, c: Caller, r: Request)
    requires c.CanWrite() && IsIntake(r)
    ensures AllFit(s, c.tenant, PlanRequest(s, c, r).writes)
  {
    match r
    case CreateProspect(id, form, now) => CreateProspectFits(s, c, id, form, now);
    case BulkCsv(campaign, headers, rows, note) => BulkFits(s, c, campaign, headers, rows, note);
    case Promote(pid, vertical, brand, includeEmail, crm) =>
      PromoteFits(s, c, pid, vertical, brand, includeEmail, crm);
    case UpdateProspect(pid, patch, now) => UpdateProspectFits(s, c, pid, patch, now);
    case _ =>
  }

  lemma OutreachFits(s: Db, c: Caller, r: Request)
    requires Inv(s) && c.CanWrite() && !IsIntake(r)
    ensures AllFit(s, c.tenant, PlanRequest(s, c, r).writes)
  {
    match r
    case RunAnalysis(pid, id, url, audit, now) => RunAnalysisFits(s, c, pid, id, url, audit, now);
    case GenerateProposal(pid, analysis, id) => GenerateFits(s, c, pid, analysis, id);
    case UpdateProposal(id, changes) => UpdateProposalFits(s, c, id, changes);
    case ApproveProposal(id, _, _, _, _, _, now) =>
      ApproveFits(s, c, id, ReviewOf(c, r), now);
    case CreateShare(id, token, expires) => CreateShareFits(s, c, id, token, expires);
    case Deliver(f) => DeliverFits(s, c, f);
    case AddSuppression(email, reason, about) => AddSuppressionFits(s, c, email, reason, about);
  }

  lemma RequestFits(s: Db, c: Caller, r: Request)
    requires Inv(s)
    ensures AllFit(s, c.tenant, PlanRequest(s, c, r).writes)
  {
    if c.CanWrite() {
      if IsIntake(r) { IntakeFits(s, c, r); } else { OutreachFits(s, c, r); }
    }
  }

  lemma RequestTenant(s: Db, c: Caller, r: Request)
    ensures PlanRequest(s, c, r).tenant == c.tenant
  {}

  lemma PlanFits(s: Db, cmd: Command)
    requires Inv(s)
    ensures AllFit(s, PlanCommand(s, cmd).tenant, PlanCommand(s, cmd).writes)
  {
    match cmd
    case By(c, r) => RequestTenant(s, c, r); RequestFits(s, c, r);
    case OptOut(pid, token) => OptOutFits(s, pid, token);
  }

  lemma FinishKeepsInv(s: Db, cmd: Command, p: Plan)
    requires Inv(s) && AllFit(s, p.tenant, p.writes)
    ensures Inv(Finish(s, cmd, p).db)
  {
    var committed := Commit(s, p.tenant, p.writes);
    match committed
    case None => assert Finish(s, cmd, p).db == s;
    case Some(after) =>
      assert Finish(s, cmd, p).db == after;
      CommitKeepsInv(s, p.tenant, p.writes);
  }

  /** Every request, by anyone, accepted or refused, leaves a valid store valid. */
  lemma StepKeepsInv(s: Db, cmd: Command)
    requires Inv(s)
    ensures Inv(Step(s, cmd).db)
  {
    PlanFits(s, cmd);
    FinishKeepsInv(s, cmd, PlanCommand(s, cmd));
  }

  // ----- whole runs

  ghost function Run(s: Db, cmds: seq<Command>): Db
    decreases |cmds|
  {
    if cmds == [] then s else Run(Step(s, cmds[0]).db, cmds[1..])
  }

  lemma {:induction false} RunKeepsInv(s: Db, cmds: seq<Command>)
    requires Inv(s)
    ensures Inv(Run(s, cmds))
    decreases |cmds|
  {
    if cmds != [] {
      StepKeepsInv(s, cmds[0]);
      RunKeepsInv(Step(s, cmds[0]).db, cmds[1..]);
    }
  }
}
