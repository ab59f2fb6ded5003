/** Nova and the CRM together: over any run of requests and any behaviour of the network, a prospect
    is promoted at most once, every promotion Nova records carries the same CRM ids, and a failed
    promotion leaves Nova as it was. */
module Handoff {
  import opened Text
  import opened Store
  import opened Requests
  import opened Plans
  import opened Crm

  datatype Both = Both(db: Db, crm: CrmState)

  datatype Event =
    | Local(cmd: Command)
    | Promotion(c: Caller, pid: Id, vertical: string, brand: string, includeEmail: bool, configured: bool,
                fates: nat -> Fate)

  /** The request gets as far as calling the CRM. */
  ghost predicate Calls(s: Db, c: Caller, pid: Id, vertical: string, brand: string) {
    && c.CanWrite() && Find(s.prospects, c.tenant, pid).Some?
    && !Find(s.prospects, c.tenant, pid).value.doNotContact && Strip(vertical) != "" && Strip(brand) != ""
  }

  /** One event. A local command is any request that does not promote. */
  ghost function Happen(b: Both, e: Event): Both {
    match e
    case Local(cmd) => if cmd.By? && cmd.request.Promote? then b else b.(db := Step(b.db, cmd).db)
    case Promotion(c, pid, vertical, brand, includeEmail, configured, fates) =>
      if !Calls(b.db, c, pid, vertical, brand) then b
      else
        var (crm, outcome) := Called(b.crm, configured, c.tenant, pid, fates);
        Both(Step(b.db, By(c, Promote(pid, vertical, brand, includeEmail, outcome))).db, crm)
  }

  ghost function Happenings(b: Both, events: seq<Event>): Both
    decreases |events|
  {
    if events == [] then b else Happenings(Happen(b, events[0]), events[1..])
  }

  /** Every promotion in Nova's log is the one the CRM keeps under its key. */
  ghost predicate Agree(j: seq<Owned<Fact>>, crm: CrmState) {
    forall i :: 0 <= i < |j| && j[i].row.PromotedFact? ==>
      Key(j[i].tenant, j[i].row.prospect) in crm.byKey && crm.byKey[Key(j[i].tenant, j[i].row.prospect)] == j[i].row.crm
  }

  // ----- only promotions log promotions

  predicate Quiet(w: Write) {
    (w.Record? ==> !w.happened.PromotedFact?) && (w.SetProposal? && w.fact.Some? ==> !w.fact.value.PromotedFact?)
  }

  lemma QuietApply(s: Db, t: string, w: Write, crm: CrmState)
    requires Agree(s.journal, crm) && Quiet(w)
    ensures Agree(Apply(s, t, w).journal, crm)
  {}

  lemma {:induction false} QuietCommit(s: Db, t: string, ws: seq<Write>, crm: CrmState)
    requires Agree(s.journal, crm) && forall w :: w in ws ==> Quiet(w)
    ensures Commit(s, t, ws).Some? ==> Agree(Commit(s, t, ws).value.journal, crm)
    decreases |ws|
  {
    if ws != [] && Allowed(s, t, ws[0]) {
      QuietApply(s, t, ws[0], crm);
      QuietCommit(Apply(s, t, ws[0]), t, ws[1..], crm);
    }
  }

  lemma RequestsAreQuiet(s: Db, c: Caller, r: Request)
    requires !r.Promote?
    ensures forall w :: w in PlanRequest(s, c, r).writes ==> Quiet(w)
  {
    if r.Deliver? {
      DeliveriesAreQuiet(s, c, r.delivery);
    } else if r.ApproveProposal? {
      ApprovalsAreQuiet(s, c, r.proposal, ReviewOf(c, r), r.now);
    }
  }

  lemma DeliveriesAreQuiet(s: Db, c: Caller, f: DeliveryForm)
    ensures forall w :: w in PlanDeliver(s, c, f).writes ==> Quiet(w)
  {}

  lemma ApprovalsAreQuiet(s: Db, c: Caller, id: Id, v: Review, now: Time)
    ensures forall w :: w in PlanApprove(s, c, id, v, now).writes ==> Quiet(w)
  {}

  lemma OptOutsAreQuiet(s: Db, pid: Id, token: Token)
    ensures forall w :: w in PlanOptOut(s, pid, token).writes ==> Quiet(w)
  {}

  lemma LocalKeepsAgreement(s: Db, cmd: Command, crm: CrmState)
    requires Agree(s.journal, crm) && !(cmd.By? && cmd.request.Promote?)
    ensures Agree(Step(s, cmd).db.journal, crm)
  {
    if cmd.By? { RequestsAreQuiet(s, cmd.caller, cmd.request); } else { OptOutsAreQuiet(s, cmd.prospect, cmd.token); }
    var p := PlanCommand(s, cmd);
    QuietCommit(s, p.tenant, p.writes, crm);
  }

  /** A promotion that the client does not see succeed leaves Nova exactly as it was. */
  lemma FailureLeavesNovaUnchanged(s: Db, c: Caller, pid: Id, vertical: string, brand: string, includeEmail: bool,
                                   outcome: CrmOutcome)
    requires !outcome.CrmPromoted?
    ensures var done := Step(s, By(c, Promote(pid, vertical, brand, includeEmail, outcome)));
      done.db == s && done.response.Refusal?
  {
    StepIsDecided(s, c, Promote(pid, vertical, brand, includeEmail, outcome));
  }

  /** A promotion that succeeds is logged with the CRM's ids, and otherwise only moves the prospect to contacted. */
  lemma SuccessIsLogged(s: Db, c: Caller, pid: Id, vertical: string, brand: string, includeEmail: bool,
                        ids: CrmIds, already: bool)
    requires Calls(s, c, pid, vertical, brand)
    ensures var done := Step(s, By(c, Promote(pid, vertical, brand, includeEmail, CrmPromoted(ids, already))));
      && done.db == s.(prospects := s.prospects[pid := Owned(c.tenant, s.prospects[pid].row.(status := Contacted))],
                       journal := s.journal + [Owned(c.tenant, PromotedFact(pid, ids))])
      && done.response.PromotionOut? && done.response.crm == ids && done.response.already == already
  {
    var r := Promote(pid, vertical, brand, includeEmail, CrmPromoted(ids, already));
    StepIsDecided(s, c, r);
    PromoteCarriedOut(s, c, pid, vertical, brand, includeEmail, CrmPromoted(ids, already));
  }

  lemma HappenKeeps(b: Both, e: Event)
    requires Agree(b.db.journal, b.crm) && OncePerKey(b.crm)
    ensures Agree(Happen(b, e).db.journal, Happen(b, e).crm) && OncePerKey(Happen(b, e).crm)
  {
    match e
    case Local(cmd) => if !(cmd.By? && cmd.request.Promote?) { LocalKeepsAgreement(b.db, cmd, b.crm); }
    case Promotion(c, pid, vertical, brand, includeEmail, configured, fates) =>
      if Calls(b.db, c, pid, vertical, brand) {
        PromotionKeeps(b, c, pid, vertical, brand, includeEmail, configured, fates);
      }
  }

  lemma PromotionKeeps(b: Both, c: Caller, pid: Id, vertical: string, brand: string, includeEmail: bool,
                       configured: bool, fates: nat -> Fate)
    requires Agree(b.db.journal, b.crm) && OncePerKey(b.crm) && Calls(b.db, c, pid, vertical, brand)
    ensures var (crm, outcome) := Called(b.crm, configured, c.tenant, pid, fates);
      OncePerKey(crm) && Agree(Step(b.db, By(c, Promote(pid, vertical, brand, includeEmail, outcome))).db.journal, crm)
  {
    var (crm, outcome) := Called(b.crm, configured, c.tenant, pid, fates);
    CalledFacts(b.crm, configured, c.tenant, pid, fates);
    if outcome.CrmPromoted? {
      SuccessIsLogged(b.db, c, pid, vertical, brand, includeEmail, outcome.ids, outcome.already);
    } else {
      FailureLeavesNovaUnchanged(b.db, c, pid, vertical, brand, includeEmail, outcome);
    }
  }

  lemma {:induction false} RunKeeps(b: Both, events: seq<Event>)
    requires Agree(b.db.journal, b.crm) && OncePerKey(b.crm)
    ensures Agree(Happenings(b, events).db.journal, Happenings(b, events).crm) && OncePerKey(Happenings(b, events).crm)
    decreases |events|
  {
    if events != [] {
      HappenKeeps(b, events[0]);
      RunKeeps(Happen(b, events[0]), events[1..]);
    }
  }

  const FRESH := Both(EMPTY_DB, CrmState(map[], []))

  /** In every run from scratch, all promotions Nova records for a prospect carry the same CRM ids, and the CRM
      created at most one promotion for it: two creations are for different tenants or different prospects. */
  lemma PromotedOnce(events: seq<Event>)
    ensures var b := Happenings(FRESH, events);
      && (forall i, k :: 0 <= i < |b.db.journal| && 0 <= k < |b.db.journal|
            && b.db.journal[i].row.PromotedFact? && b.db.journal[k].row.PromotedFact?
            && b.db.journal[i].tenant == b.db.journal[k].tenant
            && b.db.journal[i].row.prospect == b.db.journal[k].row.prospect
            ==> b.db.journal[i].row.crm == b.db.journal[k].row.crm)
      && (forall i, k :: 0 <= i < k < |b.crm.created| ==> b.crm.created[i].0 != b.crm.created[k].0)
      && (forall i :: 0 <= i < |b.db.journal| && b.db.journal[i].row.PromotedFact? ==>
            Key(b.db.journal[i].tenant, b.db.journal[i].row.prospect) in b.crm.byKey)
  {
    RunKeeps(FRESH, events);
  }

  /** Different prospects never share a promotion: their keys differ. */
  lemma DifferentProspectsDifferentKeys(t: string, p: Id, u: string, q: Id)
    requires ':' !in p && ':' !in q && (t, p) != (u, q)
    ensures Key(t, p) != Key(u, q)
  {
    if Key(t, p) == Key(u, q) { KeyIsInjective(t, p, u, q); }
  }
}
