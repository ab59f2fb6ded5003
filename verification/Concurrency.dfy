/** Requests that the service does not run atomically. Proposal versions and new domains are read in one step and
    committed in a later one, and the unique constraints decide the race. Deliveries are read and committed apart,
    too, with nothing to decide a race, so that they run undisturbed is a condition on the schedule. */
module Concurrency {
  import opened Text
  import opened Order
  import opened Store
  import opened Requests
  import opened Plans
  import opened Invariants
  import opened Safety
  import opened Isolation

  /** A transaction that has read: the command, and what it decided. */
  datatype Pending = Pending(cmd: Command, plan: Plan)

  /** The database, and the transactions that have read but not yet committed, by tenant and number. */
  datatype World = World(db: Db, pending: map<(string, nat), Pending>)

  datatype Action =
    | Whole(cmd: Command)
    | Read(tx: nat, cmd: Command)
    | Conclude(tenant: string, tx: nat)

  const EMPTY_WORLD := World(EMPTY_DB, map[])

  /** The requests whose reading and committing are told apart. */
  predicate Splits(cmd: Command) {
    cmd.By? && (cmd.request.GenerateProposal? || cmd.request.CreateProspect? || cmd.request.Deliver?)
  }

  ghost function Act(w: World, a: Action): World {
    match a
    case Whole(cmd) => w.(db := Step(w.db, cmd).db)
    case Read(tx, cmd) =>
      if Splits(cmd) && (cmd.caller.tenant, tx) !in w.pending
      then w.(pending := w.pending[(cmd.caller.tenant, tx) := Pending(cmd, PlanCommand(w.db, cmd))]) else w
    case Conclude(t, tx) =>
      if (t, tx) in w.pending
      then World(Finish(w.db, w.pending[(t, tx)].cmd, w.pending[(t, tx)].plan).db, w.pending - {(t, tx)}) else w
  }

  ghost function Schedule(w: World, actions: seq<Action>): World
    decreases |actions|
  {
    if actions == [] then w else Schedule(Act(w, actions[0]), actions[1..])
  }

  /** A delivery that commits something would still decide the same. Nothing in the service sees to that. */
  ghost predicate Undisturbed(w: World, a: Action) {
    a.Conclude? && (a.tenant, a.tx) in w.pending && IsSending(w.pending[(a.tenant, a.tx)]) ==>
      PlanCommand(w.db, w.pending[(a.tenant, a.tx)].cmd) == w.pending[(a.tenant, a.tx)].plan
  }

  predicate IsSending(p: Pending) {
    IsDelivery(p.cmd) && p.plan.writes != []
  }

  predicate IsDelivery(cmd: Command) {
    cmd.By? && cmd.request.Deliver?
  }

  /** No delivery of the schedule is overtaken by a change that makes a difference to it. New prospects and proposals
      may overtake each other and everything else. */
  ghost predicate DeliveriesUndisturbed(w: World, actions: seq<Action>)
    decreases |actions|
  {
    actions == [] || (Undisturbed(w, actions[0]) && DeliveriesUndisturbed(Act(w, actions[0]), actions[1..]))
  }

  // ----- rows are never lost

  lemma KeepsTransitive(a: Db, b: Db, c: Db)
    requires Keeps(a, b) && Keeps(b, c)
    ensures Keeps(a, c)
  {}

  lemma {:induction false} CommitKeeps(s: Db, t: string, ws: seq<Write>)
    requires AllFit(s, t, ws)
    ensures Commit(s, t, ws).Some? ==> Keeps(s, Commit(s, t, ws).value)
    decreases |ws|
  {
    if ws != [] && Allowed(s, t, ws[0]) {
      ApplyKeeps(s, t, ws[0]);
      CommitKeeps(Apply(s, t, ws[0]), t, ws[1..]);
      if Commit(s, t, ws).Some? {
        KeepsTransitive(s, Apply(s, t, ws[0]), Commit(s, t, ws).value);
      }
    }
  }

  lemma FinishKeeps(s: Db, cmd: Command, p: Plan)
    requires AllFit(s, p.tenant, p.writes)
    ensures Keeps(s, Finish(s, cmd, p).db)
  {
    CommitKeeps(s, p.tenant, p.writes);
  }

  // ----- what a reading transaction may still rely on when it commits

  ghost predicate DraftPlan(s: Db, t: string, id: Id, row: Proposal) {
    && Find(s.prospects, t, row.prospect).Some? && IsComplete(s.analyses, t, row.prospect, row.analysis)
    && 1 <= row.version && (forall v :: 1 <= v < row.version ==> HasVersion(s.proposals, row.prospect, v))
    && row.status == Draft && row.delivery.NotQueued? && row.approvedBy.None? && row.processedAt.None?
  }

  ghost predicate StillGood(s: Db, p: Plan) {
    || p.writes == []
    || (&& |p.writes| == 1 && p.writes[0].NewProspect?
        && (p.writes[0].prospect.campaign.Some? ==>
              Find(s.campaigns, p.tenant, p.writes[0].prospect.campaign.value).Some?))
    || (&& |p.writes| == 2 && p.writes[0].NewProposal? && p.writes[1].SetStatus?
        && p.writes[1].id == p.writes[0].proposal.prospect
        && DraftPlan(s, p.tenant, p.writes[0].id, p.writes[0].proposal))
  }

  lemma ReadIsGood(s: Db, cmd: Command)
    requires Inv(s) && Splits(cmd) && !IsDelivery(cmd)
    ensures StillGood(s, PlanCommand(s, cmd))
  {
    if cmd.request.GenerateProposal? && Find(s.prospects, cmd.caller.tenant, cmd.request.prospect).Some? {
      NextVersion(s, cmd.caller.tenant, cmd.request.prospect);
    }
  }

  lemma StaysGood(s: Db, after: Db, p: Plan)
    requires StillGood(s, p) && Keeps(s, after)
    ensures StillGood(after, p)
  {
    if |p.writes| == 2 {
      var row := p.writes[0].proposal;
      forall v | 1 <= v < row.version ensures HasVersion(after.proposals, row.prospect, v) {
        VersionsSurvive(s.proposals, after.proposals, row.prospect, v);
      }
    }
  }

  lemma GoodFits(s: Db, p: Plan)
    requires StillGood(s, p)
    ensures AllFit(s, p.tenant, p.writes)
  {}

  /** The transaction belongs to the tenant it is filed under, will use no other ids than it drew, and, unless it is a
      delivery that sends, may still commit. */
  ghost predicate PendingOk(s: Db, key: (string, nat), p: Pending) {
    && Splits(p.cmd) && p.cmd.caller.tenant == key.0 == p.plan.tenant
    && (forall v :: v in p.plan.writes ==> WriteIds(v) <= NewIds(p.cmd))
    && (!IsSending(p) ==> StillGood(s, p.plan))
  }

  ghost predicate WorldInv(w: World) {
    Inv(w.db) && forall key :: key in w.pending ==> PendingOk(w.db, key, w.pending[key])
  }

  lemma DeliveryPlan(s: Db, c: Caller, f: DeliveryForm)
    ensures PlanCommand(s, By(c, Deliver(f))) ==
      if c.CanWrite() then PlanDeliver(s, c, f) else Refuse(c.tenant, WriteForbidden)
  {}

  /** Everything that a delivery looks at is the same in both databases. */
  ghost predicate LooksTheSame(a: Db, b: Db, t: string, f: DeliveryForm) {
    && Find(a.proposals, t, f.proposal) == Find(b.proposals, t, f.proposal)
    && (Find(a.proposals, t, f.proposal).Some? ==>
          var pid := a.proposals[f.proposal].row.prospect;
          && Find(a.prospects, t, pid) == Find(b.prospects, t, pid)
          && (Find(a.prospects, t, pid).Some? ==> SameBudget(a, b, t, a.prospects[pid].row, f)))
  }

  ghost predicate SameBudget(a: Db, b: Db, t: string, p: Prospect, f: DeliveryForm) {
    && IsSuppressed(a.suppressions, t, Recipient(f, p)) == IsSuppressed(b.suppressions, t, Recipient(f, p))
    && DailyLimit(a, t, p) == DailyLimit(b, t, p)
    && (DailyLimit(a, t, p).Some? ==>
          (|Counted(a.proposals, t, Midnight(f.now))| >= DailyLimit(a, t, p).value <==>
           |Counted(b.proposals, t, Midnight(f.now))| >= DailyLimit(a, t, p).value))
  }

  /** A delivery is undisturbed as soon as its proposal, its prospect and the limit are as it read them, and the
      recipient's suppression and the reaching of the limit have not changed. */
  lemma UndisturbedIfSame(s: Db, w: World, t: string, tx: nat)
    requires (t, tx) in w.pending && IsDelivery(w.pending[(t, tx)].cmd)
    requires var p := w.pending[(t, tx)];
      && p.cmd.caller.tenant == t && p.plan == PlanCommand(s, p.cmd)
      && LooksTheSame(s, w.db, t, p.cmd.request.delivery)
    ensures Undisturbed(w, Conclude(t, tx))
  {
    var cmd := w.pending[(t, tx)].cmd;
    DeliveryPlan(s, cmd.caller, cmd.request.delivery);
    DeliveryPlan(w.db, cmd.caller, cmd.request.delivery);
    SameLookSamePlan(s, w.db, cmd.caller, cmd.request.delivery);
  }

  lemma SameLookSamePlan(a: Db, b: Db, c: Caller, f: DeliveryForm)
    requires LooksTheSame(a, b, c.tenant, f)
    ensures PlanDeliver(a, c, f) == PlanDeliver(b, c, f)
  {}

  /** What other tenants do never disturbs a delivery. */
  lemma OthersNeverDisturb(s: Db, w: World, t: string, tx: nat)
    requires (t, tx) in w.pending && IsDelivery(w.pending[(t, tx)].cmd) && View(s, t) == View(w.db, t)
    requires w.pending[(t, tx)].cmd.caller.tenant == t
    requires w.pending[(t, tx)].plan == PlanCommand(s, w.pending[(t, tx)].cmd)
    ensures Undisturbed(w, Conclude(t, tx))
  {
    var c, f := w.pending[(t, tx)].cmd.caller, w.pending[(t, tx)].cmd.request.delivery;
    DeliveryPlan(s, c, f);
    DeliveryPlan(w.db, c, f);
    DeliverReadsOwnRows(s, c, f);
    DeliverReadsOwnRows(w.db, c, f);
  }

  lemma WholeKeeps(s: Db, cmd: Command)
    requires Inv(s)
    ensures Inv(Step(s, cmd).db) && Keeps(s, Step(s, cmd).db)
  {
    StepKeepsInv(s, cmd);
    PlanFits(s, cmd);
    FinishKeeps(s, cmd, PlanCommand(s, cmd));
  }

  lemma ConcludeKeepsInv(w: World, t: string, tx: nat)
    requires WorldInv(w) && (t, tx) in w.pending && Undisturbed(w, Conclude(t, tx))
    ensures var after := Finish(w.db, w.pending[(t, tx)].cmd, w.pending[(t, tx)].plan).db;
      Inv(after) && Keeps(w.db, after)
  {
    var p := w.pending[(t, tx)];
    assert PendingOk(w.db, (t, tx), p);
    if IsSending(p) {
      WholeKeeps(w.db, p.cmd);
    } else {
      GoodFits(w.db, p.plan);
      FinishKeepsInv(w.db, p.cmd, p.plan);
      FinishKeeps(w.db, p.cmd, p.plan);
    }
  }

  /** When the database moves on, the transactions still pending may go on. */
  lemma MoveOn(w: World, after: Db, pending: map<(string, nat), Pending>)
    requires WorldInv(w) && Inv(after) && Keeps(w.db, after)
    requires forall key :: key in pending ==> key in w.pending && pending[key] == w.pending[key]
    ensures WorldInv(World(after, pending))
  {
    forall key | key in pending ensures PendingOk(after, key, pending[key]) {
      assert PendingOk(w.db, key, w.pending[key]);
      if !IsSending(pending[key]) { StaysGood(w.db, after, pending[key].plan); }
    }
  }

  lemma SplitPlan(s: Db, cmd: Command)
    requires Splits(cmd)
    ensures PlanCommand(s, cmd).tenant == cmd.caller.tenant
    ensures forall v :: v in PlanCommand(s, cmd).writes ==> WriteIds(v) <= NewIds(cmd)
  {
    var c, r := cmd.caller, cmd.request;
    RequestTenant(s, c, r);
    if r.Deliver? { DeliverWritesItsRow(s, c, r.delivery); }
  }

  lemma BeginKeepsInv(w: World, tx: nat, cmd: Command)
    requires WorldInv(w) && Splits(cmd)
    ensures WorldInv(w.(pending := w.pending[(cmd.caller.tenant, tx) := Pending(cmd, PlanCommand(w.db, cmd))]))
  {
    if !IsDelivery(cmd) { ReadIsGood(w.db, cmd); }
    SplitPlan(w.db, cmd);
    assert PendingOk(w.db, (cmd.caller.tenant, tx), Pending(cmd, PlanCommand(w.db, cmd)));
  }

  lemma ActKeepsInv(w: World, a: Action)
    requires WorldInv(w) && Undisturbed(w, a)
    ensures WorldInv(Act(w, a))
  {
    match a
    case Whole(cmd) =>
      WholeKeeps(w.db, cmd);
      MoveOn(w, Step(w.db, cmd).db, w.pending);
    case Read(tx, cmd) =>
      if Splits(cmd) { BeginKeepsInv(w, tx, cmd); }
    case Conclude(t, tx) =>
      if (t, tx) in w.pending {
        ConcludeKeepsInv(w, t, tx);
        MoveOn(w, Finish(w.db, w.pending[(t, tx)].cmd, w.pending[(t, tx)].plan).db, w.pending - {(t, tx)});
      }
  }

  lemma {:induction false} ScheduleKeepsInv(w: World, actions: seq<Action>)
    requires WorldInv(w) && DeliveriesUndisturbed(w, actions)
    ensures WorldInv(Schedule(w, actions))
    decreases |actions|
  {
    if actions != [] {
      ActKeepsInv(w, actions[0]);
      ScheduleKeepsInv(Act(w, actions[0]), actions[1..]);
    }
  }
}
