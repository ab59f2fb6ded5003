/** Tenants cannot tell that they share a database: on every schedule, transactions that have read and not yet committed
    included, each one's rows and answers are those of a private database that only ever saw its own requests. */
module Tenants {
  import opened Text
  import opened Store
  import opened Requests
  import opened Plans
  import opened Invariants
  import opened Safety
  import opened Isolation
  import opened Concurrency

  // ----- a tenant's part of a world

  function OwnPending(pending: map<(string, nat), Pending>, t: string): map<(string, nat), Pending> {
    map key | key in pending && key.0 == t :: pending[key]
  }

  /** The world with tenant `t` alone in it. */
  function WorldView(w: World, t: string): World {
    World(View(w.db, t), OwnPending(w.pending, t))
  }

  /** The tenant's own actions, and opt-out links, which do not say whose they are. */
  predicate IsFor(a: Action, t: string) {
    match a
    case Whole(cmd) => Concerns(cmd, t)
    case Read(_, cmd) => cmd.By? && cmd.caller.tenant == t
    case Conclude(u, _) => u == t
  }

  function OnlyFor(actions: seq<Action>, t: string): seq<Action>
    decreases |actions|
  {
    if actions == [] then []
    else (if IsFor(actions[0], t) then [actions[0]] else []) + OnlyFor(actions[1..], t)
  }

  /** What the action's caller is told, if it is this tenant. A transaction that has only read has not answered yet. */
  ghost function Answer(w: World, a: Action, t: string): seq<Response> {
    match a
    case Whole(cmd) => if cmd.By? && cmd.caller.tenant == t then [Step(w.db, cmd).response] else []
    case Read(_, _) => []
    case Conclude(u, tx) =>
      if u == t && (u, tx) in w.pending
      then [Finish(w.db, w.pending[(u, tx)].cmd, w.pending[(u, tx)].plan).response] else []
  }

  ghost function Answers(w: World, actions: seq<Action>, t: string): seq<Response>
    decreases |actions|
  {
    if actions == [] then [] else Answer(w, actions[0], t) + Answers(Act(w, actions[0]), actions[1..], t)
  }

  // ----- ids drawn once

  function Draws(a: Action): set<Id> {
    match a
    case Whole(cmd) => NewIds(cmd)
    case Read(_, cmd) => NewIds(cmd)
    case Conclude(_, _) => {}
  }

  /** No request draws an id that is in use or was drawn before. */
  ghost predicate FreshSchedule(actions: seq<Action>, used: set<Id>)
    decreases |actions|
  {
    actions == [] || (Draws(actions[0]) !! used && FreshSchedule(actions[1..], used + Draws(actions[0])))
  }

  /** The ids that pending transactions will use are not in use yet, each is only one transaction's, and all are known
      as drawn. */
  ghost predicate PendingIds(w: World, used: set<Id>) {
    && Ids(w.db) <= used
    && (forall key :: key in w.pending ==>
          NewIds(w.pending[key].cmd) !! Ids(w.db) && NewIds(w.pending[key].cmd) <= used)
    && (forall j, k :: j in w.pending && k in w.pending && j != k ==>
          NewIds(w.pending[j].cmd) !! NewIds(w.pending[k].cmd))
  }

  // ----- committing what was read

  lemma PendingDeliveryIsLocal(w: World, t: string, tx: nat)
    requires WorldInv(w) && (t, tx) in w.pending && Undisturbed(w, Conclude(t, tx))
        && IsSending(w.pending[(t, tx)])
    ensures forall v :: v in w.pending[(t, tx)].plan.writes ==> NotOthers(w.db, t, v)
  {
    assert PendingOk(w.db, (t, tx), w.pending[(t, tx)]);
    DeliveryIsOwn(w.db, w.pending[(t, tx)].cmd);
  }

  lemma DeliveryIsOwn(s: Db, cmd: Command)
    requires IsDelivery(cmd)
    ensures forall v :: v in PlanCommand(s, cmd).writes ==> NotOthers(s, cmd.caller.tenant, v)
  {
    DeliveryPlan(s, cmd.caller, cmd.request.delivery);
    DeliverWritesItsRow(s, cmd.caller, cmd.request.delivery);
  }

  lemma GoodPlanIsLocal(s: Db, p: Plan, drawn: set<Id>)
    requires Ownership(s) && StillGood(s, p) && drawn !! Ids(s) && forall v :: v in p.writes ==> WriteIds(v) <= drawn
    ensures forall v :: v in p.writes ==> NotOthers(s, p.tenant, v)
  {
    if |p.writes| == 2 { OwnProposalsOnly(s, p.tenant, p.writes[0].proposal.prospect); }
    forall v | v in p.writes ensures NotOthers(s, p.tenant, v) {
      assert WriteIds(v) <= drawn;
    }
  }

  lemma PendingIsLocal(w: World, t: string, tx: nat, used: set<Id>)
    requires WorldInv(w) && PendingIds(w, used) && (t, tx) in w.pending && Undisturbed(w, Conclude(t, tx))
    ensures w.pending[(t, tx)].plan.tenant == t
    ensures forall v :: v in w.pending[(t, tx)].plan.writes ==> NotOthers(w.db, t, v)
  {
    var p := w.pending[(t, tx)];
    assert PendingOk(w.db, (t, tx), p);
    if IsSending(p) {
      PendingDeliveryIsLocal(w, t, tx);
    } else {
      GoodPlanIsLocal(w.db, p.plan, NewIds(p.cmd));
    }
  }

  lemma FinishOnView(s: Db, cmd: Command, p: Plan)
    requires forall v :: v in p.writes ==> NotOthers(s, p.tenant, v)
    ensures View(Finish(s, cmd, p).db, p.tenant) == Finish(View(s, p.tenant), cmd, p).db
    ensures Finish(s, cmd, p).response == Finish(View(s, p.tenant), cmd, p).response
    ensures forall u :: u != p.tenant ==> View(Finish(s, cmd, p).db, u) == View(s, u)
  {
    CommitOnSlice(s, p.tenant, p.writes);
    forall u | u != p.tenant ensures View(Finish(s, cmd, p).db, u) == View(s, u) {
      CommitOffSlice(s, p.tenant, p.writes, u);
    }
  }

  lemma ReadOnView(s: Db, cmd: Command)
    requires Ownership(s) && Splits(cmd) && NewIds(cmd) !! Ids(s)
    ensures PlanCommand(View(s, cmd.caller.tenant), cmd) == PlanCommand(s, cmd)
  {
    RequestIsLocal(s, cmd.caller, cmd.request);
  }

  // ----- one action

  lemma WholeOnView(w: World, cmd: Command, t: string, used: set<Id>)
    requires WorldInv(w) && PendingIds(w, used) && NewIds(cmd) !! used
    ensures WorldView(Act(w, Whole(cmd)), t) ==
      if Concerns(cmd, t) then Act(WorldView(w, t), Whole(cmd)) else WorldView(w, t)
    ensures Concerns(cmd, t) ==> Answer(w, Whole(cmd), t) == Answer(WorldView(w, t), Whole(cmd), t)
  {
    StepOnView(w.db, cmd, t);
    if cmd.By? && cmd.caller.tenant == t { OwnStepOnSlice(w.db, cmd.caller, cmd.request); }
  }

  lemma PendingPut(pending: map<(string, nat), Pending>, key: (string, nat), p: Pending, t: string)
    ensures OwnPending(pending[key := p], t) ==
      if key.0 == t then OwnPending(pending, t)[key := p] else OwnPending(pending, t)
  {}

  lemma PendingGone(pending: map<(string, nat), Pending>, key: (string, nat), t: string)
    ensures OwnPending(pending - {key}, t) ==
      if key.0 == t then OwnPending(pending, t) - {key} else OwnPending(pending, t)
  {}

  lemma ReadAction(w: World, tx: nat, cmd: Command, t: string, used: set<Id>)
    requires WorldInv(w) && PendingIds(w, used) && NewIds(cmd) !! used
    ensures WorldView(Act(w, Read(tx, cmd)), t)
      == if IsFor(Read(tx, cmd), t) then Act(WorldView(w, t), Read(tx, cmd)) else WorldView(w, t)
  {
    if Splits(cmd) {
      ReadOnView(w.db, cmd);
      BeginOnView(w, tx, cmd, t);
    }
  }

  lemma BeginOnView(w: World, tx: nat, cmd: Command, t: string)
    requires Splits(cmd) && PlanCommand(View(w.db, cmd.caller.tenant), cmd) == PlanCommand(w.db, cmd)
    ensures WorldView(Act(w, Read(tx, cmd)), t)
      == if IsFor(Read(tx, cmd), t) then Act(WorldView(w, t), Read(tx, cmd)) else WorldView(w, t)
  {
    PendingPut(w.pending, (cmd.caller.tenant, tx), Pending(cmd, PlanCommand(w.db, cmd)), t);
  }

  lemma ConcludeAction(w: World, u: string, tx: nat, t: string, used: set<Id>)
    requires WorldInv(w) && PendingIds(w, used) && Undisturbed(w, Conclude(u, tx))
    ensures WorldView(Act(w, Conclude(u, tx)), t) ==
      if u == t then Act(WorldView(w, t), Conclude(u, tx)) else WorldView(w, t)
    ensures u == t ==> Answer(w, Conclude(u, tx), t) == Answer(WorldView(w, t), Conclude(u, tx), t)
  {
    if (u, tx) in w.pending {
      PendingIsLocal(w, u, tx, used);
      ConcludeOnView(w, u, tx, t);
    }
  }

  lemma ConcludeOnView(w: World, u: string, tx: nat, t: string)
    requires (u, tx) in w.pending && w.pending[(u, tx)].plan.tenant == u
    requires forall v :: v in w.pending[(u, tx)].plan.writes ==> NotOthers(w.db, u, v)
    ensures WorldView(Act(w, Conclude(u, tx)), t) ==
      if u == t then Act(WorldView(w, t), Conclude(u, tx)) else WorldView(w, t)
    ensures u == t ==> Answer(w, Conclude(u, tx), t) == Answer(WorldView(w, t), Conclude(u, tx), t)
  {
    var p := w.pending[(u, tx)];
    FinishOnView(w.db, p.cmd, p.plan);
    PendingGone(w.pending, (u, tx), t);
  }

  lemma ActOnView(w: World, a: Action, t: string, used: set<Id>)
    requires WorldInv(w) && PendingIds(w, used) && Undisturbed(w, a) && Draws(a) !! used
    ensures WorldView(Act(w, a), t) == if IsFor(a, t) then Act(WorldView(w, t), a) else WorldView(w, t)
    ensures IsFor(a, t) ==> Answer(w, a, t) == Answer(WorldView(w, t), a, t)
    ensures !IsFor(a, t) ==> Answer(w, a, t) == []
  {
    match a
    case Whole(cmd) => WholeOnView(w, cmd, t, used);
    case Read(tx, cmd) => ReadAction(w, tx, cmd, t, used);
    case Conclude(u, tx) => ConcludeAction(w, u, tx, t, used);
  }

  // ----- ids stay apart

  lemma ConcludeIds(w: World, t: string, tx: nat)
    requires WorldInv(w) && (t, tx) in w.pending && Undisturbed(w, Conclude(t, tx))
    ensures Ids(Finish(w.db, w.pending[(t, tx)].cmd, w.pending[(t, tx)].plan).db) <= Ids(w.db)
        + NewIds(w.pending[(t, tx)].cmd)
  {
    var p := w.pending[(t, tx)];
    assert PendingOk(w.db, (t, tx), p);
    if IsSending(p) {
      PlanFits(w.db, p.cmd);
    } else {
      GoodFits(w.db, p.plan);
    }
    CommitIds(w.db, p.plan.tenant, p.plan.writes, NewIds(p.cmd));
  }

  lemma IdsAfterWhole(w: World, after: Db, drawn: set<Id>, used: set<Id>)
    requires PendingIds(w, used) && Ids(after) <= Ids(w.db) + drawn && drawn !! used
    ensures PendingIds(w.(db := after), used + drawn)
  {}

  lemma IdsAfterRead(w: World, key: (string, nat), p: Pending, used: set<Id>)
    requires PendingIds(w, used) && NewIds(p.cmd) !! used
    ensures PendingIds(w.(pending := w.pending[key := p]), used + NewIds(p.cmd))
  {}

  lemma IdsAfterConclude(w: World, key: (string, nat), after: Db, used: set<Id>)
    requires PendingIds(w, used) && key in w.pending && Ids(after) <= Ids(w.db) + NewIds(w.pending[key].cmd)
    ensures PendingIds(World(after, w.pending - {key}), used)
  {}

  lemma ActKeepsPendingIds(w: World, a: Action, used: set<Id>)
    requires WorldInv(w) && PendingIds(w, used) && Undisturbed(w, a) && Draws(a) !! used
    ensures PendingIds(Act(w, a), used + Draws(a))
  {
    match a
    case Whole(cmd) =>
      StepIds(w.db, cmd);
      IdsAfterWhole(w, Step(w.db, cmd).db, NewIds(cmd), used);
    case Read(tx, cmd) =>
      if Splits(cmd) {
        IdsAfterRead(w, (cmd.caller.tenant, tx), Pending(cmd, PlanCommand(w.db, cmd)), used);
      }
    case Conclude(t, tx) =>
      if (t, tx) in w.pending {
        ConcludeIds(w, t, tx);
        IdsAfterConclude(w, (t, tx), Finish(w.db, w.pending[(t, tx)].cmd, w.pending[(t, tx)].plan).db, used);
      }
      assert used + Draws(a) == used;
  }

  // ----- whole schedules

  lemma OnlyForHead(actions: seq<Action>, t: string)
    requires actions != []
    ensures IsFor(actions[0], t) ==>
      OnlyFor(actions, t) != [] && OnlyFor(actions, t)[0] == actions[0]
          && OnlyFor(actions, t)[1..] == OnlyFor(actions[1..], t)
    ensures !IsFor(actions[0], t) ==> OnlyFor(actions, t) == OnlyFor(actions[1..], t)
  {}

  /** For every schedule of every tenant's requests, each tenant ends with the rows, the log and the pending
      transactions of a private world that saw only its own actions and the opt-out links. */
  lemma {:induction false} TenantIsolation(w: World, actions: seq<Action>, t: string, used: set<Id>)
    requires WorldInv(w) && PendingIds(w, used) && DeliveriesUndisturbed(w, actions) && FreshSchedule(actions, used)
    ensures WorldView(Schedule(w, actions), t) == Schedule(WorldView(w, t), OnlyFor(actions, t))
    decreases |actions|
  {
    if actions != [] {
      var a := actions[0];
      ActOnView(w, a, t, used);
      ActKeepsInv(w, a);
      ActKeepsPendingIds(w, a, used);
      TenantIsolation(Act(w, a), actions[1..], t, used + Draws(a));
      OnlyForHead(actions, t);
    }
  }

  /** ... and hears exactly the answers that world would have given. */
  lemma {:induction false} AnswersDependOnOwnRows(w: World, actions: seq<Action>, t: string, used: set<Id>)
    requires WorldInv(w) && PendingIds(w, used) && DeliveriesUndisturbed(w, actions) && FreshSchedule(actions, used)
    ensures Answers(w, actions, t) == Answers(WorldView(w, t), OnlyFor(actions, t), t)
    decreases |actions|
  {
    if actions != [] {
      var a := actions[0];
      ActOnView(w, a, t, used);
      ActKeepsInv(w, a);
      ActKeepsPendingIds(w, a, used);
      AnswersDependOnOwnRows(Act(w, a), actions[1..], t, used + Draws(a));
      OnlyForHead(actions, t);
    }
  }
}
