/** What the service promises about whole schedules of requests, started on an empty database. */
module Guarantees {
  import opened Text
  import opened Order
  import opened Store
  import opened Requests
  import opened Plans
  import opened Invariants
  import opened Safety
  import opened Isolation
  import opened Concurrency
  import opened OptOutLinks
  import opened Addresses

  /** Some schedule of any tenants' requests, its deliveries undisturbed, takes one world to the other. */
  ghost predicate Leads(w: World, w': World) {
    exists actions :: DeliveriesUndisturbed(w, actions) && w' == Schedule(w, actions)
  }

  ghost predicate Reachable(w: World) {
    Leads(EMPTY_WORLD, w)
  }

  // ----- the log only grows

  lemma {:induction false} CommitExtendsJournal(s: Db, t: string, ws: seq<Write>)
    ensures Commit(s, t, ws).Some? ==> s.journal <= Commit(s, t, ws).value.journal
    decreases |ws|
  {
    if ws != [] && Allowed(s, t, ws[0]) {
      ApplyExtendsJournal(s, t, ws[0]);
      CommitExtendsJournal(Apply(s, t, ws[0]), t, ws[1..]);
    }
  }

  lemma FinishExtendsJournal(s: Db, cmd: Command, p: Plan)
    ensures s.journal <= Finish(s, cmd, p).db.journal
  {
    CommitExtendsJournal(s, p.tenant, p.writes);
  }

  lemma ActExtendsJournal(w: World, a: Action)
    ensures w.db.journal <= Act(w, a).db.journal
  {
    if a.Whole? {
      FinishExtendsJournal(w.db, a.cmd, PlanCommand(w.db, a.cmd));
    } else if a.Conclude? && (a.tenant, a.tx) in w.pending {
      FinishExtendsJournal(w.db, w.pending[(a.tenant, a.tx)].cmd, w.pending[(a.tenant, a.tx)].plan);
    }
  }

  lemma {:induction false} ScheduleExtendsJournal(w: World, actions: seq<Action>)
    ensures w.db.journal <= Schedule(w, actions).db.journal
    decreases |actions|
  {
    if actions != [] {
      ActExtendsJournal(w, actions[0]);
      ScheduleExtendsJournal(Act(w, actions[0]), actions[1..]);
    }
  }

  lemma LeadsKeepsInv(w: World, w': World)
    requires WorldInv(w) && Leads(w, w')
    ensures WorldInv(w')
    ensures w.db.journal <= w'.db.journal
  {
    var actions :| DeliveriesUndisturbed(w, actions) && w' == Schedule(w, actions);
    ScheduleKeepsInv(w, actions);
    ScheduleExtendsJournal(w, actions);
  }

  lemma ReachableIsValid(w: World)
    requires Reachable(w)
    ensures WorldInv(w)
  {
    EmptyStoreIsValid();
    LeadsKeepsInv(EMPTY_WORLD, w);
  }

  lemma ReachableLedger(w: World)
    requires Reachable(w)
    ensures Ledger(w.db.proposals, w.db.journal) && SentOnce(w.db.journal) && ApprovedFirst(w.db.journal)
    ensures SuppressionHolds(w.db.journal) && WithinBudget(w.db.journal)
  {
    ReachableIsValid(w);
  }

  lemma LeadsToLedger(w: World, w': World)
    requires Reachable(w) && Leads(w, w')
    ensures Ledger(w'.db.proposals, w'.db.journal) && w.db.journal <= w'.db.journal
  {
    ReachableIsValid(w);
    LeadsKeepsInv(w, w');
  }

  // ----- what is sent is what was approved

  lemma FactsCarryContent(proposals: Table<Proposal>, j: seq<Owned<Fact>>, a: nat, b: nat)
    requires Ledger(proposals, j) && a < |j| && b < |j|
    requires j[a].row.ApprovedFact? && (j[b].row.AttemptFact? || j[b].row.ApprovedFact?)
    requires j[a].row.proposal == j[b].row.proposal
    ensures j[a].tenant == j[b].tenant && j[a].row.content == j[b].row.content && AllChecked(j[a].row.review)
  {}

  /** Whatever is handed to a mail provider was approved before with four true checks, and its content is that of
      every earlier approval of the proposal, the first included. */
  lemma SentIsWhatWasApproved(w: World, b: nat)
    requires Reachable(w) && b < |w.db.journal| && w.db.journal[b].row.AttemptFact?
    ensures exists a ::
      && 0 <= a < b && w.db.journal[a].row.ApprovedFact? && w.db.journal[a].tenant == w.db.journal[b].tenant
      && w.db.journal[a].row.proposal == w.db.journal[b].row.proposal
    ensures forall a :: 0 <= a < b && w.db.journal[a].row.ApprovedFact?
                        && w.db.journal[a].row.proposal == w.db.journal[b].row.proposal ==>
      && w.db.journal[a].tenant == w.db.journal[b].tenant && AllChecked(w.db.journal[a].row.review)
      && w.db.journal[a].row.content == w.db.journal[b].row.content
  {
    ReachableLedger(w);
    forall a: nat | a < b && w.db.journal[a].row.ApprovedFact?
                    && w.db.journal[a].row.proposal == w.db.journal[b].row.proposal
      ensures w.db.journal[a].tenant == w.db.journal[b].tenant && AllChecked(w.db.journal[a].row.review)
      ensures w.db.journal[a].row.content == w.db.journal[b].row.content
    {
      FactsCarryContent(w.db.proposals, w.db.journal, a, b);
    }
  }

  lemma LoggedApprovalFreezes(ps: Table<Proposal>, j: seq<Owned<Fact>>, ps': Table<Proposal>, j': seq<Owned<Fact>>,
                              k: Id)
    requires Ledger(ps, j) && Ledger(ps', j') && j <= j' && k in ps && ps[k].row.status == Approved
    ensures k in ps' && ps'[k].row.status == Approved && ps'[k].row.content == ps[k].row.content
  {}

  /** An approved proposal stays approved with the same content, whatever happens next. */
  lemma ApprovedContentIsFrozen(w: World, w': World, k: Id)
    requires Reachable(w) && Leads(w, w') && k in w.db.proposals && w.db.proposals[k].row.status == Approved
    ensures k in w'.db.proposals && w'.db.proposals[k].row.status == Approved
    ensures w'.db.proposals[k].row.content == w.db.proposals[k].row.content
  {
    ReachableLedger(w);
    LeadsToLedger(w, w');
    LoggedApprovalFreezes(w.db.proposals, w.db.journal, w'.db.proposals, w'.db.journal, k);
  }

  /** Every approved proposal names its approver and four true checks, and rests on a complete analysis with
      evidence, of the same tenant and prospect. */
  lemma ApprovedIsReviewed(w: World, k: Id)
    requires Reachable(w) && k in w.db.proposals && w.db.proposals[k].row.status == Approved
    ensures var p := w.db.proposals[k];
      && p.row.review.Some? && p.row.approvedBy == Some(p.row.review.value.actor) && AllChecked(p.row.review.value)
      && IsComplete(w.db.analyses, p.tenant, p.row.prospect, p.row.analysis)
      && w.db.analyses[p.row.analysis].row.evidence >= 1
  {
    ReachableIsValid(w);
  }

  /** The approver, the time and the review in an approved row are those of the last approval of it in the log. */
  lemma ApproverIsLastLogged(w: World, k: Id) returns (i: nat)
    requires Reachable(w) && k in w.db.proposals && w.db.proposals[k].row.status == Approved
    ensures IsLastApproval(w.db.journal, i, k) && w.db.journal[i].tenant == w.db.proposals[k].tenant
    ensures var row, v := w.db.proposals[k].row, w.db.journal[i].row.review;
      row.review == Some(v) && row.approvedBy == Some(v.actor) && row.approvedAt == Some(v.at)
  {
    ReachableIsValid(w);
    assert SignedRow(w.db.proposals[k].row, w.db.journal, k);
    i :| IsLastApproval(w.db.journal, i, k) && SignedBy(w.db.proposals[k].row, w.db.journal[i].row.review);
    assert Carries(w.db.proposals, w.db.journal[i]);
  }

  // ----- suppression

  /** The address a command suppresses, when it is carried out. */
  ghost function SuppressedBy(s: Db, cmd: Command): Option<(string, string)> {
    if Step(s, cmd).response.Refusal? then None
    else match cmd
      case OptOut(pid, token) => Some((s.prospects[pid].tenant, Norm(s.prospects[pid].row.email.value)))
      case By(c, r) =>
        if r.AddSuppression? then Some((c.tenant, Norm(r.email)))
        else if r.UpdateProspect? && r.patch.doNotContact == Set(true)
          && Truthy(Patched(s.prospects[r.prospect].row, r.patch, r.now).email)
          then Some((c.tenant, Norm(Patched(s.prospects[r.prospect].row, r.patch, r.now).email.value)))
        else None
  }

  ghost predicate LoggedSuppression(s: Db, t: string, e: string) {
    exists i :: 0 <= i < |s.journal| && s.journal[i] == Owned(t, SuppressedFact(e))
  }

  lemma CommitLogsSuppression(s: Db, t: string, ws: seq<Write>, e: string)
    requires Commit(s, t, ws).Some? && |ws| <= 2
    requires exists k :: 0 <= k < |ws| && ws[k].Suppress? && ws[k].email == e
    ensures LoggedSuppression(Commit(s, t, ws).value, t, e)
  {
    var j := Commit(s, t, ws).value.journal;
    CommitExtendsJournal(Apply(s, t, ws[0]), t, ws[1..]);
    if ws[0].Suppress? && ws[0].email == e {
      assert j[|s.journal|] == Owned(t, SuppressedFact(e));
    } else {
      var one := Apply(s, t, ws[0]);
      assert ws[1..][0] == ws[1] && ws[1..][1..] == [];
      assert j == Apply(one, t, ws[1]).journal;
      assert j[|one.journal|] == Owned(t, SuppressedFact(e));
    }
  }

  lemma SuppressionIsLogged(s: Db, cmd: Command)
    requires SuppressedBy(s, cmd).Some?
    ensures LoggedSuppression(Step(s, cmd).db, SuppressedBy(s, cmd).value.0, SuppressedBy(s, cmd).value.1)
  {
    var p := PlanCommand(s, cmd);
    var (t, e) := SuppressedBy(s, cmd).value;
    if cmd.OptOut? {
      assert p.writes[0].Suppress?;
    } else if cmd.request.AddSuppression? {
      assert p.writes[0].Suppress?;
    } else {
      assert p.writes[1].Suppress?;
    }
    CommitLogsSuppression(s, t, p.writes, e);
  }

  lemma LoggedSuppressionHolds(j: seq<Owned<Fact>>, j': seq<Owned<Fact>>, t: string, e: string, b: nat)
    requires j <= j' && SuppressionHolds(j') && |j| <= b < |j'|
    requires exists i :: 0 <= i < |j| && j[i] == Owned(t, SuppressedFact(e))
    requires j'[b].row.AttemptFact? && j'[b].tenant == t && j'[b].row.recipient == e
    ensures j'[b].row.test && e == Norm(j'[b].row.sub)
  {}

  lemma AfterCommand(w: World, cmd: Command, w': World)
    requires Reachable(w) && Leads(w.(db := Step(w.db, cmd).db), w')
    ensures SuppressionHolds(w'.db.journal) && Step(w.db, cmd).db.journal <= w'.db.journal
  {
    ReachableIsValid(w);
    assert w.(db := Step(w.db, cmd).db) == Act(w, Whole(cmd));
    ActKeepsInv(w, Whole(cmd));
    LeadsKeepsInv(Act(w, Whole(cmd)), w');
  }

  /** After the operator, a do-not-contact mark or the recipient's own opt-out suppresses an address, every later
      mail to it in that tenant is a test mail to the calling operator, whatever happens in between. */
  lemma SuppressionIsPermanent(w: World, cmd: Command, w': World, b: nat)
    requires Reachable(w) && SuppressedBy(w.db, cmd).Some?
    requires Leads(w.(db := Step(w.db, cmd).db), w')
    requires |Step(w.db, cmd).db.journal| <= b < |w'.db.journal| && w'.db.journal[b].row.AttemptFact?
    requires (w'.db.journal[b].tenant, w'.db.journal[b].row.recipient) == SuppressedBy(w.db, cmd).value
    ensures w'.db.journal[b].row.test && w'.db.journal[b].row.recipient == Norm(w'.db.journal[b].row.sub)
  {
    AfterCommand(w, cmd, w');
    SuppressionIsLogged(w.db, cmd);
    LoggedSuppressionHolds(Step(w.db, cmd).db.journal, w'.db.journal, SuppressedBy(w.db, cmd).value.0,
                           SuppressedBy(w.db, cmd).value.1, b);
  }

  /** A link made for a prospect and an address works exactly while that is the prospect's address, up to case and
      surrounding blanks. */
  lemma OptOutLinkWorks(s: Db, pid: Id, email: string)
    requires pid in s.prospects
    ensures var was := s.prospects[pid]; var after := Step(s, OptOut(pid, OptOutToken(was.tenant, pid, email)));
      if Truthy(was.row.email) && SameAddress(was.row.email.value, email)
      then after.response == OptOutDone && (was.tenant, Norm(email)) in after.db.suppressions
           && after.db.prospects == s.prospects[pid := Owned(was.tenant, was.row.(doNotContact := true))]
      else after.response == Refusal(OptOutInvalid) && after.db == s
  {
    var was := s.prospects[pid];
    var token := OptOutToken(was.tenant, pid, email);
    if Truthy(was.row.email) {
      SameProspectSameAddress(was.tenant, pid, was.row.email.value, email);
      NormDecides(was.row.email.value, email);
    }
    var p := PlanOptOut(s, pid, token);
    if p.writes != [] {
      TwoWrites(s, p.tenant, p.writes[0], p.writes[1]);
      assert p.writes == [p.writes[0], p.writes[1]];
    }
  }

  lemma LoggedLinkIsForItsProspect(s: Db, b: nat)
    requires Ownership(s) && Ledger(s.proposals, s.journal) && b < |s.journal| && s.journal[b].row.AttemptFact?
    ensures var e := s.journal[b];
      && e.row.link.prospect in s.prospects && s.prospects[e.row.link.prospect].tenant == e.tenant
      && e.row.link.token == OptOutToken(e.tenant, e.row.link.prospect, e.row.recipient)
  {
    var e := s.journal[b];
    assert Carries(s.proposals, e);
    assert OwnedProposal(s, s.proposals[e.row.proposal]);
  }

  lemma LeadsToOwnership(w: World, w': World)
    requires Reachable(w) && Leads(w, w')
    ensures Ownership(w'.db)
  {
    ReachableIsValid(w);
    LeadsKeepsInv(w, w');
  }

  lemma LinkStaysGood(w: World, b: nat, w': World)
    requires Reachable(w) && b < |w.db.journal| && w.db.journal[b].row.AttemptFact? && Leads(w, w')
    ensures var e := w.db.journal[b];
      var pid := e.row.link.prospect;
      && pid in w'.db.prospects && w'.db.prospects[pid].tenant == e.tenant
      && e.row.link.token == OptOutToken(e.tenant, pid, e.row.recipient)
  {
    LeadsToOwnership(w, w');
    LeadsToLedger(w, w');
    assert w'.db.journal[b] == w.db.journal[b];
    LoggedLinkIsForItsProspect(w'.db, b);
  }

  /** The link in any mail that was handed to a provider, opened at any later time, opts the recipient out exactly
      when the prospect still has the address the mail went to; otherwise it changes nothing. */
  lemma MailedLinkOptsOut(w: World, b: nat, w': World)
    requires Reachable(w) && b < |w.db.journal| && w.db.journal[b].row.AttemptFact? && Leads(w, w')
    ensures var e := w.db.journal[b]; var pid := e.row.link.prospect;
      pid in w'.db.prospects && w'.db.prospects[pid].tenant == e.tenant &&
      var email, after := w'.db.prospects[pid].row.email, Step(w'.db, OptOut(pid, e.row.link.token));
      if Truthy(email) && SameAddress(email.value, e.row.recipient)
      then after.response == OptOutDone && (e.tenant, Norm(e.row.recipient)) in after.db.suppressions
      else after.response == Refusal(OptOutInvalid) && after.db == w'.db
  {
    var e := w.db.journal[b];
    LinkStaysGood(w, b, w');
    OptOutLinkWorks(w'.db, e.row.link.prospect, e.row.recipient);
  }
}
