/** A schedule on which a prospect is mailed twice about one proposal, one delivery after the other. */
module Remailing {
  import opened Text
  import opened Store
  import opened Requests
  import opened Plans
  import opened Invariants
  import opened Safety
  import opened Concurrency
  import opened Guarantees
  import opened Deliveries

  const OPERATOR := Caller("tenant", "operator", {}, {"nova:write"})

  const LEAD := ProspectForm(None, "Acme", Some(Site("https://acme.se", "acme.se")), Some("a@b"), true, 0, 0, None)

  /** The mail server takes the message and the connection then breaks. */
  const BROKEN := DeliveryForm("pp", SmtpGeneric, None, None, Refused("EMAIL_PROVIDER_REJECTED", true), 0, 0, 0)

  const SECOND := DeliveryForm("pp", SmtpGeneric, None, None, Accepted("smtp_1", true), 0, 0, 0)

  function Prepared(): seq<Request> {
    [CreateProspect("pr", LEAD, 0), RunAnalysis("pr", "an", "https://acme.se", Audited(50, 1, []), 0),
     GenerateProposal("pr", Some("an"), "pp"), ApproveProposal("pp", true, true, true, true, None, 0)]
  }

  ghost function Served(s: Db, rs: seq<Request>): Db
    decreases |rs|
  {
    if rs == [] then s else Served(Step(s, By(OPERATOR, rs[0])).db, rs[1..])
  }

  function Wholes(rs: seq<Request>): seq<Action> {
    seq(|rs|, i requires 0 <= i < |rs| => Whole(By(OPERATOR, rs[i])))
  }

  lemma {:induction false} WholesLead(w: World, rs: seq<Request>)
    ensures DeliveriesUndisturbed(w, Wholes(rs)) && Schedule(w, Wholes(rs)) == w.(db := Served(w.db, rs))
    decreases |rs|
  {
    if rs != [] {
      assert Wholes(rs)[1..] == Wholes(rs[1..]);
      WholesLead(w.(db := Step(w.db, By(OPERATOR, rs[0])).db), rs[1..]);
    }
  }

  ghost predicate HasLead(s: Db) {
    && "pr" in s.prospects && s.prospects["pr"].tenant == "tenant" && s.prospects["pr"].row.email == Some("a@b")
    && s.prospects["pr"].row.verified && !s.prospects["pr"].row.doNotContact && s.prospects["pr"].row.campaign.None?
    && s.policies == map[] && s.suppressions == map[]
  }

  ghost predicate HasAudit(s: Db) {
    IsComplete(s.analyses, "tenant", "pr", "an") && s.analyses["an"].row.evidence == 1
  }

  ghost predicate HasDraft(s: Db) {
    && s.proposals.Keys == {"pp"} && s.proposals["pp"].tenant == "tenant" && s.proposals["pp"].row.prospect == "pr"
    && s.proposals["pp"].row.analysis == "an" && !s.proposals["pp"].row.Processed()
  }

  ghost predicate ReadyToSend(s: Db) {
    HasLead(s) && HasDraft(s) && s.proposals["pp"].row.status == Approved && s.proposals["pp"].row.approvedBy.Some?
  }

  lemma ExampleAddress()
    ensures Norm("a@b") == "a@b"
  {
    assert Strip("a@b") == "a@b";
    assert Lower("a@b") == "a@b";
  }

  lemma ReadyIsDeliverable(s: Db, f: DeliveryForm)
    requires ReadyToSend(s) && f.proposal == "pp" && f.testRecipient.None? && f.shareToken.None?
    ensures OtherwiseDeliverable(s, OPERATOR, f)
  {
    ExampleAddress();
    assert Counted(s.proposals, "tenant", Midnight(f.now)) == {};
  }

  lemma LeadIsCreated()
    ensures var s := Step(EMPTY_DB, By(OPERATOR, Prepared()[0])).db;
      HasLead(s) && s.analyses == map[] && s.proposals == map[]
  {
    StepIsDecided(EMPTY_DB, OPERATOR, Prepared()[0]);
    var w := PlanCreateProspect(EMPTY_DB, OPERATOR, "pr", LEAD, 0).writes[0];
    OneWrite(EMPTY_DB, "tenant", w);
  }

  lemma LeadIsAudited(s: Db)
    requires HasLead(s) && s.analyses == map[]
    ensures var after := Step(s, By(OPERATOR, Prepared()[1])).db;
      HasLead(after) && HasAudit(after) && after.proposals == s.proposals
  {
    StepIsDecided(s, OPERATOR, Prepared()[1]);
    var ws := PlanRunAnalysis(s, OPERATOR, "pr", "an", "https://acme.se", Audited(50, 1, []), 0).writes;
    TwoWrites(s, "tenant", ws[0], ws[1]);
  }

  lemma ProposalIsDrafted(s: Db)
    requires HasLead(s) && HasAudit(s) && s.proposals == map[]
    ensures var after := Step(s, By(OPERATOR, Prepared()[2])).db; HasLead(after) && HasAudit(after) && HasDraft(after)
  {
    StepIsDecided(s, OPERATOR, Prepared()[2]);
    GenerateCarriedOut(s, OPERATOR, "pr", Some("an"), "pp");
  }

  lemma ProposalIsApproved(s: Db)
    requires HasLead(s) && HasAudit(s) && HasDraft(s)
    ensures ReadyToSend(Step(s, By(OPERATOR, Prepared()[3])).db)
  {
    ExampleAddress();
    StepIsDecided(s, OPERATOR, Prepared()[3]);
    var ws := PlanApprove(s, OPERATOR, "pp", Review(true, true, true, true, None, "operator", 0), 0).writes;
    TwoWrites(s, "tenant", ws[0], ws[1]);
  }

  lemma PreparedIsReady()
    ensures ReadyToSend(Served(EMPTY_DB, Prepared()))
  {
    var rs := Prepared();
    var one := Step(EMPTY_DB, By(OPERATOR, rs[0])).db;
    var two := Step(one, By(OPERATOR, rs[1])).db;
    var three := Step(two, By(OPERATOR, rs[2])).db;
    LeadIsCreated();
    LeadIsAudited(one);
    ProposalIsDrafted(two);
    ProposalIsApproved(three);
    FourServed(EMPTY_DB, rs);
  }

  lemma FourServed(s: Db, rs: seq<Request>)
    requires |rs| == 4
    ensures var one := Step(s, By(OPERATOR, rs[0])).db; var two := Step(one, By(OPERATOR, rs[1])).db;
      var three := Step(two, By(OPERATOR, rs[2])).db; Served(s, rs) == Step(three, By(OPERATOR, rs[3])).db
  {
    var one := Step(s, By(OPERATOR, rs[0])).db;
    var two := Step(one, By(OPERATOR, rs[1])).db;
    var three := Step(two, By(OPERATOR, rs[2])).db;
    assert rs[1..][0] == rs[1] && rs[2..][0] == rs[2] && rs[3..][0] == rs[3];
    assert rs[1..][1..] == rs[2..] && rs[2..][1..] == rs[3..] && rs[3..][1..] == [];
    assert Served(three, rs[3..]) == Step(three, By(OPERATOR, rs[3])).db;
    assert Served(two, rs[2..]) == Served(three, rs[3..]);
    assert Served(one, rs[1..]) == Served(two, rs[2..]);
  }

  /** A failure leaves the proposal as ready as it was, with a mail gone. */
  lemma BrokenLeavesItReady(s: Db)
    requires ReadyToSend(s)
    ensures var after, n := Step(s, By(OPERATOR, Deliver(BROKEN))).db, |s.journal|;
      && ReadyToSend(after) && |after.journal| == n + 1 && IsMailed(after.journal[n]) && IsFailed(after.journal[n])
      && after.journal[n].row.proposal == "pp" && after.proposals["pp"].row.delivery.DeliveryFailed?
  {
    ReadyIsDeliverable(s, BROKEN);
    DeliverableUnlessProcessed(s, OPERATOR, BROKEN);
    StepIsDecided(s, OPERATOR, Deliver(BROKEN));
    SetCarriedOut(s, By(OPERATOR, Deliver(BROKEN)), PlanDeliver(s, OPERATOR, BROKEN));
  }

  /** Two mails for the proposal have left, the second one with an accepted receipt. */
  ghost predicate MailedAgain(j: seq<Owned<Fact>>, k: Id) {
    exists a, b ::
      && 0 <= a < b < |j| && IsMailed(j[a]) && IsMailed(j[b]) && IsReal(j[b])
      && j[a].row.proposal == k && j[b].row.proposal == k
  }

  /** It happens: an approved proposal is delivered over a mail server that takes the message before the connection
      breaks, and delivered again. Nothing overlaps, and two mails have left. */
  lemma MailedTwice() returns (w: World)
    ensures Reachable(w)
    ensures MailedAgain(w.db.journal, "pp")
  {
    var rs := Prepared() + [Deliver(BROKEN), Deliver(SECOND)];
    w := Schedule(EMPTY_WORLD, Wholes(rs));
    WholesLead(EMPTY_WORLD, rs);
    PreparedIsReady();
    var ready := Served(EMPTY_DB, Prepared());
    var broken := Step(ready, By(OPERATOR, Deliver(BROKEN))).db;
    BrokenLeavesItReady(ready);
    ReadyIsDeliverable(broken, SECOND);
    DeliverableIsLoggedOrRefused(broken, OPERATOR, SECOND);
    ConcatServed(EMPTY_DB, Prepared(), [Deliver(BROKEN), Deliver(SECOND)]);
    TwoServed(ready, Deliver(BROKEN), Deliver(SECOND));
    var n := |ready.journal|;
    assert IsMailed(w.db.journal[n]) && IsMailed(w.db.journal[n + 1]);
  }

  lemma TwoServed(s: Db, q: Request, r: Request)
    ensures Served(s, [q, r]) == Step(Step(s, By(OPERATOR, q)).db, By(OPERATOR, r)).db
  {
    assert [q, r][1..] == [r] && [r][1..] == [];
    assert Served(Step(s, By(OPERATOR, q)).db, [r]) == Step(Step(s, By(OPERATOR, q)).db, By(OPERATOR, r)).db;
  }

  lemma {:induction false} ConcatServed(s: Db, a: seq<Request>, b: seq<Request>)
    ensures Served(s, a + b) == Served(Served(s, a), b)
    decreases |a|
  {
    if a == [] {
      assert a + b == b;
    } else {
      assert (a + b)[1..] == a[1..] + b;
      ConcatServed(Step(s, By(OPERATOR, a[0])).db, a[1..], b);
    }
  }
}
