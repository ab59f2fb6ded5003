/** Suppression holds for the address, however it is spelled. */
module Suppressions {
  import opened Text
  import opened Addresses
  import opened Store
  import opened Requests
  import opened Plans
  import opened Invariants
  import opened Safety
  import opened Concurrency
  import opened Guarantees
  import opened DeliveryRules

  /** The tenant and the address, as it was spelled, that an accepted command suppresses: the one an operator names, or
      the stored one of a prospect who opts out or is marked. */
  ghost function Spelling(s: Db, cmd: Command): Option<(string, string)> {
    var after := Step(s, cmd);
    if after.response.Refusal? then None
    else
      match cmd
      case OptOut(pid, _) => StoredAddress(s, pid)
      case By(c, AddSuppression(email, _, _)) => Some((c.tenant, email))
      case By(c, UpdateProspect(pid, patch, _)) =>
        if patch.doNotContact == Set(true) then StoredAddress(after.db, pid) else None
      case _ => None
  }

  function StoredAddress(s: Db, pid: Id): Option<(string, string)> {
    if pid in s.prospects && s.prospects[pid].row.email.Some? && s.prospects[pid].row.email.value != ""
    then Some((s.prospects[pid].tenant, s.prospects[pid].row.email.value)) else None
  }

  lemma SpellingIsSuppressed(s: Db, cmd: Command)
    requires Spelling(s, cmd).Some?
    ensures SuppressedBy(s, cmd) == Some((Spelling(s, cmd).value.0, Norm(Spelling(s, cmd).value.1)))
  {
    if cmd.By? && cmd.request.UpdateProspect? {
      var c, r := cmd.caller, cmd.request;
      StepIsDecided(s, c, r);
      EditIsStored(s, c, r.prospect, r.patch, r.now);
    }
  }

  lemma EditIsStored(s: Db, c: Caller, pid: Id, d: ProspectPatch, now: Time)
    requires c.CanWrite() && !Step(s, By(c, UpdateProspect(pid, d, now))).response.Refusal?
    ensures pid in s.prospects
    ensures Step(s, By(c, UpdateProspect(pid, d, now))).db.prospects
      == s.prospects[pid := Owned(c.tenant, Patched(s.prospects[pid].row, d, now))]
  {
    StepIsDecided(s, c, UpdateProspect(pid, d, now));
    UpdateProspectCarriedOut(s, c, pid, d, now);
  }

  /** After a suppression, in any spelling, every later mail to any spelling of the address in that tenant is a test
      mail to the calling operator, whatever happens in between. */
  lemma NoSpellingIsMailed(w: World, cmd: Command, w': World, b: nat)
    requires Reachable(w) && Spelling(w.db, cmd).Some?
    requires Leads(w.(db := Step(w.db, cmd).db), w')
    requires |Step(w.db, cmd).db.journal| <= b < |w'.db.journal| && w'.db.journal[b].row.AttemptFact?
    requires w'.db.journal[b].tenant == Spelling(w.db, cmd).value.0
    requires SameAddress(Spelling(w.db, cmd).value.1, w'.db.journal[b].row.recipient)
    ensures w'.db.journal[b].row.test && SameAddress(w'.db.journal[b].row.recipient, w'.db.journal[b].row.sub)
  {
    SpellingIsSuppressed(w.db, cmd);
    AfterCommandValid(w, cmd, w');
    RecipientIsPlain(w', b);
    SuppressedIsNotMailed(w, cmd, w', b, Spelling(w.db, cmd).value.1);
  }

  lemma SuppressedIsNotMailed(w: World, cmd: Command, w': World, b: nat, spelling: string)
    requires Reachable(w) && Leads(w.(db := Step(w.db, cmd).db), w')
    requires |Step(w.db, cmd).db.journal| <= b < |w'.db.journal| && w'.db.journal[b].row.AttemptFact?
    requires Norm(w'.db.journal[b].row.recipient) == w'.db.journal[b].row.recipient
    requires SuppressedBy(w.db, cmd) == Some((w'.db.journal[b].tenant, Norm(spelling)))
    requires SameAddress(spelling, w'.db.journal[b].row.recipient)
    ensures w'.db.journal[b].row.test && SameAddress(w'.db.journal[b].row.recipient, w'.db.journal[b].row.sub)
  {
    var fact := w'.db.journal[b].row;
    NormDecides(spelling, fact.recipient);
    SuppressionIsPermanent(w, cmd, w', b);
    NormDecides(fact.recipient, fact.sub);
  }

  lemma RecipientIsPlain(w: World, b: nat)
    requires WorldInv(w) && b < |w.db.journal| && w.db.journal[b].row.AttemptFact?
    ensures Norm(w.db.journal[b].row.recipient) == w.db.journal[b].row.recipient
  {
    assert Carries(w.db.proposals, w.db.journal[b]);
  }

  lemma AfterCommandValid(w: World, cmd: Command, w': World)
    requires Reachable(w) && Leads(w.(db := Step(w.db, cmd).db), w')
    ensures WorldInv(w') && Step(w.db, cmd).db.journal <= w'.db.journal
  {
    ReachableIsValid(w);
    assert w.(db := Step(w.db, cmd).db) == Act(w, Whole(cmd));
    ActKeepsInv(w, Whole(cmd));
    LeadsKeepsInv(Act(w, Whole(cmd)), w');
  }

  /** So a later delivery to a prospect whose stored address is any spelling of it is refused and changes nothing. */
  lemma NoSpellingIsDelivered(w: World, cmd: Command, w': World, c: Caller, f: DeliveryForm, pid: Id)
    requires Reachable(w) && Spelling(w.db, cmd).Some?
    requires Leads(w.(db := Step(w.db, cmd).db), w')
    requires c.tenant == Spelling(w.db, cmd).value.0 && f.testRecipient.None?
    requires f.proposal in w'.db.proposals ==> w'.db.proposals[f.proposal].row.prospect == pid
    requires pid in w'.db.prospects && w'.db.prospects[pid].row.email.Some?
    requires SameAddress(Spelling(w.db, cmd).value.1, w'.db.prospects[pid].row.email.value)
    ensures Step(w'.db, By(c, Deliver(f))).db == w'.db && Step(w'.db, By(c, Deliver(f))).response.Refusal?
  {
    SpellingIsListed(w, cmd, w');
    ListedIsRefused(w'.db, c, f, pid, Spelling(w.db, cmd).value.1);
  }

  lemma SpellingIsListed(w: World, cmd: Command, w': World)
    requires Reachable(w) && Spelling(w.db, cmd).Some? && Leads(w.(db := Step(w.db, cmd).db), w')
    ensures (Spelling(w.db, cmd).value.0, Norm(Spelling(w.db, cmd).value.1)) in w'.db.suppressions
  {
    SpellingIsSuppressed(w.db, cmd);
    AfterCommandValid(w, cmd, w');
    SuppressionIsLogged(w.db, cmd);
    LoggedIsListed(w'.db, Step(w.db, cmd).db.journal, Spelling(w.db, cmd).value.0,
                   Norm(Spelling(w.db, cmd).value.1));
  }

  lemma LoggedIsListed(s: Db, j: seq<Owned<Fact>>, t: string, e: string)
    requires Listed(s.suppressions, s.journal) && j <= s.journal
    requires exists i :: 0 <= i < |j| && j[i] == Owned(t, SuppressedFact(e))
    ensures (t, e) in s.suppressions
  {
    var i :| 0 <= i < |j| && j[i] == Owned(t, SuppressedFact(e));
    assert s.journal[i] == j[i];
  }

  lemma ListedIsRefused(s: Db, c: Caller, f: DeliveryForm, pid: Id, e: string)
    requires (c.tenant, Norm(e)) in s.suppressions && f.testRecipient.None?
    requires f.proposal in s.proposals ==> s.proposals[f.proposal].row.prospect == pid
    requires pid in s.prospects && s.prospects[pid].row.email.Some?
    requires SameAddress(e, s.prospects[pid].row.email.value)
    ensures Step(s, By(c, Deliver(f))).db == s && Step(s, By(c, Deliver(f))).response.Refusal?
  {
    NormDecides(e, s.prospects[pid].row.email.value);
    assert Typed(f, s.prospects[pid].row) == s.prospects[pid].row.email.value;
    AttemptedIff(s, c, f);
  }
}
