/** Proposal versions under concurrency: on every schedule they are exactly 1..n, and of two
    transactions that read the same maximum only the first to commit changes anything. */
module Versioning {
  import opened Text
  import opened Store
  import opened Requests
  import opened Plans
  import opened Invariants
  import opened Safety
  import opened Concurrency
  import opened Guarantees

  function ProposalsOf(proposals: Table<Proposal>, pid: Id): set<Id> {
    set k | k in proposals && proposals[k].row.prospect == pid
  }

  function AllVersions(proposals: Table<Proposal>, pid: Id): set<int> {
    set k | k in proposals && proposals[k].row.prospect == pid :: proposals[k].row.version
  }

  lemma {:induction false} OneToSize(versions: set<int>, n: nat)
    requires forall v :: v in versions <==> 1 <= v <= n
    ensures |versions| == n
  {
    if n == 0 {
      assert forall v :: v !in versions;
    } else {
      OneToSize(versions - {n}, n - 1);
    }
  }

  /** Numbering distinct things with distinct versions gives as many versions as things. */
  lemma {:induction false} DistinctVersions(proposals: Table<Proposal>, ids: set<Id>)
    requires ids <= proposals.Keys
    requires forall j, k :: j in ids && k in ids && j != k ==> proposals[j].row.version != proposals[k].row.version
    ensures |set k | k in ids :: proposals[k].row.version| == |ids|
  {
    var versions := set k | k in ids :: proposals[k].row.version;
    if ids != {} {
      var id :| id in ids;
      var rest := ids - {id};
      DistinctVersions(proposals, rest);
      assert versions == (set k | k in rest :: proposals[k].row.version) + {proposals[id].row.version};
    } else {
      assert versions == {};
    }
  }

  lemma VersionsAreContiguous(proposals: Table<Proposal>, pid: Id)
    requires Versions(proposals)
    ensures forall v :: v in AllVersions(proposals, pid) <==> 1 <= v <= |ProposalsOf(proposals, pid)|
  {
    var ids, versions := ProposalsOf(proposals, pid), AllVersions(proposals, pid);
    var top := MaxInt(versions);
    forall v ensures v in versions <==> 1 <= v <= top {
      if 1 <= v < top {
        var k :| k in proposals && proposals[k].row.prospect == pid && proposals[k].row.version == top;
        assert HasVersion(proposals, pid, v);
      }
    }
    assert versions == set k | k in ids :: proposals[k].row.version;
    DistinctVersions(proposals, ids);
    assert 0 <= top by { if versions != {} { assert top in versions; } }
    OneToSize(versions, top);
  }

  /** On every schedule the versions of each prospect's proposals are exactly 1..n for its n proposals. */
  lemma VersionsAreOneToN(w: World, pid: Id)
    requires Reachable(w)
    ensures forall v :: v in AllVersions(w.db.proposals, pid) <==> 1 <= v <= |ProposalsOf(w.db.proposals, pid)|
  {
    ReachableIsValid(w);
    VersionsAreContiguous(w.db.proposals, pid);
  }

  /** A tenant has at most one prospect per domain, although creation reads and commits separately. */
  lemma DomainsAreUnique(w: World, j: Id, k: Id)
    requires Reachable(w) && j in w.db.prospects && k in w.db.prospects && j != k
    requires w.db.prospects[j].tenant == w.db.prospects[k].tenant
    ensures w.db.prospects[j].row.domain != w.db.prospects[k].row.domain
  {
    ReachableIsValid(w);
  }

  /** What committing a prepared draft does to a later database: all or nothing, decided by the version. */
  lemma FinishDraft(now: Db, cmd: Command, t: string, id: Id, row: Proposal)
    requires cmd.By? && cmd.request.GenerateProposal? && id !in now.proposals
    requires DraftPlan(now, t, id, row)
    ensures Finish(now, cmd, Plan(t, ProposalOut(id, row),
                                  [NewProposal(id, row), SetStatus(row.prospect, ProposalReady)]))
      == if HasVersion(now.proposals, row.prospect, row.version) then Outcome(now, Refusal(VersionConflict))
         else Outcome(now.(proposals := now.proposals[id := Owned(t, row)],
                           prospects := now.prospects[row.prospect :=
                             Owned(t, now.prospects[row.prospect].row.(status := ProposalReady))]),
                      ProposalOut(id, row))
  {
    if !HasVersion(now.proposals, row.prospect, row.version) {
      TwoWrites(now, t, NewProposal(id, row), SetStatus(row.prospect, ProposalReady));
    }
  }

  /** The versions that exist are the ones up to the maximum that the query finds. */
  lemma VersionsUpToMax(s: Db, t: string, pid: Id)
    requires Ownership(s) && Versions(s.proposals) && Find(s.prospects, t, pid).Some?
    ensures 0 <= CurrentMax(s.proposals, t, pid)
    ensures forall v :: HasVersion(s.proposals, pid, v) <==> 1 <= v <= CurrentMax(s.proposals, t, pid)
  {
    NextVersion(s, t, pid);
    forall v | HasVersion(s.proposals, pid, v) ensures 1 <= v <= CurrentMax(s.proposals, t, pid) {
      var k :| k in s.proposals && s.proposals[k].row.prospect == pid && s.proposals[k].row.version == v;
      assert Find(s.prospects, s.proposals[k].tenant, pid).Some?;
      assert v in VersionsOf(s.proposals, t, pid);
    }
  }

  lemma TakenIffOvertaken(read: Db, now: Db, t: string, pid: Id)
    requires Ownership(read) && Versions(read.proposals) && Ownership(now) && Versions(now.proposals)
    requires Keeps(read, now) && Find(read.prospects, t, pid).Some? && Find(now.prospects, t, pid).Some?
    ensures HasVersion(now.proposals, pid, CurrentMax(read.proposals, t, pid) + 1)
      <==> CurrentMax(now.proposals, t, pid) != CurrentMax(read.proposals, t, pid)
  {
    VersionsUpToMax(read, t, pid);
    VersionsUpToMax(now, t, pid);
    var m := CurrentMax(read.proposals, t, pid);
    if m >= 1 {
      VersionsSurvive(read.proposals, now.proposals, pid, m);
    }
  }

  /** What a generating transaction that found its prospect and analysis will commit. */
  ghost function DraftOf(read: Db, c: Caller, pid: Id, analysis: Option<Id>): Proposal
    requires Find(read.prospects, c.tenant, pid).Some? && PickAnalysis(read, c.tenant, pid, analysis).Some?
  {
    var aid := PickAnalysis(read, c.tenant, pid, analysis).value;
    NewDraft(c, pid, aid, CurrentMax(read.proposals, c.tenant, pid) + 1,
             ProposalCopy(Find(read.prospects, c.tenant, pid).value, CompleteOf(read.analyses, c.tenant, pid)[aid].row))
  }

  lemma GeneratePlan(read: Db, c: Caller, pid: Id, analysis: Option<Id>, id: Id)
    requires c.CanWrite() && Find(read.prospects, c.tenant, pid).Some?
    requires PickAnalysis(read, c.tenant, pid, analysis).Some?
    ensures var row := DraftOf(read, c, pid, analysis);
      PlanCommand(read, By(c, GenerateProposal(pid, analysis, id)))
        == Plan(c.tenant, ProposalOut(id, row), [NewProposal(id, row), SetStatus(pid, ProposalReady)])
  {}

  /** A draft stays committable while the database moves on, except that its version may be taken. */
  lemma DraftSurvives(read: Db, c: Caller, pid: Id, analysis: Option<Id>, id: Id, now: Db)
    requires Ownership(read) && Versions(read.proposals) && Keeps(read, now)
    requires Find(read.prospects, c.tenant, pid).Some? && PickAnalysis(read, c.tenant, pid, analysis).Some?
    ensures DraftPlan(now, c.tenant, id, DraftOf(read, c, pid, analysis))
        && DraftOf(read, c, pid, analysis).prospect == pid
  {
    var row := DraftOf(read, c, pid, analysis);
    NextVersion(read, c.tenant, pid);
    assert IsComplete(read.analyses, c.tenant, pid, row.analysis);
    forall v | 1 <= v < row.version ensures HasVersion(now.proposals, pid, v) {
      VersionsSurvive(read.proposals, now.proposals, pid, v);
    }
  }

  /** The outcome of a race: a transaction that read before loses exactly when another proposal of the prospect has
      been committed since, and then nothing at all changes; otherwise its version is the next one, and the only
      other change is the prospect's status. */
  lemma RaceOutcome(read: Db, c: Caller, pid: Id, analysis: Option<Id>, id: Id, now: Db)
    requires Inv(read) && Inv(now) && Keeps(read, now) && id !in now.proposals && c.CanWrite()
    requires Find(read.prospects, c.tenant, pid).Some? && PickAnalysis(read, c.tenant, pid, analysis).Some?
    ensures var cmd := By(c, GenerateProposal(pid, analysis, id));
      var row := DraftOf(read, c, pid, analysis);
      Finish(now, cmd, PlanCommand(read, cmd)) ==
        if CurrentMax(now.proposals, c.tenant, pid) != CurrentMax(read.proposals, c.tenant, pid)
        then Outcome(now, Refusal(VersionConflict))
        else Outcome(now.(proposals := now.proposals[id := Owned(c.tenant, row)],
                          prospects := now.prospects[pid :=
                            Owned(c.tenant, now.prospects[pid].row.(status := ProposalReady))]),
                     ProposalOut(id, row))
  {
    var cmd, row := By(c, GenerateProposal(pid, analysis, id)), DraftOf(read, c, pid, analysis);
    GeneratePlan(read, c, pid, analysis, id);
    DraftSurvives(read, c, pid, analysis, id, now);
    FinishDraft(now, cmd, c.tenant, id, row);
    TakenIffOvertaken(read, now, c.tenant, pid);
  }
}
