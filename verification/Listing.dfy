/** The two maps behind the prospect list: the newest analysis and the highest proposal of each prospect. */
module Listing {
  import opened Text
  import opened Store

  /** `ids` is what the database returns: the tenant's analyses of these prospects, newest first. */
  ghost predicate AnalysesNewestFirst(analyses: Table<Analysis>, t: string, prospects: set<Id>, ids: seq<Id>) {
    && (forall k :: k in ids <==> k in analyses && analyses[k].tenant == t && analyses[k].row.prospect in prospects)
    && (forall i, j :: 0 <= i < j < |ids| ==> analyses[ids[i]].row.createdAt >= analyses[ids[j]].row.createdAt)
  }

  /** The tenant's proposals of these prospects, highest version first. */
  ghost predicate ProposalsHighestFirst(proposals: Table<Proposal>, t: string, prospects: set<Id>, ids: seq<Id>) {
    && (forall k :: k in ids <==> k in proposals && proposals[k].tenant == t && proposals[k].row.prospect in prospects)
    && (forall i, j :: 0 <= i < j < |ids| ==> proposals[ids[i]].row.version >= proposals[ids[j]].row.version)
  }

  /** `m` holds, for each prospect that occurs in `ids`, the first of its rows. */
  ghost predicate FirstOfEach(ids: seq<Id>, prospectOf: map<Id, Id>, m: map<Id, Id>)
    requires forall k :: k in ids ==> k in prospectOf
  {
    && (forall k :: k in ids ==> prospectOf[k] in m)
    && (forall pid :: pid in m ==>
          exists i :: 0 <= i < |ids| && m[pid] == ids[i] && prospectOf[ids[i]] == pid
                      && forall j :: 0 <= j < i ==> prospectOf[ids[j]] != pid)
  }

  /** A loop of `setdefault`. */
  method SetDefaults(ids: seq<Id>, prospectOf: map<Id, Id>) returns (m: map<Id, Id>)
    requires forall k :: k in ids ==> k in prospectOf
    ensures FirstOfEach(ids, prospectOf, m)
  {
    m := map[];
    for n := 0 to |ids|
      invariant forall k :: 0 <= k < n ==> prospectOf[ids[k]] in m
      invariant forall pid :: pid in m ==>
        exists i :: 0 <= i < n && m[pid] == ids[i] && prospectOf[ids[i]] == pid
                    && forall j :: 0 <= j < i ==> prospectOf[ids[j]] != pid
    {
      var pid := prospectOf[ids[n]];
      if pid !in m { m := m[pid := ids[n]]; }
    }
  }

  /** The prospect has an entry if it has an analysis at all, and it is the newest one. */
  ghost predicate ShowsNewest(analyses: Table<Analysis>, t: string, prospects: set<Id>, m: map<Id, Id>, pid: Id) {
    && (pid in m <==>
          exists k :: k in analyses && analyses[k].tenant == t && analyses[k].row.prospect == pid && pid in prospects)
    && (pid in m ==>
          && Find(analyses, t, m[pid]).Some? && analyses[m[pid]].row.prospect == pid
          && forall k :: k in analyses && analyses[k].tenant == t && analyses[k].row.prospect == pid ==>
               analyses[k].row.createdAt <= analyses[m[pid]].row.createdAt)
  }

  /** The prospect has an entry if it has a proposal, and it is the one of greatest version. */
  ghost predicate ShowsHighest(proposals: Table<Proposal>, t: string, prospects: set<Id>, m: map<Id, Id>, pid: Id) {
    && (pid in m <==> pid in prospects && VersionsOf(proposals, t, pid) != {})
    && (pid in m ==>
          && Find(proposals, t, m[pid]).Some? && proposals[m[pid]].row.prospect == pid
          && proposals[m[pid]].row.version == CurrentMax(proposals, t, pid))
  }

  /** `_latest_maps`: each prospect with an analysis gets its newest one, complete or not, and each with a proposal
      the one with the greatest version; other tenants' rows do not show. */
  method LatestMaps(analyses: Table<Analysis>, proposals: Table<Proposal>, t: string, prospects: set<Id>,
                    newestFirst: seq<Id>, highestFirst: seq<Id>)
    returns (analysisMap: map<Id, Id>, proposalMap: map<Id, Id>)
    requires AnalysesNewestFirst(analyses, t, prospects, newestFirst)
    requires ProposalsHighestFirst(proposals, t, prospects, highestFirst)
    ensures forall pid :: ShowsNewest(analyses, t, prospects, analysisMap, pid)
    ensures forall pid :: ShowsHighest(proposals, t, prospects, proposalMap, pid)
  {
    var analysed := map k | k in newestFirst :: analyses[k].row.prospect;
    analysisMap := SetDefaults(newestFirst, analysed);
    var proposed := map k | k in highestFirst :: proposals[k].row.prospect;
    proposalMap := SetDefaults(highestFirst, proposed);
    forall pid ensures ShowsNewest(analyses, t, prospects, analysisMap, pid) {
      FirstIsNewest(analyses, t, prospects, newestFirst, analysed, analysisMap, pid);
    }
    forall pid ensures ShowsHighest(proposals, t, prospects, proposalMap, pid) {
      FirstIsHighest(proposals, t, prospects, highestFirst, proposed, proposalMap, pid);
    }
  }

  /** The row chosen for a prospect, and its place in the result. */
  lemma Chosen(ids: seq<Id>, prospectOf: map<Id, Id>, m: map<Id, Id>, pid: Id) returns (i: nat)
    requires forall k :: k in ids ==> k in prospectOf
    requires FirstOfEach(ids, prospectOf, m) && pid in m
    ensures i < |ids| && m[pid] == ids[i] && prospectOf[ids[i]] == pid
    ensures forall j :: 0 <= j < i ==> prospectOf[ids[j]] != pid
  {
    i :| 0 <= i < |ids| && m[pid] == ids[i] && prospectOf[ids[i]] == pid
         && forall j :: 0 <= j < i ==> prospectOf[ids[j]] != pid;
  }

  lemma NewestHere(analyses: Table<Analysis>, t: string, prospects: set<Id>, ids: seq<Id>, i: nat)
    requires AnalysesNewestFirst(analyses, t, prospects, ids) && i < |ids| && ids[i] in analyses
    requires forall j :: 0 <= j < i ==>
      ids[j] in analyses && analyses[ids[j]].row.prospect != analyses[ids[i]].row.prospect
    ensures forall k ::
      k in analyses && analyses[k].tenant == t && analyses[k].row.prospect == analyses[ids[i]].row.prospect ==>
      analyses[k].row.createdAt <= analyses[ids[i]].row.createdAt
  {
    assert ids[i] in ids;
    forall k | k in analyses && analyses[k].tenant == t && analyses[k].row.prospect == analyses[ids[i]].row.prospect
      ensures analyses[k].row.createdAt <= analyses[ids[i]].row.createdAt
    {
      assert k in ids;
      var j :| 0 <= j < |ids| && ids[j] == k;
    }
  }

  lemma FirstIsNewest(analyses: Table<Analysis>, t: string, prospects: set<Id>, ids: seq<Id>, prospectOf: map<Id, Id>,
                      m: map<Id, Id>, pid: Id)
    requires AnalysesNewestFirst(analyses, t, prospects, ids)
    requires prospectOf == map k | k in ids :: analyses[k].row.prospect
    requires FirstOfEach(ids, prospectOf, m)
    ensures ShowsNewest(analyses, t, prospects, m, pid)
  {
    if pid in m {
      var i := Chosen(ids, prospectOf, m, pid);
      assert forall j :: 0 <= j <= i ==> ids[j] in ids;
      NewestHere(analyses, t, prospects, ids, i);
    } else if k :| k in analyses && analyses[k].tenant == t && analyses[k].row.prospect == pid && pid in prospects {
      assert k in ids;
    }
  }

  lemma HighestIsMax(proposals: Table<Proposal>, t: string, prospects: set<Id>, ids: seq<Id>, i: nat)
    requires ProposalsHighestFirst(proposals, t, prospects, ids) && i < |ids|
    requires ids[i] in proposals
    requires forall j :: 0 <= j < i ==>
      ids[j] in proposals && proposals[ids[j]].row.prospect != proposals[ids[i]].row.prospect
    ensures proposals[ids[i]].row.version == CurrentMax(proposals, t, proposals[ids[i]].row.prospect)
    ensures VersionsOf(proposals, t, proposals[ids[i]].row.prospect) != {}
  {
    var pid, top := proposals[ids[i]].row.prospect, proposals[ids[i]].row.version;
    var versions := VersionsOf(proposals, t, pid);
    assert ids[i] in ids;
    assert top in versions;
    forall v | v in versions ensures v <= top {
      var k :| k in proposals && proposals[k].tenant == t && proposals[k].row.prospect == pid
          && proposals[k].row.version == v;
      assert k in ids;
      var j :| 0 <= j < |ids| && ids[j] == k;
    }
  }

  lemma FirstIsHighest(proposals: Table<Proposal>, t: string, prospects: set<Id>, ids: seq<Id>, prospectOf: map<Id, Id>,
                       m: map<Id, Id>, pid: Id)
    requires ProposalsHighestFirst(proposals, t, prospects, ids)
    requires prospectOf == map k | k in ids :: proposals[k].row.prospect
    requires FirstOfEach(ids, prospectOf, m)
    ensures ShowsHighest(proposals, t, prospects, m, pid)
  {
    if pid in m {
      var i := Chosen(ids, prospectOf, m, pid);
      assert forall j :: 0 <= j <= i ==> ids[j] in ids;
      HighestIsMax(proposals, t, prospects, ids, i);
    }
  }
}
