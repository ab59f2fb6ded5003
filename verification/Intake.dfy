/** CSV intake: the batch creates exactly the first valid row of each domain the tenant does not have. */
module Intake {
  import opened Text
  import opened Store
  import opened Requests
  import opened Plans
  import opened Invariants

  /** Every row is either created or skipped. */
  lemma {:induction false} CreatedPlusSkipped(rows: seq<CsvRow>, taken: set<string>, n: nat)
    requires n <= |rows|
    ensures |CreatedRows(rows, taken, n)| + |SkippedRows(rows, taken, n)| == n
  {
    if n != 0 { CreatedPlusSkipped(rows, taken, n - 1); }
  }

  /** Skips are reported in file order, each for a row that is not created, with the first reason that applies. */
  lemma {:induction false} SkippedAreTheRest(rows: seq<CsvRow>, taken: set<string>, n: nat, k: nat)
    requires n <= |rows| && k < |SkippedRows(rows, taken, n)|
    ensures var skip := SkippedRows(rows, taken, n)[k];
      && 2 <= skip.row <= n + 1 && !FirstOfNewDomain(rows, taken, skip.row - 2)
      && skip.reason == SkipReasonOf(rows, skip.row - 2)
      && (skip.reason == DuplicateDomain ==>
            rows[skip.row - 2].site.Some? && rows[skip.row - 2].site.value.domain in taken)
      && (k > 0 ==> SkippedRows(rows, taken, n)[k - 1].row < skip.row)
  {
    if n != 0 {
      if k < |SkippedRows(rows, taken, n - 1)| {
        SkippedAreTheRest(rows, taken, n - 1, k);
      } else if k > 0 {
        SkippedAreTheRest(rows, taken, n - 1, k - 1);
      }
    }
  }

  /** For each valid row of a domain the tenant does not have, one row of that domain is created: the first. */
  lemma {:induction false} EveryNewDomainIsCreated(rows: seq<CsvRow>, taken: set<string>, i: nat) returns (first: nat)
    requires i < |rows| && ValidRow(rows[i]) && rows[i].site.value.domain !in taken
    ensures first <= i && first in CreatedRows(rows, taken, |rows|)
    ensures ValidRow(rows[first]) && rows[first].site.value.domain == rows[i].site.value.domain
    decreases i
  {
    if FirstOfNewDomain(rows, taken, i) {
      first := i;
    } else {
      var j :| 0 <= j < i && ValidRow(rows[j]) && rows[j].site.value.domain == rows[i].site.value.domain;
      first := EveryNewDomainIsCreated(rows, taken, j);
    }
  }

  /** What the table holds after the first `n` creations. */
  function Inserted(prospects: Table<Prospect>, t: string, created: seq<(Id, Prospect)>): Table<Prospect>
    decreases |created|
  {
    if created == [] then prospects
    else Inserted(prospects[created[0].0 := Owned(t, created[0].1)], t, created[1..])
  }

  ghost predicate Insertable(prospects: Table<Prospect>, t: string, created: seq<(Id, Prospect)>) {
    && (forall k :: 0 <= k < |created| ==>
          created[k].0 !in prospects && !DomainTaken(prospects, t, created[k].1.domain))
    && (forall k, l :: 0 <= k < l < |created| ==>
          created[k].0 != created[l].0 && created[k].1.domain != created[l].1.domain)
  }

  lemma {:induction false} InsertsCommit(s: Db, t: string, created: seq<(Id, Prospect)>)
    requires Insertable(s.prospects, t, created)
    ensures Commit(s, t, Inserts(created)) == Some(s.(prospects := Inserted(s.prospects, t, created)))
    decreases |created|
  {
    if created != [] {
      var (id, p) := created[0];
      var next := s.(prospects := s.prospects[id := Owned(t, p)]);
      forall k | 1 <= k < |created|
        ensures !DomainTaken(next.prospects, t, created[k].1.domain)
      {
        assert created[0].1.domain != created[k].1.domain;
        assert !DomainTaken(s.prospects, t, created[k].1.domain);
      }
      assert Inserts(created)[1..] == Inserts(created[1..]);
      InsertsCommit(next, t, created[1..]);
    }
  }

  lemma CreatedAreInsertable(prospects: Table<Prospect>, c: Caller, campaign: Option<Id>, note: string,
                             rows: seq<CsvRow>)
    requires forall i :: 0 <= i < |rows| ==> rows[i].id !in prospects
    requires forall i, j :: 0 <= i < j < |rows| ==> rows[i].id != rows[j].id
    ensures Insertable(prospects, c.tenant, BulkCreated(c, campaign, note, rows, DomainsOf(prospects, c.tenant),
                                                        |rows|))
  {
    var taken := DomainsOf(prospects, c.tenant);
    var chosen, created := CreatedRows(rows, taken, |rows|), BulkCreated(c, campaign, note, rows, taken, |rows|);
    BulkCreatedRows(c, campaign, note, rows, taken, |rows|);
    forall k | 0 <= k < |created| ensures !DomainTaken(prospects, c.tenant, created[k].1.domain) {
      assert FirstOfNewDomain(rows, taken, chosen[k]);
      assert created[k].1.domain == rows[chosen[k]].site.value.domain;
    }
    forall k, l | 0 <= k < l < |created|
      ensures created[k].0 != created[l].0 && created[k].1.domain != created[l].1.domain
    {
      assert FirstOfNewDomain(rows, taken, chosen[k]) && FirstOfNewDomain(rows, taken, chosen[l]);
    }
  }

  /** A batch whose drawn ids are fresh always commits: the rows it reports as created are what is added, in order,
      and nothing else in the store changes. */
  lemma BulkAddsWhatItReports(s: Db, c: Caller, campaign: Option<Id>, headers: Option<seq<string>>, rows: seq<CsvRow>,
                              note: Option<string>)
    requires c.CanWrite() && PlanBulkCsv(s, c, campaign, headers, rows, note).response.BulkOut?
    requires forall i :: 0 <= i < |rows| ==> rows[i].id !in s.prospects
    requires forall i, j :: 0 <= i < j < |rows| ==> rows[i].id != rows[j].id
    ensures var done := Step(s, By(c, BulkCsv(campaign, headers, rows, note)));
      && done.response == PlanBulkCsv(s, c, campaign, headers, rows, note).response
      && done.db == s.(prospects := Inserted(s.prospects, c.tenant, done.response.created))
      && |done.response.created| + |done.response.skipped| == |rows| <= 50
  {
    var taken := DomainsOf(s.prospects, c.tenant);
    CreatedAreInsertable(s.prospects, c, campaign, NoteOf(note), rows);
    BulkCreatedRows(c, campaign, NoteOf(note), rows, taken, |rows|);
    InsertsCommit(s, c.tenant, BulkCreated(c, campaign, NoteOf(note), rows, taken, |rows|));
    CreatedPlusSkipped(rows, taken, |rows|);
  }
}
