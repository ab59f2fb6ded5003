/** Which rows of a pasted CSV become prospects, what they become, and why the others are skipped, row by row. */
module BatchRules {
  import opened Text
  import opened Addresses
  import opened Store
  import opened Requests
  import opened Plans
  import opened DeliveryRules
  import opened ProspectRules
  import opened Intake

  /** The text begins with `prefix`, up to letter case. */
  ghost predicate BeginsWith(s: string, prefix: string) {
    |prefix| <= |s| && SameLetters(s[..|prefix|], prefix)
  }

  /** A name of two characters or more, a web address, and one that the audit accepts. */
  ghost predicate IsCreatable(r: CsvRow) {
    |r.company| >= 2 && (BeginsWith(r.url, "https://") || BeginsWith(r.url, "http://")) && r.site.Some?
  }

  /** The domain of row `i` occurred before in the file, in a row that could be created. */
  ghost predicate Repeats(rows: seq<CsvRow>, i: nat)
    requires i < |rows| && rows[i].site.Some?
  {
    exists j :: 0 <= j < i && IsCreatable(rows[j]) && rows[j].site.value.domain == rows[i].site.value.domain
  }

  /** Row `i` can be created, and neither the tenant nor the file has had its domain. */
  ghost predicate IsNew(s: Db, t: string, rows: seq<CsvRow>, i: nat)
    requires i < |rows|
  {
    IsCreatable(rows[i]) && !HasDomain(s, t, rows[i].site.value.domain) && !Repeats(rows, i)
  }

  ghost function ReasonFor(rows: seq<CsvRow>, i: nat): SkipReason
    requires i < |rows|
  {
    if |rows[i].company| < 2 then CompanyNameInvalid
    else if !IsCreatable(rows[i]) then WebsiteIsInvalid
    else if Repeats(rows, i) then DuplicateInBatch
    else DuplicateDomain
  }

  lemma LowerPrefix(s: string, prefix: string)
    requires Lower(prefix) == prefix
    ensures prefix <= Lower(s) <==> BeginsWith(s, prefix)
  {
    if |prefix| <= |s| {
      assert Lower(s)[..|prefix|] == Lower(s[..|prefix|]);
      LowerMeans(s[..|prefix|], prefix);
    }
  }

  lemma ValidMeans(r: CsvRow)
    ensures ValidRow(r) <==> IsCreatable(r)
  {
    assert Lower("https://") == "https://" && Lower("http://") == "http://";
    LowerPrefix(r.url, "https://");
    LowerPrefix(r.url, "http://");
  }

  lemma AllValidMean(rows: seq<CsvRow>)
    ensures forall r :: r in rows ==> (ValidRow(r) <==> IsCreatable(r))
  {
    forall r | r in rows ensures ValidRow(r) <==> IsCreatable(r) { ValidMeans(r); }
  }

  lemma TakenMeans(s: Db, t: string, domain: string)
    ensures domain in DomainsOf(s.prospects, t) <==> HasDomain(s, t, domain)
  {
    DomainMeans(s, t, domain);
  }

  lemma FirstMeans(s: Db, t: string, rows: seq<CsvRow>, i: nat)
    requires i < |rows|
    ensures FirstOfNewDomain(rows, DomainsOf(s.prospects, t), i) <==> IsNew(s, t, rows, i)
    ensures !IsNew(s, t, rows, i) ==> SkipReasonOf(rows, i) == ReasonFor(rows, i)
  {
    AllValidMean(rows);
    if rows[i].site.Some? { TakenMeans(s, t, rows[i].site.value.domain); }
  }

  // ----- the whole batch

  /** The first objection to a batch. */
  function BatchObjection(s: Db, t: string, campaign: Option<Id>, headers: Option<seq<string>>, rows: seq<CsvRow>):
    Option<Error>
  {
    if campaign.Some? && !Holds(s.campaigns, t, campaign.value) then Some(CampaignNotFound)
    else if headers.None? then Some(CsvHeaderRequired)
    else if !(exists h :: h in headers.value && Norm(h) == "company_name")
         || !(exists h :: h in headers.value && Norm(h) == "website_url") then Some(CsvColumnsRequired)
    else if |rows| > 50 then Some(CsvTooManyRows)
    else None
  }

  lemma BatchRefusedFor(s: Db, c: Caller, campaign: Option<Id>, headers: Option<seq<string>>, rows: seq<CsvRow>,
                        note: Option<string>)
    requires MayWrite(c) && BatchObjection(s, c.tenant, campaign, headers, rows).Some?
    ensures Step(s, By(c, BulkCsv(campaign, headers, rows, note)))
      == Outcome(s, Refusal(BatchObjection(s, c.tenant, campaign, headers, rows).value))
  {}

  /** The note that is stored when the form has none. */
  const STANDARD_NOTE := "CSV bulk intake; relevance and contact basis must be verified before outreach."

  /** A created row: qualified, with the caller in charge, without an address, and not verified. */
  predicate IsMadeFrom(p: Prospect, r: CsvRow, c: Caller, campaign: Option<Id>, note: Option<string>) {
    && r.site.Some? && p.campaign == campaign && p.company == r.company && p.url == r.site.value.url
    && p.domain == r.site.value.domain && p.status == Qualified && p.email == None && !p.verified
    && p.verifiedAt == None && !p.doNotContact && p.qualification == 0 && p.value == 0 && p.assignee == Some(c.sub)
    && p.info == Some((if note.Some? && Strip(note.value) != "" then Strip(note.value) else STANDARD_NOTE)
                      + "|" + r.city)
  }

  lemma RowIsMade(c: Caller, campaign: Option<Id>, note: Option<string>, r: CsvRow)
    requires ValidRow(r)
    ensures IsMadeFrom(RowProspect(c, campaign, NoteOf(note), r), r, c, campaign, note)
  {}

  /** The created prospects are, in order, those of the rows `chosen`: exactly the new ones. */
  ghost predicate CreatesExactly(s: Db, c: Caller, campaign: Option<Id>, rows: seq<CsvRow>, note: Option<string>,
                                 created: seq<(Id, Prospect)>, chosen: seq<nat>)
  {
    && |created| == |chosen| && (forall k, l :: 0 <= k < l < |chosen| ==> chosen[k] < chosen[l])
    && (forall k :: 0 <= k < |chosen| ==> chosen[k] < |rows| && IsNew(s, c.tenant, rows, chosen[k]))
    && (forall i: nat :: i < |rows| && IsNew(s, c.tenant, rows, i) ==> i in chosen)
    && (forall k :: 0 <= k < |chosen| ==>
          created[k].0 == rows[chosen[k]].id && IsMadeFrom(created[k].1, rows[chosen[k]], c, campaign, note))
  }

  /** Rows are numbered as in the file, where the header is row 1. */
  ghost predicate SkipsTheRest(s: Db, t: string, rows: seq<CsvRow>, skipped: seq<Skip>) {
    && (forall k, l :: 0 <= k < l < |skipped| ==> skipped[k].row < skipped[l].row)
    && (forall k :: 0 <= k < |skipped| ==> IsSkipped(s, t, rows, skipped[k]))
  }

  ghost predicate IsSkipped(s: Db, t: string, rows: seq<CsvRow>, skip: Skip) {
    && 2 <= skip.row < |rows| + 2 && !IsNew(s, t, rows, skip.row - 2)
    && skip.reason == ReasonFor(rows, skip.row - 2)
  }

  lemma CreatedAreExact(s: Db, c: Caller, campaign: Option<Id>, rows: seq<CsvRow>, note: Option<string>)
    ensures var taken := DomainsOf(s.prospects, c.tenant);
      CreatesExactly(s, c, campaign, rows, note, BulkCreated(c, campaign, NoteOf(note), rows, taken, |rows|),
                     CreatedRows(rows, taken, |rows|))
  {
    var taken := DomainsOf(s.prospects, c.tenant);
    var chosen := CreatedRows(rows, taken, |rows|);
    BulkCreatedRows(c, campaign, NoteOf(note), rows, taken, |rows|);
    forall i: nat | i < |rows|
      ensures FirstOfNewDomain(rows, taken, i) <==> IsNew(s, c.tenant, rows, i)
    {
      FirstMeans(s, c.tenant, rows, i);
    }
    forall k | 0 <= k < |chosen|
      ensures IsMadeFrom(RowProspect(c, campaign, NoteOf(note), rows[chosen[k]]), rows[chosen[k]], c, campaign, note)
    {
      assert FirstOfNewDomain(rows, taken, chosen[k]);
      RowIsMade(c, campaign, note, rows[chosen[k]]);
    }
  }

  lemma {:induction false} SkipsGrow(rows: seq<CsvRow>, taken: set<string>, n: nat)
    requires n <= |rows|
    ensures forall k, l :: 0 <= k < l < |SkippedRows(rows, taken, n)| ==>
      SkippedRows(rows, taken, n)[k].row < SkippedRows(rows, taken, n)[l].row
    ensures forall k :: 0 <= k < |SkippedRows(rows, taken, n)| ==> 2 <= SkippedRows(rows, taken, n)[k].row <= n + 1
  {
    if n > 0 { SkipsGrow(rows, taken, n - 1); }
  }

  lemma SkippedAreExact(s: Db, t: string, rows: seq<CsvRow>)
    ensures SkipsTheRest(s, t, rows, SkippedRows(rows, DomainsOf(s.prospects, t), |rows|))
  {
    var taken := DomainsOf(s.prospects, t);
    var skipped := SkippedRows(rows, taken, |rows|);
    SkipsGrow(rows, taken, |rows|);
    forall k | 0 <= k < |skipped| ensures IsSkipped(s, t, rows, skipped[k]) { SkipIsExact(s, t, rows, k); }
  }

  lemma SkipIsExact(s: Db, t: string, rows: seq<CsvRow>, k: nat)
    requires k < |SkippedRows(rows, DomainsOf(s.prospects, t), |rows|)|
    ensures IsSkipped(s, t, rows, SkippedRows(rows, DomainsOf(s.prospects, t), |rows|)[k])
  {
    SkippedAreTheRest(rows, DomainsOf(s.prospects, t), |rows|, k);
    FirstMeans(s, t, rows, SkippedRows(rows, DomainsOf(s.prospects, t), |rows|)[k].row - 2);
  }

  /** A batch that meets no objection creates exactly its new rows, in order, skips every other one with its reason, and
      adds nothing else to the store. */
  lemma BatchStores(s: Db, c: Caller, campaign: Option<Id>, headers: Option<seq<string>>, rows: seq<CsvRow>,
                    note: Option<string>)
    returns (chosen: seq<nat>)
    requires MayWrite(c) && BatchObjection(s, c.tenant, campaign, headers, rows).None?
    requires forall i :: 0 <= i < |rows| ==> rows[i].id !in s.prospects
    requires forall i, j :: 0 <= i < j < |rows| ==> rows[i].id != rows[j].id
    ensures var after := Step(s, By(c, BulkCsv(campaign, headers, rows, note)));
      && after.response.BulkOut? && after.response.rowCount == |rows|
      && |after.response.created| + |after.response.skipped| == |rows|
      && CreatesExactly(s, c, campaign, rows, note, after.response.created, chosen)
      && SkipsTheRest(s, c.tenant, rows, after.response.skipped)
      && after.db == s.(prospects := Inserted(s.prospects, c.tenant, after.response.created))
  {
    BulkAddsWhatItReports(s, c, campaign, headers, rows, note);
    CreatedAreExact(s, c, campaign, rows, note);
    SkippedAreExact(s, c.tenant, rows);
    chosen := CreatedRows(rows, DomainsOf(s.prospects, c.tenant), |rows|);
  }
}
