/** The audit spelled out: what each defect costs, which findings are reported, and the score. */
module ScoringRules {
  import opened Text
  import opened Scoring

  /** What remains of 100, and not less than nothing. */
  function Remains(loss: int): int {
    if loss > 100 then 0 else 100 - loss
  }

  /** The search metric: titles, description, headings, structured data, language, encryption. */
  lemma SeoIs(p: Page)
    ensures AuditOf(p).metrics.seo == Remains(
      (if p.titleLength == 0 then 24 else if 20 <= p.titleLength <= 65 then 0 else 10)
      + (if p.hasDescription then 0 else 18) + (if p.h1Count == 1 then 0 else 14) + (if p.jsonLd > 0 then 0 else 10)
      + (if p.hasLang then 0 else 4) + (if p.https then 0 else 10))
  {}

  /** The speed metric: encryption, server time, size of the page, scripts, images. */
  lemma PerformanceIs(p: Page)
    ensures AuditOf(p).metrics.performance == Remains(
      (if p.https then 0 else 8)
      + (match p.fetchMs case None => 0 case Some(ms) => if ms > 2500 then 34 else if ms > 1200 then 18 else 0)
      + (if p.htmlBytes > 800000 then 18 else if p.htmlBytes > 350000 then 8 else 0)
      + (if p.scripts > 30 then 16 else if p.scripts > 15 then 8 else 0) + (if p.images > 40 then 8 else 0))
  {}

  /** The mobile metric: the viewport. */
  lemma MobileIs(p: Page)
    ensures AuditOf(p).metrics.mobile == if p.hasViewport then 100 else 58
  {}

  /** The accessibility metric: language, labels at six each and at most 25, and images without alternative text at the
      nearest integer to 10 plus 25 times their share, at most 35. */
  lemma AccessibilityIs(p: Page, share: int)
    requires IsRounding(10 * (if p.images == 0 then 1 else p.images) + 25 * p.imagesWithoutAlt,
                        if p.images == 0 then 1 else p.images, share)
    ensures AuditOf(p).metrics.accessibility == Remains(
      (if p.hasLang then 0 else 12)
      + (if p.imagesWithoutAlt == 0 then 0 else if share > 35 then 35 else share)
      + (if p.unlabelledInputs > 4 then 25 else 6 * p.unlabelledInputs))
  {
    var total := if p.images == 0 then 1 else p.images;
    RoundsToNearest(10 * total + 25 * p.imagesWithoutAlt, total, share);
    RoundingIsMonotone(0, 1, 10 * total + 25 * p.imagesWithoutAlt, total);
    assert total == Max(p.images, 1);
  }

  // ----- findings and score

  function One(defect: bool, key: string): seq<string> {
    if defect then [key] else []
  }

  function Three(a: bool, k: string, b: bool, l: string, c: bool, m: string): seq<string> {
    One(a, k) + One(b, l) + One(c, m)
  }

  lemma ThreeNotes(found: seq<string>, a: bool, k: string, b: bool, l: string, c: bool, m: string)
    ensures Note(Note(Note(found, a, k), b, l), c, m) == found + Three(a, k, b, l, c, m)
  {}

  /** Findings about search, usability and the server: one for each defect, in this order. */
  function SearchFindings(p: Page): seq<string> {
    Three(p.titleLength == 0, "missing_title", 0 < p.titleLength < 20 || p.titleLength > 65, "title_length",
          !p.hasDescription, "missing_description")
    + Three(p.h1Count != 1, "h1_structure", p.jsonLd == 0, "structured_data", !p.hasLang, "missing_lang")
  }

  function UsabilityFindings(p: Page): seq<string> {
    Three(p.imagesWithoutAlt > 0, "image_alt", p.unlabelledInputs > 0, "form_labels",
          !p.hasViewport, "missing_viewport")
    + Three(!p.hasCta, "weak_cta", p.largestForm > 7, "long_form", !p.hasLocalTerms, "local_visibility")
  }

  function ServerFindings(p: Page): seq<string> {
    Three(!p.https, "no_https", p.fetchMs.Some? && p.fetchMs.value > 2500, "slow_server",
          p.fetchMs.Some? && 1200 < p.fetchMs.value <= 2500, "server_latency")
  }

  function Found(p: Page): seq<string> {
    SearchFindings(p) + UsabilityFindings(p) + ServerFindings(p)
  }

  lemma SearchIs(p: Page)
    ensures SeoDefects(p) == SearchFindings(p)
  {
    var first := Three(TitleDefect(p) == 2, "missing_title", TitleDefect(p) == 1, "title_length",
                       !p.hasDescription, "missing_description");
    ThreeNotes([], TitleDefect(p) == 2, "missing_title", TitleDefect(p) == 1, "title_length",
               !p.hasDescription, "missing_description");
    ThreeNotes([] + first, p.h1Count != 1, "h1_structure", p.jsonLd == 0, "structured_data",
               !p.hasLang, "missing_lang");
    assert [] + first == first;
  }

  lemma SixNotes(found: seq<string>, a: bool, k: string, b: bool, l: string, c: bool, m: string,
                 d: bool, n: string, e: bool, o: string, f: bool, q: string)
    ensures Note(Note(Note(Note(Note(Note(found, a, k), b, l), c, m), d, n), e, o), f, q)
      == found + (Three(a, k, b, l, c, m) + Three(d, n, e, o, f, q))
  {
    var first, second := Three(a, k, b, l, c, m), Three(d, n, e, o, f, q);
    ThreeNotes(found, a, k, b, l, c, m);
    ThreeNotes(found + first, d, n, e, o, f, q);
    Reassociate(found, first, second);
  }

  lemma Reassociate(a: seq<string>, b: seq<string>, c: seq<string>)
    ensures a + b + c == a + (b + c)
  {}

  lemma UsabilityIs(found: seq<string>, p: Page)
    ensures UsabilityDefects(found, p) == found + UsabilityFindings(p)
  {
    SixNotes(found, p.imagesWithoutAlt > 0, "image_alt", p.unlabelledInputs > 0, "form_labels",
             !p.hasViewport, "missing_viewport", !p.hasCta, "weak_cta", p.largestForm > 7, "long_form",
             !p.hasLocalTerms, "local_visibility");
  }

  lemma ServerIs(found: seq<string>, p: Page)
    ensures ServerDefects(found, p) == found + ServerFindings(p)
  {
    ThreeNotes(found, !p.https, "no_https", LatencyDefect(p) == 2, "slow_server",
               LatencyDefect(p) == 1, "server_latency");
  }

  lemma DefectsAre(p: Page)
    ensures Defects(p) == Found(p)
  {
    SearchIs(p);
    UsabilityIs(SeoDefects(p), p);
    ServerIs(UsabilityDefects(SeoDefects(p), p), p);
  }

  /** One finding is reported for each defect, and the baseline when there is none. */
  lemma FindingsAre(p: Page)
    ensures AuditOf(p).findings == if Found(p) == [] then ["healthy_baseline"] else Found(p)
  {
    DefectsAre(p);
  }

  /** The score covers what the metrics lack on average, and 45 plus six for each defect up to 95, and is at most 100.
  */
  lemma ScoreIs(p: Page, average: int)
    requires var m := AuditOf(p).metrics;
      IsRounding(400 - m.performance - m.seo - m.accessibility - m.mobile, 4, average)
    ensures var floor := if |Found(p)| > 8 then 95 else 45 + 6 * |Found(p)|;
      AuditOf(p).improvementScore == if average > 100 then 100 else if average > floor then average else floor
  {
    DefectsAre(p);
    ConclusionIs(MetricsOf(p), Defects(p), average);
  }

  lemma ConclusionIs(m: Metrics, found: seq<string>, average: int)
    requires IsRounding(400 - m.performance - m.seo - m.accessibility - m.mobile, 4, average)
    ensures var floor := if |found| > 8 then 95 else 45 + 6 * |found|;
      Concluded(m, found).improvementScore == if average > 100 then 100 else if average > floor then average else floor
  {
    RoundsToNearest(400 - m.performance - m.seo - m.accessibility - m.mobile, 4, average);
  }

  // ----- merging

  /** A metric after a merge: the given score, kept within 0 and 100, or what it was. */
  function Replaced(score: Option<int>, was: int): int {
    match score case None => was case Some(v) => if v < 0 then 0 else if v > 100 then 100 else v
  }

  /** A merge replaces the three scores that were given, puts mobile halfway between speed and accessibility, reports a
      speed below 50 first if it was not reported, and raises the score to what the metrics lack if that is more. */
  lemma MergeIs(a: Audit, s: Scores, middle: int, average: int)
    requires var performance, accessibility := Replaced(s.performance, a.metrics.performance),
                 Replaced(s.accessibility, a.metrics.accessibility);
      && IsRounding(performance + accessibility, 2, middle)
      && IsRounding(400 - performance - Replaced(s.seo, a.metrics.seo) - accessibility - middle, 4, average)
    ensures var m := Merged(a, s).metrics;
      && m.performance == Replaced(s.performance, a.metrics.performance)
      && m.seo == Replaced(s.seo, a.metrics.seo)
      && m.accessibility == Replaced(s.accessibility, a.metrics.accessibility)
      && m.mobile == middle
      && Merged(a, s).findings ==
         (if m.performance < 50 && "pagespeed_performance" !in a.findings then ["pagespeed_performance"] else [])
         + a.findings
      && Merged(a, s).improvementScore == if average > a.improvementScore then average else a.improvementScore
  {
    var performance, accessibility := Replaced(s.performance, a.metrics.performance),
        Replaced(s.accessibility, a.metrics.accessibility);
    RoundsToNearest(performance + accessibility, 2, middle);
    RoundsToNearest(400 - performance - Replaced(s.seo, a.metrics.seo) - accessibility - middle, 4, average);
    assert [] + a.findings == a.findings;
  }
}
