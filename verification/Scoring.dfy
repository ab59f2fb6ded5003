/** The scoring part of the page audit, and the PageSpeed merge that follows it. */
module Scoring {
  import opened Text

  // ----- rounding: Python's `round`, on exact rationals

  /** `n / d` to the nearest integer, a tie going to the even neighbour. */
  function RoundHalfEven(n: int, d: int): int
    requires d > 0
  {
    var q, r := n / d, n % d;
    if 2 * r < d || (2 * r == d && q % 2 == 0) then q else q + 1
  }

  ghost predicate IsRounding(n: int, d: int, r: int)
    requires d > 0
  {
    && -d <= 2 * (r * d - n) <= d
    && (2 * (r * d - n) == d || 2 * (r * d - n) == -d ==> r % 2 == 0)
  }

  lemma Scaled(a: int, b: int, d: int)
    requires d > 0 && a <= b
    ensures a * d <= b * d
  {}

  /** Multiples of `d` are at least `d` apart. */
  lemma Spread(r: int, s: int, d: int)
    requires d > 0 && r < s
    ensures s * d >= r * d + d
    ensures s >= r + 2 ==> s * d >= r * d + 2 * d
  {
    Scaled(r + 1, s, d);
    assert (r + 1) * d == r * d + d;
    if s >= r + 2 {
      Scaled(r + 2, s, d);
      assert (r + 2) * d == r * d + 2 * d;
    }
  }

  lemma ComputesARounding(n: int, d: int)
    requires d > 0
    ensures IsRounding(n, d, RoundHalfEven(n, d))
  {}

  lemma OneRounding(n: int, d: int, r: int, c: int)
    requires d > 0 && IsRounding(n, d, r) && IsRounding(n, d, c)
    ensures r == c
  {
    if r < c { Spread(r, c, d); } else if c < r { Spread(c, r, d); }
  }

  /** The nearest integer with ties to even is unique, and it is what the arithmetic computes. */
  lemma RoundsToNearest(n: int, d: int, r: int)
    requires d > 0
    ensures r == RoundHalfEven(n, d) <==> IsRounding(n, d, r)
  {
    ComputesARounding(n, d);
    if IsRounding(n, d, r) { OneRounding(n, d, r, RoundHalfEven(n, d)); }
  }

  /** A rounding of `n / d` on the larger denominator `d * k`. */
  lemma OnMultiple(n: int, d: int, r: int, k: int)
    requires d > 0 && k > 0 && IsRounding(n, d, r)
    ensures -(d * k) <= 2 * (r * (d * k) - n * k) <= d * k
    ensures 2 * (r * (d * k) - n * k) == d * k || 2 * (r * (d * k) - n * k) == -(d * k) ==> r % 2 == 0
  {}

  /** A larger quotient never rounds to a smaller integer. */
  lemma RoundingIsMonotone(n: int, d: int, n': int, d': int)
    requires d > 0 && d' > 0 && n * d' <= n' * d
    ensures RoundHalfEven(n, d) <= RoundHalfEven(n', d')
  {
    ComputesARounding(n, d);
    ComputesARounding(n', d');
    RoundingsAreOrdered(n, d, RoundHalfEven(n, d), n', d', RoundHalfEven(n', d'));
  }

  lemma RoundingsAreOrdered(n: int, d: int, r: int, n': int, d': int, r': int)
    requires d > 0 && d' > 0 && n * d' <= n' * d && IsRounding(n, d, r) && IsRounding(n', d', r')
    ensures r <= r'
  {
    if r' < r {
      var e := d * d';
      Scaled(1, d', d);
      assert e == d' * d > 0;
      OnMultiple(n, d, r, d');
      OnMultiple(n', d', r', d);
      Spread(r', r, e);
    }
  }

  function Min(a: int, b: int): int { if a <= b then a else b }

  function Max(a: int, b: int): int { if a >= b then a else b }

  function Clamp(v: int): int { Max(0, Min(100, v)) }

  // ----- pages and audits

  /** What the parser counted on a page; a length of zero is a missing title. */
  datatype Page = Page(
    titleLength: nat, hasDescription: bool, h1Count: nat, jsonLd: nat, hasLang: bool,
    images: nat, imagesWithoutAlt: nat, unlabelledInputs: nat, hasViewport: bool,
    hasCta: bool, largestForm: nat, hasLocalTerms: bool, https: bool,
    fetchMs: Option<int>, htmlBytes: nat, scripts: nat)

  datatype Metrics = Metrics(performance: int, seo: int, accessibility: int, mobile: int)

  datatype Audit = Audit(metrics: Metrics, findings: seq<string>, improvementScore: int)

  predicate InRange(m: Metrics) {
    0 <= m.performance <= 100 && 0 <= m.seo <= 100 && 0 <= m.accessibility <= 100 && 0 <= m.mobile <= 100
  }

  predicate Sound(a: Audit) {
    InRange(a.metrics) && 45 <= a.improvementScore <= 100
  }

  function Sum(m: Metrics): int { m.performance + m.seo + m.accessibility + m.mobile }

  /** How far the average metric is from 100. */
  function Shortfall(m: Metrics): int { RoundHalfEven(400 - Sum(m), 4) }

  // ----- the rules, metric by metric

  function If(defect: bool, loss: nat): nat { if defect then loss else 0 }

  function TitleDefect(p: Page): nat {
    if p.titleLength == 0 then 2 else if p.titleLength < 20 || p.titleLength > 65 then 1 else 0
  }

  function LatencyDefect(p: Page): nat {
    if p.fetchMs.None? then 0 else if p.fetchMs.value > 2500 then 2 else if p.fetchMs.value > 1200 then 1 else 0
  }

  function Step(defect: nat, first: nat, second: nat): nat {
    if defect == 0 then 0 else if defect == 1 then first else second
  }

  function SizeDefect(n: nat, first: nat, second: nat): nat {
    if n > second then 2 else if n > first then 1 else 0
  }

  /** The alternative-text penalty: 10 to 35 with the share of images lacking it. */
  function ImageLoss(without: nat, images: nat): int {
    if without == 0 then 0
    else Min(35, RoundHalfEven(10 * Max(images, 1) + 25 * without, Max(images, 1)))
  }

  function SeoLoss(p: Page): nat {
    Step(TitleDefect(p), 10, 24) + If(!p.hasDescription, 18) + If(p.h1Count != 1, 14) + If(p.jsonLd == 0, 10)
    + If(!p.hasLang, 4) + If(!p.https, 10)
  }

  function AccessibilityLoss(p: Page): int {
    If(!p.hasLang, 12) + ImageLoss(p.imagesWithoutAlt, p.images) + Min(25, p.unlabelledInputs * 6)
  }

  function MobileLoss(p: Page): nat { If(!p.hasViewport, 42) }

  function PerformanceLoss(p: Page): nat {
    If(!p.https, 8) + Step(LatencyDefect(p), 18, 34) + Step(SizeDefect(p.htmlBytes, 350000, 800000), 8, 18)
    + Step(SizeDefect(p.scripts, 15, 30), 8, 16) + If(p.images > 40, 8)
  }

  /** A list of findings with one more where there is a defect. */
  function Note(findings: seq<string>, defect: bool, key: string): (r: seq<string>)
    ensures |r| == |findings| + If(defect, 1)
  {
    if defect then findings + [key] else findings
  }

  function SeoDefects(p: Page): (r: seq<string>)
    ensures |r| == If(TitleDefect(p) != 0, 1) + If(!p.hasDescription, 1) + If(p.h1Count != 1, 1)
                   + If(p.jsonLd == 0, 1) + If(!p.hasLang, 1)
  {
    Note(Note(Note(Note(Note(Note([],
      TitleDefect(p) == 2, "missing_title"), TitleDefect(p) == 1, "title_length"),
      !p.hasDescription, "missing_description"), p.h1Count != 1, "h1_structure"),
      p.jsonLd == 0, "structured_data"), !p.hasLang, "missing_lang")
  }

  function UsabilityDefects(found: seq<string>, p: Page): (r: seq<string>)
    ensures |r| == |found| + If(p.imagesWithoutAlt > 0, 1) + If(p.unlabelledInputs > 0, 1) + If(!p.hasViewport, 1)
                   + If(!p.hasCta, 1) + If(p.largestForm > 7, 1) + If(!p.hasLocalTerms, 1)
  {
    Note(Note(Note(Note(Note(Note(found,
      p.imagesWithoutAlt > 0, "image_alt"), p.unlabelledInputs > 0, "form_labels"),
      !p.hasViewport, "missing_viewport"), !p.hasCta, "weak_cta"),
      p.largestForm > 7, "long_form"), !p.hasLocalTerms, "local_visibility")
  }

  function ServerDefects(found: seq<string>, p: Page): (r: seq<string>)
    ensures |r| == |found| + If(!p.https, 1) + If(LatencyDefect(p) != 0, 1)
  {
    Note(Note(Note(found,
      !p.https, "no_https"), LatencyDefect(p) == 2, "slow_server"), LatencyDefect(p) == 1, "server_latency")
  }

  /** One finding per defect, in the order they are looked for. */
  function Defects(p: Page): seq<string> {
    ServerDefects(UsabilityDefects(SeoDefects(p), p), p)
  }

  function MetricsFrom(performance: int, seo: int, accessibility: int, mobile: int): (m: Metrics)
    ensures InRange(m)
  {
    Metrics(Clamp(performance), Clamp(seo), Clamp(accessibility), Clamp(mobile))
  }

  function MetricsOf(p: Page): Metrics {
    MetricsFrom(100 - PerformanceLoss(p), 100 - SeoLoss(p), 100 - AccessibilityLoss(p), 100 - MobileLoss(p))
  }

  function ScoreOf(m: Metrics, defects: nat): int {
    Min(100, Max(Shortfall(m), Min(95, 45 + defects * 6)))
  }

  function Concluded(m: Metrics, found: seq<string>): Audit {
    Audit(m, if found == [] then ["healthy_baseline"] else found, ScoreOf(m, |found|))
  }

  function AuditOf(p: Page): Audit {
    Concluded(MetricsOf(p), Defects(p))
  }

  // ----- the audit as the analyser runs it

  method ScorePage(p: Page) returns (a: Audit)
    ensures a == AuditOf(p)
  {
    var seo, langLoss, found := CheckSearch(p);
    var accessibility, mobile, noted := CheckUsability(p, 100 - langLoss, found);
    var performance, secureSeo, findings := CheckServer(p, seo, noted);
    var metrics := Metrics(Clamp(performance), Clamp(secureSeo), Clamp(accessibility), Clamp(mobile));
    a := Conclude(metrics, findings);
  }

  method Conclude(metrics: Metrics, found: seq<string>) returns (a: Audit)
    ensures a == Concluded(metrics, found)
  {
    var score := RoundHalfEven(400 - Sum(metrics), 4);
    score := Min(100, Max(score, Min(95, 45 + |found| * 6)));
    var findings := found;
    if findings == [] { findings := ["healthy_baseline"]; }
    a := Audit(metrics, findings, score);
  }

  method CheckSearch(p: Page) returns (seo: int, langLoss: int, findings: seq<string>)
    ensures seo == 100 - SeoLoss(p) + If(!p.https, 10) && langLoss == If(!p.hasLang, 12) && findings == SeoDefects(p)
  {
    seo, langLoss, findings := 100, 0, [];
    if p.titleLength == 0 {
      seo := seo - 24;
      findings := findings + ["missing_title"];
    } else if p.titleLength < 20 || p.titleLength > 65 {
      seo := seo - 10;
      findings := findings + ["title_length"];
    }
    if !p.hasDescription {
      seo := seo - 18;
      findings := findings + ["missing_description"];
    }
    if p.h1Count != 1 {
      seo := seo - 14;
      findings := findings + ["h1_structure"];
    }
    if p.jsonLd == 0 {
      seo := seo - 10;
      findings := findings + ["structured_data"];
    }
    if !p.hasLang {
      langLoss, seo := 12, seo - 4;
      findings := findings + ["missing_lang"];
    }
  }

  method CheckUsability(p: Page, start: int, found: seq<string>)
    returns (accessibility: int, mobile: int, findings: seq<string>)
    ensures accessibility == start - ImageLoss(p.imagesWithoutAlt, p.images) - Min(25, p.unlabelledInputs * 6)
    ensures mobile == 100 - MobileLoss(p) && findings == UsabilityDefects(found, p)
  {
    accessibility, mobile, findings := start, 100, found;
    if p.imagesWithoutAlt != 0 {
      var total := Max(p.images, 1);
      accessibility := accessibility - Min(35, RoundHalfEven(10 * total + 25 * p.imagesWithoutAlt, total));
      findings := findings + ["image_alt"];
    }
    if p.unlabelledInputs != 0 {
      accessibility := accessibility - Min(25, p.unlabelledInputs * 6);
      findings := findings + ["form_labels"];
    }
    if !p.hasViewport {
      mobile := mobile - 42;
      findings := findings + ["missing_viewport"];
    }
    if !p.hasCta { findings := findings + ["weak_cta"]; }
    if p.largestForm > 7 { findings := findings + ["long_form"]; }
    if !p.hasLocalTerms { findings := findings + ["local_visibility"]; }
  }

  method CheckServer(p: Page, start: int, found: seq<string>)
    returns (performance: int, seo: int, findings: seq<string>)
    ensures performance == 100 - PerformanceLoss(p) && seo == start - If(!p.https, 10)
    ensures findings == ServerDefects(found, p)
  {
    performance, seo, findings := 100, start, found;
    if !p.https {
      performance, seo := performance - 8, seo - 10;
      findings := findings + ["no_https"];
    }
    if p.fetchMs.Some? {
      if p.fetchMs.value > 2500 {
        performance := performance - 34;
        findings := findings + ["slow_server"];
      } else if p.fetchMs.value > 1200 {
        performance := performance - 18;
        findings := findings + ["server_latency"];
      }
    }
    if p.htmlBytes > 800000 {
      performance := performance - 18;
    } else if p.htmlBytes > 350000 {
      performance := performance - 8;
    }
    if p.scripts > 30 {
      performance := performance - 16;
    } else if p.scripts > 15 {
      performance := performance - 8;
    }
    if p.images > 40 { performance := performance - 8; }
  }

  // ----- soundness and monotonicity

  lemma AuditIsSound(p: Page)
    ensures Sound(AuditOf(p))
    ensures AuditOf(p).improvementScore >= Min(95, 45 + 6 * |Defects(p)|)
    ensures AuditOf(p).improvementScore >= Shortfall(AuditOf(p).metrics)
  {
    var m, defects := MetricsOf(p), Defects(p);
    ConclusionIsSound(m, defects);
  }

  lemma ConclusionIsSound(m: Metrics, found: seq<string>)
    requires InRange(m)
    ensures Sound(Concluded(m, found))
    ensures Concluded(m, found).improvementScore >= Min(95, 45 + 6 * |found|)
    ensures Concluded(m, found).improvementScore >= Shortfall(m)
  {}

  /** `b` has every defect of `a`, at least as bad. The share of images lacking alternative text is
      compared as a fraction, so adding an image without it makes a page worse. */
  predicate Worse(a: Page, b: Page) {
    && TitleDefect(a) <= TitleDefect(b)
    && (b.hasDescription ==> a.hasDescription)
    && (b.h1Count == 1 ==> a.h1Count == 1)
    && (a.jsonLd == 0 ==> b.jsonLd == 0)
    && (b.hasLang ==> a.hasLang)
    && (a.imagesWithoutAlt > 0 ==> b.imagesWithoutAlt > 0)
    && a.imagesWithoutAlt * Max(b.images, 1) <= b.imagesWithoutAlt * Max(a.images, 1)
    && a.unlabelledInputs <= b.unlabelledInputs
    && (b.hasViewport ==> a.hasViewport)
    && (b.hasCta ==> a.hasCta)
    && (a.largestForm > 7 ==> b.largestForm > 7)
    && (b.hasLocalTerms ==> a.hasLocalTerms)
    && (b.https ==> a.https)
    && LatencyDefect(a) <= LatencyDefect(b)
    && a.htmlBytes <= b.htmlBytes
    && a.scripts <= b.scripts
    && (a.images > 40 ==> b.images > 40)
  }

  lemma AddingABareImageIsWorse(p: Page)
    requires p.imagesWithoutAlt <= p.images
    ensures Worse(p, p.(images := p.images + 1, imagesWithoutAlt := p.imagesWithoutAlt + 1))
  {}

  lemma ImageLossGrows(m: nat, t: nat, m': nat, t': nat)
    requires m > 0 ==> m' > 0
    requires m * Max(t', 1) <= m' * Max(t, 1)
    ensures 0 <= ImageLoss(m, t) <= ImageLoss(m', t')
  {
    var d, d' := Max(t, 1), Max(t', 1);
    if m > 0 {
      Share(m, d, m', d');
      RoundingIsMonotone(10 * d + 25 * m, d, 10 * d' + 25 * m', d');
      RoundingIsMonotone(0, 1, 10 * d + 25 * m, d);
    } else if m' > 0 {
      RoundingIsMonotone(0, 1, 10 * d' + 25 * m', d');
    }
  }

  lemma Share(m: nat, d: nat, m': nat, d': nat)
    requires m * d' <= m' * d
    ensures (10 * d + 25 * m) * d' <= (10 * d' + 25 * m') * d
  {}

  lemma SeoDefectsGrow(a: Page, b: Page)
    requires Worse(a, b)
    ensures |SeoDefects(a)| <= |SeoDefects(b)|
  {}

  lemma UsabilityDefectsGrow(a: Page, b: Page, found: seq<string>, found': seq<string>)
    requires Worse(a, b) && |found| <= |found'|
    ensures |UsabilityDefects(found, a)| <= |UsabilityDefects(found', b)|
  {}

  lemma ServerDefectsGrow(a: Page, b: Page, found: seq<string>, found': seq<string>)
    requires Worse(a, b) && |found| <= |found'|
    ensures |ServerDefects(found, a)| <= |ServerDefects(found', b)|
  {}

  lemma DefectsGrow(a: Page, b: Page)
    requires Worse(a, b)
    ensures |Defects(a)| <= |Defects(b)|
  {
    SeoDefectsGrow(a, b);
    UsabilityDefectsGrow(a, b, SeoDefects(a), SeoDefects(b));
    ServerDefectsGrow(a, b, UsabilityDefects(SeoDefects(a), a), UsabilityDefects(SeoDefects(b), b));
  }

  lemma ScoreGrows(m: Metrics, defects: nat, m': Metrics, defects': nat)
    requires Sum(m) >= Sum(m') && defects <= defects'
    ensures ScoreOf(m, defects) <= ScoreOf(m', defects')
  {}

  lemma MetricsFall(a: Page, b: Page)
    requires Worse(a, b)
    ensures MetricsOf(a).performance >= MetricsOf(b).performance && MetricsOf(a).seo >= MetricsOf(b).seo
    ensures MetricsOf(a).accessibility >= MetricsOf(b).accessibility && MetricsOf(a).mobile >= MetricsOf(b).mobile
  {
    ImageLossGrows(a.imagesWithoutAlt, a.images, b.imagesWithoutAlt, b.images);
    assert SeoLoss(a) <= SeoLoss(b);
    assert PerformanceLoss(a) <= PerformanceLoss(b);
    assert MobileLoss(a) <= MobileLoss(b);
  }

  /** Worsening any defect never raises a metric and never lowers the improvement score. */
  lemma WorseNeverScoresLower(a: Page, b: Page)
    requires Worse(a, b)
    ensures MetricsOf(a).performance >= MetricsOf(b).performance && MetricsOf(a).seo >= MetricsOf(b).seo
    ensures MetricsOf(a).accessibility >= MetricsOf(b).accessibility && MetricsOf(a).mobile >= MetricsOf(b).mobile
    ensures AuditOf(a).improvementScore <= AuditOf(b).improvementScore
  {
    MetricsFall(a, b);
    DefectsGrow(a, b);
    ScoreGrows(MetricsOf(a), |Defects(a)|, MetricsOf(b), |Defects(b)|);
  }

  // ----- merging a PageSpeed result

  /** The category scores of a PageSpeed result; None where one is absent or not an integer. */
  datatype Scores = Scores(performance: Option<int>, seo: Option<int>, accessibility: Option<int>)

  function Or(score: Option<int>, metric: int): int {
    if score.Some? then Clamp(score.value) else metric
  }

  function Merged(a: Audit, s: Scores): Audit {
    var performance, accessibility := Or(s.performance, a.metrics.performance),
        Or(s.accessibility, a.metrics.accessibility);
    var metrics := Metrics(performance, Or(s.seo, a.metrics.seo), accessibility,
                           RoundHalfEven(performance + accessibility, 2));
    Audit(metrics,
          if performance < 50 && "pagespeed_performance" !in a.findings then ["pagespeed_performance"] + a.findings
              else a.findings,
          Max(a.improvementScore, Shortfall(metrics)))
  }

  /** The analysis result while it is being assembled. */
  class Report {
    var metrics: Metrics
    var findings: seq<string>
    var improvementScore: int

    function Contents(): Audit
      reads this
    {
      Audit(metrics, findings, improvementScore)
    }

    constructor (a: Audit)
      ensures Contents() == a
    {
      metrics, findings, improvementScore := a.metrics, a.findings, a.improvementScore;
    }

    method MergePagespeed(scores: Scores)
      modifies this
      ensures Contents() == Merged(old(Contents()), scores)
    {
      if scores.performance.Some? { metrics := metrics.(performance := Clamp(scores.performance.value)); }
      if scores.seo.Some? { metrics := metrics.(seo := Clamp(scores.seo.value)); }
      if scores.accessibility.Some? { metrics := metrics.(accessibility := Clamp(scores.accessibility.value)); }
      metrics := metrics.(mobile := RoundHalfEven(metrics.performance + metrics.accessibility, 2));
      if metrics.performance < 50 && "pagespeed_performance" !in findings {
        findings := ["pagespeed_performance"] + findings;
      }
      improvementScore := Max(improvementScore, RoundHalfEven(400 - Sum(metrics), 4));
    }
  }

  /** Whatever PageSpeed returned, the bounds are kept and the score is not lowered; the score then
      covers the shortfall of the merged metrics, and a bad lab result is always among the findings. */
  lemma MergeIsSound(a: Audit, s: Scores)
    requires Sound(a)
    ensures Sound(Merged(a, s))
    ensures Merged(a, s).improvementScore >= a.improvementScore
    ensures Merged(a, s).improvementScore >= Shortfall(Merged(a, s).metrics)
    ensures Merged(a, s).metrics.performance < 50 ==> "pagespeed_performance" in Merged(a, s).findings
    ensures forall f :: f in a.findings ==> f in Merged(a, s).findings
  {}

  /** Merging the same result again changes nothing. */
  lemma MergeIsIdempotent(a: Audit, s: Scores)
    ensures Merged(Merged(a, s), s) == Merged(a, s)
  {}

}
