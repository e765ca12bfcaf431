/** The pure helpers of the performance dashboard
    (src/components/PerformanceDashboard.jsx): Core Web Vitals grading, the
    colour class per grade, millisecond formatting, and the health check it
    runs on a fresh checker. A metric value is `None` when it is `null` or
    `undefined`. */
module Dashboard {
  import opened Common
  import opened Text
  import opened JsObject
  import opened SiteHealth
  import opened HealthProbes

  datatype Thresholds = Thresholds(good: real, poor: real)

  /** The `thresholds` table, in key order. */
  const THRESHOLDS: Object<Thresholds> := [
    ("lcp", Thresholds(2500.0, 4000.0)),
    ("fid", Thresholds(100.0, 300.0)),
    ("cls", Thresholds(0.1, 0.25)),
    ("ttfb", Thresholds(800.0, 1800.0))
  ]

  datatype Grade = Good | NeedsImprovement | Poor | Unknown

  /** The string the component uses for each grade. */
  function GradeText(g: Grade): string {
    match g
    case Good => "good"
    case NeedsImprovement => "needs-improvement"
    case Poor => "poor"
    case Unknown => "unknown"
  }

  /** JavaScript falsiness of a metric value: missing, or zero. */
  predicate Falsy(v: Option<real>) {
    v.None? || v.value == 0.0
  }

  /** `getPerformanceGrade(metric, value)` */
  function PerformanceGrade(metric: string, value: Option<real>): (g: Grade)
    ensures g == Unknown <==> Falsy(value) || metric !in Keys(THRESHOLDS)
    ensures g != Unknown ==> var t := Get(THRESHOLDS, metric).value;
              && (g == Good <==> value.value <= t.good)
              && (g == NeedsImprovement <==> t.good < value.value <= t.poor)
              && (g == Poor <==> t.poor < value.value)
  {
    match Get(THRESHOLDS, metric)
    case None => Unknown
    case Some(t) =>
      if Falsy(value) then Unknown
      else if value.value <= t.good then Good
      else if value.value <= t.poor then NeedsImprovement
      else Poor
  }

  /** How bad a known grade is. */
  function Rank(g: Grade): nat
    requires g != Unknown
  {
    match g
    case Good => 0
    case NeedsImprovement => 1
    case Poor => 2
  }

  /** Every threshold pair is ordered, so the three grades partition the
      non-zero values. */
  lemma ThresholdsOrdered(metric: string)
    requires metric in Keys(THRESHOLDS)
    ensures Get(THRESHOLDS, metric).value.good < Get(THRESHOLDS, metric).value.poor
  {
  }

  /** For a fixed metric a larger value never grades better. */
  lemma GradeMonotone(metric: string, v: real, w: real)
    requires metric in Keys(THRESHOLDS)
    requires v != 0.0 && w != 0.0 && v <= w
    ensures Rank(PerformanceGrade(metric, Some(v))) <= Rank(PerformanceGrade(metric, Some(w)))
  {
    ThresholdsOrdered(metric);
  }

  /** The published thresholds, one metric at a time. */
  lemma LcpGrades(v: real)
    requires v != 0.0
    ensures PerformanceGrade("lcp", Some(v)) == (if v <= 2500.0 then Good else if v <= 4000.0 then NeedsImprovement else Poor)
    ensures PerformanceGrade("fid", Some(v)) == (if v <= 100.0 then Good else if v <= 300.0 then NeedsImprovement else Poor)
    ensures PerformanceGrade("cls", Some(v)) == (if v <= 0.1 then Good else if v <= 0.25 then NeedsImprovement else Poor)
    ensures PerformanceGrade("ttfb", Some(v)) == (if v <= 800.0 then Good else if v <= 1800.0 then NeedsImprovement else Poor)
  {
  }

  /** Zero is falsy, so a metric measured as exactly 0 is ungraded. */
  lemma ZeroIsUnknown(metric: string)
    ensures PerformanceGrade(metric, Some(0.0)) == Unknown
  {
  }

  const GREEN: string := "text-green-600 bg-green-100"
  const YELLOW: string := "text-yellow-600 bg-yellow-100"
  const RED: string := "text-red-600 bg-red-100"
  const GRAY: string := "text-gray-600 bg-gray-100"

  /** `getGradeColor(grade)` */
  function GradeColor(grade: string): (c: string)
    ensures grade == "good" ==> c == GREEN
    ensures grade == "needs-improvement" ==> c == YELLOW
    ensures grade == "poor" ==> c == RED
    ensures grade !in {"good", "needs-improvement", "poor"} ==> c == GRAY
  {
    if grade == "good" then GREEN
    else if grade == "needs-improvement" then YELLOW
    else if grade == "poor" then RED
    else GRAY
  }

  /** Distinct known grades get distinct classes, and none of them is the
      fallback gray. */
  lemma GradeColorsDistinct(g: Grade, h: Grade)
    requires g != Unknown && h != Unknown
    ensures GradeColor(GradeText(g)) != GRAY
    ensures GradeColor(GradeText(g)) == GradeColor(GradeText(h)) <==> g == h
  {
  }

  lemma UnknownIsGray()
    ensures GradeColor(GradeText(Unknown)) == GRAY
  {
  }

  /** `Math.round`: the nearest integer, halves rounded up. */
  function Round(x: real): (n: int)
    ensures n as real - 0.5 <= x < n as real + 0.5
  {
    (x + 0.5).Floor
  }

  /** `formatMs(ms)` */
  function FormatMs(ms: Option<real>): (r: string)
    ensures Falsy(ms) ==> r == "N/A"
    ensures !Falsy(ms) ==> |r| >= 3 && r[|r| - 2..] == "ms" && r[..|r| - 2] == IntToString(Round(ms.value))
  {
    if Falsy(ms) then "N/A" else IntToString(Round(ms.value)) + "ms"
  }

  /** A positive duration's text reads back as its rounded value. */
  lemma FormatMsReadsBack(ms: real)
    requires ms > 0.0
    ensures var r := FormatMs(Some(ms));
            && r != "N/A"
            && (forall i :: 0 <= i < |r| - 2 ==> IsDigit(r[i]))
            && ParseDigits(r[..|r| - 2]) == Round(ms)
  {
    var r := FormatMs(Some(ms));
    assert Round(ms) >= 0;
    ParseNatToString(Round(ms));
    assert r[..|r| - 2] == NatToString(Round(ms));
  }

  /** What one press of "run health check" shows: the results of a run on
      a fresh checker and that checker's summary. */
  datatype HealthView = HealthView(results: Object<CheckResult>, summary: Summary)

  function RunHealthCheck(env: Env, now: int): (v: HealthView)
    ensures v.summary.total == 9
  {
    var out := RunAllChecks(CreateSpyltChecker(), Exec(env), now);
    SpyltCheckerRegistrations();
    HealthView(out.returned, HealthSummary(out.runner))
  }

  /** The shown results are this run's nine records, one per probe in
      registration order; the summary counts exactly them: every probe lands
      in one of the three counts, and the status is critical exactly when
      one of them failed. */
  lemma RunHealthCheckSummary(env: Env, now: int)
    ensures var v := RunHealthCheck(env, now);
            && |v.results| == 9
            && (forall i :: 0 <= i < 9 ==> v.results[i] == (Name(PROBE_ORDER[i]), Record(Evaluate(env, PROBE_ORDER[i]))))
            && v.summary.passed + v.summary.warnings + v.summary.failed == 9
            && (v.summary.status == Critical <==> exists i :: 0 <= i < 9 && v.results[i].1.status == Fail)
            && 0 <= v.summary.score <= 100
  {
    var out := RunAllChecks(CreateSpyltChecker(), Exec(env), now);
    SpyltRunResults(env, now);
    SpyltStatusesRecognised(env, now);
    SummaryOfCompleteRun(out.runner);
    ViewIsRun(env, now);
  }

  lemma ViewIsRun(env: Env, now: int)
    ensures var out := RunAllChecks(CreateSpyltChecker(), Exec(env), now);
            RunHealthCheck(env, now) == HealthView(out.runner.results, HealthSummary(out.runner))
  {
  }

  lemma SpyltStatusesRecognised(env: Env, now: int)
    ensures var out := RunAllChecks(CreateSpyltChecker(), Exec(env), now);
            forall i :: 0 <= i < |out.runner.results| ==> out.runner.results[i].1.status in {Pass, Warn, Fail}
  {
    var out := RunAllChecks(CreateSpyltChecker(), Exec(env), now);
    SpyltRunResults(env, now);
    forall i | 0 <= i < 9
      ensures out.runner.results[i].1.status in {Pass, Warn, Fail}
    {
      ProbeVerdicts(env, PROBE_ORDER[i]);
    }
  }
}
