/** The nine probes `createSPYLTHealthChecker` registers
    (src/utils/siteHealth.js). Each probe is a decision rule over what it
    observes in the browser; those observations are the fields of `Env`,
    so a probe here is a pure function of them. */
module HealthProbes {
  import opened Common
  import opened Text
  import opened JsObject
  import opened Json
  import opened SiteHealth
  import opened Seo

  datatype BuiltinProbe =
    | CoreWebVitals | CriticalAssets | JavaScriptErrors | MemoryUsage | LocalStorage
    | ServiceWorkerCheck | AnalyticsCheck | SeoMetaTags | Accessibility

  /** A `HEAD` request either answers (with `response.ok`) or rejects. */
  datatype HeadOutcome = Answered(ok: bool) | Unreachable

  /** `performance.memory`: the usage percentage, the text `toFixed(1)`
      prints for it, and the raw object. */
  datatype MemoryReading = MemoryReading(usagePercent: real, percentText: string, memory: Json)

  datatype StorageOutcome = StorageWorks | StorageThrows(message: string)

  /** What `navigator.serviceWorker.getRegistration()` finds. */
  datatype Registration =
    | Unsupported
    | LookupFails(message: string)
    | Unregistered
    | Registered(state: Option<string>, scope: string)

  /** Everything the probes observe. `loadTime` is `loadEventEnd -
      fetchStart` of the navigation entry and `lcpTime` the start time of
      the largest-contentful-paint entry, each `None` when the entry is
      missing; `imageAlts` are the `alt` properties of the page's images. */
  datatype Env = Env(
    loadTime: Option<real>,
    lcpTime: Option<real>,
    head: string -> HeadOutcome,
    errorCount: nat,
    memory: Option<MemoryReading>,
    storage: StorageOutcome,
    registration: Registration,
    gtag: bool,
    fbq: bool,
    metas: seq<MetaTag>,
    imageAlts: seq<string>,
    headings: nat,
    focusable: nat,
    elapsed: BuiltinProbe -> real)

  function Num(n: nat): Json {
    JNum(n as real)
  }

  function StrArr(ss: seq<string>): (j: Json)
    ensures j.JArr? && |j.items| == |ss|
    ensures forall i :: 0 <= i < |ss| ==> j.items[i] == JStr(ss[i])
  {
    JArr(seq(|ss|, i requires 0 <= i < |ss| => JStr(ss[i])))
  }

  // ---------------------------------------------------------------------
  // Core Web Vitals

  const LOAD_TIME_BUDGET: real := 3000.0
  const LCP_BUDGET: real := 2500.0

  function WebVitalsProbe(loadTime: Option<real>, lcpTime: Option<real>): (pr: ProbeResult)
    ensures pr.status == Warn <==> loadTime.GetOr(0.0) > LOAD_TIME_BUDGET || lcpTime.GetOr(0.0) > LCP_BUDGET
    ensures pr.status == Pass <==> pr.status != Warn
    ensures pr.data == JObj([("loadTime", JNum(loadTime.GetOr(0.0))), ("lcpTime", JNum(lcpTime.GetOr(0.0)))])
  {
    var load := loadTime.GetOr(0.0);
    var lcp := lcpTime.GetOr(0.0);
    var data := JObj([("loadTime", JNum(load)), ("lcpTime", JNum(lcp))]);
    if load > LOAD_TIME_BUDGET || lcp > LCP_BUDGET then ProbeResult(Warn, "Performance could be improved", data)
    else ProbeResult(Pass, "Performance metrics are good", data)
  }

  // ---------------------------------------------------------------------
  // Critical Assets

  const CRITICAL_ASSETS: seq<string> := ["/images/nav-logo.svg", "/fonts/ProximaNova-Regular.otf"]

  predicate Failed(o: HeadOutcome) {
    o.Unreachable? || !o.ok
  }

  /** The assets whose `HEAD` request rejected or was not ok, in order. */
  function FailedAssets(assets: seq<string>, head: string -> HeadOutcome): (r: seq<string>)
    ensures |r| <= |assets|
    ensures forall a :: a in r <==> a in assets && Failed(head(a))
    decreases |assets|
  {
    if |assets| == 0 then []
    else (if Failed(head(assets[0])) then [assets[0]] else []) + FailedAssets(assets[1..], head)
  }

  function AssetsProbe(head: string -> HeadOutcome): (pr: ProbeResult)
    ensures pr.status == Fail <==> exists a :: a in CRITICAL_ASSETS && Failed(head(a))
    ensures pr.status == Pass <==> pr.status != Fail
  {
    var failed := FailedAssets(CRITICAL_ASSETS, head);
    if |failed| > 0 then
      ProbeResult(Fail, "Failed to load " + NatToString(|failed|) + " critical assets",
                  JObj([("failedAssets", StrArr(failed))]))
    else
      ProbeResult(Pass, "All critical assets loaded successfully",
                  JObj([("assetsChecked", Num(|CRITICAL_ASSETS|))]))
  }

  // ---------------------------------------------------------------------
  // JavaScript Errors

  const ERROR_LIMIT: nat := 5

  function ErrorsProbe(errorCount: nat): (pr: ProbeResult)
    ensures pr.status == Fail <==> errorCount > ERROR_LIMIT
    ensures pr.status == Warn <==> 0 < errorCount <= ERROR_LIMIT
    ensures pr.status == Pass <==> errorCount == 0
    ensures pr.data == JObj([("errorCount", Num(errorCount))])
  {
    var data := JObj([("errorCount", Num(errorCount))]);
    if errorCount > ERROR_LIMIT then
      ProbeResult(Fail, "High error count: " + NatToString(errorCount) + " errors detected", data)
    else if errorCount > 0 then
      ProbeResult(Warn, NatToString(errorCount) + " JavaScript errors detected", data)
    else
      ProbeResult(Pass, "No JavaScript errors detected", data)
  }

  // ---------------------------------------------------------------------
  // Memory Usage, Local Storage, Service Worker, Analytics

  const MEMORY_LIMIT_PERCENT: real := 80.0

  function MemoryProbe(m: Option<MemoryReading>): (pr: ProbeResult)
    ensures pr.status == Warn <==> m.None? || m.value.usagePercent > MEMORY_LIMIT_PERCENT
    ensures pr.status == Pass <==> pr.status != Warn
    ensures m.Some? ==> pr.data == JObj([("usagePercent", JNum(m.value.usagePercent)), ("memory", m.value.memory)])
  {
    match m
    case None => ProbeResult(Warn, "Memory API not available", JNull)
    case Some(r) =>
      var data := JObj([("usagePercent", JNum(r.usagePercent)), ("memory", r.memory)]);
      if r.usagePercent > MEMORY_LIMIT_PERCENT then
        ProbeResult(Warn, "High memory usage: " + r.percentText + "%", data)
      else
        ProbeResult(Pass, "Memory usage normal: " + r.percentText + "%", data)
  }

  function StorageProbe(s: StorageOutcome): (pr: ProbeResult)
    ensures pr.status == Pass <==> s.StorageWorks?
    ensures pr.status == Warn <==> s.StorageThrows?
    ensures s.StorageThrows? ==> pr.data == JObj([("error", JStr(s.message))])
  {
    match s
    case StorageWorks => ProbeResult(Pass, "Local storage is working", JNull)
    case StorageThrows(e) => ProbeResult(Warn, "Local storage not available", JObj([("error", JStr(e))]))
  }

  /** The service-worker probe awaits the registration lookup without a
      `catch`, so a failing lookup is a thrown error, not a result. */
  function ServiceWorkerProbe(reg: Registration): (r: Option<ProbeResult>)
    ensures r.None? <==> reg.LookupFails?
    ensures r.Some? ==> (r.value.status == Pass <==> reg.Registered?)
    ensures r.Some? ==> (r.value.status == Warn <==> !reg.Registered?)
  {
    match reg
    case Unsupported => Some(ProbeResult(Warn, "Service Worker not supported", JNull))
    case LookupFails(_) => None
    case Unregistered => Some(ProbeResult(Warn, "Service Worker not registered", JNull))
    case Registered(state, scope) =>
      var st := match state case Some(s) => JStr(s) case None => JNull;
      Some(ProbeResult(Pass, "Service Worker is active", JObj([("state", st), ("scope", JStr(scope))])))
  }

  function AnalyticsProbe(gtag: bool, fbq: bool): (pr: ProbeResult)
    ensures pr.status == Warn <==> !gtag && !fbq
    ensures pr.status == Pass <==> gtag || fbq
    ensures pr.data == JObj([("hasGoogleAnalytics", JBool(gtag)), ("hasFacebookPixel", JBool(fbq))])
  {
    var data := JObj([("hasGoogleAnalytics", JBool(gtag)), ("hasFacebookPixel", JBool(fbq))]);
    if !gtag && !fbq then ProbeResult(Warn, "No analytics tracking detected", data)
    else ProbeResult(Pass, "Analytics tracking is active", data)
  }

  // ---------------------------------------------------------------------
  // SEO Meta Tags

  const REQUIRED_META: seq<string> := ["description", "og:title", "og:description", "twitter:card"]

  /** `meta[name="k"], meta[property="k"]`: the first tag in document
      order carrying the key in either namespace. */
  function FindAnyMeta(metas: seq<MetaTag>, key: string): (r: Option<nat>)
    ensures r.Some? ==> r.value < |metas| && metas[r.value].key == key
                        && forall j :: 0 <= j < r.value ==> metas[j].key != key
    ensures r.None? ==> forall j :: 0 <= j < |metas| ==> metas[j].key != key
    decreases |metas|
  {
    if |metas| == 0 then None
    else if metas[0].key == key then Some(0)
    else match FindAnyMeta(metas[1..], key)
      case None => None
      case Some(i) => Some(i + 1)
  }

  /** `!meta || !meta.content` */
  predicate MetaMissing(metas: seq<MetaTag>, key: string) {
    match FindAnyMeta(metas, key)
    case None => true
    case Some(i) => metas[i].content == ""
  }

  function MissingMeta(metas: seq<MetaTag>, keys: seq<string>): (r: seq<string>)
    ensures |r| <= |keys|
    ensures forall k :: k in r <==> k in keys && MetaMissing(metas, k)
    decreases |keys|
  {
    if |keys| == 0 then []
    else (if MetaMissing(metas, keys[0]) then [keys[0]] else []) + MissingMeta(metas, keys[1..])
  }

  function SeoProbe(metas: seq<MetaTag>): (pr: ProbeResult)
    ensures pr.status == Warn <==> exists k :: k in REQUIRED_META && MetaMissing(metas, k)
    ensures pr.status == Pass <==> pr.status != Warn
  {
    var missing := MissingMeta(metas, REQUIRED_META);
    if |missing| > 0 then
      ProbeResult(Warn, "Missing " + NatToString(|missing|) + " SEO meta tags", JObj([("missingMeta", StrArr(missing))]))
    else
      ProbeResult(Pass, "All required SEO meta tags present", JObj([("checkedTags", Num(|REQUIRED_META|))]))
  }

  // ---------------------------------------------------------------------
  // Accessibility

  /** Images whose `alt` is empty or absent. */
  function CountMissingAlt(alts: seq<string>): (n: nat)
    ensures n <= |alts|
    ensures n == 0 <==> forall i :: 0 <= i < |alts| ==> alts[i] != ""
    decreases |alts|
  {
    if |alts| == 0 then 0
    else (if alts[0] == "" then 1 else 0) + CountMissingAlt(alts[1..])
  }

  function AccessibilityIssues(alts: seq<string>, headings: nat): seq<string> {
    var missing := CountMissingAlt(alts);
    (if missing > 0 then [NatToString(missing) + " images missing alt text"] else [])
    + (if headings == 0 then ["No heading elements found"] else [])
  }

  /** The focusable-element count is reported but never judged. */
  function AccessibilityProbe(alts: seq<string>, headings: nat, focusable: nat): (pr: ProbeResult)
    ensures pr.status == Pass <==> headings > 0 && forall i :: 0 <= i < |alts| ==> alts[i] != ""
    ensures pr.status == Warn <==> pr.status != Pass
  {
    var issues := AccessibilityIssues(alts, headings);
    if |issues| > 0 then
      ProbeResult(Warn, NatToString(|issues|) + " accessibility issues found", JObj([("issues", StrArr(issues))]))
    else
      ProbeResult(Pass, "Basic accessibility checks passed",
                  JObj([("imagesChecked", Num(|alts|)), ("headingsFound", Num(headings)), ("focusableElements", Num(focusable))]))
  }

  // ---------------------------------------------------------------------
  // The checker

  /** Running one probe against the environment. */
  function Evaluate(env: Env, p: BuiltinProbe): (o: ProbeOutcome)
    ensures o.Threw? <==> p == ServiceWorkerCheck && env.registration.LookupFails?
    ensures !o.ThrewNullish?
  {
    var t := env.elapsed(p);
    match p
    case CoreWebVitals => Returned(WebVitalsProbe(env.loadTime, env.lcpTime), t)
    case CriticalAssets => Returned(AssetsProbe(env.head), t)
    case JavaScriptErrors => Returned(ErrorsProbe(env.errorCount), t)
    case MemoryUsage => Returned(MemoryProbe(env.memory), t)
    case LocalStorage => Returned(StorageProbe(env.storage), t)
    case ServiceWorkerCheck =>
      (match ServiceWorkerProbe(env.registration)
       case Some(pr) => Returned(pr, t)
       case None => Threw(env.registration.message))
    case AnalyticsCheck => Returned(AnalyticsProbe(env.gtag, env.fbq), t)
    case SeoMetaTags => Returned(SeoProbe(env.metas), t)
    case Accessibility => Returned(AccessibilityProbe(env.imageAlts, env.headings, env.focusable), t)
  }

  function Name(p: BuiltinProbe): string {
    match p
    case CoreWebVitals => "Core Web Vitals"
    case CriticalAssets => "Critical Assets"
    case JavaScriptErrors => "JavaScript Errors"
    case MemoryUsage => "Memory Usage"
    case LocalStorage => "Local Storage"
    case ServiceWorkerCheck => "Service Worker"
    case AnalyticsCheck => "Analytics"
    case SeoMetaTags => "SEO Meta Tags"
    case Accessibility => "Accessibility"
  }

  /** `createSPYLTHealthChecker()` */
  function CreateSpyltChecker(): (r: Runner<BuiltinProbe>)
    ensures |r.checks| == 9 && r.results == [] && !r.isRunning
  {
    var r := NewRunner();
    var r := AddCheck(r, "Core Web Vitals", CoreWebVitals, true);
    var r := AddCheck(r, "Critical Assets", CriticalAssets, true);
    var r := AddCheck(r, "JavaScript Errors", JavaScriptErrors, false);
    var r := AddCheck(r, "Memory Usage", MemoryUsage, false);
    var r := AddCheck(r, "Local Storage", LocalStorage, false);
    var r := AddCheck(r, "Service Worker", ServiceWorkerCheck, false);
    var r := AddCheck(r, "Analytics", AnalyticsCheck, false);
    var r := AddCheck(r, "SEO Meta Tags", SeoMetaTags, false);
    AddCheck(r, "Accessibility", Accessibility, false)
  }

  const PROBE_ORDER: seq<BuiltinProbe> := [
    CoreWebVitals, CriticalAssets, JavaScriptErrors, MemoryUsage, LocalStorage,
    ServiceWorkerCheck, AnalyticsCheck, SeoMetaTags, Accessibility]

  /** The checker registers the nine probes once each, in a fixed order,
      each under its own name; only the first two are critical. It starts
      idle with no results. */
  lemma SpyltCheckerRegistrations()
    ensures var r := CreateSpyltChecker();
            && |r.checks| == 9 && r.results == [] && !r.isRunning
            && (forall i :: 0 <= i < 9 ==> r.checks[i] == Check(Name(PROBE_ORDER[i]), PROBE_ORDER[i], i < 2, None, None))
  {
  }

  lemma NameInjective(p: BuiltinProbe, q: BuiltinProbe)
    ensures Name(p) == Name(q) <==> p == q
  {
  }

  lemma SpyltNamesDistinct()
    ensures DistinctNames(CreateSpyltChecker().checks)
  {
    SpyltCheckerRegistrations();
    var cs := CreateSpyltChecker().checks;
    forall i, j | 0 <= i < j < |cs| ensures cs[i].name != cs[j].name {
      NameInjective(PROBE_ORDER[i], PROBE_ORDER[j]);
    }
  }

  function Exec(env: Env): BuiltinProbe -> ProbeOutcome {
    p => Evaluate(env, p)
  }

  /** One run of a fresh checker: its results hold one record per probe,
      under the probe's name, in registration order. */
  lemma SpyltRunResults(env: Env, now: int)
    ensures var out := RunAllChecks(CreateSpyltChecker(), Exec(env), now);
            && |out.returned| == 9 && |out.runner.checks| == 9
            && forall i :: 0 <= i < 9 ==>
                 out.returned[i] == (Name(PROBE_ORDER[i]), Record(Evaluate(env, PROBE_ORDER[i])))
  {
    var r := CreateSpyltChecker();
    SpyltCheckerRegistrations();
    SpyltNamesDistinct();
    SpyltRunReachesEnd(env);
    RunPrefixInOrder(r, 9, Exec(env), now);
    var out := RunAllChecks(r, Exec(env), now);
    var inOrder := InOrder(r.checks, Exec(env), 9);
    assert out.returned == inOrder;
    forall i | 0 <= i < 9
      ensures out.returned[i] == (Name(PROBE_ORDER[i]), Record(Evaluate(env, PROBE_ORDER[i])))
    {
      assert inOrder[i] == (r.checks[i].name, Record(Exec(env)(r.checks[i].probe)));
    }
  }

  /** No built-in probe rejects with a nullish value, so a run gets through
      all nine checks. */
  lemma SpyltRunReachesEnd(env: Env)
    ensures Completed(CreateSpyltChecker().checks, Exec(env)) == 9
  {
    var r := CreateSpyltChecker();
    SpyltCheckerRegistrations();
  }

  /** No built-in probe rejects with `null` or `undefined`, so the run as
      written completes and is the run the guarded catch block would give. */
  lemma SpyltRunCompletes(env: Env, now: int)
    ensures var out := RunAllChecks(CreateSpyltChecker(), Exec(env), now);
            !out.rejected && !out.runner.isRunning
            && out == RunAllChecksGuarded(CreateSpyltChecker(), Exec(env), now)
  {
    var r := CreateSpyltChecker();
    SpyltCheckerRegistrations();
    SpyltRunReachesEnd(env);
    GuardedAgreesWithoutNullish(r, Exec(env), now);
  }

  /** The rules the recorded statuses follow: only Critical Assets and
      JavaScript Errors can fail by verdict; the Service Worker check can
      fail only by throwing; every other check passes or warns. */
  lemma ProbeVerdicts(env: Env, p: BuiltinProbe)
    ensures var st := Record(Evaluate(env, p)).status;
            && (p == CoreWebVitals ==> (st == Warn <==> env.loadTime.GetOr(0.0) > 3000.0 || env.lcpTime.GetOr(0.0) > 2500.0))
            && (p == CriticalAssets ==> (st == Fail <==> exists a :: a in CRITICAL_ASSETS && Failed(env.head(a))))
            && (p == JavaScriptErrors ==> (st == Fail <==> env.errorCount > 5) && (st == Warn <==> 1 <= env.errorCount <= 5))
            && (p == ServiceWorkerCheck ==> (st == Fail <==> env.registration.LookupFails?))
            && (p !in {CriticalAssets, JavaScriptErrors, ServiceWorkerCheck} ==> st in {Pass, Warn})
            && st in {Pass, Warn, Fail}
  {
  }

  /** What the SEO probe sees on the document `useSEO` leaves behind:
      when no tag on the page is blank to begin with and the page URL is
      not empty, all four required tags are present and the probe passes. */
  lemma SeoProbePassesAfterHook(doc: Document, pathname: string, href: string)
    requires NoBlank(doc.metas)
    requires href != ""
    ensures SeoProbe(ApplySeo(doc, pathname, href).metas).status == Pass
  {
    var c := ConfigFor(pathname);
    AllConfigsComplete(pathname);
    ApplyUpdatesKeepsContent(doc.metas, MetaUpdates(c, href));
    ApplySeoSetsRequiredTags(doc, pathname, href);
    SeoProbePassesWhenPresent(ApplySeo(doc, pathname, href).metas);
  }

  /** The probe passes on a page without blank tags that has the four
      required tags, each in the namespace the hook writes it to. */
  lemma SeoProbePassesWhenPresent(metas: seq<MetaTag>)
    requires NoBlank(metas)
    requires FindMeta(metas, NameAttr, "description").Some?
    requires FindMeta(metas, PropertyAttr, "og:title").Some?
    requires FindMeta(metas, PropertyAttr, "og:description").Some?
    requires FindMeta(metas, NameAttr, "twitter:card").Some?
    ensures SeoProbe(metas).status == Pass
  {
    PresentIsNotMissing(metas, NameAttr, "description");
    PresentIsNotMissing(metas, PropertyAttr, "og:title");
    PresentIsNotMissing(metas, PropertyAttr, "og:description");
    PresentIsNotMissing(metas, NameAttr, "twitter:card");
  }

  /** On a page without blank tags, a tag found in one namespace means the
      probe's two-namespace selector finds a non-blank one. */
  lemma PresentIsNotMissing(metas: seq<MetaTag>, attr: Attr, key: string)
    requires NoBlank(metas)
    requires FindMeta(metas, attr, key).Some?
    ensures !MetaMissing(metas, key)
  {
    assert metas[FindMeta(metas, attr, key).value].key == key;
  }

  /** No tag on the page has empty content. */
  predicate NoBlank(metas: seq<MetaTag>) {
    forall j :: 0 <= j < |metas| ==> metas[j].content != ""
  }

  /** Upserts with non-empty content never leave a blank tag behind. */
  lemma {:induction false} ApplyUpdatesKeepsContent(metas: seq<MetaTag>, us: seq<MetaUpdate>)
    requires NoBlank(metas)
    requires forall i :: 0 <= i < |us| ==> us[i].content != ""
    ensures NoBlank(ApplyUpdates(metas, us))
    decreases |us|
  {
    if |us| > 0 {
      var m' := UpdateMetaTag(metas, us[0].key, us[0].content, us[0].property);
      assert NoBlank(m');
      ApplyUpdatesKeepsContent(m', us[1..]);
    }
  }
}
