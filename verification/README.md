# Spylt: a verified model of the site's logic

Spylt is a React marketing site for a protein-and-caffeine drink brand. Most
of it is markup and animation. Under that sits a small amount of logic, and
this project models it in Dafny and proves what the code promises:

- the service worker (`public/sw.js`): how requests are classified and
  dispatched, the cache-first, network-first and stale-while-revalidate
  strategies over the browser's named caches, and the install and activate
  steps;
- the site-health runner (`src/utils/siteHealth.js`): a registry of probes run
  in order behind a re-entrancy flag, thrown errors turned into `fail`
  records, the summary (counts, rounded score, three-way status), and the nine
  built-in probes as decision rules over injected observations;
- the performance dashboard's Core Web Vitals grading, colour classes,
  millisecond formatting and fresh-checker health run;
- the SEO hook: the per-path config lookup with fallback, the `<meta>` upsert,
  the whole batch of upserts, the structured data per path and the sitemap;
- analytics: the `trackEvent` parameter merge, the `trackPageView` guard, the
  flavour-name slug and the scroll-depth milestone tracker;
- the performance helpers: the WebP source of an image, the throttle gate and
  de-duplicated preloading;
- the build's `assetFileNames` rule (`vite.config.js`);
- the blog page's category filter, featured card and grid.

Every browser API, clock and network answer is a parameter:

- the network outcome of a `fetch`;
- the probes' DOM and `performance` observations;
- whether `gtag`/`fbq` exist;
- `window.location.href`;
- the current time;
- the scroll reading.

## Layout

| file | module | models |
|---|---|---|
| common.dfy | `Common` | `Option` |
| text.dfy | `Text` | substring tests, ASCII lower-casing, decimal digits |
| js_object.dfy | `JsObject` | plain objects as insertion-ordered key/value lists: read, write, spread |
| json.dfy | `Json` | JSON values and JavaScript truthiness (`a \|\| b`) |
| cache_store.dfy | `CacheStore` | CacheStorage: named caches in creation order, `open`, `put`, `match`, `delete` |
| service_worker.dfy | `ServiceWorker` | `public/sw.js` |
| site_health.dfy | `SiteHealth` | `SiteHealthChecker` |
| health_probes.dfy | `HealthProbes` | `createSPYLTHealthChecker` and its probes |
| dashboard.dfy | `Dashboard` | `PerformanceDashboard.jsx` helpers |
| seo.dfy | `Seo` | `SEO.jsx` |
| analytics.dfy | `Analytics` | `Analytics.jsx` |
| performance.dfy | `Performance` | `Performance.jsx` |
| asset_names.dfy | `AssetNames` | `vite.config.js` asset naming |
| blog.dfy | `Blog` | `TastyTalkPage.jsx` |

## Behaviour worth knowing

- `addCheck` with a name already registered appends a second check. Both
  probes run, the later record overwrites the earlier one in `results`, and
  `total` counts both (`SiteHealth.DuplicateNameOverwrites`).
- Stale-while-revalidate has no `catch`. With nothing in the dynamic cache
  and a failing network, the page receives a rejected promise, not an error
  response, unlike the other two strategies
  (`ServiceWorker.OnlyRevalidationRejects`).
- The install step's `cache.addAll` is all-or-nothing, as the Cache API
  defines it. A failed install leaves no entries from that install
  (`ServiceWorker.InstallEffect`).
- A probe whose promise resolves to `null` or `undefined` has `lastRun` set
  (siteHealth.js:37), then fails on reading `result.status` and is recorded
  as `fail` (`SiteHealth.RunPrefixChecks`).
- The service-worker probe awaits `getRegistration()` without a `catch`. A
  failing lookup is therefore a thrown error, recorded as `fail`
  ("Check failed: ..."), although the probe itself only returns `pass` or
  `warn` (`HealthProbes.ProbeVerdicts`).
- `updateMetaTag` changes only the first matching tag. When a page already
  had several tags with the same key, they all remain. The count after the
  call is one only when it was at most one before
  (`Seo.UpdateMetaTag`).
- A 206 Partial Content response is `ok`, but `cache.put` and `cache.addAll`
  reject it. In cache-first and network-first the rejected `put` is not
  awaited, so the response is still returned and nothing is stored; the
  cache that `caches.open` created stays. The next request for that URL is
  a miss again (`ServiceWorker.CacheFirstPartialStaysMiss`). One 206 among
  the app-shell assets makes the whole install fail.
- The app-shell image `/images/Final.png` carries none of the static markers
  but does contain `/images/`, so the fetch handler routes it to
  stale-while-revalidate. That strategy reads only the dynamic cache, so the
  copy the install stored in the static cache is never served from there.
  While the dynamic cache does not hold the image, an offline request for it
  rejects (`ServiceWorker.ShellImageNotServedOffline`).
- A probe that rejects with `null` or `undefined` makes the `catch` block
  throw, because it reads `error.message`. The run then rejects at that
  check and never lowers `isRunning`, so every later call returns the
  stale results (`SiteHealth.NullishRejectionJamsRunner`).

## Model

| member | source | states |
|---|---|---|
| `ServiceWorker.Route` | public/sw.js:68-91 | Non-GET and cross-origin requests are not intercepted; every other request gets exactly one strategy |
| `ServiceWorker.RouteChoice` | public/sw.js:83-91 | Network-first exactly for non-static API URLs, stale-while-revalidate exactly for non-static non-API dynamic URLs, cache-first for everything else |
| `ServiceWorker.FontsAreCacheFirst` | public/sw.js:147-154 | A URL containing `/fonts/` is static, so it never reaches stale-while-revalidate although `/fonts/` is listed among the dynamic assets |
| `ServiceWorker.ScriptBeatsAnalytics` | public/sw.js:147-160 | A URL containing both `.js` and `analytics` is an API URL, yet it is classified static because that test comes first |
| `ServiceWorker.DirectoryIsStatic` | public/sw.js:147-154 | Any URL ending in `/` is a static asset |
| `ServiceWorker.MarkersByPosition` | public/sw.js:147-166 | A marker occurs at some position of the URL exactly when the URL contains it |
| `ServiceWorker.StaticAssetByPosition` | public/sw.js:147-154 | A URL is static exactly when one of the five static markers occurs in it or it ends in `/` |
| `ServiceWorker.ApiRequestByPosition` | public/sw.js:156-160 | A URL is an API request exactly when `/api/`, `analytics` or `tracking` occurs in it |
| `ServiceWorker.DynamicAssetByPosition` | public/sw.js:162-167 | A URL is dynamic exactly when `/images/`, `/videos/`, `.webp` or `.mp4` occurs in it |
| `ServiceWorker.ClassifyByPosition` | public/sw.js:147-167 | The classifier's four kinds in terms of marker occurrences: static first, then API, then dynamic, else none |
| `ServiceWorker.CacheFirstServe` | public/sw.js:95-112 | A hit in any cache is returned with no fetch and no write. On a miss, the network response is returned. A storable one (ok and not 206) is also stored in the static cache, which keeps all its other entries. An ok 206 only leaves the static cache opened, so existing or new-and-empty. A non-ok response touches no cache. A network error gives 503 "Offline content not available". Other caches are untouched |
| `ServiceWorker.NetworkFirstServe` | public/sw.js:114-130 | Always fetches and returns what the network delivers. A storable response is stored in the dynamic cache, whose other entries stay. An ok 206 only opens that cache. A non-ok response touches no cache. Only a network error falls back to an any-cache hit, else 503 "Network error and no cached version available" |
| `ServiceWorker.StaleWhileRevalidateServe` | public/sw.js:132-144 | Looks only in the dynamic cache, creating it empty if missing and otherwise leaving it as it was. A cached entry is returned whatever the network does; otherwise the network result is returned, or a rejection on a network error. A write is left pending exactly when the network delivered a storable response |
| `ServiceWorker.Revalidate` | public/sw.js:136-141 | The background write stores the pending response under the URL in the dynamic cache, keeps that cache's other entries, and changes no other cache; with nothing pending the store is unchanged |
| `ServiceWorker.HandleFetch` | public/sw.js:68-92 | The fetch handler answers exactly the same-origin GET requests, with the strategy the classifier picks |
| `ServiceWorker.OnlyRevalidationRejects` | public/sw.js:95-144 | Only stale-while-revalidate can reject, and only on a network error with no dynamic-cache entry |
| `ServiceWorker.CacheFirstMissThenHit` | public/sw.js:95-112 | After a miss answered by a storable response, the next cache-first request for the URL is a hit returning it with no fetch |
| `ServiceWorker.NetworkFirstOfflineAfterOnline` | public/sw.js:114-130 | After a storable network-first response, an offline request for the URL is answered from the caches, with that response when no cache held the URL before |
| `ServiceWorker.NetworkFirstFallbackPrefersOlderCache` | public/sw.js:122-128 | The offline fallback searches caches in creation order, so a stale static-cache copy shadows the dynamic-cache one, whatever response the online request delivered |
| `ServiceWorker.RevalidationIsDeferred` | public/sw.js:132-144 | The stale entry is returned at once and still seen before the background write; after the write of a storable response a later request sees the new response |
| `ServiceWorker.CacheWrite` | public/sw.js:103-106 | The write after an ok response: a storable one is put under the URL and read back from that cache; a 206 leaves only the opened cache, with its entries as they were. No other cache changes |
| `ServiceWorker.CacheFirstPartialStaysMiss` | public/sw.js:102-110 | A 206 answer to a cache-first miss is returned but not kept: the next request fetches again, and offline it gets the 503 reply |
| `ServiceWorker.NetworkFirstPartialNotKept` | public/sw.js:116-128 | A 206 network-first answer does not change what a later offline request gets, which is the 503 reply when no cache held the URL |
| `ServiceWorker.PartialRevalidationKeepsStale` | public/sw.js:136-143 | A 206 revalidation leaves nothing pending, and the stale entry keeps being served |
| `ServiceWorker.StaleReplyIgnoresNetwork` | public/sw.js:132-144 | With a cached entry, the reply does not depend on the network outcome |
| `ServiceWorker.PutAllEffect` | public/sw.js:32 | Storing a batch of storable responses puts every URL with its fetched response into the named cache, keeps its other entries, adds nothing else, and leaves other caches alone |
| `ServiceWorker.PutAll` | public/sw.js:32 | Storing a batch into an existing cache creates no cache and removes none |
| `ServiceWorker.Install` | public/sw.js:25-42 | `skipWaiting` is called exactly when every app-shell asset fetched a storable response (ok and not 206); the static cache exists afterwards |
| `ServiceWorker.InstallEffect` | public/sw.js:28-41 | A successful install caches every app-shell asset, under its path resolved against the worker's origin, as fetched; a failed one adds no entry; other caches are untouched either way |
| `ServiceWorker.InstalledShellServedOffline` | public/sw.js:7-15 | After a successful install, a cache-first request for any app-shell path on the worker's origin is answered from the caches without a fetch |
| `ServiceWorker.InstalledImageOnlyStatic` | public/sw.js:7-33 | A successful install stores `/images/Final.png` in the static cache and creates no dynamic cache |
| `ServiceWorker.ShellImageRoutedStale` | public/sw.js:147-167 | Unless the origin itself holds a static or API marker, `/images/Final.png` is routed to stale-while-revalidate |
| `ServiceWorker.StaleRouteWithoutDynamicRejects` | public/sw.js:132-143 | A request routed to stale-while-revalidate, on a store with no dynamic cache, rejects offline whatever the static cache holds |
| `ServiceWorker.ShellImageNotServedOffline` | public/sw.js:83-143 | Right after a successful install the image is in the static cache, yet an offline request for it rejects |
| `CacheStore.MatchAllFindsAny` | public/sw.js:97 | `caches.match` finds a response whenever some cache holds the key |
| `ServiceWorker.Activate` | public/sw.js:45-65 | After activation only the current static and dynamic caches can exist |
| `ServiceWorker.ActivateKeepsCurrent` | public/sw.js:49-58 | Activation keeps the two current caches with all their entries and removes every other name |
| `ServiceWorker.ActivateDeletesLegacyCache` | public/sw.js:2-4 | The unversioned `spylt-v1.0.0` cache does not survive activation |
| `ServiceWorker.ActivateIdempotent` | public/sw.js:49-58 | Activating twice is the same as activating once |
| `CacheStore.Open` | public/sw.js:133 | `caches.open` returns the store unchanged when the cache exists and otherwise appends an empty cache of that name |
| `CacheStore.LookupOpen` | public/sw.js:133 | After `caches.open` the cache exists, keeping its entries or starting empty, and every other cache is as it was |
| `CacheStore.MatchAllOpen` | public/sw.js:97-104 | Opening a cache never changes what `caches.match` finds |
| `CacheStore.LookupPut` | public/sw.js:104-105 | A put overwrites one key of the named cache (creating the cache if needed) and changes no other cache |
| `CacheStore.MatchAllPut` | public/sw.js:97-105 | After a put, `caches.match` finds a response for the key, the written one when no older cache held it |
| `CacheStore.LookupDelete` | public/sw.js:53-55 | Deleting a cache leaves every other cache's entries as they were |
| `SiteHealth.NewRunner` | src/utils/siteHealth.js:5-9 | A new checker has no checks, no results and is not running |
| `SiteHealth.AddCheck` | src/utils/siteHealth.js:12-20 | Registration always appends a fresh check, leaving the earlier ones, the results and the flag alone |
| `SiteHealth.Record` | src/utils/siteHealth.js:38-58 | A returned probe's status, message and data are stored as they are, with the measured time; a throw, or a probe resolving to null so that reading its status throws, becomes `fail`, "Check failed: " + message, null data, time 0. A rejection with a nullish value has no record |
| `SiteHealth.RunAllChecks` | src/utils/siteHealth.js:23-70 | A call while running returns the current results and leaves the runner as it was. Otherwise the returned map is the stored results, and the call rejects exactly when some probe rejects with a nullish value; the flag ends down exactly when it does not reject |
| `SiteHealth.RunPrefixResults` | src/utils/siteHealth.js:31-63 | After the first k checks ran, each name holds the record of the last of them registered under it, and other names keep their old entries |
| `SiteHealth.RunPrefixChecks` | src/utils/siteHealth.js:37-58 | Each run check stores its record as `lastResult`; `lastRun` moves to the run time exactly when the probe's promise resolved, even to null |
| `SiteHealth.RunPrefixKeepsRegistrations` | src/utils/siteHealth.js:31-63 | Running never changes a check's name, probe or criticality |
| `SiteHealth.RunPrefixInOrder` | src/utils/siteHealth.js:31-45 | On a fresh registry with distinct names, the results gain one entry per check, in registration order (the enumeration order for names that are not array indices) |
| `SiteHealth.RunAllChecksEffect` | src/utils/siteHealth.js:23-70 | Every check before the first nullish rejection stores its record, under its name and as `lastResult`, with `lastRun` set when the probe resolved; later checks are untouched. With no nullish rejection the run completes, so a throwing probe does not stop the later ones, and the flag is lowered |
| `SiteHealth.OverlappingRunIsRefused` | src/utils/siteHealth.js:23-26 | A second call that arrives mid-run returns the results gathered so far, changes nothing and does not reject |
| `SiteHealth.Step` | src/utils/siteHealth.js:32-62 | Running one check keeps the number of checks, every probe and the flag |
| `SiteHealth.Completed` | src/utils/siteHealth.js:31-62 | The loop reaches the first check whose probe rejects with a nullish value, or the end; every earlier probe settles some other way |
| `SiteHealth.RunPrefix` | src/utils/siteHealth.js:26-63 | Running the first k checks keeps the checks' number and probes and leaves the flag raised |
| `SiteHealth.NullishRejectionJamsRunner` | src/utils/siteHealth.js:52-61 | When a probe rejects with a nullish value the run rejects and the flag stays up, so every later call returns the stale results and runs nothing |
| `SiteHealth.NullishRejectionScenario` | src/utils/siteHealth.js:23-62 | As written, a first probe rejecting with `undefined` leaves no results, the second check never runs and the runner stays jammed; with the guarded catch both are recorded and the run completes |
| `SiteHealth.Guarded` | src/utils/siteHealth.js:52-58 | The corrected catch: a nullish rejection reads as a thrown error with message "undefined", and every other outcome is kept |
| `SiteHealth.RunAllChecksGuarded` | src/utils/siteHealth.js:23-70 | With the corrected catch a run never rejects, always lowers the flag and gives every check a record |
| `SiteHealth.GuardedAgreesWithoutNullish` | src/utils/siteHealth.js:52-58 | Where no probe rejects with a nullish value, the corrected run is the run as written |
| `SiteHealth.CountStatusPositive` | src/utils/siteHealth.js:75-77 | A status is counted at all exactly when some result has it |
| `SiteHealth.StatusOf` | src/utils/siteHealth.js:75-77 | A status string denotes `Pass`, `Warn` or `Fail` exactly when it is `pass`, `warn` or `fail`, and reads back as the same string |
| `SiteHealth.StatusTextInjective` | src/utils/siteHealth.js:75-77 | Two statuses are equal exactly when they stand for the same string, so the summary's `===` tests are tests of the status |
| `SiteHealth.Score` | src/utils/siteHealth.js:84 | The score is the integer nearest to 100·passed/total, halves up, 0 when there are no checks, and within 0..100 |
| `SiteHealth.OverallStatus` | src/utils/siteHealth.js:85 | Critical exactly when something failed, warning exactly when nothing failed and something warned, healthy otherwise |
| `SiteHealth.HealthSummary` | src/utils/siteHealth.js:73-87 | `total` counts registered checks while the three counts count stored results by status |
| `SiteHealth.CountsBounded` | src/utils/siteHealth.js:75-77 | The three counts never exceed the stored results, and reach them exactly when every status is pass, warn or fail |
| `SiteHealth.SummaryBeforeAnyRun` | src/utils/siteHealth.js:73-86 | Before any run the summary is score 0, healthy, whatever the number of checks |
| `SiteHealth.SummaryOfCompleteRun` | src/utils/siteHealth.js:74-85 | With one recognised result per check the counts add up to the total, the score is a percentage, and the status is critical exactly when a result failed |
| `SiteHealth.SummarizeByLoop` | src/utils/siteHealth.js:73-87 | A single counting pass over the results yields the same summary |
| `SiteHealth.ThreeProbeScenario` | src/utils/siteHealth.js:23-86 | Probes that pass, warn and throw give one record each and the summary 3 total, 1/1/1, score 33, critical |
| `SiteHealth.DuplicateNameOverwrites` | src/utils/siteHealth.js:12-45 | Two checks under one name both run, each keeping its own record, leave one result entry holding the later record, and both count in `total` |
| `HealthProbes.WebVitalsProbe` | src/utils/siteHealth.js:95-115 | Warns exactly when load time exceeds 3000 or LCP exceeds 2500, a missing entry reading 0; passes otherwise |
| `HealthProbes.FailedAssets` | src/utils/siteHealth.js:124-135 | The failed list holds exactly the assets whose HEAD request rejected or was not ok |
| `HealthProbes.AssetsProbe` | src/utils/siteHealth.js:118-150 | Fails exactly when some critical asset's HEAD request failed; passes otherwise |
| `HealthProbes.ErrorsProbe` | src/utils/siteHealth.js:153-175 | More than 5 errors fail, 1 to 5 warn, 0 passes |
| `HealthProbes.MemoryProbe` | src/utils/siteHealth.js:178-203 | Warns when the memory API is missing or usage exceeds 80%; passes otherwise |
| `HealthProbes.StorageProbe` | src/utils/siteHealth.js:206-224 | Passes exactly when the storage round trip works, warns with the error message when it throws |
| `HealthProbes.ServiceWorkerProbe` | src/utils/siteHealth.js:227-254 | Throws exactly when the registration lookup fails; otherwise passes exactly when a registration exists and warns when unsupported or unregistered |
| `HealthProbes.AnalyticsProbe` | src/utils/siteHealth.js:257-274 | Warns exactly when neither gtag nor fbq exists |
| `HealthProbes.FindAnyMeta` | src/utils/siteHealth.js:288 | The two-namespace selector finds the first tag in document order carrying the key in either namespace |
| `HealthProbes.MissingMeta` | src/utils/siteHealth.js:285-292 | The missing list holds exactly the required keys whose first tag is absent or blank |
| `HealthProbes.SeoProbe` | src/utils/siteHealth.js:277-307 | Warns exactly when one of description, og:title, og:description, twitter:card is missing or blank |
| `HealthProbes.CountMissingAlt` | src/utils/siteHealth.js:314-315 | No image is counted exactly when every image has a non-empty alt |
| `HealthProbes.AccessibilityProbe` | src/utils/siteHealth.js:310-349 | Passes exactly when every image has alt text and there is at least one heading; the focusable count is never judged |
| `HealthProbes.Evaluate` | src/utils/siteHealth.js:95-349 | Only the service-worker probe can throw, and only when its registration lookup fails |
| `HealthProbes.SpyltCheckerRegistrations` | src/utils/siteHealth.js:91-352 | The checker registers the nine probes once each in source order under their names, only the first two critical, idle with no results |
| `HealthProbes.CreateSpyltChecker` | src/utils/siteHealth.js:91-352 | The built-in checker has nine checks, no results, and is not running |
| `HealthProbes.NameInjective` | src/utils/siteHealth.js:95-310 | Distinct probes are registered under distinct names |
| `HealthProbes.SpyltRunResults` | src/utils/siteHealth.js:31-45 | One run of the fresh checker stores nine records, one per probe under its name, in registration order |
| `HealthProbes.SpyltRunReachesEnd` | src/utils/siteHealth.js:95-349 | No built-in probe rejects with a nullish value, so the loop reaches all nine checks |
| `HealthProbes.SpyltRunCompletes` | src/utils/siteHealth.js:23-70 | A run of the built-in checker never rejects, lowers the flag, and equals the run with the corrected catch |
| `HealthProbes.ProbeVerdicts` | src/utils/siteHealth.js:95-349 | The recorded status rules: the vitals, assets and errors thresholds; the service-worker check fails only by throwing; the other five only pass or warn |
| `HealthProbes.SeoProbePassesAfterHook` | src/components/SEO.jsx:204-220 | On a page without blank tags, the tags the SEO hook writes make the SEO probe pass, for every path |
| `HealthProbes.SeoProbePassesWhenPresent` | src/utils/siteHealth.js:278-306 | The probe passes when the four tags are present, each in the namespace the hook writes it to, and none is blank |
| `HealthProbes.PresentIsNotMissing` | src/utils/siteHealth.js:288-291 | A non-blank page tag found in one namespace is never reported missing by the two-namespace selector |
| `HealthProbes.ApplyUpdatesKeepsContent` | src/components/SEO.jsx:187-227 | Upserts with non-empty content never leave a blank tag |
| `Dashboard.PerformanceGrade` | src/components/PerformanceDashboard.jsx:51-65 | Unknown exactly for a falsy value or an unlisted metric; otherwise good up to the good threshold, needs-improvement up to the poor one, poor above |
| `Dashboard.ThresholdsOrdered` | src/components/PerformanceDashboard.jsx:52-57 | Each metric's good threshold lies below its poor threshold |
| `Dashboard.GradeMonotone` | src/components/PerformanceDashboard.jsx:59-64 | For a fixed metric a larger non-zero value never grades better |
| `Dashboard.LcpGrades` | src/components/PerformanceDashboard.jsx:52-64 | The grade bands of lcp, fid, cls and ttfb with their published thresholds |
| `Dashboard.ZeroIsUnknown` | src/components/PerformanceDashboard.jsx:59 | A value of exactly 0 is falsy and grades unknown |
| `Dashboard.GradeColor` | src/components/PerformanceDashboard.jsx:67-74 | The three grades get green, yellow and red classes; every other string gets gray |
| `Dashboard.GradeColorsDistinct` | src/components/PerformanceDashboard.jsx:67-74 | Distinct known grades get distinct classes, none of them gray |
| `Dashboard.UnknownIsGray` | src/components/PerformanceDashboard.jsx:67-74 | The unknown grade is shown gray |
| `Dashboard.Round` | src/components/PerformanceDashboard.jsx:47 | `Math.round` gives the nearest integer, halves up |
| `Dashboard.FormatMs` | src/components/PerformanceDashboard.jsx:46-48 | Falsy input gives `N/A`; otherwise the rounded value followed by `ms` |
| `Dashboard.FormatMsReadsBack` | src/components/PerformanceDashboard.jsx:46-48 | A positive duration's text is digits then `ms`, and the digits parse back to the rounded value |
| `Dashboard.RunHealthCheck` | src/components/PerformanceDashboard.jsx:27-34 | The shown summary counts the nine registered checks |
| `Dashboard.RunHealthCheckSummary` | src/components/PerformanceDashboard.jsx:27-34 | The shown results are exactly this run's nine records in order; the counts add up to 9, the score is a percentage, critical exactly when a record failed |
| `Dashboard.ViewIsRun` | src/components/PerformanceDashboard.jsx:29-32 | The view shows the fresh checker's results and summary after one run |
| `Dashboard.SpyltStatusesRecognised` | src/components/PerformanceDashboard.jsx:29-31 | Every record of a run of the built-in checker is pass, warn or fail |
| `Seo.ConfigFor` | src/components/SEO.jsx:181 | A configured path gets its own entry; any other path gets the `/` entry |
| `Seo.ContactsGetsHomeMetadata` | src/components/SEO.jsx:181 | The routed path `/contacts` has no entry and gets the home page's metadata |
| `Seo.AllConfigsComplete` | src/components/SEO.jsx:5-76 | Every path resolves to a config with non-empty title, description, keywords, type and image |
| `Seo.FindMeta` | src/components/SEO.jsx:189 | The selector finds the first tag in document order with that key in that namespace |
| `Seo.UpdateMetaTag` | src/components/SEO.jsx:187-202 | Afterwards the selector reads back the new content; a missing tag is appended once; otherwise only the first matching tag is replaced and every other tag, same-key duplicates included, stays |
| `Seo.UpdateMetaTagIdempotent` | src/components/SEO.jsx:187-202 | Repeating an upsert changes nothing |
| `Seo.UpdateMetaTagFrame` | src/components/SEO.jsx:187-202 | An upsert is invisible to every selector for another key or the other namespace |
| `Seo.ApplyUpdatesContent` | src/components/SEO.jsx:204-227 | After a batch of upserts every selector reads the content of the last upsert aimed at it, or its old content when none is |
| `Seo.ApplySeo` | src/components/SEO.jsx:179-250 | The effect sets the page title, the JSON-LD block for the path and the canonical URL; every meta selector then reads the content of the last of the 17 upserts aimed at it, or its old content; description, og:title, og:description and twitter:card hold the page's description, title and `summary_large_image` |
| `Seo.HookSetsRequiredTags` | src/components/SEO.jsx:205-219 | Whatever the page held before, the batch leaves description, og:title, og:description and twitter:card reading the page's description, title and `summary_large_image` |
| `Seo.ApplySeoSetsRequiredTags` | src/components/SEO.jsx:205-219 | For every path those four tags are non-empty |
| `Seo.LastUpsertOf` | src/components/SEO.jsx:205-227 | The description, og:title, og:description and twitter:card upserts are the only ones aimed at their tags |
| `Seo.MetaUpdates` | src/components/SEO.jsx:204-227 | The hook makes 17 upserts |
| `Seo.MetaUpdatesShape` | src/components/SEO.jsx:204-227 | An upsert targets the `property` namespace exactly when its key starts with `og:`, and no key is upserted twice |
| `Seo.ApplyUpdates` | src/components/SEO.jsx:187-227 | A batch of upserts only appends tags, at most one per upsert, and never changes an existing tag's namespace or key |
| `Seo.BaseKeys` | src/components/SEO.jsx:80-105 | The base organization's fields, in order |
| `Seo.ExtraKeys` | src/components/SEO.jsx:109-148 | The fields the home and company pages add |
| `Seo.ReplacementKeys` | src/components/SEO.jsx:119-168 | The fields of the flavors and contact objects |
| `Seo.HomeStructuredData` | src/components/SEO.jsx:108-117 | `/` is typed Organization and Brand, gains a brand, and keeps every other base field |
| `Seo.CompanyStructuredData` | src/components/SEO.jsx:138-148 | `/company` keeps every base field and adds employees, industry and awards |
| `Seo.OtherPathsGetBase` | src/components/SEO.jsx:170-171 | Any other path gets the base organization unchanged |
| `Seo.StructuredData` | src/components/SEO.jsx:79-173 | Every path gets a JSON object; its context and type are stated by `Seo.StructuredDataSchema` |
| `Seo.StructuredDataSchema` | src/components/SEO.jsx:79-173 | Every path's structured data is an object with schema.org context, typed Organization and Brand for `/`, ProductCollection for the flavors page, ContactPage for the contact page and Organization otherwise |
| `Seo.FlavorsAndContactDropOrganization` | src/components/SEO.jsx:119-168 | The flavors and contact objects carry none of the organization's identifying fields, which the home object has |
| `Seo.Sitemap` | src/components/SEO.jsx:254-266 | One sitemap entry per configured path |
| `Seo.SitemapEntries` | src/components/SEO.jsx:256-263 | Entries follow key order with url = site URL + path; weekly and 1.0 exactly for `/`, monthly and 0.8 otherwise |
| `Seo.SitemapSingleTopPriority` | src/components/SEO.jsx:261-262 | Exactly the first entry has priority 1.0 |
| `Analytics.TrackEvent` | src/components/Analytics.jsx:59-75 | gtag receives the merged payload only when defined, and fbq the caller's parameters only when defined, independently |
| `Analytics.EventDefaultKeys` | src/components/Analytics.jsx:61-66 | The five default fields, in order |
| `Analytics.CallerParametersWin` | src/components/Analytics.jsx:61-68 | Every key the caller supplies reaches gtag with the caller's value |
| `Analytics.DefaultsWhereAbsent` | src/components/Analytics.jsx:61-68 | A key the caller leaves out reaches gtag with its default |
| `Analytics.DefaultsFillAbsentKeys` | src/components/Analytics.jsx:62-64 | Absent category, label and value default to `SPYLT_Interaction`, the caller's truthy `label` or `''`, and `0` |
| `Analytics.TrackPageView` | src/components/Analytics.jsx:49-56 | A page view makes exactly one call when gtag exists and none otherwise, and that call is a `config` to the site's measurement id whose `page_path` and `page_title` read back as the given path and title |
| `Analytics.CollapseSpaces` | src/components/Analytics.jsx:83 | The output has no whitespace, every character is an input character or `_`, a leading non-space is kept and a leading run outside a run becomes `_` |
| `Analytics.CollapseWord` | src/components/Analytics.jsx:83 | A whitespace-free stretch passes through unchanged |
| `Analytics.CollapseRunAbsorbed` | src/components/Analytics.jsx:83 | Further whitespace inside a run adds nothing |
| `Analytics.CollapseWordRun` | src/components/Analytics.jsx:83 | A word followed by a whitespace run of any length becomes the word and exactly one `_` |
| `Analytics.CollapseMatchesRuns` | src/components/Analytics.jsx:83 | The scan equals the run-by-run reading: each maximal whitespace run becomes one `_`, every other character is kept in order |
| `Analytics.FlavorSlug` | src/components/Analytics.jsx:83 | The flavour preference is the lower-cased name with each maximal whitespace run replaced by one `_`, and contains no whitespace |
| `Analytics.CollapseNoSpaces` | src/components/Analytics.jsx:83 | Text without whitespace passes through unchanged |
| `Analytics.FlavorSlugIdempotent` | src/components/Analytics.jsx:83 | Slugging a slug changes nothing |
| `Analytics.FlavorParamsShape` | src/components/Analytics.jsx:79-84 | The four flavour fields, with product engagement and the slug |
| `Analytics.FlavorInteractionPayload` | src/components/Analytics.jsx:78-85 | gtag sees the slug under both `flavor_preference` and `custom_parameter_2`, and product engagement under `custom_parameter_1` |
| `Analytics.TrackFlavorInteraction` | src/components/Analytics.jsx:78-85 | One call per tracker that exists; both are `flavor_interaction` events carrying the slug as `flavor_preference`, and gtag's gets the default category |
| `Analytics.FlavorDefaults` | src/components/Analytics.jsx:62-66 | The defaults derived from a flavour interaction's parameters |
| `Analytics.OnScroll` | src/components/Analytics.jsx:132-141 | A milestone fires exactly for a finite percent above the maximum that is a multiple of 25, and becomes the new maximum; otherwise nothing changes |
| `Analytics.HandleScroll` | src/components/Analytics.jsx:132-145 | A fired milestone is sent as a `scroll_depth` event with the percent and content engagement; nothing is sent otherwise |
| `Analytics.FiredBounds` | src/components/Analytics.jsx:131-141 | Every fired milestone lies above the starting maximum and is a multiple of 25; the tracker ends at the last one |
| `Analytics.FiredIncreasing` | src/components/Analytics.jsx:131-141 | Within one location the fired milestones strictly increase |
| `Analytics.ZeroNeverFired` | src/components/Analytics.jsx:131-141 | From the tracker of a new location, 0 is never fired |
| `Performance.WebpPath` | src/components/Performance.jsx:96 | A trailing `.jpeg`, or `.jpg`/`.png`, in any case, is replaced by `.webp` |
| `Performance.WebpSource` | src/components/Performance.jsx:96 | A non-empty explicit WebP source wins; otherwise the derived path is used |
| `Performance.WebpPathChanges` | src/components/Performance.jsx:96 | A path changes exactly when it ends in one of the three extensions, and then ends in `.webp` |
| `Performance.JpegExcludesOthers` | src/components/Performance.jsx:96 | A `.jpeg` ending excludes the other two, so one replacement at most applies |
| `Performance.WebpPathIdempotent` | src/components/Performance.jsx:96 | Deriving from a derived path changes nothing |
| `Performance.WebpEndingIsNotRaster` | src/components/Performance.jsx:96 | A `.webp` path matches none of the three endings |
| `Performance.UpperCaseEndingRewritten` | src/components/Performance.jsx:96 | An upper-case `.PNG` ending is rewritten too |
| `Performance.InnerExtensionKept` | src/components/Performance.jsx:96 | `.png` followed by another extension is left alone |
| `Performance.Call` | src/components/Performance.jsx:165-170 | The callback runs exactly when at least `delay` has passed since the last run, which then moves to now; otherwise nothing changes |
| `Performance.RunsSpaced` | src/components/Performance.jsx:162-173 | Runs are calls, spaced at least `delay` apart, the first at least `delay` after the last earlier run |
| `Performance.EarlyCallsDropped` | src/components/Performance.jsx:163-166 | Calls within `delay` of mounting are dropped |
| `Performance.PreloadOne` | src/components/Performance.jsx:45-57 | A resource's link is appended only when no preload link with its href exists |
| `Performance.PreloadAllEffect` | src/components/Performance.jsx:45-58 | Preloading only appends resources, and afterwards every resource has a preload link |
| `Performance.PreloadAllPresent` | src/components/Performance.jsx:45-58 | When every resource is already preloaded nothing is added |
| `Performance.PreloadCriticalIdempotent` | src/components/Performance.jsx:38-59 | A second call adds nothing |
| `Performance.PreloadCritical` | src/components/Performance.jsx:38-59 | Existing head links stay in place, only critical resources are appended, and afterwards both critical hrefs have a preload link |
| `Performance.PreloadSkipsExisting` | src/components/Performance.jsx:38-59 | With the logo already preloaded, only the font link is added |
| `AssetNames.LastSegment` | vite.config.js:53-54 | `ext` is a dot-free suffix of the name, preceded by a dot unless it is the whole name |
| `AssetNames.LastSegmentAt` | vite.config.js:53-54 | `ext` is everything after the last dot |
| `AssetNames.LastSegmentNoDot` | vite.config.js:53-54 | A name without a dot is its own `ext` |
| `AssetNames.EndingIsExtension` | vite.config.js:56-64 | The case-insensitive test for one ending is the comparison of the lowered `ext` of a dotted name |
| `AssetNames.MatchesAny` | vite.config.js:56 | A pattern matches exactly when one of its alternatives ends the name |
| `AssetNames.MatchesAnyIsLookup` | vite.config.js:56-64 | Each regular-expression test is a lookup of the lowered `ext` in its list |
| `AssetNames.AssetFileName` | vite.config.js:52-66 | Every pattern starts with `assets/` and ends with `/[name]-[hash].` + `ext` |
| `AssetNames.AssetFileNameByExtension` | vite.config.js:52-66 | The output path is `assets/`, then the folder of the list holding the lowered extension (`[ext]` for a dot-free name or an unlisted extension), then `/[name]-[hash].` and the extension |
| `AssetNames.ExtensionListsDisjoint` | vite.config.js:56-64 | The image, font and media lists share no extension |
| `AssetNames.FolderByExtension` | vite.config.js:52-66 | Images, fonts and media hold exactly the dotted names whose lowered `ext` is in their list; all else is filed by extension |
| `AssetNames.FolderOf` | vite.config.js:53-65 | A dot-free name is filed by extension; a name filed under images, fonts or media has its lowered `ext` in that folder's list |
| `AssetNames.NoDotIsOwnExtension` | vite.config.js:53-65 | A name without a dot is filed under `[ext]` with the whole name as extension |
| `AssetNames.WebpVariantsNotInImages` | vite.config.js:56-65 | The WebP variants the image component derives are filed by extension, not under images |
| `Blog.IdInjective` | src/pages/TastyTalkPage.jsx:114-125 | Distinct buttons have distinct ids, so the page's string comparison is comparison of filters |
| `Blog.ButtonsCoverFilters` | src/pages/TastyTalkPage.jsx:114-121 | There is a button for every filter |
| `Blog.OfCategoryMembers` | src/pages/TastyTalkPage.jsx:125 | A category filter keeps exactly the posts of that category |
| `Blog.OfCategory` | src/pages/TastyTalkPage.jsx:125 | Filtering never lengthens the list |
| `Blog.OfCategoryAppend` | src/pages/TastyTalkPage.jsx:125 | Filtering keeps order: the filter of a concatenation is the concatenation of the filters |
| `Blog.OfCategoryIdempotent` | src/pages/TastyTalkPage.jsx:125 | Filtering twice by one category is filtering once |
| `Blog.Filtered` | src/pages/TastyTalkPage.jsx:123-124 | Filter `all` yields the posts unchanged and in order |
| `Blog.FilteredMembers` | src/pages/TastyTalkPage.jsx:123-125 | Any other filter yields exactly the posts of its category |
| `Blog.FilteredByCategory` | src/pages/TastyTalkPage.jsx:57-125 | Each category's posts, in page order |
| `Blog.EveryCategoryHasPosts` | src/pages/TastyTalkPage.jsx:57-121 | Every button selects at least one post |
| `Blog.Featured` | src/pages/TastyTalkPage.jsx:200-216 | The featured card shows the first post whatever the filter |
| `Blog.GridAsWritten` | src/pages/TastyTalkPage.jsx:223 | The grid as written shows only filtered posts |
| `Blog.GridAsWrittenHidesPosts` | src/pages/TastyTalkPage.jsx:194-223 | As written, the second post is a fitness post shown nowhere under `fitness`, and `science` has an empty grid |
| `Blog.Grid` | src/pages/TastyTalkPage.jsx:223 | The corrected grid holds exactly the filtered posts other than the featured one |
| `Blog.GridCoversFilter` | src/pages/TastyTalkPage.jsx:194-223 | With the corrected grid, every filtered post is shown in exactly one place |
| `Blog.GridAgreesUnderAll` | src/pages/TastyTalkPage.jsx:223 | Under `all` the corrected grid is the one written |
| `Blog.GridShowsFitnessPosts` | src/pages/TastyTalkPage.jsx:223 | Under `fitness` the corrected grid shows both fitness posts |

## Left out

- Rendering: JSX markup, GSAP timelines, form handlers and the other pages are presentation.
- Timing: `performance.now` execution times, `Date` stamps and the sitemap's `lastmod` are inputs or dropped. A probe's measured time is a parameter; `lastRun` is a supplied timestamp.
- `formatBytes` and the memory-percentage arithmetic involve logarithms and floating point. The probe receives the percentage and its `toFixed(1)` text as inputs.
- The service worker's sync, push and notification handlers are platform glue.
- `console` logging, `clients.claim()`, and `event.waitUntil`/`respondWith` plumbing have no effect on the modelled state.
- A request's URL is its absolute `request.url`, the string the predicates test. `new URL(...).origin` is an input, and the install step resolves the app-shell paths by prefixing the worker's origin; URL normalisation beyond that is not modelled.
- The worker's cache writes are not awaited in cache-first and network-first. They are modelled as completed before the next request; stale-while-revalidate's write is a separate step because the reply does not wait for it.
- Analytics script injection (`initGA`, `initFacebookPixel`) and the other `track...` wrappers (contact, newsletter, video, performance) are glue around `trackEvent`.
- `SiteHealth.RunAllChecks`: a refused overlapping call returns the live `this.results` object, which the run in progress keeps filling; the model returns its value at the time of the call. A rejected run's error value is not modelled, only that it rejects.
- `cache.put` also rejects a response carrying `Vary: *`; response headers are not modelled, so only the 206 rule is.
- `SiteHealth.RunPrefixInOrder`: JavaScript enumerates array-index keys ("1", "42") before other keys; the model keeps every key in insertion order, which matches only for names that are not array indices, as all of the site's check names are.
- `undefined` and `null` are both the JSON null. A property lookup is a read of an insertion-ordered key list, so prototype keys such as `toString` are not modelled.
- `Text.ToLower`: `toLowerCase` is modelled for ASCII letters only; the flavour slug of non-ASCII names is not modelled beyond that.
- `Analytics.CollapseSpaces`: the whitespace class is the ECMAScript `\s` set as listed in the model.
- `SiteHealth.Score`: `Math.round(passed / total * 100)` is computed on exact rationals; floating-point rounding of the quotient is not modelled.
- `Dashboard.PerformanceGrade`: metric values are exact reals, and `NaN` is not modelled.
- `Dashboard.FormatMs`: the value is an exact real, so the exponent notation JavaScript prints for a rounded value of 1e21 or more is not modelled; the digits are always the full decimal expansion.
- `Analytics.OnScroll`: the scroll percentage's division and rounding are an input reading, finite or not.
- `Performance.RunsSpaced`: each call reads the clock once. A re-render between calls is assumed, so the callback sees the latest `lastRun`.
- `HealthProbes.SeoProbePassesAfterHook`: requires that no tag on the page is blank beforehand and that the page URL is non-empty. A blank `<meta name="og:title">` placed before the hook's `property` tag would be found first by the probe's two-namespace selector.
- `AssetNames.AssetFileName`: Rollup later fills in `[name]`, `[hash]` and `[ext]`; that substitution is not modelled.
- The blog posts' titles, excerpts, dates and images are display text; a post is its id and category.

## Findings

| source | as written | input that shows it | evidently intended | confidence | as-written member | corrected member |
|---|---|---|---|---|---|---|
| src/pages/TastyTalkPage.jsx:223 | The grid shows `filteredPosts.slice(1)`, dropping the first post of the filtered list. The featured card always shows `blogPosts[0]` | filter `fitness`: post 2 matches but is neither featured nor in the grid; filter `science`: the grid is empty | Under a category filter, the grid shows the filtered posts other than the featured one, as it does under `all` | not executed | `Blog.GridAsWrittenHidesPosts` | `Blog.GridCoversFilter` |
| src/utils/siteHealth.js:52-61 | The `catch` block reads `error.message`, which throws when the probe rejected with `null` or `undefined`. The run then rejects and `isRunning` is never reset | a probe `() => Promise.reject(undefined)` registered first: the run rejects, later checks never run, and every later call returns `{}` at line 24 | A nullish rejection is recorded as `fail` like any other error, and the run completes | not executed | `SiteHealth.NullishRejectionJamsRunner` | `SiteHealth.RunAllChecksGuarded` |
