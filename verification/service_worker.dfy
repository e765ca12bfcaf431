/** The site's service worker (public/sw.js): request classification, the
    fetch-handler dispatch, the three caching strategies and the install and
    activate lifecycle steps. The network is an input: each strategy is given
    the outcome the one `fetch` it may issue would have. */
module ServiceWorker {
  import opened Common
  import opened Text
  import opened CacheStore

  const CACHE_NAME: string := "spylt-v1.0.0"
  const STATIC_CACHE: string := "spylt-static-v1.0.0"
  const DYNAMIC_CACHE: string := "spylt-dynamic-v1.0.0"

  /** The app shell cached at install time, as paths relative to the
      worker's origin. */
  const STATIC_ASSETS: seq<Url> := [
    "/",
    "/index.html",
    "/images/nav-logo.svg",
    "/images/hero-img.png",
    "/images/Final.png",
    "/fonts/ProximaNova-Regular.otf",
    "/manifest.json"
  ]

  /** Declared as "cache on first request"; the worker never reads it. */
  const DYNAMIC_ASSETS: seq<string> := ["/images/", "/videos/", "/fonts/"]

  const OFFLINE_BODY: string := "Offline content not available"
  const NO_CACHE_BODY: string := "Network error and no cached version available"

  // ---------------------------------------------------------------------
  // Classification

  predicate IsStaticAsset(url: Url) {
    || Contains(url, "/images/nav-logo.svg")
    || Contains(url, "/images/hero-img.png")
    || Contains(url, "/fonts/")
    || Contains(url, ".css")
    || Contains(url, ".js")
    || EndsWith(url, "/")
  }

  predicate IsApiRequest(url: Url) {
    Contains(url, "/api/") || Contains(url, "analytics") || Contains(url, "tracking")
  }

  predicate IsDynamicAsset(url: Url) {
    Contains(url, "/images/") || Contains(url, "/videos/") || Contains(url, ".webp") || Contains(url, ".mp4")
  }

  datatype RequestKind = StaticAsset | ApiRequest | DynamicAsset | Unclassified

  datatype Strategy = CacheFirst | NetworkFirst | StaleWhileRevalidate

  /** The fetch handler's if-chain: static, then API, then dynamic. */
  function Classify(url: Url): RequestKind {
    if IsStaticAsset(url) then StaticAsset
    else if IsApiRequest(url) then ApiRequest
    else if IsDynamicAsset(url) then DynamicAsset
    else Unclassified
  }

  function StrategyFor(kind: RequestKind): Strategy {
    match kind
    case StaticAsset => CacheFirst
    case ApiRequest => NetworkFirst
    case DynamicAsset => StaleWhileRevalidate
    case Unclassified => CacheFirst
  }

  datatype Request = Request(verb: string, url: Url, origin: string)

  /** `None` means the handler returns without `respondWith`, so the browser
      performs the request itself. */
  function Route(req: Request, selfOrigin: string): (r: Option<Strategy>)
    ensures r.None? <==> req.verb != "GET" || req.origin != selfOrigin
    ensures r.Some? ==> r.value == StrategyFor(Classify(req.url))
  {
    if req.verb != "GET" then None
    else if req.origin != selfOrigin then None
    else Some(StrategyFor(Classify(req.url)))
  }

  /** Each strategy is chosen exactly for the URLs the predicates assign it,
      in the handler's order of precedence. */
  lemma RouteChoice(req: Request, selfOrigin: string)
    requires req.verb == "GET" && req.origin == selfOrigin
    ensures Route(req, selfOrigin) == Some(NetworkFirst) <==>
            !IsStaticAsset(req.url) && IsApiRequest(req.url)
    ensures Route(req, selfOrigin) == Some(StaleWhileRevalidate) <==>
            !IsStaticAsset(req.url) && !IsApiRequest(req.url) && IsDynamicAsset(req.url)
    ensures Route(req, selfOrigin) == Some(CacheFirst) <==>
            IsStaticAsset(req.url) || (!IsApiRequest(req.url) && !IsDynamicAsset(req.url))
  {
  }

  /** A font URL is always static, so although "/fonts/" is listed among the
      dynamic assets it is never served stale-while-revalidate. */
  lemma FontsAreCacheFirst(url: Url)
    requires Contains(url, "/fonts/")
    ensures Classify(url) == StaticAsset
    ensures StrategyFor(Classify(url)) != StaleWhileRevalidate
  {
  }

  /** A script URL that mentions analytics is still static: the static test
      comes first. */
  lemma ScriptBeatsAnalytics(url: Url, i: int, j: int)
    requires OccursAt(url, ".js", i) && OccursAt(url, "analytics", j)
    ensures IsApiRequest(url)
    ensures Classify(url) == StaticAsset
  {
    ContainsAt(url, ".js", i);
    ContainsAt(url, "analytics", j);
  }

  /** Any URL ending in "/" is cache-first, whatever else it contains. */
  lemma DirectoryIsStatic(url: Url)
    requires EndsWith(url, "/")
    ensures Classify(url) == StaticAsset
  {
  }

  /** The substrings each test of the fetch handler looks for. */
  const STATIC_MARKERS: seq<string> := ["/images/nav-logo.svg", "/images/hero-img.png", "/fonts/", ".css", ".js"]
  const API_MARKERS: seq<string> := ["/api/", "analytics", "tracking"]
  const DYNAMIC_MARKERS: seq<string> := ["/images/", "/videos/", ".webp", ".mp4"]

  /** Some marker occurs at some position of the URL. */
  predicate HasMarker(url: Url, markers: seq<string>) {
    exists k, i :: 0 <= k < |markers| && 0 <= i <= |url| && OccursAt(url, markers[k], i)
  }

  lemma MarkersByPosition(url: Url, markers: seq<string>)
    ensures HasMarker(url, markers) <==> exists k :: 0 <= k < |markers| && Contains(url, markers[k])
  {
    forall k | 0 <= k < |markers|
      ensures Contains(url, markers[k]) <==> exists i :: OccursAt(url, markers[k], i)
    {
      ContainsIffOccurs(url, markers[k]);
    }
  }

  /** A URL is a static asset exactly when one of the static markers occurs
      in it somewhere or it ends in "/". */
  lemma StaticAssetByPosition(url: Url)
    ensures IsStaticAsset(url) <==> HasMarker(url, STATIC_MARKERS) || EndsWith(url, "/")
  {
    MarkersByPosition(url, STATIC_MARKERS);
    var ms := STATIC_MARKERS;
    assert IsStaticAsset(url) <==> EndsWith(url, "/") || Contains(url, ms[0]) || Contains(url, ms[1])
                                   || Contains(url, ms[2]) || Contains(url, ms[3]) || Contains(url, ms[4]);
  }

  /** A URL is an API request exactly when "/api/", "analytics" or
      "tracking" occurs in it somewhere. */
  lemma ApiRequestByPosition(url: Url)
    ensures IsApiRequest(url) <==> HasMarker(url, API_MARKERS)
  {
    MarkersByPosition(url, API_MARKERS);
    var ms := API_MARKERS;
    assert IsApiRequest(url) <==> Contains(url, ms[0]) || Contains(url, ms[1]) || Contains(url, ms[2]);
  }

  /** A URL is a dynamic asset exactly when one of the dynamic markers
      occurs in it somewhere. */
  lemma DynamicAssetByPosition(url: Url)
    ensures IsDynamicAsset(url) <==> HasMarker(url, DYNAMIC_MARKERS)
  {
    MarkersByPosition(url, DYNAMIC_MARKERS);
    var ms := DYNAMIC_MARKERS;
    assert IsDynamicAsset(url) <==> Contains(url, ms[0]) || Contains(url, ms[1]) || Contains(url, ms[2]) || Contains(url, ms[3]);
  }

  /** The request kind in terms of where the markers occur: the first test
      that finds one of its markers decides. */
  lemma ClassifyByPosition(url: Url)
    ensures Classify(url) == StaticAsset <==> HasMarker(url, STATIC_MARKERS) || EndsWith(url, "/")
    ensures Classify(url) == ApiRequest <==>
              !(HasMarker(url, STATIC_MARKERS) || EndsWith(url, "/")) && HasMarker(url, API_MARKERS)
    ensures Classify(url) == DynamicAsset <==>
              !(HasMarker(url, STATIC_MARKERS) || EndsWith(url, "/")) && !HasMarker(url, API_MARKERS)
              && HasMarker(url, DYNAMIC_MARKERS)
    ensures Classify(url) == Unclassified <==>
              !(HasMarker(url, STATIC_MARKERS) || EndsWith(url, "/")) && !HasMarker(url, API_MARKERS)
              && !HasMarker(url, DYNAMIC_MARKERS)
  {
    StaticAssetByPosition(url);
    ApiRequestByPosition(url);
    DynamicAssetByPosition(url);
  }

  // ---------------------------------------------------------------------
  // Strategies

  /** What the one `fetch(request)` of a strategy yields: a response (ok or
      not) or a thrown network error. */
  datatype Outcome = Delivered(resp: Response) | NetworkError

  /** What the page receives: a response, or a rejected promise. */
  datatype Reply = Respond(resp: Response) | Reject

  /** The caches after the strategy's awaited steps, the reply, whether the
      network was used, and the background cache write still to happen. */
  datatype Served = Served(store: Store, reply: Reply, fetched: bool, pending: Option<Response>)

  /** The un-awaited write of an ok network response: `caches.open(name)`
      has already run, then `cache.put` stores a storable response and
      rejects, unobserved, on a 206 Partial Content, leaving the opened
      cache as it was. */
  function CacheWrite(st: Store, name: string, url: Url, resp: Response): (r: Store)
    requires resp.Ok()
    ensures resp.Storable() ==> r == Put(st, name, url, resp) && MatchIn(r, name, url) == Some(resp)
    ensures resp.Storable() ==> Lookup(r, name) == Some(Lookup(st, name).GetOr(map[])[url := resp])
    ensures !resp.Storable() ==> r == Open(st, name) && Lookup(r, name) == Some(Lookup(st, name).GetOr(map[]))
    ensures forall n :: n != name ==> Lookup(r, n) == Lookup(st, n)
  {
    if resp.Storable() then
      MatchInPut(st, name, url, resp);
      LookupPut(st, name, url, resp, name);
      assert forall n :: n != name ==> Lookup(Put(st, name, url, resp), n) == Lookup(st, n) by {
        forall n | n != name
          ensures Lookup(Put(st, name, url, resp), n) == Lookup(st, n)
        {
          LookupPut(st, name, url, resp, n);
        }
      }
      Put(st, name, url, resp)
    else
      LookupOpen(st, name, name);
      assert forall n :: n != name ==> Lookup(Open(st, name), n) == Lookup(st, n) by {
        forall n | n != name
          ensures Lookup(Open(st, name), n) == Lookup(st, n)
        {
          LookupOpen(st, name, n);
        }
      }
      Open(st, name)
  }

  /** Cache first (sw.js `cacheFirst`). */
  function CacheFirstServe(st: Store, url: Url, net: Outcome): (r: Served)
    ensures r.reply.Respond? && r.pending.None?
    ensures r.fetched <==> MatchAll(st, url).None?
    ensures !r.fetched ==> r.reply == Respond(MatchAll(st, url).value) && r.store == st
    ensures r.fetched && net.NetworkError? ==>
              r.reply == Respond(Response(503, OFFLINE_BODY)) && r.store == st
    ensures r.fetched && net.Delivered? ==> r.reply == Respond(net.resp)
    ensures r.fetched && net.Delivered? && !net.resp.Ok() ==> r.store == st
    ensures r.fetched && net.Delivered? && net.resp.Storable() ==> MatchIn(r.store, STATIC_CACHE, url) == Some(net.resp)
    ensures r.fetched && net.Delivered? && net.resp.Storable() ==>
              r.store == Put(st, STATIC_CACHE, url, net.resp)
              && Lookup(r.store, STATIC_CACHE) == Some(Lookup(st, STATIC_CACHE).GetOr(map[])[url := net.resp])
    ensures r.fetched && net.Delivered? && net.resp.Ok() && !net.resp.Storable() ==>
              r.store == Open(st, STATIC_CACHE)
              && Lookup(r.store, STATIC_CACHE) == Some(Lookup(st, STATIC_CACHE).GetOr(map[]))
    ensures forall n :: n != STATIC_CACHE ==> Lookup(r.store, n) == Lookup(st, n)
  {
    match MatchAll(st, url)
    case Some(cached) => Served(st, Respond(cached), false, None)
    case None =>
      match net
      case NetworkError => Served(st, Respond(Response(503, OFFLINE_BODY)), true, None)
      case Delivered(resp) =>
        if resp.Ok() then Served(CacheWrite(st, STATIC_CACHE, url, resp), Respond(resp), true, None)
        else Served(st, Respond(resp), true, None)
  }

  /** Network first (sw.js `networkFirst`). */
  function NetworkFirstServe(st: Store, url: Url, net: Outcome): (r: Served)
    ensures r.fetched && r.reply.Respond? && r.pending.None?
    ensures net.Delivered? ==> r.reply == Respond(net.resp)
    ensures net.Delivered? && net.resp.Storable() ==> MatchIn(r.store, DYNAMIC_CACHE, url) == Some(net.resp)
    ensures net.Delivered? && net.resp.Storable() ==>
              r.store == Put(st, DYNAMIC_CACHE, url, net.resp)
              && Lookup(r.store, DYNAMIC_CACHE) == Some(Lookup(st, DYNAMIC_CACHE).GetOr(map[])[url := net.resp])
    ensures net.Delivered? && net.resp.Ok() && !net.resp.Storable() ==>
              r.store == Open(st, DYNAMIC_CACHE)
              && Lookup(r.store, DYNAMIC_CACHE) == Some(Lookup(st, DYNAMIC_CACHE).GetOr(map[]))
    ensures net.Delivered? && !net.resp.Ok() ==> r.store == st
    ensures net.NetworkError? ==> r.store == st
    ensures net.NetworkError? && MatchAll(st, url).Some? ==> r.reply == Respond(MatchAll(st, url).value)
    ensures net.NetworkError? && MatchAll(st, url).None? ==> r.reply == Respond(Response(503, NO_CACHE_BODY))
    ensures forall n :: n != DYNAMIC_CACHE ==> Lookup(r.store, n) == Lookup(st, n)
  {
    match net
    case Delivered(resp) =>
      if resp.Ok() then Served(CacheWrite(st, DYNAMIC_CACHE, url, resp), Respond(resp), true, None)
      else Served(st, Respond(resp), true, None)
    case NetworkError =>
      match MatchAll(st, url)
      case Some(cached) => Served(st, Respond(cached), true, None)
      case None => Served(st, Respond(Response(503, NO_CACHE_BODY)), true, None)
  }

  /** Stale-while-revalidate (sw.js `staleWhileRevalidate`), first step: the
      dynamic cache is opened (created if missing), the reply is decided and
      the cache write of a storable network response is left pending (the
      `cache.put` of a 206 rejects and writes nothing). */
  function StaleWhileRevalidateServe(st: Store, url: Url, net: Outcome): (r: Served)
    ensures r.fetched
    ensures DYNAMIC_CACHE in Names(r.store)
    ensures r.store == Open(st, DYNAMIC_CACHE)
    ensures Lookup(r.store, DYNAMIC_CACHE) == Some(Lookup(st, DYNAMIC_CACHE).GetOr(map[]))
    ensures forall n :: n in Names(st) ==> Lookup(r.store, n) == Lookup(st, n)
    ensures MatchIn(st, DYNAMIC_CACHE, url).Some? ==> r.reply == Respond(MatchIn(st, DYNAMIC_CACHE, url).value)
    ensures MatchIn(st, DYNAMIC_CACHE, url).None? && net.Delivered? ==> r.reply == Respond(net.resp)
    ensures MatchIn(st, DYNAMIC_CACHE, url).None? && net.NetworkError? ==> r.reply == Reject
    ensures r.pending.Some? <==> net.Delivered? && net.resp.Storable()
    ensures r.pending.Some? ==> r.pending.value == net.resp
  {
    var withCache := Open(st, DYNAMIC_CACHE);
    assert && DYNAMIC_CACHE in Names(withCache)
           && Lookup(withCache, DYNAMIC_CACHE) == Some(Lookup(st, DYNAMIC_CACHE).GetOr(map[]))
           && forall n :: n in Names(st) ==> Lookup(withCache, n) == Lookup(st, n) by {
      if DYNAMIC_CACHE !in Names(st) {
        NamesAppend(st, NamedCache(DYNAMIC_CACHE, map[]));
        LookupAppend(st, NamedCache(DYNAMIC_CACHE, map[]), DYNAMIC_CACHE);
        forall n | n in Names(st)
          ensures Lookup(withCache, n) == Lookup(st, n)
        {
          LookupAppend(st, NamedCache(DYNAMIC_CACHE, map[]), n);
        }
      }
    }
    var pending := if net.Delivered? && net.resp.Storable() then Some(net.resp) else None;
    match MatchIn(st, DYNAMIC_CACHE, url)
    case Some(cached) => Served(withCache, Respond(cached), true, pending)
    case None =>
      match net
      case Delivered(resp) => Served(withCache, Respond(resp), true, pending)
      case NetworkError => Served(withCache, Reject, true, pending)
  }

  /** Second step of stale-while-revalidate: the background `cache.put`. */
  function Revalidate(st: Store, url: Url, pending: Option<Response>): (r: Store)
    ensures pending.None? ==> r == st
    ensures pending.Some? ==> MatchIn(r, DYNAMIC_CACHE, url) == Some(pending.value)
    ensures pending.Some? ==>
              r == Put(st, DYNAMIC_CACHE, url, pending.value)
              && Lookup(r, DYNAMIC_CACHE) == Some(Lookup(st, DYNAMIC_CACHE).GetOr(map[])[url := pending.value])
    ensures forall n :: n != DYNAMIC_CACHE ==> Lookup(r, n) == Lookup(st, n)
  {
    match pending
    case None => st
    case Some(resp) =>
      MatchInPut(st, DYNAMIC_CACHE, url, resp);
      LookupPut(st, DYNAMIC_CACHE, url, resp, DYNAMIC_CACHE);
      assert forall n :: n != DYNAMIC_CACHE ==> Lookup(Put(st, DYNAMIC_CACHE, url, resp), n) == Lookup(st, n) by {
        forall n | n != DYNAMIC_CACHE
          ensures Lookup(Put(st, DYNAMIC_CACHE, url, resp), n) == Lookup(st, n)
        {
          LookupPut(st, DYNAMIC_CACHE, url, resp, n);
        }
      }
      Put(st, DYNAMIC_CACHE, url, resp)
  }

  function Serve(strategy: Strategy, st: Store, url: Url, net: Outcome): Served {
    match strategy
    case CacheFirst => CacheFirstServe(st, url, net)
    case NetworkFirst => NetworkFirstServe(st, url, net)
    case StaleWhileRevalidate => StaleWhileRevalidateServe(st, url, net)
  }

  /** The fetch event handler: `None` when the request is not intercepted. */
  function HandleFetch(st: Store, req: Request, selfOrigin: string, net: Outcome): (r: Option<Served>)
    ensures r.None? <==> req.verb != "GET" || req.origin != selfOrigin
    ensures r.Some? ==> r.value == Serve(StrategyFor(Classify(req.url)), st, req.url, net)
  {
    match Route(req, selfOrigin)
    case None => None
    case Some(s) => Some(Serve(s, st, req.url, net))
  }

  /** Only stale-while-revalidate can reject; the other two always answer. */
  lemma OnlyRevalidationRejects(strategy: Strategy, st: Store, url: Url, net: Outcome)
    requires Serve(strategy, st, url, net).reply.Reject?
    ensures strategy == StaleWhileRevalidate
    ensures net.NetworkError? && MatchIn(st, DYNAMIC_CACHE, url).None?
  {
  }

  // ---------------------------------------------------------------------
  // Request sequences

  /** A cache-first miss answered by a storable response makes the next
      cache-first request for the same URL a hit that returns it without
      touching the network. */
  lemma CacheFirstMissThenHit(st: Store, url: Url, resp: Response, net2: Outcome)
    requires MatchAll(st, url).None? && resp.Storable()
    ensures var r1 := CacheFirstServe(st, url, Delivered(resp));
            var r2 := CacheFirstServe(r1.store, url, net2);
            !r2.fetched && r2.reply == Respond(resp) && r2.store == r1.store
  {
    MatchAllPut(st, STATIC_CACHE, url, resp);
  }

  /** A cache-first miss answered by 206 Partial Content (the hero video's
      range request) is passed on but never cached: the next request for the
      URL goes to the network again, and offline it gets the 503. */
  lemma CacheFirstPartialStaysMiss(st: Store, url: Url, resp: Response, net2: Outcome)
    requires MatchAll(st, url).None? && resp.status == 206
    ensures var r1 := CacheFirstServe(st, url, Delivered(resp));
            r1.reply == Respond(resp)
            && CacheFirstServe(r1.store, url, net2).fetched
            && CacheFirstServe(r1.store, url, NetworkError).reply == Respond(Response(503, OFFLINE_BODY))
  {
    MatchAllOpen(st, STATIC_CACHE, url);
  }

  /** Network first stores a storable response, so a later request that
      finds the network down still gets an answer from the caches; when no
      cache held the URL before, that answer is the stored response. */
  lemma NetworkFirstOfflineAfterOnline(st: Store, url: Url, resp: Response)
    requires resp.Storable()
    ensures var r1 := NetworkFirstServe(st, url, Delivered(resp));
            MatchAll(r1.store, url).Some?
            && NetworkFirstServe(r1.store, url, NetworkError).reply == Respond(MatchAll(r1.store, url).value)
    ensures var r1 := NetworkFirstServe(st, url, Delivered(resp));
            MatchAll(st, url).None? ==> NetworkFirstServe(r1.store, url, NetworkError).reply == Respond(resp)
  {
    MatchAllPut(st, DYNAMIC_CACHE, url, resp);
  }

  /** A 206 answer to network first leaves the offline fallback exactly as
      it was before: with no earlier copy, offline gets the 503. */
  lemma NetworkFirstPartialNotKept(st: Store, url: Url, resp: Response)
    requires resp.status == 206
    ensures var r1 := NetworkFirstServe(st, url, Delivered(resp));
            NetworkFirstServe(r1.store, url, NetworkError).reply == NetworkFirstServe(st, url, NetworkError).reply
    ensures var r1 := NetworkFirstServe(st, url, Delivered(resp));
            MatchAll(st, url).None? ==>
              NetworkFirstServe(r1.store, url, NetworkError).reply == Respond(Response(503, NO_CACHE_BODY))
  {
    MatchAllOpen(st, DYNAMIC_CACHE, url);
  }

  /** The offline fallback of network first searches every cache in creation
      order, so an older copy in the static cache shadows whatever network
      first itself wrote to the dynamic cache. */
  lemma NetworkFirstFallbackPrefersOlderCache(stale: Response, newer: Response, url: Url)
    ensures var st := [NamedCache(STATIC_CACHE, map[url := stale])];
            var r1 := NetworkFirstServe(st, url, Delivered(newer));
            NetworkFirstServe(r1.store, url, NetworkError).reply == Respond(stale)
  {
    var st := [NamedCache(STATIC_CACHE, map[url := stale])];
    if newer.Storable() {
      MatchAllPut(st, DYNAMIC_CACHE, url, newer);
      assert DYNAMIC_CACHE !in Names(st);
      MatchAllAppend(st, NamedCache(DYNAMIC_CACHE, map[]), url);
    } else if newer.Ok() {
      MatchAllOpen(st, DYNAMIC_CACHE, url);
    }
  }

  /** Stale-while-revalidate returns the old entry at once; only after the
      background write does a later request see the new response. */
  lemma RevalidationIsDeferred(st: Store, url: Url, stale: Response, newer: Response, net2: Outcome)
    requires MatchIn(st, DYNAMIC_CACHE, url) == Some(stale) && newer.Storable()
    ensures var r1 := StaleWhileRevalidateServe(st, url, Delivered(newer));
            r1.reply == Respond(stale)
            && StaleWhileRevalidateServe(r1.store, url, net2).reply == Respond(stale)
            && StaleWhileRevalidateServe(Revalidate(r1.store, url, r1.pending), url, net2).reply == Respond(newer)
  {
    var r1 := StaleWhileRevalidateServe(st, url, Delivered(newer));
    assert MatchIn(r1.store, DYNAMIC_CACHE, url) == Some(stale) by {
      assert Lookup(r1.store, DYNAMIC_CACHE) == Lookup(st, DYNAMIC_CACHE);
    }
  }

  /** A 206 revalidation writes nothing: the stale entry keeps being served
      after the background step too. */
  lemma PartialRevalidationKeepsStale(st: Store, url: Url, stale: Response, newer: Response, net2: Outcome)
    requires MatchIn(st, DYNAMIC_CACHE, url) == Some(stale) && newer.status == 206
    ensures var r1 := StaleWhileRevalidateServe(st, url, Delivered(newer));
            r1.pending.None?
            && StaleWhileRevalidateServe(Revalidate(r1.store, url, r1.pending), url, net2).reply == Respond(stale)
  {
    var r1 := StaleWhileRevalidateServe(st, url, Delivered(newer));
    assert MatchIn(r1.store, DYNAMIC_CACHE, url) == Some(stale) by {
      assert Lookup(r1.store, DYNAMIC_CACHE) == Lookup(st, DYNAMIC_CACHE);
    }
  }

  /** With a cached entry the reply does not depend on the network at all. */
  lemma StaleReplyIgnoresNetwork(st: Store, url: Url, net1: Outcome, net2: Outcome)
    requires MatchIn(st, DYNAMIC_CACHE, url).Some?
    ensures StaleWhileRevalidateServe(st, url, net1).reply == StaleWhileRevalidateServe(st, url, net2).reply
  {
  }

  // ---------------------------------------------------------------------
  // Lifecycle

  /** What the install handler leaves behind and whether it called
      `skipWaiting`. */
  datatype InstallResult = InstallResult(store: Store, skippedWaiting: bool)

  /** Every URL fetched to a response `cache.addAll` accepts: ok and not
      206 Partial Content. */
  predicate AllStorable(urls: seq<Url>, net: Url -> Outcome) {
    forall i :: 0 <= i < |urls| ==> net(urls[i]).Delivered? && net(urls[i]).resp.Storable()
  }

  function PutAll(st: Store, name: string, urls: seq<Url>, net: Url -> Outcome): (r: Store)
    requires AllStorable(urls, net)
    requires name in Names(st)
    ensures Names(r) == Names(st)
    decreases |urls|
  {
    if |urls| == 0 then st
    else PutAll(PutIn(st, name, urls[0], net(urls[0]).resp), name, urls[1..], net)
  }

  lemma {:induction false} PutAllEffect(st: Store, name: string, urls: seq<Url>, net: Url -> Outcome, other: string)
    requires AllStorable(urls, net)
    requires name in Names(st)
    ensures other != name ==> Lookup(PutAll(st, name, urls, net), other) == Lookup(st, other)
    ensures other == name ==>
              var m := Lookup(PutAll(st, name, urls, net), name).value;
              (forall u :: u in urls ==> u in m && m[u] == net(u).resp)
              && (forall u :: u !in urls && u in Lookup(st, name).value ==> u in m && m[u] == Lookup(st, name).value[u])
              && (forall u :: u in m ==> u in urls || u in Lookup(st, name).value)
    decreases |urls|
  {
    if |urls| > 0 {
      var st' := PutIn(st, name, urls[0], net(urls[0]).resp);
      LookupPutIn(st, name, urls[0], net(urls[0]).resp, other);
      LookupPutIn(st, name, urls[0], net(urls[0]).resp, name);
      PutAllEffect(st', name, urls[1..], net, other);
      if other == name {
        var m := Lookup(PutAll(st, name, urls, net), name).value;
        forall u | u in urls
          ensures u in m && m[u] == net(u).resp
        {
          if u !in urls[1..] {
            assert u == urls[0];
          }
        }
      }
    }
  }

  /** The absolute URLs `cache.addAll` stores the app shell under: each
      path resolved against the worker's origin. */
  function ShellUrls(origin: string): (us: seq<Url>)
    ensures |us| == |STATIC_ASSETS|
    ensures forall i :: 0 <= i < |us| ==> us[i] == origin + STATIC_ASSETS[i]
  {
    seq(|STATIC_ASSETS|, i requires 0 <= i < |STATIC_ASSETS| => origin + STATIC_ASSETS[i])
  }

  /** The install handler: open the static cache, then `cache.addAll`, which
      stores every asset or, if any fetch fails or is not ok or is a 206,
      none. */
  function Install(st: Store, origin: string, net: Url -> Outcome): (r: InstallResult)
    ensures r.skippedWaiting <==> AllStorable(ShellUrls(origin), net)
    ensures STATIC_CACHE in Names(r.store)
  {
    var withCache := Open(st, STATIC_CACHE);
    assert STATIC_CACHE in Names(withCache) by {
      if STATIC_CACHE !in Names(st) {
        NamesAppend(st, NamedCache(STATIC_CACHE, map[]));
      }
    }
    var shell := ShellUrls(origin);
    if AllStorable(shell, net) then InstallResult(PutAll(withCache, STATIC_CACHE, shell, net), true)
    else InstallResult(withCache, false)
  }

  /** A successful install caches every app-shell asset as fetched; a failed
      one adds no entry anywhere. Other caches are untouched either way. */
  lemma InstallEffect(st: Store, origin: string, net: Url -> Outcome)
    ensures var r := Install(st, origin, net);
            r.skippedWaiting ==> forall u :: u in ShellUrls(origin) ==> MatchIn(r.store, STATIC_CACHE, u) == Some(net(u).resp)
    ensures var r := Install(st, origin, net);
            !r.skippedWaiting ==> Lookup(r.store, STATIC_CACHE) == Some(Lookup(st, STATIC_CACHE).GetOr(map[]))
    ensures var r := Install(st, origin, net);
            forall n :: n != STATIC_CACHE ==> Lookup(r.store, n) == Lookup(st, n)
  {
    var withCache := Open(st, STATIC_CACHE);
    var empty := NamedCache(STATIC_CACHE, map[]);
    if STATIC_CACHE !in Names(st) {
      NamesAppend(st, empty);
    }
    forall n
      ensures Lookup(withCache, n) == if n == STATIC_CACHE then Some(Lookup(st, STATIC_CACHE).GetOr(map[])) else Lookup(st, n)
    {
      if STATIC_CACHE !in Names(st) {
        LookupAppend(st, empty, n);
      }
    }
    var shell := ShellUrls(origin);
    if AllStorable(shell, net) {
      PutAllEffect(withCache, STATIC_CACHE, shell, net, STATIC_CACHE);
      forall n | n != STATIC_CACHE
        ensures Lookup(Install(st, origin, net).store, n) == Lookup(st, n)
      {
        PutAllEffect(withCache, STATIC_CACHE, shell, net, n);
      }
    }
  }

  /** After a successful install, cache first answers a request for any
      app-shell path on the worker's own origin from the caches with no
      fetch, even with the network down. (Which strategy the fetch handler
      picks for the path is a separate matter: see
      `ShellImageNotServedOffline`.) */
  lemma InstalledShellServedOffline(st: Store, origin: string, net: Url -> Outcome, i: nat)
    requires i < |STATIC_ASSETS|
    requires Install(st, origin, net).skippedWaiting
    ensures var r := CacheFirstServe(Install(st, origin, net).store, origin + STATIC_ASSETS[i], NetworkError);
            !r.fetched && r.reply.Respond?
  {
    var store := Install(st, origin, net).store;
    var u := origin + STATIC_ASSETS[i];
    assert u == ShellUrls(origin)[i];
    InstallEffect(st, origin, net);
    MatchAllFindsAny(store, STATIC_CACHE, u);
  }

  /** The app-shell image "/images/Final.png" contains "/images/" but none
      of the static markers, so unless the origin itself supplies a static
      or API marker the fetch handler routes it to stale-while-revalidate. */
  lemma ShellImageRoutedStale(origin: string)
    requires !IsStaticAsset(origin + "/images/Final.png") && !IsApiRequest(origin + "/images/Final.png")
    ensures Route(Request("GET", origin + "/images/Final.png", origin), origin) == Some(StaleWhileRevalidate)
  {
    var u := origin + "/images/Final.png";
    assert u[|origin|..] == "/images/Final.png";
    assert u[|origin|..|origin| + 8] == "/images/Final.png"[..8] == "/images/";
    ContainsAt(u, "/images/", |origin|);
  }

  /** A request routed to stale-while-revalidate, on a store with no
      dynamic cache, rejects when the network is down, whatever the static
      cache holds. */
  lemma StaleRouteWithoutDynamicRejects(st: Store, origin: string, u: Url)
    requires DYNAMIC_CACHE !in Names(st)
    requires Route(Request("GET", u, origin), origin) == Some(StaleWhileRevalidate)
    ensures HandleFetch(st, Request("GET", u, origin), origin, NetworkError) == Some(StaleWhileRevalidateServe(st, u, NetworkError))
    ensures StaleWhileRevalidateServe(st, u, NetworkError).reply == Reject
  {
    assert Lookup(st, DYNAMIC_CACHE).None?;
  }

  /** Stale-while-revalidate reads only the dynamic cache, so on a worker
      whose dynamic cache does not exist yet the image the install just
      stored in the static cache is not served offline: the request
      rejects. */
  lemma ShellImageNotServedOffline(st: Store, origin: string, net: Url -> Outcome)
    requires DYNAMIC_CACHE !in Names(st)
    requires Install(st, origin, net).skippedWaiting
    requires !IsStaticAsset(origin + "/images/Final.png") && !IsApiRequest(origin + "/images/Final.png")
    ensures var store := Install(st, origin, net).store;
            var u := origin + "/images/Final.png";
            && MatchIn(store, STATIC_CACHE, u).Some?
            && HandleFetch(store, Request("GET", u, origin), origin, NetworkError).Some?
            && HandleFetch(store, Request("GET", u, origin), origin, NetworkError).value.reply == Reject
  {
    InstalledImageOnlyStatic(st, origin, net);
    ShellImageRoutedStale(origin);
    StaleRouteWithoutDynamicRejects(Install(st, origin, net).store, origin, origin + "/images/Final.png");
  }

  /** A successful install stores the shell image in the static cache and
      creates no dynamic cache. */
  lemma InstalledImageOnlyStatic(st: Store, origin: string, net: Url -> Outcome)
    requires DYNAMIC_CACHE !in Names(st)
    requires Install(st, origin, net).skippedWaiting
    ensures MatchIn(Install(st, origin, net).store, STATIC_CACHE, origin + "/images/Final.png").Some?
    ensures DYNAMIC_CACHE !in Names(Install(st, origin, net).store)
  {
    var store := Install(st, origin, net).store;
    var u := origin + "/images/Final.png";
    InstallEffect(st, origin, net);
    assert u in ShellUrls(origin) by {
      assert u == ShellUrls(origin)[4];
    }
    assert Lookup(store, DYNAMIC_CACHE) == Lookup(st, DYNAMIC_CACHE);
  }

  /** The activate handler: delete every cache that is neither the current
      static nor the current dynamic cache, then claim the clients. */
  function Activate(st: Store): (r: Store)
    ensures forall n :: n in Names(r) ==> n == STATIC_CACHE || n == DYNAMIC_CACHE
  {
    if |st| == 0 then []
    else if st[0].name == STATIC_CACHE || st[0].name == DYNAMIC_CACHE then [st[0]] + Activate(st[1..])
    else Activate(st[1..])
  }

  /** Activation keeps the current caches with all their entries and removes
      everything else, the unversioned "spylt-v1.0.0" included. */
  lemma {:induction false} ActivateKeepsCurrent(st: Store, n: string)
    ensures n == STATIC_CACHE || n == DYNAMIC_CACHE ==> Lookup(Activate(st), n) == Lookup(st, n)
    ensures n != STATIC_CACHE && n != DYNAMIC_CACHE ==> n !in Names(Activate(st))
  {
    if |st| > 0 {
      ActivateKeepsCurrent(st[1..], n);
    }
  }

  lemma ActivateDeletesLegacyCache(st: Store)
    ensures CACHE_NAME !in Names(Activate(st))
  {
    ActivateKeepsCurrent(st, CACHE_NAME);
  }

  /** Activating twice is the same as activating once. */
  lemma {:induction false} ActivateIdempotent(st: Store)
    ensures Activate(Activate(st)) == Activate(st)
  {
    if |st| > 0 {
      ActivateIdempotent(st[1..]);
    }
  }
}
