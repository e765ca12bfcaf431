/** Client-side performance helpers (src/components/Performance.jsx): the
    WebP source an `OptimizedImage` offers, the `useThrottle` gate and the
    de-duplicating `preloadCriticalResources`. The clock is an input; the
    document head is a sequence of `<link>` elements. */
module Performance {
  import opened Common
  import opened Text

  // ---------------------------------------------------------------------
  // WebP source

  /** `src.replace(/\.(jpg|jpeg|png)$/i, '.webp')`. At most one of the
      three endings can match, since `.jpeg` ends in `peg`. */
  function WebpPath(src: string): (r: string)
    ensures EndsWithIgnoreCase(src, ".jpeg") ==> r == src[..|src| - 5] + ".webp"
    ensures EndsWithIgnoreCase(src, ".jpg") || EndsWithIgnoreCase(src, ".png") ==> r == src[..|src| - 4] + ".webp"
  {
    if EndsWithIgnoreCase(src, ".jpeg") then
      JpegExcludesOthers(src);
      src[..|src| - 5] + ".webp"
    else if EndsWithIgnoreCase(src, ".jpg") || EndsWithIgnoreCase(src, ".png") then src[..|src| - 4] + ".webp"
    else src
  }

  predicate HasRasterEnding(src: string) {
    EndsWithIgnoreCase(src, ".jpg") || EndsWithIgnoreCase(src, ".jpeg") || EndsWithIgnoreCase(src, ".png")
  }

  /** `webpSrc || derived`: a non-empty explicit source wins. */
  function WebpSource(src: string, webpSrc: Option<string>): (r: string)
    ensures webpSrc.Some? && webpSrc.value != "" ==> r == webpSrc.value
    ensures webpSrc.None? || webpSrc.value == "" ==> r == WebpPath(src)
  {
    if webpSrc.Some? && webpSrc.value != "" then webpSrc.value else WebpPath(src)
  }

  /** A path is rewritten exactly when it ends in one of the three raster
      extensions; a rewritten path ends in `.webp`. */
  lemma WebpPathChanges(src: string)
    ensures WebpPath(src) != src <==> HasRasterEnding(src)
    ensures HasRasterEnding(src) ==> EndsWith(WebpPath(src), ".webp")
  {
    var r := WebpPath(src);
    if EndsWithIgnoreCase(src, ".jpeg") {
      LowerAtEnd(src, ".jpeg", 4);
      assert r[|r| - 4] == 'w';
    } else if EndsWithIgnoreCase(src, ".jpg") || EndsWithIgnoreCase(src, ".png") {
      assert |r| != |src|;
    }
    if HasRasterEnding(src) {
      assert r[|r| - 5..] == ".webp";
    }
  }

  /** A `.jpeg` ending excludes the two four-character endings. */
  lemma JpegExcludesOthers(src: string)
    requires EndsWithIgnoreCase(src, ".jpeg")
    ensures !EndsWithIgnoreCase(src, ".jpg") && !EndsWithIgnoreCase(src, ".png")
  {
    LowerAtEnd(src, ".jpeg", 2);
    if EndsWithIgnoreCase(src, ".jpg") {
      LowerAtEnd(src, ".jpg", 2);
      assert false;
    }
    if EndsWithIgnoreCase(src, ".png") {
      LowerAtEnd(src, ".png", 2);
      assert false;
    }
  }

  /** Deriving again from a derived path changes nothing. */
  lemma WebpPathIdempotent(src: string)
    ensures WebpPath(WebpPath(src)) == WebpPath(src)
  {
    var r := WebpPath(src);
    WebpPathChanges(src);
    if HasRasterEnding(src) {
      WebpEndingIsNotRaster(r);
    }
  }

  lemma WebpEndingIsNotRaster(r: string)
    requires EndsWith(r, ".webp")
    ensures !HasRasterEnding(r)
  {
    assert r[|r| - 2] == 'b';
    if EndsWithIgnoreCase(r, ".jpg") {
      LowerAtEnd(r, ".jpg", 2);
      assert false;
    }
    if EndsWithIgnoreCase(r, ".png") {
      LowerAtEnd(r, ".png", 2);
      assert false;
    }
    if EndsWithIgnoreCase(r, ".jpeg") {
      LowerAtEnd(r, ".jpeg", 2);
      assert false;
    }
  }

  /** The ending is matched without regard to case. */
  lemma UpperCaseEndingRewritten(stem: string)
    ensures WebpPath(stem + ".PNG") == stem + ".webp"
  {
    var s := stem + ".PNG";
    assert s[|s| - 4..] == ".PNG";
    assert ToLower(".PNG") == ".png";
    assert s[..|s| - 4] == stem;
  }

  /** Only an ending is rewritten: a raster extension followed by another
      one is left alone. */
  lemma InnerExtensionKept(stem: string)
    ensures WebpPath(stem + ".png.gif") == stem + ".png.gif"
  {
    var s := stem + ".png.gif";
    assert s[|s| - 1] == 'f';
    if HasRasterEnding(s) {
      if EndsWithIgnoreCase(s, ".jpeg") {
        LowerAtEnd(s, ".jpeg", 1);
      } else if EndsWithIgnoreCase(s, ".jpg") {
        LowerAtEnd(s, ".jpg", 1);
      } else {
        LowerAtEnd(s, ".png", 1);
      }
      assert false;
    }
  }

  // ---------------------------------------------------------------------
  // Throttle

  /** `useThrottle`: the time of the last invocation, initially the time
      the component mounted. */
  datatype Throttle = Throttle(lastRun: int, delay: int)

  function Mount(now: int, delay: int): Throttle {
    Throttle(now, delay)
  }

  /** One call of the throttled callback: whether it runs, and the state
      after. */
  function Call(t: Throttle, now: int): (res: (Throttle, bool))
    ensures res.1 <==> now - t.lastRun >= t.delay
    ensures res.1 ==> res.0 == t.(lastRun := now)
    ensures !res.1 ==> res.0 == t
  {
    if now - t.lastRun >= t.delay then (t.(lastRun := now), true) else (t, false)
  }

  /** The times, out of a sequence of calls, at which the callback ran. */
  function Ran(t: Throttle, times: seq<int>): seq<int>
    decreases |times|
  {
    if |times| == 0 then []
    else
      var step := Call(t, times[0]);
      (if step.1 then [times[0]] else []) + Ran(step.0, times[1..])
  }

  /** Runs are spaced at least `delay` apart, the first at least `delay`
      after the last run before the sequence (the mount, for a fresh
      throttle), and each run is one of the calls. */
  lemma {:induction false} RunsSpaced(t: Throttle, times: seq<int>)
    ensures var rs := Ran(t, times);
            && (|rs| > 0 ==> rs[0] - t.lastRun >= t.delay)
            && (forall i :: 0 < i < |rs| ==> rs[i] - rs[i - 1] >= t.delay)
            && (forall i :: 0 <= i < |rs| ==> rs[i] in times)
    decreases |times|
  {
    if |times| > 0 {
      var step := Call(t, times[0]);
      RunsSpaced(step.0, times[1..]);
      var rest := Ran(step.0, times[1..]);
      if step.1 {
        assert Ran(t, times) == [times[0]] + rest;
      } else {
        assert Ran(t, times) == rest;
      }
    }
  }

  /** Calls within `delay` of mounting are dropped. */
  lemma EarlyCallsDropped(mountedAt: int, delay: int, now: int)
    requires now - mountedAt < delay
    ensures !Call(Mount(mountedAt, delay), now).1
  {
  }

  // ---------------------------------------------------------------------
  // Preloading

  /** A `<link>` in the document head. */
  datatype Link = Link(rel: string, href: string, kind: string, linkType: Option<string>, crossOrigin: Option<string>)

  /** The `criticalResources`, as the links created for them. */
  const CRITICAL_RESOURCES: seq<Link> := [
    Link("preload", "/images/nav-logo.svg", "image", None, None),
    Link("preload", "/fonts/ProximaNova-Regular.otf", "font", Some("font/otf"), Some("anonymous"))
  ]

  /** `link[rel="preload"][href="..."]` finds something. */
  predicate HasPreload(head: seq<Link>, href: string) {
    exists i :: 0 <= i < |head| && head[i].rel == "preload" && head[i].href == href
  }

  function PreloadOne(head: seq<Link>, res: Link): (r: seq<Link>)
    ensures HasPreload(head, res.href) ==> r == head
    ensures !HasPreload(head, res.href) ==> r == head + [res]
  {
    if HasPreload(head, res.href) then head else head + [res]
  }

  function PreloadAll(head: seq<Link>, rs: seq<Link>): seq<Link>
    decreases |rs|
  {
    if |rs| == 0 then head else PreloadAll(PreloadOne(head, rs[0]), rs[1..])
  }

  /** `preloadCriticalResources()` */
  function PreloadCritical(head: seq<Link>): (r: seq<Link>)
    ensures |head| <= |r| && r[..|head|] == head
    ensures forall i :: 0 <= i < |CRITICAL_RESOURCES| ==> HasPreload(r, CRITICAL_RESOURCES[i].href)
    ensures forall j :: |head| <= j < |r| ==> r[j] in CRITICAL_RESOURCES
  {
    PreloadAllEffect(head, CRITICAL_RESOURCES);
    PreloadAll(head, CRITICAL_RESOURCES)
  }

  /** Preloading only appends, and afterwards every resource whose link is
      a preload has one. */
  lemma {:induction false} PreloadAllEffect(head: seq<Link>, rs: seq<Link>)
    requires forall i :: 0 <= i < |rs| ==> rs[i].rel == "preload"
    ensures var r := PreloadAll(head, rs);
            && |head| <= |r| && r[..|head|] == head
            && (forall i :: 0 <= i < |rs| ==> HasPreload(r, rs[i].href))
            && (forall j :: |head| <= j < |r| ==> r[j] in rs)
    decreases |rs|
  {
    if |rs| > 0 {
      var h' := PreloadOne(head, rs[0]);
      PreloadAllEffect(h', rs[1..]);
      var r := PreloadAll(h', rs[1..]);
      assert HasPreload(h', rs[0].href) by {
        if !HasPreload(head, rs[0].href) {
          assert h'[|head|] == rs[0];
        }
      }
      forall i | 0 <= i < |rs| ensures HasPreload(r, rs[i].href) {
        if i == 0 {
          var k :| 0 <= k < |h'| && h'[k].rel == "preload" && h'[k].href == rs[0].href;
          assert r[..|h'|] == h';
          assert r[k] == h'[k];
        } else {
          assert rs[i] == rs[1..][i - 1];
        }
      }
      forall j | |head| <= j < |r| ensures r[j] in rs {
        if j < |h'| {
          assert r[..|h'|] == h';
          assert r[j] == h'[j] == rs[0];
        } else {
          assert r[j] in rs[1..];
        }
      }
      assert r[..|head|] == r[..|h'|][..|head|];
    }
  }

  /** When every link a pass would add is already there, the pass adds
      nothing. */
  lemma {:induction false} PreloadAllPresent(head: seq<Link>, rs: seq<Link>)
    requires forall i :: 0 <= i < |rs| ==> HasPreload(head, rs[i].href)
    ensures PreloadAll(head, rs) == head
    decreases |rs|
  {
    if |rs| > 0 {
      PreloadAllPresent(head, rs[1..]);
    }
  }

  /** A second call adds nothing. */
  lemma PreloadCriticalIdempotent(head: seq<Link>)
    ensures PreloadCritical(PreloadCritical(head)) == PreloadCritical(head)
  {
    PreloadAllEffect(head, CRITICAL_RESOURCES);
    PreloadAllPresent(PreloadCritical(head), CRITICAL_RESOURCES);
  }

  /** On a head that already preloads the logo, only the font is added. */
  lemma PreloadSkipsExisting(head: seq<Link>)
    requires HasPreload(head, "/images/nav-logo.svg")
    requires !HasPreload(head, "/fonts/ProximaNova-Regular.otf")
    ensures PreloadCritical(head) == head + [CRITICAL_RESOURCES[1]]
  {
    var h' := PreloadOne(head, CRITICAL_RESOURCES[0]);
    assert h' == head;
    assert PreloadCritical(head) == PreloadAll(h', CRITICAL_RESOURCES[1..]);
  }
}
