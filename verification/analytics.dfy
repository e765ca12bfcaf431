/** Event tracking (src/components/Analytics.jsx): what `trackEvent` and
    `trackPageView` hand to the two trackers, the flavour-name slug, and
    the scroll-depth milestone tracker of `useAnalytics`. Whether
    `window.gtag` and `window.fbq` are defined is an input; a call to
    either is returned as a value rather than performed. */
module Analytics {
  import opened Common
  import opened Text
  import opened JsObject
  import opened Json

  const GA_MEASUREMENT_ID: string := "G-XXXXXXXXXX"

  datatype Call =
    | GtagConfig(id: string, config: Object<Json>)
    | GtagEvent(name: string, payload: Object<Json>)
    | FbqTrack(name: string, params: Object<Json>)

  /** The fields `trackEvent` fills in before the caller's own. */
  function EventDefaults(params: Object<Json>): Object<Json> {
    [ ("event_category", JStr("SPYLT_Interaction")),
      ("event_label", OrElse(Get(params, "label"), JStr(""))),
      ("value", OrElse(Get(params, "value"), JNum(0.0))),
      ("custom_parameter_1", OrElse(Get(params, "brand_interaction"), JStr(""))),
      ("custom_parameter_2", OrElse(Get(params, "flavor_preference"), JStr(""))) ]
  }

  /** `{ ...defaults, ...parameters }` */
  function EventPayload(params: Object<Json>): Object<Json> {
    Spread(EventDefaults(params), params)
  }

  /** `trackEvent(eventName, parameters)` */
  function TrackEvent(gtag: bool, fbq: bool, name: string, params: Object<Json>): (calls: seq<Call>)
    ensures |calls| == (if gtag then 1 else 0) + (if fbq then 1 else 0)
    ensures gtag ==> calls[0] == GtagEvent(name, EventPayload(params))
    ensures fbq ==> calls[|calls| - 1] == FbqTrack(name, params)
  {
    (if gtag then [GtagEvent(name, EventPayload(params))] else [])
    + (if fbq then [FbqTrack(name, params)] else [])
  }

  lemma EventDefaultKeys(params: Object<Json>)
    ensures Keys(EventDefaults(params)) == ["event_category", "event_label", "value", "custom_parameter_1", "custom_parameter_2"]
  {
    KeysIndexed(EventDefaults(params));
  }

  /** Every key the caller supplies reaches gtag with the caller's value. */
  lemma CallerParametersWin(params: Object<Json>, k: string)
    requires UniqueKeys(params)
    requires k in Keys(params)
    ensures Get(EventPayload(params), k) == Get(params, k)
  {
    GetSpread(EventDefaults(params), params, k);
  }

  /** A key the caller leaves out reaches gtag with its default. */
  lemma DefaultsWhereAbsent(params: Object<Json>, k: string)
    requires UniqueKeys(params)
    requires k !in Keys(params)
    ensures Get(EventPayload(params), k) == Get(EventDefaults(params), k)
  {
    GetSpread(EventDefaults(params), params, k);
  }

  /** A default reaches gtag exactly when the caller did not supply that
      key; the category, label and value defaults are fixed constants. */
  lemma DefaultsFillAbsentKeys(params: Object<Json>)
    requires UniqueKeys(params)
    ensures "event_category" !in Keys(params) ==> Get(EventPayload(params), "event_category") == Some(JStr("SPYLT_Interaction"))
    ensures "event_label" !in Keys(params) && !Truthy(Get(params, "label")) ==> Get(EventPayload(params), "event_label") == Some(JStr(""))
    ensures "value" !in Keys(params) ==> Get(EventPayload(params), "value") == Some(JNum(0.0))
    ensures "event_label" !in Keys(params) && Truthy(Get(params, "label")) ==> Get(EventPayload(params), "event_label") == Get(params, "label")
  {
    var d := EventDefaults(params);
    GetSpread(d, params, "event_category");
    GetSpread(d, params, "event_label");
    GetSpread(d, params, "value");
    GetFirst(d, 0);
    GetFirst(d, 1);
    GetFirst(d, 2);
  }

  /** `trackPageView(path, title)`: a `config` call, only when gtag is
      defined. */
  function TrackPageView(gtag: bool, path: string, title: string): (calls: seq<Call>)
    ensures |calls| == if gtag then 1 else 0
    ensures forall c :: c in calls ==>
              c.GtagConfig? && c.id == GA_MEASUREMENT_ID
              && Get(c.config, "page_path") == Some(JStr(path))
              && Get(c.config, "page_title") == Some(JStr(title))
  {
    if gtag then [GtagConfig(GA_MEASUREMENT_ID, [("page_path", JStr(path)), ("page_title", JStr(title))])] else []
  }

  // ---------------------------------------------------------------------
  // Flavour slug

  /** The characters `\s` matches in a JavaScript regular expression. */
  predicate IsJsSpace(c: char) {
    c in {' ', '\t', '\n', '\U{000B}', '\U{000C}', '\r', '\U{00A0}', '\U{1680}',
          '\U{2028}', '\U{2029}', '\U{202F}', '\U{205F}', '\U{3000}', '\U{FEFF}'}
    || '\U{2000}' <= c <= '\U{200A}'
  }

  /** `replace(/\s+/g, '_')`, scanning left to right; `inRun` says the
      previous character was whitespace already replaced. */
  function CollapseSpaces(s: string, inRun: bool): (r: string)
    ensures forall i :: 0 <= i < |r| ==> !IsJsSpace(r[i])
    ensures forall i :: 0 <= i < |r| ==> r[i] == '_' || r[i] in s
    ensures |s| > 0 && !IsJsSpace(s[0]) ==> |r| > 0 && r[0] == s[0]
    ensures |s| > 0 && IsJsSpace(s[0]) && !inRun ==> |r| > 0 && r[0] == '_'
    decreases |s|
  {
    if |s| == 0 then []
    else if IsJsSpace(s[0]) then (if inRun then [] else ['_']) + CollapseSpaces(s[1..], true)
    else [s[0]] + CollapseSpaces(s[1..], false)
  }

  /** The length of the whitespace run that starts `s`. */
  function SpaceRun(s: string): (k: nat)
    ensures k <= |s|
    ensures forall i :: 0 <= i < k ==> IsJsSpace(s[i])
    ensures k < |s| ==> !IsJsSpace(s[k])
    decreases |s|
  {
    if |s| == 0 || !IsJsSpace(s[0]) then 0 else 1 + SpaceRun(s[1..])
  }

  /** The length of the whitespace-free stretch that starts `s`. */
  function WordRun(s: string): (k: nat)
    ensures k <= |s|
    ensures forall i :: 0 <= i < k ==> !IsJsSpace(s[i])
    ensures k < |s| ==> IsJsSpace(s[k])
    decreases |s|
  {
    if |s| == 0 || IsJsSpace(s[0]) then 0 else 1 + WordRun(s[1..])
  }

  /** Reference reading of `replace(/\s+/g, '_')` by whole runs: each
      maximal whitespace run becomes one `_`, each whitespace-free stretch
      is kept as it is. */
  function CollapseRuns(s: string): string
    decreases |s|
  {
    if |s| == 0 then []
    else if IsJsSpace(s[0]) then
      var k := SpaceRun(s);
      assert k > 0 by { assert s[1..][..0] == []; }
      "_" + CollapseRuns(s[k..])
    else
      var k := WordRun(s);
      assert k > 0 by { assert s[1..][..0] == []; }
      s[..k] + CollapseRuns(s[k..])
  }

  /** A whitespace-free stretch passes through the scan unchanged, and
      the scan then continues outside a run (unless the stretch is empty). */
  lemma {:induction false} CollapseWord(w: string, rest: string, inRun: bool)
    requires forall i :: 0 <= i < |w| ==> !IsJsSpace(w[i])
    ensures CollapseSpaces(w + rest, inRun) == w + CollapseSpaces(rest, if |w| == 0 then inRun else false)
    decreases |w|
  {
    if |w| == 0 {
      assert w + rest == rest;
    } else {
      assert (w + rest)[0] == w[0];
      assert (w + rest)[1..] == w[1..] + rest;
      CollapseWord(w[1..], rest, false);
      assert [w[0]] + w[1..] == w;
    }
  }

  /** Whitespace met inside a run produces nothing more. */
  lemma {:induction false} CollapseRunAbsorbed(sp: string, rest: string)
    requires forall i :: 0 <= i < |sp| ==> IsJsSpace(sp[i])
    ensures CollapseSpaces(sp + rest, true) == CollapseSpaces(rest, true)
    decreases |sp|
  {
    if |sp| == 0 {
      assert sp + rest == rest;
    } else {
      assert (sp + rest)[0] == sp[0];
      assert (sp + rest)[1..] == sp[1..] + rest;
      CollapseRunAbsorbed(sp[1..], rest);
    }
  }

  /** A word followed by a non-empty whitespace run becomes the word and
      one `_`, whatever the length of the run. */
  lemma CollapseWordRun(w: string, sp: string, rest: string)
    requires forall i :: 0 <= i < |w| ==> !IsJsSpace(w[i])
    requires |sp| > 0 && forall i :: 0 <= i < |sp| ==> IsJsSpace(sp[i])
    ensures CollapseSpaces(w + sp + rest, false) == w + "_" + CollapseSpaces(rest, true)
  {
    var tail := sp + rest;
    assert w + sp + rest == w + tail;
    CollapseWord(w, tail, false);
    CollapseRunStart(sp, rest);
    var after := CollapseSpaces(rest, true);
    assert w + ("_" + after) == w + "_" + after;
  }

  /** A whitespace run met outside a run becomes one `_`. */
  lemma CollapseRunStart(sp: string, rest: string)
    requires |sp| > 0 && forall i :: 0 <= i < |sp| ==> IsJsSpace(sp[i])
    ensures CollapseSpaces(sp + rest, false) == "_" + CollapseSpaces(rest, true)
  {
    var tail := sp + rest;
    assert tail[0] == sp[0] && tail[1..] == sp[1..] + rest;
    CollapseRunAbsorbed(sp[1..], rest);
  }

  /** Past the end of a run, the scan's flag no longer matters. */
  lemma CollapseAfterRun(s: string)
    requires |s| == 0 || !IsJsSpace(s[0])
    ensures CollapseSpaces(s, true) == CollapseSpaces(s, false)
  {
  }

  /** The character scan agrees with the run-by-run reference. */
  lemma {:induction false} CollapseMatchesRuns(s: string)
    ensures CollapseSpaces(s, false) == CollapseRuns(s)
    decreases |s|
  {
    if |s| > 0 {
      if IsJsSpace(s[0]) {
        var k := SpaceRun(s);
        assert s == s[..k] + s[k..];
        assert s[..k] == [s[0]] + s[1..k];
        assert s[1..] == s[1..k] + s[k..];
        CollapseRunAbsorbed(s[1..k], s[k..]);
        CollapseAfterRun(s[k..]);
        CollapseMatchesRuns(s[k..]);
      } else {
        var k := WordRun(s);
        assert s == s[..k] + s[k..];
        CollapseWord(s[..k], s[k..], false);
        CollapseMatchesRuns(s[k..]);
      }
    }
  }

  /** The `flavor_preference` of `trackFlavorInteraction`: lower-cased,
      each whitespace run replaced by one underscore. */
  function FlavorSlug(name: string): (r: string)
    ensures forall i :: 0 <= i < |r| ==> !IsJsSpace(r[i])
    ensures r == CollapseRuns(ToLower(name))
  {
    CollapseMatchesRuns(ToLower(name));
    CollapseSpaces(ToLower(name), false)
  }

  /** Text with no whitespace passes through unchanged. */
  lemma {:induction false} CollapseNoSpaces(s: string, inRun: bool)
    requires forall i :: 0 <= i < |s| ==> !IsJsSpace(s[i])
    ensures CollapseSpaces(s, inRun) == s
    decreases |s|
  {
    if |s| > 0 {
      CollapseNoSpaces(s[1..], false);
    }
  }

  /** Slugging a slug changes nothing. */
  lemma FlavorSlugIdempotent(name: string)
    ensures FlavorSlug(FlavorSlug(name)) == FlavorSlug(name)
  {
    var r := FlavorSlug(name);
    var lower := ToLower(name);
    forall i | 0 <= i < |r| ensures LowerChar(r[i]) == r[i] {
      if r[i] != '_' {
        var j :| 0 <= j < |lower| && lower[j] == r[i];
      }
    }
    assert ToLower(r) == r;
    CollapseNoSpaces(r, false);
  }

  /** `trackFlavorInteraction(flavorName, interactionType)` */
  function TrackFlavorInteraction(gtag: bool, fbq: bool, flavorName: string, interactionType: string): (calls: seq<Call>)
    ensures |calls| == (if gtag then 1 else 0) + (if fbq then 1 else 0)
    ensures forall c :: c in calls ==>
              && (c.GtagEvent? || c.FbqTrack?)
              && (c.GtagEvent? ==> c.name == "flavor_interaction"
                                   && Get(c.payload, "flavor_preference") == Some(JStr(CollapseRuns(ToLower(flavorName))))
                                   && Get(c.payload, "event_category") == Some(JStr("SPYLT_Interaction")))
              && (c.FbqTrack? ==> c.name == "flavor_interaction"
                                  && Get(c.params, "flavor_preference") == Some(JStr(CollapseRuns(ToLower(flavorName)))))
  {
    FlavorInteractionPayload(flavorName, interactionType);
    FlavorParamsShape(flavorName, interactionType);
    TrackEvent(gtag, fbq, "flavor_interaction", FlavorParams(flavorName, interactionType))
  }

  function FlavorParams(flavorName: string, interactionType: string): Object<Json> {
    [ ("flavor_name", JStr(flavorName)),
      ("interaction_type", JStr(interactionType)),
      ("brand_interaction", JStr("product_engagement")),
      ("flavor_preference", JStr(FlavorSlug(flavorName))) ]
  }

  lemma FlavorParamsShape(flavorName: string, interactionType: string)
    ensures var params := FlavorParams(flavorName, interactionType);
            && Keys(params) == ["flavor_name", "interaction_type", "brand_interaction", "flavor_preference"]
            && UniqueKeys(params)
            && Get(params, "brand_interaction") == Some(JStr("product_engagement"))
            && Get(params, "flavor_preference") == Some(JStr(FlavorSlug(flavorName)))
  {
    var params := FlavorParams(flavorName, interactionType);
    KeysIndexed(params);
    GetFirst(params, 2);
    GetFirst(params, 3);
  }

  /** gtag sees the slug under both `flavor_preference` and
      `custom_parameter_2`, and the engagement kind under
      `custom_parameter_1`. */
  lemma FlavorInteractionPayload(flavorName: string, interactionType: string)
    ensures var p := EventPayload(FlavorParams(flavorName, interactionType));
            && Get(p, "flavor_preference") == Some(JStr(FlavorSlug(flavorName)))
            && Get(p, "custom_parameter_2") == Some(JStr(FlavorSlug(flavorName)))
            && Get(p, "custom_parameter_1") == Some(JStr("product_engagement"))
            && Get(p, "event_category") == Some(JStr("SPYLT_Interaction"))
  {
    var params := FlavorParams(flavorName, interactionType);
    var d := EventDefaults(params);
    FlavorParamsShape(flavorName, interactionType);
    FlavorDefaults(flavorName, interactionType);
    CallerParametersWin(params, "flavor_preference");
    DefaultsWhereAbsent(params, "custom_parameter_2");
    DefaultsWhereAbsent(params, "custom_parameter_1");
    DefaultsWhereAbsent(params, "event_category");
  }

  lemma FlavorDefaults(flavorName: string, interactionType: string)
    ensures var d := EventDefaults(FlavorParams(flavorName, interactionType));
            && Get(d, "event_category") == Some(JStr("SPYLT_Interaction"))
            && Get(d, "custom_parameter_1") == Some(JStr("product_engagement"))
            && Get(d, "custom_parameter_2") == Some(JStr(FlavorSlug(flavorName)))
  {
    var params := FlavorParams(flavorName, interactionType);
    var d := EventDefaults(params);
    FlavorParamsShape(flavorName, interactionType);
    GetFirst(d, 0);
    GetFirst(d, 3);
    GetFirst(d, 4);
  }

  // ---------------------------------------------------------------------
  // Scroll depth

  /** `Math.round(scrollY / (scrollHeight - innerHeight) * 100)`: an
      integer, or NaN / Infinity when the page cannot scroll. */
  datatype Reading = Finite(percent: int) | NonFinite

  /** `maxScroll` of the current location. */
  datatype ScrollTracker = ScrollTracker(maxScroll: int)

  /** A location change starts a new tracker. */
  function OnLocation(): ScrollTracker {
    ScrollTracker(0)
  }

  /** `handleScroll`: the milestone fired, if any, and the new state.
      A non-finite reading compares false and so never fires. */
  function OnScroll(t: ScrollTracker, r: Reading): (res: (ScrollTracker, Option<int>))
    ensures res.1.Some? <==> r.Finite? && r.percent > t.maxScroll && r.percent % 25 == 0
    ensures res.1.Some? ==> res.1.value == r.percent && res.0 == ScrollTracker(r.percent)
    ensures res.1.None? ==> res.0 == t
  {
    match r
    case Finite(p) =>
      if p > t.maxScroll && p % 25 == 0 then (ScrollTracker(p), Some(p)) else (t, None)
    case NonFinite => (t, None)
  }

  /** `handleScroll` with its `trackScrollDepth` call. */
  function HandleScroll(gtag: bool, fbq: bool, t: ScrollTracker, r: Reading): (res: (ScrollTracker, seq<Call>))
    ensures res.0 == OnScroll(t, r).0
    ensures OnScroll(t, r).1.None? ==> res.1 == []
    ensures OnScroll(t, r).1.Some? ==> res.1 == TrackEvent(gtag, fbq, "scroll_depth",
              [("scroll_percentage", JNum(r.percent as real)), ("brand_interaction", JStr("content_engagement"))])
  {
    var (t', fired) := OnScroll(t, r);
    match fired
    case None => (t', [])
    case Some(p) =>
      (t', TrackEvent(gtag, fbq, "scroll_depth",
                      [("scroll_percentage", JNum(p as real)), ("brand_interaction", JStr("content_engagement"))]))
  }

  /** Feeding a sequence of readings: the milestones fired, in order. */
  function Fired(t: ScrollTracker, rs: seq<Reading>): seq<int>
    decreases |rs|
  {
    if |rs| == 0 then []
    else
      var step := OnScroll(t, rs[0]);
      (if step.1.Some? then [step.1.value] else []) + Fired(step.0, rs[1..])
  }

  function Final(t: ScrollTracker, rs: seq<Reading>): ScrollTracker
    decreases |rs|
  {
    if |rs| == 0 then t else Final(OnScroll(t, rs[0]).0, rs[1..])
  }

  /** Every milestone fired lies above the starting maximum and is a
      multiple of 25; the tracker ends at the last of them. */
  lemma {:induction false} FiredBounds(t: ScrollTracker, rs: seq<Reading>)
    ensures var fs := Fired(t, rs);
            && (forall i :: 0 <= i < |fs| ==> fs[i] > t.maxScroll && fs[i] % 25 == 0)
            && Final(t, rs).maxScroll == (if |fs| == 0 then t.maxScroll else fs[|fs| - 1])
    decreases |rs|
  {
    if |rs| > 0 {
      var step := OnScroll(t, rs[0]);
      FiredBounds(step.0, rs[1..]);
      var rest := Fired(step.0, rs[1..]);
      if step.1.Some? {
        assert Fired(t, rs) == [step.1.value] + rest;
      } else {
        assert Fired(t, rs) == rest;
      }
    }
  }

  predicate Increasing(s: seq<int>) {
    forall i, j :: 0 <= i < j < |s| ==> s[i] < s[j]
  }

  lemma PrependIncreasing(p: int, rest: seq<int>)
    requires Increasing(rest)
    requires forall i :: 0 <= i < |rest| ==> rest[i] > p
    ensures Increasing([p] + rest)
  {
    var s := [p] + rest;
    forall i, j | 0 <= i < j < |s| ensures s[i] < s[j] {
      assert s[j] == rest[j - 1];
      if i > 0 {
        assert s[i] == rest[i - 1];
      }
    }
  }

  /** Within one location the fired milestones strictly increase. */
  lemma {:induction false} FiredIncreasing(t: ScrollTracker, rs: seq<Reading>)
    ensures Increasing(Fired(t, rs))
    decreases |rs|
  {
    if |rs| > 0 {
      var step := OnScroll(t, rs[0]);
      FiredIncreasing(step.0, rs[1..]);
      var rest := Fired(step.0, rs[1..]);
      if step.1.Some? {
        FiredBounds(step.0, rs[1..]);
        PrependIncreasing(step.1.value, rest);
        assert Fired(t, rs) == [step.1.value] + rest;
      } else {
        assert Fired(t, rs) == rest;
      }
    }
  }

  /** From a fresh tracker 0 is never fired. */
  lemma ZeroNeverFired(rs: seq<Reading>)
    ensures 0 !in Fired(OnLocation(), rs)
  {
    FiredBounds(OnLocation(), rs);
  }
}
