/** Search-engine metadata (src/components/SEO.jsx): the per-page
    configuration with its fallback, the meta-tag upsert the `useSEO` hook
    performs, the structured-data object per path and the sitemap. The
    document is reduced to what the hook touches: its title, its meta tags
    in document order, the JSON-LD script and the canonical link. */
module Seo {
  import opened Common
  import opened JsObject
  import opened Json

  datatype PageConfig = PageConfig(title: string, description: string, keywords: string, ogType: string, ogImage: string)

  const HOME_PAGE: PageConfig := PageConfig(
      "SPYLT™ - Premium Protein + Caffeine Beverages | Fuel Your Passion",
      "Revolutionary beverages combining 20g premium whey protein with 95mg natural caffeine in 6 incredible flavors. Zero sugar, lactose-free, 150 calories. Fuel your passion with SPYLT™.",
      "protein drinks, caffeine beverages, functional drinks, whey protein, natural caffeine, fitness nutrition, post workout, pre workout, healthy drinks, SPYLT",
      "website", "/images/Final.png")
  const FLAVORS_PAGE: PageConfig := PageConfig(
      "SPYLT™ Flavors - 6 Incredible Protein + Caffeine Combinations",
      "Discover our 6 signature flavors: Chocolate Milk, Strawberry Milk, Cookies & Cream, Peanut Butter Chocolate, Vanilla Milkshake, and Max Chocolate Milk. Each with 20g protein and 95mg caffeine.",
      "SPYLT flavors, chocolate milk protein, strawberry protein drink, cookies cream beverage, peanut butter chocolate, vanilla milkshake protein, protein flavors",
      "product", "/images/brown-drink.webp")
  const COMPANY_PAGE: PageConfig := PageConfig(
      "About SPYLT™ - Our Story, Mission & Team | Premium Beverage Brand",
      "Founded in 2019 by nutrition scientists, SPYLT™ revolutionizes functional beverages. Learn about our mission, leadership team, awards, and commitment to sustainability.",
      "SPYLT company, beverage brand story, nutrition scientists, functional beverage innovation, sustainable packaging, company mission",
      "website", "/images/hero-img.png")
  const CONTACT_PAGE: PageConfig := PageConfig(
      "Contact SPYLT™ - Get in Touch | Customer Support & Business Inquiries",
      "Contact SPYLT™ for customer support, business partnerships, media inquiries, or general questions. Multiple contact methods and office locations available.",
      "contact SPYLT, customer support, business partnerships, media inquiries, wholesale opportunities, beverage distribution",
      "website", "/images/nav-logo.svg")
  const TASTY_TALK_PAGE: PageConfig := PageConfig(
      "Tasty Talk Blog - Nutrition Tips, Fitness Advice & SPYLT™ Lifestyle",
      "Explore our blog for nutrition science, fitness tips, healthy recipes, and the SPYLT™ lifestyle. Expert advice for active professionals and fitness enthusiasts.",
      "nutrition blog, fitness tips, protein nutrition, caffeine benefits, healthy lifestyle, workout nutrition, recovery drinks",
      "blog", "/images/blue-drink.webp")
  const CHUG_CLUB_PAGE: PageConfig := PageConfig(
      "SPYLT™ Chug Club - Exclusive Community & Loyalty Rewards",
      "Join the SPYLT™ Chug Club for exclusive rewards, early access to new flavors, community events, and special discounts. Fuel your passion with fellow enthusiasts.",
      "SPYLT loyalty program, Chug Club, exclusive rewards, community membership, early access, special discounts",
      "website", "/images/red-drink.webp")
  const STUDENT_MARKETING_PAGE: PageConfig := PageConfig(
      "SPYLT™ Student Programs - Campus Partnerships & Bulk Discounts",
      "Special programs for students and educational institutions. Campus partnerships, bulk discounts, and nutrition education initiatives for the next generation.",
      "student discounts, campus partnerships, bulk protein drinks, educational nutrition, college programs, student athletes",
      "website", "/images/orange-drink.webp")
  const DAIRY_DEALERS_PAGE: PageConfig := PageConfig(
      "SPYLT™ B2B Partnerships - Wholesale & Distribution Opportunities",
      "Partner with SPYLT™ for wholesale distribution, retail partnerships, and B2B opportunities. Premium functional beverages for your business.",
      "wholesale protein drinks, beverage distribution, B2B partnerships, retail opportunities, functional beverage wholesale",
      "website", "/images/white-drink.webp")
  const PRIVACY_POLICY_PAGE: PageConfig := PageConfig(
      "Privacy Policy - SPYLT™ Data Protection & User Privacy",
      "SPYLT™ privacy policy outlining our commitment to protecting your personal information, data collection practices, and user rights under GDPR and CCPA.",
      "privacy policy, data protection, GDPR compliance, user privacy, personal information, data security",
      "website", "/images/nav-logo.svg")
  const TERMS_OF_SERVICE_PAGE: PageConfig := PageConfig(
      "Terms of Service - SPYLT™ Legal Terms & Conditions",
      "SPYLT™ terms of service covering website usage, product information, legal rights, and user responsibilities. Please read before using our services.",
      "terms of service, legal terms, user agreement, website terms, product terms, legal conditions",
      "website", "/images/nav-logo.svg")

  /** `seoConfig`, in key order. */
  const SEO_CONFIG: Object<PageConfig> := [
    ("/", HOME_PAGE),
    ("/spylt-flavors", FLAVORS_PAGE),
    ("/company", COMPANY_PAGE),
    ("/contact", CONTACT_PAGE),
    ("/tasty-talk", TASTY_TALK_PAGE),
    ("/chug-club", CHUG_CLUB_PAGE),
    ("/student-marketing", STUDENT_MARKETING_PAGE),
    ("/dairy-dealers", DAIRY_DEALERS_PAGE),
    ("/privacy-policy", PRIVACY_POLICY_PAGE),
    ("/terms-of-service", TERMS_OF_SERVICE_PAGE)
  ]

  /** `seoConfig[pathname] || seoConfig['/']` */
  function ConfigFor(pathname: string): (c: PageConfig)
    ensures pathname in Keys(SEO_CONFIG) ==> Some(c) == Get(SEO_CONFIG, pathname)
    ensures pathname !in Keys(SEO_CONFIG) ==> Some(c) == Get(SEO_CONFIG, "/")
  {
    match Get(SEO_CONFIG, pathname)
    case Some(c) => c
    case None => SEO_CONFIG[0].1
  }

  /** The routed path "/contacts" has no entry of its own, so it is given
      the home page's metadata. */
  lemma ContactsGetsHomeMetadata()
    ensures ConfigFor("/contacts") == HOME_PAGE
  {
    KeysIndex(SEO_CONFIG, "/contacts");
  }

  /** Every configured page has a non-empty title, description, keywords,
      type and image. */
  predicate Complete(c: PageConfig) {
    c.title != "" && c.description != "" && c.ogImage != "" && c.ogType != "" && c.keywords != ""
  }

  lemma AllConfigsComplete(pathname: string)
    ensures Complete(ConfigFor(pathname))
  {
    assert forall i :: 0 <= i < |SEO_CONFIG| ==> Complete(SEO_CONFIG[i].1);
    if pathname in Keys(SEO_CONFIG) {
      GetFound(SEO_CONFIG, pathname);
    }
  }

  // ---------------------------------------------------------------------
  // Meta tags

  /** `<meta name=...>` and `<meta property=...>` are separate namespaces. */
  datatype Attr = NameAttr | PropertyAttr

  datatype MetaTag = MetaTag(attr: Attr, key: string, content: string)

  datatype Document = Document(title: string, metas: seq<MetaTag>, ldJson: Option<Json>, canonical: Option<string>)

  predicate Matches(m: MetaTag, attr: Attr, key: string) {
    m.attr == attr && m.key == key
  }

  /** `document.querySelector('meta[attr="key"]')`: the first match in
      document order. */
  function FindMeta(metas: seq<MetaTag>, attr: Attr, key: string): (r: Option<nat>)
    ensures r.Some? ==> r.value < |metas| && Matches(metas[r.value], attr, key)
                        && forall j :: 0 <= j < r.value ==> !Matches(metas[j], attr, key)
    ensures r.None? ==> forall j :: 0 <= j < |metas| ==> !Matches(metas[j], attr, key)
    decreases |metas|
  {
    if |metas| == 0 then None
    else if Matches(metas[0], attr, key) then Some(0)
    else match FindMeta(metas[1..], attr, key)
      case None => None
      case Some(i) => Some(i + 1)
  }

  function CountMeta(metas: seq<MetaTag>, attr: Attr, key: string): nat
    decreases |metas|
  {
    if |metas| == 0 then 0
    else (if Matches(metas[0], attr, key) then 1 else 0) + CountMeta(metas[1..], attr, key)
  }

  /** The content a selector reads back, if the tag exists. */
  function ContentOf(metas: seq<MetaTag>, attr: Attr, key: string): Option<string> {
    match FindMeta(metas, attr, key)
    case None => None
    case Some(i) => Some(metas[i].content)
  }

  function AttrOf(property: bool): Attr {
    if property then PropertyAttr else NameAttr
  }

  /** `updateMetaTag(name, content, property)`: set the content of the
      first matching tag, or append a new tag when there is none. */
  function UpdateMetaTag(metas: seq<MetaTag>, key: string, content: string, property: bool): (r: seq<MetaTag>)
    ensures ContentOf(r, AttrOf(property), key) == Some(content)
    ensures CountMeta(metas, AttrOf(property), key) == 0 ==> CountMeta(r, AttrOf(property), key) == 1
    ensures CountMeta(metas, AttrOf(property), key) > 0 ==> CountMeta(r, AttrOf(property), key) == CountMeta(metas, AttrOf(property), key)
    ensures |metas| <= |r| <= |metas| + 1
    ensures FindMeta(metas, AttrOf(property), key).Some? ==>
              r == metas[FindMeta(metas, AttrOf(property), key).value := MetaTag(AttrOf(property), key, content)]
    ensures forall j :: 0 <= j < |r| ==>
              (j < |metas| && r[j] == metas[j])
              || (r[j] == MetaTag(AttrOf(property), key, content) && (j < |metas| ==> Matches(metas[j], AttrOf(property), key)))
  {
    var attr := AttrOf(property);
    var m := MetaTag(attr, key, content);
    match FindMeta(metas, attr, key)
    case Some(i) =>
      CountReplace(metas, i, m, attr, key);
      CountSome(metas, attr, key);
      FindMetaReplace(metas, i, content);
      metas[i := m]
    case None =>
      CountAppend(metas, m, attr, key);
      CountNone(metas, attr, key);
      FindMetaAppend(metas, m);
      metas + [m]
  }

  lemma {:induction false} CountReplace(metas: seq<MetaTag>, i: nat, m: MetaTag, attr: Attr, key: string)
    requires i < |metas| && Matches(metas[i], attr, key) && Matches(m, attr, key)
    ensures CountMeta(metas[i := m], attr, key) == CountMeta(metas, attr, key)
    decreases |metas|
  {
    if i > 0 {
      assert metas[i := m][1..] == metas[1..][i - 1 := m];
      CountReplace(metas[1..], i - 1, m, attr, key);
    } else {
      assert metas[i := m][1..] == metas[1..];
    }
  }

  lemma {:induction false} CountAppend(metas: seq<MetaTag>, m: MetaTag, attr: Attr, key: string)
    ensures CountMeta(metas + [m], attr, key) == CountMeta(metas, attr, key) + (if Matches(m, attr, key) then 1 else 0)
    decreases |metas|
  {
    if |metas| > 0 {
      assert (metas + [m])[1..] == metas[1..] + [m];
      CountAppend(metas[1..], m, attr, key);
    } else {
      assert [m][1..] == [];
    }
  }

  lemma {:induction false} CountNone(metas: seq<MetaTag>, attr: Attr, key: string)
    requires FindMeta(metas, attr, key).None?
    ensures CountMeta(metas, attr, key) == 0
    decreases |metas|
  {
    if |metas| > 0 {
      CountNone(metas[1..], attr, key);
    }
  }

  lemma {:induction false} CountSome(metas: seq<MetaTag>, attr: Attr, key: string)
    requires FindMeta(metas, attr, key).Some?
    ensures CountMeta(metas, attr, key) > 0
    decreases |metas|
  {
    if !Matches(metas[0], attr, key) {
      CountSome(metas[1..], attr, key);
    }
  }

  /** `FindMeta` is determined by which positions match. */
  lemma FindMetaExtensional(a: seq<MetaTag>, b: seq<MetaTag>, attr: Attr, key: string)
    requires |a| == |b|
    requires forall j :: 0 <= j < |a| ==> (Matches(a[j], attr, key) <==> Matches(b[j], attr, key))
    ensures FindMeta(a, attr, key) == FindMeta(b, attr, key)
  {
    var f, g := FindMeta(a, attr, key), FindMeta(b, attr, key);
    if f.Some? {
      assert Matches(b[f.value], attr, key);
    }
    if g.Some? {
      assert Matches(a[g.value], attr, key);
    }
  }

  lemma FindMetaReplace(metas: seq<MetaTag>, i: nat, content: string)
    requires i < |metas| && FindMeta(metas, metas[i].attr, metas[i].key) == Some(i)
    ensures FindMeta(metas[i := metas[i].(content := content)], metas[i].attr, metas[i].key) == Some(i)
  {
    FindMetaExtensional(metas, metas[i := metas[i].(content := content)], metas[i].attr, metas[i].key);
  }

  lemma FindMetaAppend(metas: seq<MetaTag>, m: MetaTag)
    requires FindMeta(metas, m.attr, m.key).None?
    ensures FindMeta(metas + [m], m.attr, m.key) == Some(|metas|)
  {
    var r := metas + [m];
    assert Matches(r[|metas|], m.attr, m.key);
    assert forall j :: 0 <= j < |metas| ==> r[j] == metas[j];
  }

  /** Repeating an update changes nothing. */
  lemma UpdateMetaTagIdempotent(metas: seq<MetaTag>, key: string, content: string, property: bool)
    ensures UpdateMetaTag(UpdateMetaTag(metas, key, content, property), key, content, property)
            == UpdateMetaTag(metas, key, content, property)
  {
    var r := UpdateMetaTag(metas, key, content, property);
    var i := FindMeta(r, AttrOf(property), key).value;
    assert r[i := MetaTag(AttrOf(property), key, content)] == r;
  }

  /** An update is invisible to every selector for another tag. */
  lemma UpdateMetaTagFrame(metas: seq<MetaTag>, key: string, content: string, property: bool, attr: Attr, key': string)
    requires attr != AttrOf(property) || key' != key
    ensures FindMeta(UpdateMetaTag(metas, key, content, property), attr, key') == FindMeta(metas, attr, key')
    ensures ContentOf(UpdateMetaTag(metas, key, content, property), attr, key') == ContentOf(metas, attr, key')
  {
    var r := UpdateMetaTag(metas, key, content, property);
    assert forall j :: 0 <= j < |r| ==> (Matches(r[j], attr, key') <==> j < |metas| && Matches(metas[j], attr, key'));
    if |r| == |metas| {
      FindMetaExtensional(r, metas, attr, key');
    } else {
      FindMetaExtensional(r[..|metas|], metas, attr, key');
      FindMetaPrefix(r, |metas|, attr, key');
    }
  }

  /** When nothing past position `n` matches, the search over the whole
      sequence and over its first `n` elements agree. */
  lemma FindMetaPrefix(metas: seq<MetaTag>, n: nat, attr: Attr, key: string)
    requires n <= |metas|
    requires forall j :: n <= j < |metas| ==> !Matches(metas[j], attr, key)
    ensures FindMeta(metas, attr, key) == FindMeta(metas[..n], attr, key)
  {
    var f, g := FindMeta(metas, attr, key), FindMeta(metas[..n], attr, key);
    if f.Some? {
      assert metas[..n][f.value] == metas[f.value];
    }
    if g.Some? {
      assert metas[..n][g.value] == metas[g.value];
    }
  }

  /** One upsert of the hook: key, content and namespace. */
  datatype MetaUpdate = MetaUpdate(key: string, content: string, property: bool)

  /** A key with the `og:` prefix of the Open Graph protocol. */
  predicate OpenGraphKey(key: string) {
    |key| >= 3 && key[0] == 'o' && key[1] == 'g' && key[2] == ':'
  }

  /** The upserts `useSEO` performs for a page, in order. */
  function MetaUpdates(c: PageConfig, href: string): (us: seq<MetaUpdate>)
    ensures |us| == 17
  {
    [ MetaUpdate("description", c.description, false),
      MetaUpdate("keywords", c.keywords, false),
      MetaUpdate("og:title", c.title, true),
      MetaUpdate("og:description", c.description, true),
      MetaUpdate("og:type", c.ogType, true),
      MetaUpdate("og:image", c.ogImage, true),
      MetaUpdate("og:url", href, true),
      MetaUpdate("og:site_name", "SPYLT™", true),
      MetaUpdate("twitter:card", "summary_large_image", false),
      MetaUpdate("twitter:title", c.title, false),
      MetaUpdate("twitter:description", c.description, false),
      MetaUpdate("twitter:image", c.ogImage, false),
      MetaUpdate("robots", "index, follow", false),
      MetaUpdate("author", "Lakhyajit", false),
      MetaUpdate("copyright", "© 2025 Lakhyajit. All rights reserved.", false),
      MetaUpdate("language", "en-US", false),
      MetaUpdate("revisit-after", "7 days", false) ]
  }

  /** Exactly the Open Graph keys go through the `property` attribute, and
      no key is set twice, so the order of the upserts does not matter. */
  lemma MetaUpdatesShape(c: PageConfig, href: string)
    ensures var us := MetaUpdates(c, href);
            && (forall i :: 0 <= i < |us| ==> (us[i].property <==> OpenGraphKey(us[i].key)))
            && (forall i, j :: 0 <= i < j < |us| ==> us[i].key != us[j].key)
  {
  }

  function ApplyUpdates(metas: seq<MetaTag>, us: seq<MetaUpdate>): (r: seq<MetaTag>)
    ensures |metas| <= |r| <= |metas| + |us|
    ensures forall j :: 0 <= j < |metas| ==> r[j].attr == metas[j].attr && r[j].key == metas[j].key
    decreases |us|
  {
    if |us| == 0 then metas
    else ApplyUpdates(UpdateMetaTag(metas, us[0].key, us[0].content, us[0].property), us[1..])
  }

  /** Reference reading of a batch of upserts for one tag: the content of
      the last upsert aimed at it, or `before` when none is. */
  function LastContent(us: seq<MetaUpdate>, attr: Attr, key: string, before: Option<string>): Option<string>
    decreases |us|
  {
    if |us| == 0 then before
    else LastContent(us[1..], attr, key,
                     if AttrOf(us[0].property) == attr && us[0].key == key then Some(us[0].content) else before)
  }

  /** Applying the upserts to the document agrees with the reference
      reading for every selector. */
  lemma {:induction false} ApplyUpdatesContent(metas: seq<MetaTag>, us: seq<MetaUpdate>, attr: Attr, key: string)
    ensures ContentOf(ApplyUpdates(metas, us), attr, key) == LastContent(us, attr, key, ContentOf(metas, attr, key))
    decreases |us|
  {
    if |us| > 0 {
      var m' := UpdateMetaTag(metas, us[0].key, us[0].content, us[0].property);
      ApplyUpdatesContent(m', us[1..], attr, key);
      if AttrOf(us[0].property) != attr || us[0].key != key {
        UpdateMetaTagFrame(metas, us[0].key, us[0].content, us[0].property, attr, key);
      }
    }
  }

  /** The `useSEO` effect for one location: every meta selector reads the
      last upsert aimed at it, and the four tags the site's health check
      needs hold the page's description, title and card type. */
  function ApplySeo(doc: Document, pathname: string, href: string): (d: Document)
    ensures d.title == ConfigFor(pathname).title
    ensures d.ldJson == Some(StructuredData(pathname))
    ensures d.canonical == Some(href)
    ensures forall attr, key :: ContentOf(d.metas, attr, key)
              == LastContent(MetaUpdates(ConfigFor(pathname), href), attr, key, ContentOf(doc.metas, attr, key))
    ensures ContentOf(d.metas, NameAttr, "description") == Some(ConfigFor(pathname).description)
    ensures ContentOf(d.metas, PropertyAttr, "og:title") == Some(ConfigFor(pathname).title)
    ensures ContentOf(d.metas, PropertyAttr, "og:description") == Some(ConfigFor(pathname).description)
    ensures ContentOf(d.metas, NameAttr, "twitter:card") == Some("summary_large_image")
  {
    var c := ConfigFor(pathname);
    var metas := ApplyUpdates(doc.metas, MetaUpdates(c, href));
    ApplyUpdatesReadBack(doc.metas, MetaUpdates(c, href));
    HookSetsRequiredTags(doc.metas, c, href);
    Document(c.title, metas, Some(StructuredData(pathname)), Some(href))
  }

  /** `ApplyUpdatesContent` for every selector at once. */
  lemma ApplyUpdatesReadBack(metas: seq<MetaTag>, us: seq<MetaUpdate>)
    ensures forall attr, key :: ContentOf(ApplyUpdates(metas, us), attr, key)
              == LastContent(us, attr, key, ContentOf(metas, attr, key))
  {
    forall attr, key
      ensures ContentOf(ApplyUpdates(metas, us), attr, key) == LastContent(us, attr, key, ContentOf(metas, attr, key))
    {
      ApplyUpdatesContent(metas, us, attr, key);
    }
  }

  /** The hook's batch writes the description, og:title, og:description
      and twitter:card tags with the page's values. */
  lemma HookSetsRequiredTags(metas: seq<MetaTag>, c: PageConfig, href: string)
    ensures var m := ApplyUpdates(metas, MetaUpdates(c, href));
            && ContentOf(m, NameAttr, "description") == Some(c.description)
            && ContentOf(m, PropertyAttr, "og:title") == Some(c.title)
            && ContentOf(m, PropertyAttr, "og:description") == Some(c.description)
            && ContentOf(m, NameAttr, "twitter:card") == Some("summary_large_image")
  {
    var us := MetaUpdates(c, href);
    ApplyUpdatesContent(metas, us, NameAttr, "description");
    ApplyUpdatesContent(metas, us, PropertyAttr, "og:title");
    ApplyUpdatesContent(metas, us, PropertyAttr, "og:description");
    ApplyUpdatesContent(metas, us, NameAttr, "twitter:card");
    LastUpsertOf(c, href, 0, metas);
    LastUpsertOf(c, href, 2, metas);
    LastUpsertOf(c, href, 3, metas);
    LastUpsertOf(c, href, 8, metas);
  }

  /** The reference reading of a batch in which nothing is aimed at the
      tag is what the tag had before. */
  lemma {:induction false} LastContentUntouched(us: seq<MetaUpdate>, attr: Attr, key: string, before: Option<string>)
    requires forall j :: 0 <= j < |us| ==> !(AttrOf(us[j].property) == attr && us[j].key == key)
    ensures LastContent(us, attr, key, before) == before
    decreases |us|
  {
    if |us| > 0 {
      LastContentUntouched(us[1..], attr, key, before);
    }
  }

  /** The reference reading of a batch is the content of the last upsert
      aimed at the tag. */
  lemma {:induction false} LastContentAt(us: seq<MetaUpdate>, i: nat, attr: Attr, key: string, before: Option<string>)
    requires i < |us| && AttrOf(us[i].property) == attr && us[i].key == key
    requires forall j :: i < j < |us| ==> !(AttrOf(us[j].property) == attr && us[j].key == key)
    ensures LastContent(us, attr, key, before) == Some(us[i].content)
    decreases |us|
  {
    if i == 0 {
      LastContentUntouched(us[1..], attr, key, Some(us[0].content));
    } else {
      var b := if AttrOf(us[0].property) == attr && us[0].key == key then Some(us[0].content) else before;
      LastContentAt(us[1..], i - 1, attr, key, b);
    }
  }

  /** After the hook runs, the four tags the health probe looks for are
      present in their own namespaces with non-empty content. */
  lemma ApplySeoSetsRequiredTags(doc: Document, pathname: string, href: string)
    ensures var d := ApplySeo(doc, pathname, href);
            var c := ConfigFor(pathname);
            && ContentOf(d.metas, NameAttr, "description") == Some(c.description)
            && ContentOf(d.metas, PropertyAttr, "og:title") == Some(c.title)
            && ContentOf(d.metas, PropertyAttr, "og:description") == Some(c.description)
            && ContentOf(d.metas, NameAttr, "twitter:card") == Some("summary_large_image")
            && c.description != "" && c.title != ""
  {
    AllConfigsComplete(pathname);
  }

  /** Upserts 0, 2, 3 and 8 (description, og:title, og:description and
      twitter:card) are the only ones aimed at their tags. */
  lemma LastUpsertOf(c: PageConfig, href: string, i: nat, metas: seq<MetaTag>)
    requires i in {0, 2, 3, 8}
    ensures var us := MetaUpdates(c, href);
            LastContent(us, AttrOf(us[i].property), us[i].key, ContentOf(metas, AttrOf(us[i].property), us[i].key))
            == Some(us[i].content)
  {
    var us := MetaUpdates(c, href);
    assert forall j :: 0 <= j < |us| && j != i ==> us[j].key != us[i].key;
    LastContentAt(us, i, AttrOf(us[i].property), us[i].key, ContentOf(metas, AttrOf(us[i].property), us[i].key));
  }

  // ---------------------------------------------------------------------
  // Structured data

  function S(s: string): Json {
    JStr(s)
  }

  const BASE_ORGANIZATION: Object<Json> := [
    ("@context", S("https://schema.org")),
    ("@type", S("Organization")),
    ("name", S("SPYLT")),
    ("alternateName", S("SPYLT Beverages")),
    ("url", S("https://github.com/Lakhyajit-96/Spylt")),
    ("logo", S("/images/nav-logo.svg")),
    ("description", S("Premium functional beverages combining protein and caffeine")),
    ("foundingDate", S("2019")),
    ("founder", JObj([("@type", S("Person")), ("name", S("Lakhyajit"))])),
    ("contactPoint", JObj([
      ("@type", S("ContactPoint")),
      ("telephone", S("+1-555-123-SPYLT")),
      ("contactType", S("customer service")),
      ("email", S("hello@spylt.com"))])),
    ("sameAs", JArr([
      S("https://instagram.com/spylt"),
      S("https://tiktok.com/@spylt"),
      S("https://youtube.com/@spylt"),
      S("https://linkedin.com/company/spylt")]))
  ]

  const HOME_EXTRA: Object<Json> := [
    ("@type", JArr([S("Organization"), S("Brand")])),
    ("brand", JObj([("@type", S("Brand")), ("name", S("SPYLT")), ("slogan", S("Fuel Your Passion"))]))
  ]

  const COMPANY_EXTRA: Object<Json> := [
    ("numberOfEmployees", S("50-100")),
    ("industry", S("Food and Beverage")),
    ("award", JArr([
      S("2024 Beverage Innovation Award - Best New Product"),
      S("2023 Taste Awards - Gold Medal Winner"),
      S("2023 Brand of the Year - Functional Beverages")]))
  ]

  const FLAVORS_DATA: Object<Json> := [
    ("@context", S("https://schema.org")),
    ("@type", S("ProductCollection")),
    ("name", S("SPYLT Flavors")),
    ("description", S("Premium protein and caffeine beverages in 6 incredible flavors")),
    ("brand", JObj([("@type", S("Brand")), ("name", S("SPYLT"))])),
    ("offers", JObj([
      ("@type", S("AggregateOffer")),
      ("priceCurrency", S("USD")),
      ("lowPrice", S("4.99")),
      ("highPrice", S("6.99")),
      ("availability", S("https://schema.org/InStock"))]))
  ]

  const CONTACT_DATA: Object<Json> := [
    ("@context", S("https://schema.org")),
    ("@type", S("ContactPage")),
    ("mainEntity", JObj([
      ("@type", S("Organization")),
      ("name", S("SPYLT")),
      ("address", JObj([
        ("@type", S("PostalAddress")),
        ("streetAddress", S("123 Milk Street, Suite 500")),
        ("addressLocality", S("Dairy Valley")),
        ("addressRegion", S("CA")),
        ("postalCode", S("90210")),
        ("addressCountry", S("US"))])),
      ("telephone", S("+1-555-123-SPYLT")),
      ("email", S("hello@spylt.com"))]))
  ]

  /** `generateStructuredData(pathname)` */
  function StructuredData(pathname: string): (r: Json)
    ensures r.JObj?
  {
    if pathname == "/" then JObj(Spread(BASE_ORGANIZATION, HOME_EXTRA))
    else if pathname == "/spylt-flavors" then JObj(FLAVORS_DATA)
    else if pathname == "/company" then JObj(Spread(BASE_ORGANIZATION, COMPANY_EXTRA))
    else if pathname == "/contact" then JObj(CONTACT_DATA)
    else JObj(BASE_ORGANIZATION)
  }

  /** Every page's JSON-LD is a schema.org object, typed by page: the home
      page an Organization and a Brand, the flavors page a product
      collection, the contact page a contact page, the rest an
      Organization. */
  lemma StructuredDataSchema(pathname: string)
    ensures StructuredData(pathname).JObj?
    ensures Get(StructuredData(pathname).fields, "@context") == Some(S("https://schema.org"))
    ensures Get(StructuredData(pathname).fields, "@type") == Some(SchemaType(pathname))
  {
    if pathname == "/" {
      HomeStructuredData("@context");
      BaseSchema();
    } else if pathname == "/company" {
      BaseKeys();
      CompanyStructuredData("@context");
      CompanyStructuredData("@type");
      BaseSchema();
    } else if pathname == "/spylt-flavors" {
      ObjectSchema(FLAVORS_DATA, S("ProductCollection"));
    } else if pathname == "/contact" {
      ObjectSchema(CONTACT_DATA, S("ContactPage"));
    } else {
      OtherPathsGetBase(pathname);
      BaseSchema();
    }
  }

  lemma BaseSchema()
    ensures Get(BASE_ORGANIZATION, "@context") == Some(S("https://schema.org"))
    ensures Get(BASE_ORGANIZATION, "@type") == Some(S("Organization"))
  {
    ObjectSchema(BASE_ORGANIZATION, S("Organization"));
  }

  lemma ObjectSchema(o: Object<Json>, t: Json)
    requires |o| >= 2 && o[0] == ("@context", S("https://schema.org")) && o[1] == ("@type", t)
    ensures Get(o, "@context") == Some(S("https://schema.org")) && Get(o, "@type") == Some(t)
  {
    assert o[1..][0] == o[1];
  }


  /** The schema.org type each page declares. */
  function SchemaType(pathname: string): Json {
    if pathname == "/" then JArr([S("Organization"), S("Brand")])
    else if pathname == "/spylt-flavors" then S("ProductCollection")
    else if pathname == "/contact" then S("ContactPage")
    else S("Organization")
  }




  const BASE_KEYS: seq<string> := ["@context", "@type", "name", "alternateName", "url", "logo",
                                    "description", "foundingDate", "founder", "contactPoint", "sameAs"]

  lemma BaseKeys()
    ensures Keys(BASE_ORGANIZATION) == BASE_KEYS
  {
  }

  lemma ExtraKeys()
    ensures Keys(HOME_EXTRA) == ["@type", "brand"] && UniqueKeys(HOME_EXTRA)
    ensures Keys(COMPANY_EXTRA) == ["numberOfEmployees", "industry", "award"] && UniqueKeys(COMPANY_EXTRA)
  {
  }

  lemma ReplacementKeys()
    ensures Keys(FLAVORS_DATA) == ["@context", "@type", "name", "description", "brand", "offers"]
    ensures Keys(CONTACT_DATA) == ["@context", "@type", "mainEntity"]
  {
  }

  lemma BaseKeysNotCompanyExtras(k: string)
    requires k in BASE_KEYS
    ensures k !in ["numberOfEmployees", "industry", "award"]
  {
  }

  /** The home page is an Organization and a Brand, with a brand block, and
      otherwise the base organization. */
  lemma HomeStructuredData(k: string)
    ensures var o := StructuredData("/").fields;
            && Get(o, "@type") == Some(JArr([S("Organization"), S("Brand")]))
            && Get(o, "brand").Some?
            && (k != "@type" && k != "brand" ==> Get(o, k) == Get(BASE_ORGANIZATION, k))
  {
    ExtraKeys();
    GetSpread(BASE_ORGANIZATION, HOME_EXTRA, "@type");
    GetSpread(BASE_ORGANIZATION, HOME_EXTRA, "brand");
    GetSpread(BASE_ORGANIZATION, HOME_EXTRA, k);
  }

  /** The company page keeps every base field and adds three. */
  lemma CompanyStructuredData(k: string)
    ensures var o := StructuredData("/company").fields;
            && (k in Keys(BASE_ORGANIZATION) ==> Get(o, k) == Get(BASE_ORGANIZATION, k))
            && Get(o, "numberOfEmployees") == Some(S("50-100"))
            && Get(o, "industry") == Some(S("Food and Beverage"))
            && Get(o, "award").Some?
  {
    BaseKeys();
    ExtraKeys();
    if k in BASE_KEYS {
      BaseKeysNotCompanyExtras(k);
    }
    GetSpread(BASE_ORGANIZATION, COMPANY_EXTRA, k);
    GetSpread(BASE_ORGANIZATION, COMPANY_EXTRA, "numberOfEmployees");
    GetSpread(BASE_ORGANIZATION, COMPANY_EXTRA, "industry");
    GetSpread(BASE_ORGANIZATION, COMPANY_EXTRA, "award");
  }

  /** Any path without a case of its own gets the base organization. */
  lemma OtherPathsGetBase(pathname: string)
    requires pathname !in {"/", "/spylt-flavors", "/company", "/contact"}
    ensures StructuredData(pathname) == JObj(BASE_ORGANIZATION)
  {
  }

  /** The flavors and contact pages replace the organization: none of its
      identifying fields (alternate name, url, logo, founding date, founder,
      contact point, social links) appears in them, while the home page has
      them all. */
  lemma FlavorsAndContactDropOrganization(k: string)
    requires k in ORGANIZATION_ONLY
    ensures Get(StructuredData("/spylt-flavors").fields, k).None?
    ensures Get(StructuredData("/contact").fields, k).None?
    ensures Get(StructuredData("/").fields, k).Some?
  {
    ReplacementsLack(k);
    HomeHas(k);
  }

  const ORGANIZATION_ONLY: seq<string> := ["alternateName", "url", "logo", "foundingDate", "founder", "contactPoint", "sameAs"]

  lemma ReplacementsLack(k: string)
    requires k in ORGANIZATION_ONLY
    ensures Get(FLAVORS_DATA, k).None? && Get(CONTACT_DATA, k).None?
  {
    ReplacementKeys();
  }

  lemma HomeHas(k: string)
    requires k in ORGANIZATION_ONLY
    ensures Get(Spread(BASE_ORGANIZATION, HOME_EXTRA), k).Some?
  {
    BaseKeys();
    ExtraKeys();
    GetSpread(BASE_ORGANIZATION, HOME_EXTRA, k);
  }

  // ---------------------------------------------------------------------
  // Sitemap

  const SITE_URL: string := "https://github.com/Lakhyajit-96/Spylt"

  datatype SitemapEntry = SitemapEntry(url: string, changefreq: string, priority: string)

  /** `generateSitemap()`, without the `lastmod` date. */
  function Sitemap(): (r: seq<SitemapEntry>)
    ensures |r| == |SEO_CONFIG|
  {
    var paths := Keys(SEO_CONFIG);
    seq(|paths|, i requires 0 <= i < |paths| =>
      SitemapEntry(SITE_URL + paths[i],
                   if paths[i] == "/" then "weekly" else "monthly",
                   if paths[i] == "/" then "1.0" else "0.8"))
  }

  /** One entry per configured path, in key order: the URL is the site URL
      followed by the path, and only the home page is weekly with priority
      1.0. */
  lemma SitemapEntries(i: nat)
    requires i < |SEO_CONFIG|
    ensures var e := Sitemap()[i];
            var path := SEO_CONFIG[i].0;
            && e.url[..|SITE_URL|] == SITE_URL && e.url[|SITE_URL|..] == path
            && (e.changefreq == "weekly" <==> path == "/")
            && (e.priority == "1.0" <==> path == "/")
            && (path != "/" ==> e.changefreq == "monthly" && e.priority == "0.8")
  {
    KeysAt(SEO_CONFIG, i);
  }

  /** Exactly one sitemap entry, the first, has priority 1.0. */
  lemma SitemapSingleTopPriority(i: nat)
    requires i < |SEO_CONFIG|
    ensures Sitemap()[i].priority == "1.0" <==> i == 0
  {
    KeysAt(SEO_CONFIG, i);
  }
}
