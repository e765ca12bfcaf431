/** The build's `assetFileNames` rule (vite.config.js): an emitted asset
    is filed under `images`, `fonts` or `media` by a case-insensitive test
    of its file-name ending, and under a directory named after its
    extension otherwise. The result is a Rollup name pattern; `[name]`,
    `[hash]` and `[ext]` are left for Rollup to fill in. */
module AssetNames {
  import opened Text
  import Performance

  /** `name.split('.')` and its last element: the text after the last dot,
      or the whole name when there is no dot. */
  function LastSegment(s: string): (r: string)
    ensures '.' !in r
    ensures |r| <= |s| && r == s[|s| - |r|..]
    ensures |r| < |s| ==> s[|s| - |r| - 1] == '.'
  {
    if |s| == 0 then ""
    else if s[|s| - 1] == '.' then ""
    else
      var p := s[..|s| - 1];
      var init := LastSegment(p);
      var r := init + [s[|s| - 1]];
      var start := |s| - |r|;
      assert start == |p| - |init|;
      assert s[start..] == s[start..|s| - 1] + [s[|s| - 1]];
      assert s[start..|s| - 1] == p[start..];
      assert '.' !in r by {
        assert forall c :: c in r ==> c in init || c == s[|s| - 1];
      }
      assert |init| < |p| ==> s[start - 1] == p[start - 1];
      r
  }

  predicate HasDot(s: string) {
    '.' in s
  }

  /** The last segment is everything after the last dot. */
  lemma {:induction false} LastSegmentAt(s: string, k: int)
    requires 0 <= k < |s| && s[k] == '.'
    requires forall j :: k < j < |s| ==> s[j] != '.'
    ensures LastSegment(s) == s[k + 1..]
    decreases |s|
  {
    if k < |s| - 1 {
      var p := s[..|s| - 1];
      LastSegmentAt(p, k);
      assert s[k + 1..] == p[k + 1..] + [s[|s| - 1]];
    }
  }

  /** A name without a dot is its own last segment. */
  lemma {:induction false} LastSegmentNoDot(s: string)
    requires !HasDot(s)
    ensures LastSegment(s) == s
    decreases |s|
  {
    if |s| > 0 {
      var p := s[..|s| - 1];
      LastSegmentNoDot(p);
      assert s == p + [s[|s| - 1]];
    }
  }

  /** The case-insensitive test for one ending `.e`, on an extension `e`
      that is lower-case and has no dot, is the same as comparing the
      lowered last segment of a dotted name with `e`. */
  lemma EndingIsExtension(name: string, e: string)
    requires '.' !in e && ToLower(e) == e
    ensures EndsWithIgnoreCase(name, "." + e)
        <==> HasDot(name) && ToLower(LastSegment(name)) == e
  {
    if EndsWithIgnoreCase(name, "." + e) {
      EndingGivesExtension(name, e);
    }
    if HasDot(name) && ToLower(LastSegment(name)) == e {
      ExtensionGivesEnding(name, e);
    }
  }

  lemma EndingGivesExtension(name: string, e: string)
    requires '.' !in e
    requires EndsWithIgnoreCase(name, "." + e)
    ensures HasDot(name) && ToLower(LastSegment(name)) == e
  {
    var n := |name|;
    var d := "." + e;
    var k := n - |d|;
    LowerAtEnd(name, d, |d|);
    assert name[k] == '.';
    forall j | k < j < n ensures name[j] != '.' {
      LowerAtEnd(name, d, n - j);
      assert d[|d| - (n - j)] == e[j - k - 1];
    }
    LastSegmentAt(name, k);
    var low := ToLower(name[k..]);
    assert low == d;
    assert ToLower(name[k + 1..]) == low[1..];
  }

  lemma ExtensionGivesEnding(name: string, e: string)
    requires HasDot(name) && ToLower(LastSegment(name)) == e
    ensures EndsWithIgnoreCase(name, "." + e)
  {
    var n := |name|;
    var l := LastSegment(name);
    if |l| == |name| {
      assert false;
    }
    var k := n - |l| - 1;
    assert name[k..] == ['.'] + l;
    assert ToLower(name[k..]) == [LowerChar('.')] + ToLower(l);
  }

  /** The alternatives of `/\.(png|jpe?g|svg|gif|tiff|bmp|ico)$/i`. */
  const IMAGE_EXTS: seq<string> := ["png", "jpg", "jpeg", "svg", "gif", "tiff", "bmp", "ico"]
  /** The alternatives of `/\.(woff2?|eot|ttf|otf)$/i`. */
  const FONT_EXTS: seq<string> := ["woff", "woff2", "eot", "ttf", "otf"]
  /** The alternatives of `/\.(mp4|webm|ogg|mp3|wav|flac|aac)$/i`. */
  const MEDIA_EXTS: seq<string> := ["mp4", "webm", "ogg", "mp3", "wav", "flac", "aac"]

  predicate PlainExtensions(exts: seq<string>) {
    forall i :: 0 <= i < |exts| ==> '.' !in exts[i] && ToLower(exts[i]) == exts[i]
  }

  /** The regular expression's test: some alternative ends the name. */
  function MatchesAny(name: string, exts: seq<string>): (b: bool)
    ensures b <==> exists i :: 0 <= i < |exts| && EndsWithIgnoreCase(name, "." + exts[i])
  {
    if |exts| == 0 then false
    else EndsWithIgnoreCase(name, "." + exts[0]) || MatchesAny(name, exts[1..])
  }

  /** The regular-expression test is a lookup of the lowered extension. */
  lemma MatchesAnyIsLookup(name: string, exts: seq<string>)
    requires PlainExtensions(exts)
    ensures MatchesAny(name, exts) <==> HasDot(name) && ToLower(LastSegment(name)) in exts
  {
    forall i | 0 <= i < |exts|
      ensures EndsWithIgnoreCase(name, "." + exts[i]) <==> HasDot(name) && ToLower(LastSegment(name)) == exts[i]
    {
      EndingIsExtension(name, exts[i]);
    }
  }

  datatype Folder = Images | Fonts | Media | ByExtension

  /** The three tests in the order the build makes them. */
  function FolderOf(name: string): (f: Folder)
    ensures !HasDot(name) ==> f == ByExtension
    ensures f == Images ==> ToLower(LastSegment(name)) in IMAGE_EXTS
    ensures f == Fonts ==> ToLower(LastSegment(name)) in FONT_EXTS
    ensures f == Media ==> ToLower(LastSegment(name)) in MEDIA_EXTS
  {
    ExtensionListsPlain();
    MatchesAnyIsLookup(name, IMAGE_EXTS);
    MatchesAnyIsLookup(name, FONT_EXTS);
    MatchesAnyIsLookup(name, MEDIA_EXTS);
    if MatchesAny(name, IMAGE_EXTS) then Images
    else if MatchesAny(name, FONT_EXTS) then Fonts
    else if MatchesAny(name, MEDIA_EXTS) then Media
    else ByExtension
  }

  const ASSETS := "assets/"
  const STEM := "/[name]-[hash]."

  /** The folder part of the pattern: `[ext]` is left for Rollup. */
  function FolderName(f: Folder): string {
    match f
    case Images => "images"
    case Fonts => "fonts"
    case Media => "media"
    case ByExtension => "[ext]"
  }

  /** `assetFileNames(assetInfo)` for `assetInfo.name == name`: the
      pattern always keeps the name's last segment as its extension. */
  function AssetFileName(name: string): (r: string)
    ensures StartsWith(r, ASSETS)
    ensures EndsWith(r, STEM + LastSegment(name))
  {
    var tail := STEM + LastSegment(name);
    var r := ASSETS + FolderName(FolderOf(name)) + tail;
    assert r[..|ASSETS|] == ASSETS;
    assert r[|r| - |tail|..] == tail;
    r
  }

  lemma ExtensionListsPlain()
    ensures PlainExtensions(IMAGE_EXTS) && PlainExtensions(FONT_EXTS) && PlainExtensions(MEDIA_EXTS)
  {
  }

  /** No extension is in two lists, so the order of the tests is
      immaterial. */
  lemma ExtensionListsDisjoint(x: string)
    ensures !(x in IMAGE_EXTS && x in FONT_EXTS)
    ensures !(x in IMAGE_EXTS && x in MEDIA_EXTS)
    ensures !(x in FONT_EXTS && x in MEDIA_EXTS)
  {
  }

  /** Each folder holds exactly the dotted names whose lowered extension
      is in its list; everything else is filed by extension. */
  lemma FolderByExtension(name: string)
    ensures var x := ToLower(LastSegment(name));
            && (FolderOf(name) == Images <==> HasDot(name) && x in IMAGE_EXTS)
            && (FolderOf(name) == Fonts <==> HasDot(name) && x in FONT_EXTS)
            && (FolderOf(name) == Media <==> HasDot(name) && x in MEDIA_EXTS)
            && (FolderOf(name) == ByExtension <==>
                  !HasDot(name) || (x !in IMAGE_EXTS && x !in FONT_EXTS && x !in MEDIA_EXTS))
  {
    ExtensionListsPlain();
    MatchesAnyIsLookup(name, IMAGE_EXTS);
    MatchesAnyIsLookup(name, FONT_EXTS);
    MatchesAnyIsLookup(name, MEDIA_EXTS);
    ExtensionListsDisjoint(ToLower(LastSegment(name)));
  }

  /** Where a file goes, read off its lowered extension alone: the list that
      holds it, or `[ext]` for a dot-free name or an unlisted extension. */
  function ExtensionFolder(name: string): Folder {
    var x := ToLower(LastSegment(name));
    if !HasDot(name) then ByExtension
    else if x in IMAGE_EXTS then Images
    else if x in FONT_EXTS then Fonts
    else if x in MEDIA_EXTS then Media
    else ByExtension
  }

  /** The whole output path: `assets/`, the folder of the list holding the
      lowered extension, then `/[name]-[hash].` and the extension. */
  lemma AssetFileNameByExtension(name: string)
    ensures AssetFileName(name) == ASSETS + FolderName(ExtensionFolder(name)) + STEM + LastSegment(name)
  {
    FolderByExtension(name);
    assert FolderOf(name) == ExtensionFolder(name);
  }

  /** A name without a dot is filed under its own name. */
  lemma NoDotIsOwnExtension(name: string)
    requires !HasDot(name)
    ensures FolderOf(name) == ByExtension
    ensures AssetFileName(name) == ASSETS + "[ext]" + STEM + name
  {
    FolderByExtension(name);
    LastSegmentNoDot(name);
  }

  lemma WebpNotListed()
    ensures "webp" !in IMAGE_EXTS && "webp" !in FONT_EXTS && "webp" !in MEDIA_EXTS
  {
  }

  /** A name ending in `.webp` has `webp` as its last segment. */
  lemma WebpLastSegment(w: string)
    requires EndsWith(w, ".webp")
    ensures HasDot(w) && ToLower(LastSegment(w)) == "webp"
  {
    var k := |w| - 5;
    assert w[k..] == ".webp";
    assert w[k] == '.';
    LastSegmentAt(w, k);
    assert LastSegment(w) == "webp";
  }

  /** The WebP variants the image component derives are not in the image
      list, so they are filed by extension rather than under `images`. */
  lemma WebpVariantsNotInImages(src: string)
    requires Performance.HasRasterEnding(src)
    ensures FolderOf(Performance.WebpPath(src)) == ByExtension
  {
    var w := Performance.WebpPath(src);
    Performance.WebpPathChanges(src);
    WebpLastSegment(w);
    WebpNotListed();
    FolderByExtension(w);
  }
}
