/** The Tasty Talk blog page (src/pages/TastyTalkPage.jsx): a fixed list
    of posts, the category buttons, the category filter, the featured card
    and the grid under it. Only what the filter and the layout look at is
    kept of a post: its id and category. The filter state is only ever set
    from a button, so it is one of the button ids; ids are modelled as a
    datatype and `Id` gives the string the page compares. */
module Blog {

  datatype Category = Science | Fitness | Company | Sustainability | Innovation

  /** A button's id: `all` or a category. */
  datatype Filter = All | Only(category: Category)

  datatype Post = Post(id: nat, category: Category)

  /** The string a category is spelled with, on posts and on buttons. */
  function CategoryId(c: Category): string {
    match c
    case Science => "science"
    case Fitness => "fitness"
    case Company => "company"
    case Sustainability => "sustainability"
    case Innovation => "innovation"
  }

  function Id(f: Filter): string {
    match f
    case All => "all"
    case Only(c) => CategoryId(c)
  }

  /** Distinct buttons have distinct ids, so comparing the strings, as the
      page does, is comparing the filters. */
  lemma IdInjective(f: Filter, g: Filter)
    ensures Id(f) == Id(g) <==> f == g
  {
    if f != g {
      assert Id(f)[0] != Id(g)[0] || Id(f)[1] != Id(g)[1] || |Id(f)| != |Id(g)|;
    }
  }

  /** `blogPosts`, in page order. */
  const BLOG_POSTS: seq<Post> := [
    Post(1, Science),
    Post(2, Fitness),
    Post(3, Company),
    Post(4, Sustainability),
    Post(5, Fitness),
    Post(6, Innovation)
  ]

  /** `categories`: the buttons, in order, with their labels. */
  const CATEGORIES: seq<(Filter, string)> := [
    (All, "All Posts"),
    (Only(Science), "Science"),
    (Only(Fitness), "Fitness"),
    (Only(Company), "Company"),
    (Only(Sustainability), "Sustainability"),
    (Only(Innovation), "Innovation")
  ]

  /** There is one button per filter. */
  lemma ButtonsCoverFilters(f: Filter)
    ensures exists i :: 0 <= i < |CATEGORIES| && CATEGORIES[i].0 == f
  {
    var i := match f
      case All => 0
      case Only(Science) => 1
      case Only(Fitness) => 2
      case Only(Company) => 3
      case Only(Sustainability) => 4
      case Only(Innovation) => 5;
    assert CATEGORIES[i].0 == f;
  }

  /** `posts.filter(post => post.category === c)` */
  function OfCategory(posts: seq<Post>, c: Category): (r: seq<Post>)
    ensures |r| <= |posts|
  {
    if |posts| == 0 then []
    else (if posts[0].category == c then [posts[0]] else []) + OfCategory(posts[1..], c)
  }

  /** The filter keeps exactly the posts of the category. */
  lemma {:induction false} OfCategoryMembers(posts: seq<Post>, c: Category)
    ensures forall x :: x in OfCategory(posts, c) <==> x in posts && x.category == c
    decreases |posts|
  {
    if |posts| > 0 {
      OfCategoryMembers(posts[1..], c);
      assert posts == [posts[0]] + posts[1..];
    }
  }

  /** Filtering keeps order: the filter of a concatenation is the
      concatenation of the filters. */
  lemma {:induction false} OfCategoryAppend(a: seq<Post>, b: seq<Post>, c: Category)
    ensures OfCategory(a + b, c) == OfCategory(a, c) + OfCategory(b, c)
    decreases |a|
  {
    if |a| == 0 {
      assert a + b == b;
    } else {
      var h := if a[0].category == c then [a[0]] else [];
      assert (a + b)[0] == a[0];
      assert (a + b)[1..] == a[1..] + b;
      OfCategoryAppend(a[1..], b, c);
      calc {
        OfCategory(a + b, c);
        h + OfCategory(a[1..] + b, c);
        h + (OfCategory(a[1..], c) + OfCategory(b, c));
        (h + OfCategory(a[1..], c)) + OfCategory(b, c);
      }
    }
  }

  /** Filtering twice by the same category is filtering once. */
  lemma {:induction false} OfCategoryIdempotent(posts: seq<Post>, c: Category)
    ensures OfCategory(OfCategory(posts, c), c) == OfCategory(posts, c)
    decreases |posts|
  {
    if |posts| > 0 {
      OfCategoryIdempotent(posts[1..], c);
      var head := if posts[0].category == c then [posts[0]] else [];
      OfCategoryAppend(head, OfCategory(posts[1..], c), c);
    }
  }

  /** `filteredPosts` for the selected filter. */
  function Filtered(filter: Filter): (r: seq<Post>)
    ensures filter == All ==> r == BLOG_POSTS
  {
    match filter
    case All => BLOG_POSTS
    case Only(c) => OfCategory(BLOG_POSTS, c)
  }

  /** A category filter keeps exactly the posts of that category. */
  lemma FilteredMembers(c: Category, x: Post)
    ensures x in Filtered(Only(c)) <==> x in BLOG_POSTS && x.category == c
  {
    OfCategoryMembers(BLOG_POSTS, c);
  }

  /** The featured card shows `blogPosts[0]` whatever the filter. */
  function Featured(filter: Filter): (p: Post)
    ensures p in BLOG_POSTS && p.id == 1
  {
    BLOG_POSTS[0]
  }

  /** The grid as written: `filteredPosts.slice(1)`. */
  function GridAsWritten(filter: Filter): (r: seq<Post>)
    ensures forall x :: x in r ==> x in Filtered(filter)
  {
    var f := Filtered(filter);
    if |f| == 0 then [] else f[1..]
  }

  /** Filtering the posts after the first `k`, one post at a time. */
  lemma {:induction false} OfCategorySuffix(c: Category, k: nat)
    requires k < |BLOG_POSTS|
    ensures OfCategory(BLOG_POSTS[k..], c)
         == (if BLOG_POSTS[k].category == c then [BLOG_POSTS[k]] else []) + OfCategory(BLOG_POSTS[k + 1..], c)
  {
    assert BLOG_POSTS[k..][1..] == BLOG_POSTS[k + 1..];
  }

  /** The filter of every category, post by post. */
  lemma {:induction false} OfCategoryUnfolded(c: Category)
    ensures OfCategory(BLOG_POSTS, c)
         == (if BLOG_POSTS[0].category == c then [BLOG_POSTS[0]] else [])
          + (if BLOG_POSTS[1].category == c then [BLOG_POSTS[1]] else [])
          + (if BLOG_POSTS[2].category == c then [BLOG_POSTS[2]] else [])
          + (if BLOG_POSTS[3].category == c then [BLOG_POSTS[3]] else [])
          + (if BLOG_POSTS[4].category == c then [BLOG_POSTS[4]] else [])
          + (if BLOG_POSTS[5].category == c then [BLOG_POSTS[5]] else [])
  {
    assert OfCategory(BLOG_POSTS[6..], c) == [];
    OfCategorySuffix(c, 5);
    OfCategorySuffix(c, 4);
    OfCategorySuffix(c, 3);
    OfCategorySuffix(c, 2);
    OfCategorySuffix(c, 1);
    OfCategorySuffix(c, 0);
    assert BLOG_POSTS[0..] == BLOG_POSTS;
  }

  /** Each category's posts, in page order. */
  lemma FilteredByCategory(c: Category)
    ensures Filtered(Only(c)) == match c
      case Science => [BLOG_POSTS[0]]
      case Fitness => [BLOG_POSTS[1], BLOG_POSTS[4]]
      case Company => [BLOG_POSTS[2]]
      case Sustainability => [BLOG_POSTS[3]]
      case Innovation => [BLOG_POSTS[5]]
  {
    OfCategoryUnfolded(c);
  }

  /** Every button selects posts. */
  lemma EveryCategoryHasPosts(f: Filter)
    ensures |Filtered(f)| > 0
  {
    if f.Only? {
      FilteredByCategory(f.category);
    }
  }

  /** As written, a category filter drops its first matching post from the
      grid while the featured card keeps showing the first post of all: the
      post with id 2 is a fitness post shown nowhere under `fitness`, and
      `science` shows an empty grid. */
  lemma GridAsWrittenHidesPosts()
    ensures BLOG_POSTS[1] in Filtered(Only(Fitness))
    ensures BLOG_POSTS[1] != Featured(Only(Fitness)) && BLOG_POSTS[1] !in GridAsWritten(Only(Fitness))
    ensures |Filtered(Only(Science))| == 1 && GridAsWritten(Only(Science)) == []
  {
    FilteredByCategory(Fitness);
    FilteredByCategory(Science);
  }

  function NotFeatured(posts: seq<Post>, f: Post): (r: seq<Post>)
    ensures forall x :: x in r <==> x in posts && x != f
  {
    if |posts| == 0 then []
    else (if posts[0] != f then [posts[0]] else []) + NotFeatured(posts[1..], f)
  }

  /** The grid as evidently intended: the filtered posts other than the
      featured one. */
  function Grid(filter: Filter): (r: seq<Post>)
    ensures forall x :: x in r <==> x in Filtered(filter) && x != Featured(filter)
  {
    NotFeatured(Filtered(filter), Featured(filter))
  }

  /** Every post the filter selects is on the page, in the featured card
      or in the grid, and none is in both. */
  lemma GridCoversFilter(filter: Filter, x: Post)
    requires x in Filtered(filter)
    ensures (x == Featured(filter)) != (x in Grid(filter))
  {
  }

  lemma {:induction false} NotFeaturedAbsent(posts: seq<Post>, f: Post)
    requires f !in posts
    ensures NotFeatured(posts, f) == posts
    decreases |posts|
  {
    if |posts| > 0 {
      NotFeaturedAbsent(posts[1..], f);
    }
  }

  /** Under `all` the intended grid is the one written: everything after
      the featured first post. */
  lemma GridAgreesUnderAll()
    ensures Grid(All) == GridAsWritten(All)
  {
    var f := BLOG_POSTS[0];
    assert NotFeatured(BLOG_POSTS, f) == NotFeatured(BLOG_POSTS[1..], f);
    NotFeaturedAbsent(BLOG_POSTS[1..], f);
  }

  /** Under `fitness` the intended grid shows both fitness posts. */
  lemma GridShowsFitnessPosts()
    ensures Grid(Only(Fitness)) == [BLOG_POSTS[1], BLOG_POSTS[4]]
  {
    FilteredByCategory(Fitness);
    var fs := [BLOG_POSTS[1], BLOG_POSTS[4]];
    NotFeaturedAbsent(fs, BLOG_POSTS[0]);
  }
}
