/**
 * The articles page's list: the articles of the active category whose
 * title or excerpt contains the search text, ignoring letter case.
 */
module Articles {
  import Seqs
  import Text

  datatype Article = Article(id: nat, title: string, category: string, date: string, excerpt: string)

  const AllCategory: string := "All"

  const Categories: seq<string> := ["All", "Wellness", "Herbal Medicine", "Philosophy", "Treatments"]

  /**
   * The page's articles. The first excerpt holds the three characters an
   * em dash becomes when its UTF-8 bytes are read as Windows-1252, as the
   * page's text has them.
   */
  const ArticleList: seq<Article> := [
    Article(1, "Understanding the Three Humors in Tibetan Medicine", "Philosophy", "January 15, 2026",
      "Explore the foundational concept of rLung, mKhris-pa, and Bad-kan \U{00E2}\U{20AC}\U{201D} the three nyepa "
      + "that govern all physiological and psychological functions."),
    Article(2, "The Healing Power of Himalayan Herbs", "Herbal Medicine", "January 8, 2026",
      "A deep dive into the rare medicinal plants found in the Himalayas and their therapeutic applications "
      + "in traditional Tibetan formulations."),
    Article(3, "Pulse Diagnosis: Reading the Body's Rhythms", "Treatments", "December 28, 2025",
      "Learn how Tibetan physicians use subtle pulse readings at the radial artery to diagnose imbalances "
      + "and guide treatment plans."),
    Article(4, "Seasonal Living According to Sowa Rigpa", "Wellness", "December 15, 2025",
      "Tibetan medicine emphasizes living in harmony with the seasons. Discover dietary and lifestyle "
      + "recommendations for each time of year.")
  ]

  /** `activeCategory === "All" || a.category === activeCategory` */
  predicate MatchesCategory(a: Article, active: string)
  {
    active == AllCategory || a.category == active
  }

  /** The lowercased search text occurs in the lowercased title or excerpt. */
  predicate MatchesSearch(a: Article, search: string)
  {
    var needle := Text.Lower(search);
    Text.Contains(Text.Lower(a.title), needle) || Text.Contains(Text.Lower(a.excerpt), needle)
  }

  predicate Matches(a: Article, search: string, active: string)
  {
    MatchesCategory(a, active) && MatchesSearch(a, search)
  }

  /** `filtered`. */
  function Filtered(articles: seq<Article>, search: string, active: string): (r: seq<Article>)
    ensures forall k :: 0 <= k < |r| ==> Matches(r[k], search, active)
  {
    Seqs.Filter(articles, a => Matches(a, search, active))
  }

  /**
   * The list keeps the matching articles, each as often as it occurs and in
   * their original order, and nothing else.
   */
  lemma FilteredKeepsExactlyMatches(articles: seq<Article>, search: string, active: string, a: Article)
    ensures Seqs.IsSubsequence(Filtered(articles, search, active), articles)
    ensures multiset(Filtered(articles, search, active))[a] == if Matches(a, search, active) then multiset(articles)[a] else 0
  {
    Seqs.FilterIsSubsequence(articles, a => Matches(a, search, active));
    Seqs.FilterCount(articles, a => Matches(a, search, active), a);
  }

  /** The search is a case-insensitive substring search over the title and the excerpt. */
  lemma MatchesSearchIff(a: Article, search: string)
    ensures MatchesSearch(a, search) <==>
              Occurs(Text.Lower(a.title), Text.Lower(search)) || Occurs(Text.Lower(a.excerpt), Text.Lower(search))
  {
    var t, e, n := Text.Lower(a.title), Text.Lower(a.excerpt), Text.Lower(search);
    Text.ContainsIff(t, n);
    Text.ContainsIff(e, n);
  }

  /** `sub` occurs somewhere in `s`. */
  ghost predicate Occurs(s: string, sub: string)
  {
    exists i :: Text.OccursAt(s, sub, i)
  }

  /** With an empty search the list is the category's articles. */
  lemma EmptySearchIsCategory(articles: seq<Article>, active: string)
    ensures Filtered(articles, "", active) == Seqs.Filter(articles, a => MatchesCategory(a, active))
  {
    forall k | 0 <= k < |articles| ensures Matches(articles[k], "", active) == MatchesCategory(articles[k], active) {
      Text.ContainsEmpty(Text.Lower(articles[k].title));
    }
    Seqs.FilterCongruent(articles, a => Matches(a, "", active), a => MatchesCategory(a, active));
  }

  /** An empty search in the "All" category lists every article. */
  lemma EmptySearchShowsAll(articles: seq<Article>)
    ensures Filtered(articles, "", AllCategory) == articles
  {
    EmptySearchIsCategory(articles, AllCategory);
    Seqs.FilterKeepsAll(articles, a => MatchesCategory(a, AllCategory));
  }

  /** For a fixed search, any category's list is a sublist of the "All" list. */
  lemma CategoryWithinAll(articles: seq<Article>, search: string, active: string)
    ensures Seqs.IsSubsequence(Filtered(articles, search, active), Filtered(articles, search, AllCategory))
  {
    Seqs.FilterMonotone(articles, a => Matches(a, search, active), a => Matches(a, search, AllCategory));
  }

  /** Searching for a text or for its lowercase form gives the same list. */
  lemma SearchIgnoresCase(articles: seq<Article>, search: string, active: string)
    ensures Filtered(articles, Text.Lower(search), active) == Filtered(articles, search, active)
  {
    Text.LowerIdempotent(search);
    Seqs.FilterCongruent(articles, a => Matches(a, Text.Lower(search), active), a => Matches(a, search, active));
  }

  /** "No articles found" is shown exactly when no article matches. */
  predicate ShowsNoResults(filtered: seq<Article>)
  {
    |filtered| == 0
  }

  lemma NoResultsIff(articles: seq<Article>, search: string, active: string)
    ensures ShowsNoResults(Filtered(articles, search, active)) <==>
              forall k :: 0 <= k < |articles| ==> !Matches(articles[k], search, active)
  {
    Seqs.FilterEmpty(articles, a => Matches(a, search, active));
  }

  /** On the page's own list, the "Wellness" category alone holds the seasonal-living article. */
  lemma WellnessHoldsOneArticle()
    ensures Filtered(ArticleList, "", "Wellness") == [ArticleList[3]]
  {
    EmptySearchIsCategory(ArticleList, "Wellness");
    var p := a => MatchesCategory(a, "Wellness");
    var s := ArticleList;
    assert !p(s[0]) && !p(s[1]) && !p(s[2]) && p(s[3]);
    assert s[1..][1..][1..][1..] == [];
    assert Seqs.Filter(s[3..], p) == [s[3]];
    assert Seqs.Filter(s[2..], p) == [s[3]];
    assert Seqs.Filter(s[1..], p) == [s[3]];
  }

  /** Every article's category is one of the page's filter buttons other than "All". */
  lemma ArticleCategoriesOffered()
    ensures forall k :: 0 <= k < |ArticleList| ==>
              ArticleList[k].category in Categories[1..] && ArticleList[k].category != AllCategory
  {
  }
}
