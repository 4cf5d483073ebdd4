/** The search repository (src/services/SearchRepository.ts): global search over
    a fixed result list, autocomplete suggestions, fixed trending and popular
    lists, and a first-match table of related searches. The simulated network
    delays are not modelled. */
module SearchRepository {
  import opened Seqs
  import opened Text
  import opened Types
  import opened Filters
  import opened Pagination

  const DefaultSearchLimit: int := 10
  const DefaultSuggestionLimit: int := 5
  const DefaultTrendingLimit: int := 10
  const DefaultTagLimit: int := 20
  const DefaultRelatedLimit: int := 5

  /** Queries shorter than this get no suggestions. */
  const MinSuggestionQuery: nat := 2

  const MockResults: seq<SearchResult> := [
    SearchResult("1", "React Hooks Tutorial", ArticleResult,
      "Learn how to use React Hooks effectively in your applications",
      "react-hooks-tutorial", ["React", "JavaScript", "Hooks"]),
    SearchResult("2", "TypeScript Guide", LibraryResult,
      "Complete guide to TypeScript for modern development",
      "typescript-guide", ["TypeScript", "JavaScript"]),
    SearchResult("3", "Node.js Best Practices", ArticleResult,
      "Best practices for Node.js development and deployment",
      "nodejs-best-practices", ["Node.js", "Backend", "JavaScript"]),
    SearchResult("4", "CSS Grid Layout", LibraryResult,
      "Master CSS Grid layout for modern web design",
      "css-grid-layout", ["CSS", "Layout", "Grid"]),
    SearchResult("5", "Python for Data Science", ArticleResult,
      "Introduction to Python for data science and analysis",
      "python-data-science", ["Python", "Data Science", "Analytics"])
  ]

  const MockSuggestions: seq<string> := [
    "React Hooks", "TypeScript", "Node.js", "CSS Grid", "Python", "JavaScript",
    "Vue.js", "Angular", "Express.js", "MongoDB", "PostgreSQL", "Docker",
    "Kubernetes", "AWS", "Machine Learning"
  ]

  const MockTrending: seq<string> := [
    "React Hooks", "TypeScript", "Node.js", "CSS Grid", "Python", "JavaScript",
    "Vue.js", "Angular", "Express.js", "MongoDB"
  ]

  const MockTags: seq<string> := [
    "React", "TypeScript", "JavaScript", "Node.js", "CSS", "HTML", "Python",
    "Vue.js", "Angular", "Express.js", "MongoDB", "PostgreSQL", "Docker", "AWS",
    "Machine Learning", "Data Science", "Web Development", "Mobile Development",
    "DevOps", "UI/UX"
  ]

  /** The related-searches table, in the order its keys are enumerated. */
  const RelatedTable: seq<(string, seq<string>)> := [
    ("react", ["React Hooks", "React Router", "React Native", "Redux", "Next.js"]),
    ("typescript", ["TypeScript Interfaces", "TypeScript Generics", "TypeScript Config", "TypeScript React", "TypeScript Node"]),
    ("node", ["Node.js", "Express.js", "NPM", "Node.js Modules", "Node.js Async"]),
    ("css", ["CSS Grid", "CSS Flexbox", "CSS Variables", "CSS Animations", "Tailwind CSS"]),
    ("python", ["Python Django", "Python Flask", "Python Data Science", "Python Machine Learning", "Python Web Scraping"])
  ]

  const DefaultRelated: seq<string> := ["JavaScript", "Web Development", "Programming", "Tutorial", "Guide"]

  /** The first `limit` entries of `s` for `slice(0, limit)` with `limit >= 0`. */
  function Prefix<T>(s: seq<T>, limit: int): seq<T>
    requires limit >= 0
  {
    s[..Min(limit, |s|)]
  }

  /** A query is blank when nothing is left after trimming white space. */
  predicate Blank(query: string) {
    Trim(query) == []
  }

  predicate ResultMatches(r: SearchResult, query: string) {
    TextMatches(r.title, r.excerpt, r.tags, Lower(query))
  }

  /** `globalSearch(query, limit)` over a result list: a blank query gives the
      first results unfiltered; otherwise the results containing the query (the
      untrimmed one) in title, excerpt or a tag. Either is cut by
      `slice(0, limit)`. */
  function SearchIn(results: seq<SearchResult>, query: string, limit: int): (r: seq<SearchResult>)
    ensures limit >= 0 ==> |r| <= limit
    ensures Blank(query) && limit >= 0 ==> r == Prefix(results, limit)
    ensures !Blank(query) && limit >= 0 ==>
      r == Prefix(Filter(results, (x: SearchResult) => ResultMatches(x, query)), limit)
    ensures !Blank(query) ==> forall i :: 0 <= i < |r| ==> r[i] in results && ResultMatches(r[i], query)
    ensures Blank(query) && limit < 0 ==> r == results[..Max(0, |results| + limit)]
    ensures !Blank(query) && limit < 0 ==>
      var matching := Filter(results, (x: SearchResult) => ResultMatches(x, query));
      r == matching[..Max(0, |matching| + limit)]
  {
    if Blank(query) then JsSlice(results, 0, limit)
    else JsSlice(Filter(results, (x: SearchResult) => ResultMatches(x, query)), 0, limit)
  }

  function GlobalSearch(query: string, limit: int): seq<SearchResult> {
    SearchIn(MockResults, query, limit)
  }

  /** `getSuggestions(query, limit)` over a suggestion list. Length counts code
      points. */
  function SuggestionsFrom(suggestions: seq<string>, query: string, limit: int): (r: seq<string>)
    ensures |query| < MinSuggestionQuery ==> r == []
    ensures limit >= 0 ==> |r| <= limit
    ensures forall i :: 0 <= i < |r| ==> r[i] in suggestions && Includes(Lower(r[i]), Lower(query))
    ensures |query| >= MinSuggestionQuery && limit >= 0 ==>
      r == Prefix(Filter(suggestions, (s: string) => Includes(Lower(s), Lower(query))), limit)
  {
    if |query| < MinSuggestionQuery then []
    else
      var q := Lower(query);
      FilteredPrefix(suggestions, (s: string) => Includes(Lower(s), q), limit);
      SliceFromStart(Filter(suggestions, (s: string) => Includes(Lower(s), q)), limit);
      JsSlice(Filter(suggestions, (s: string) => Includes(Lower(s), q)), 0, limit)
  }

  function GetSuggestions(query: string, limit: int): seq<string> {
    SuggestionsFrom(MockSuggestions, query, limit)
  }

  /** `getTrendingSearches(limit)`. */
  function GetTrendingSearches(limit: int): (r: seq<string>)
    ensures limit >= 0 ==> r == Prefix(MockTrending, limit)
    ensures limit >= 0 ==> |r| == Min(limit, |MockTrending|)
    ensures limit < 0 ==> r == MockTrending[..Max(0, |MockTrending| + limit)]
  {
    JsSlice(MockTrending, 0, limit)
  }

  /** `getPopularTags(limit)`. */
  function GetPopularTags(limit: int): (r: seq<string>)
    ensures limit >= 0 ==> r == Prefix(MockTags, limit)
    ensures limit >= 0 ==> |r| == Min(limit, |MockTags|)
    ensures limit < 0 ==> r == MockTags[..Max(0, |MockTags| + limit)]
  {
    JsSlice(MockTags, 0, limit)
  }

  /** Entry `i` is the first entry, in table order, whose key occurs in `q`. */
  predicate FirstKeyAt(table: seq<(string, seq<string>)>, q: string, i: int) {
    0 <= i < |table| && Includes(q, table[i].0)
    && forall j :: 0 <= j < i ==> !Includes(q, table[j].0)
  }

  /** `getRelatedSearches(query, limit)` over a table: the list of the first key
      contained in the lower-cased query, or the default list when none is, cut
      by `slice(0, limit)`. */
  function RelatedFrom(table: seq<(string, seq<string>)>, fallback: seq<string>, query: string, limit: int)
    : (r: seq<string>)
    ensures forall i :: FirstKeyAt(table, Lower(query), i) ==> r == JsSlice(table[i].1, 0, limit)
    ensures (forall i :: 0 <= i < |table| ==> !Includes(Lower(query), table[i].0)) ==>
      r == JsSlice(fallback, 0, limit)
  {
    var q := Lower(query);
    match Find(table, (e: (string, seq<string>)) => Includes(q, e.0))
    case Some(e) =>
      assert forall i :: FirstKeyAt(table, q, i) ==> table[i] == e by {
        forall i | FirstKeyAt(table, q, i) ensures table[i] == e {
          var k :| 0 <= k < |table| && table[k] == e
                   && forall j :: 0 <= j < k ==> !Includes(q, table[j].0);
          assert !(k < i) && !(i < k);
        }
      }
      JsSlice(e.1, 0, limit)
    case None => JsSlice(fallback, 0, limit)
  }

  function GetRelatedSearches(query: string, limit: int): seq<string> {
    RelatedFrom(RelatedTable, DefaultRelated, query, limit)
  }

  /** A query naming two topics gets the related list of the topic listed first
      in the table, not of the one typed first. */
  lemma TableOrderWins(q: string)
    requires q == "typescript react"
    ensures GetRelatedSearches(q, DefaultRelatedLimit) == RelatedTable[0].1
  {
    assert Lower(q) == q;
    assert OccursAt(q, "react", 11);
    IncludesIff(q, "react");
    assert FirstKeyAt(RelatedTable, Lower(q), 0);
  }
}
