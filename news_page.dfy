/** The list logic of the news page (src/pages/News.tsx): the filter over the
    loaded articles, the sort applied to a copy of the filtered list, and the tag
    and language lists offered as filter choices. The loaded articles and the
    page's controls are inputs. */
module NewsPage {
  import opened Seqs
  import opened Text
  import opened Types

  // ---------------------------------------------------------------------------
  // Filter

  /** An article stays when its lower-cased title or excerpt contains the
      lower-cased query (tags are not searched), and when the selected tag and
      language, if any, match exactly. */
  predicate NewsMatches(a: Article, query: string, tag: string, language: string) {
    (Includes(Lower(a.title), Lower(query)) || Includes(Lower(a.excerpt), Lower(query)))
    && (tag == "" || tag in a.tags)
    && (language == "" || a.language == language)
  }

  /** `filteredArticles`. */
  function FilteredArticles(articles: seq<Article>, query: string, tag: string, language: string): (r: seq<Article>)
    ensures forall a :: a in r <==> a in articles && NewsMatches(a, query, tag, language)
    ensures IsSubsequence(r, articles)
    ensures forall a :: multiset(r)[a] == if NewsMatches(a, query, tag, language) then multiset(articles)[a] else 0
  {
    var p := (a: Article) => NewsMatches(a, query, tag, language);
    forall a ensures a in Filter(articles, p) <==> a in articles && p(a) {
      FilterMember(articles, p, a);
    }
    forall a ensures multiset(Filter(articles, p))[a] == if p(a) then multiset(articles)[a] else 0 {
      FilterCount(articles, p, a);
    }
    Filter(articles, p)
  }

  /** With an empty query and no tag or language selected every article is shown,
      in its original order. */
  lemma EmptyControlsShowAll(articles: seq<Article>)
    ensures FilteredArticles(articles, "", "", "") == articles
  {
    forall a | a in articles ensures NewsMatches(a, "", "", "") {
      assert StartsWith(Lower(a.title), Lower(""));
    }
    FilterAll(articles, (a: Article) => NewsMatches(a, "", "", ""));
  }

  // ---------------------------------------------------------------------------
  // Sort

  datatype SortBy = Popular | Recent | ReadingTime

  /** `article.views || 0`. */
  function Views(a: Article): int {
    if a.views.Some? then a.views.value else 0
  }

  /** The comparator of each choice, as a key sorted in ascending order: most
      viewed first, newest first, shortest read first. */
  function SortKey(order: SortBy, a: Article): int {
    match order
    case Popular => -Views(a)
    case Recent => -a.publishedAt
    case ReadingTime => a.readingTime
  }

  predicate SortedBy<T>(s: seq<T>, key: T -> int) {
    forall i, j :: 0 <= i < j < |s| ==> key(s[i]) <= key(s[j])
  }

  /** Puts `x` in front of the first element of the sorted `t` whose key is not
      smaller. */
  function Insert<T>(x: T, t: seq<T>, key: T -> int): (r: seq<T>)
    requires SortedBy(t, key)
    ensures SortedBy(r, key)
    ensures multiset(r) == multiset{x} + multiset(t)
    ensures |r| == |t| + 1
  {
    if t == [] || key(x) <= key(t[0]) then [x] + t
    else
      var rest := Insert(x, t[1..], key);
      assert multiset(t) == multiset{t[0]} + multiset(t[1..]) by { assert t == [t[0]] + t[1..]; }
      InsertedHead(x, t, rest, key);
      ConsSorted(t[0], rest, key);
      [t[0]] + rest
  }

  /** When `x` goes after the head of `t`, the head stays no larger than whatever
      comes first in the rest. */
  lemma InsertedHead<T>(x: T, t: seq<T>, rest: seq<T>, key: T -> int)
    requires SortedBy(t, key) && t != [] && key(t[0]) < key(x)
    requires multiset(rest) == multiset{x} + multiset(t[1..]) && rest != []
    ensures key(t[0]) <= key(rest[0])
  {
    assert rest[0] in multiset(rest);
    if rest[0] != x {
      assert rest[0] in t[1..];
    }
  }

  /** An element no larger than the head of a sorted list can go in front. */
  lemma ConsSorted<T>(y: T, s: seq<T>, key: T -> int)
    requires SortedBy(s, key) && (s != [] ==> key(y) <= key(s[0]))
    ensures SortedBy([y] + s, key)
  {
  }

  /** A stable sort by `key`: the array sort the page applies to a copy of the
      filtered list. */
  function SortByKey<T>(s: seq<T>, key: T -> int): (r: seq<T>)
    ensures SortedBy(r, key)
    ensures multiset(r) == multiset(s)
  {
    if s == [] then []
    else
      assert s == [s[0]] + s[1..];
      Insert(s[0], SortByKey(s[1..], key), key)
  }

  /** `sortedArticles`: a reordering of the filtered articles by the chosen key. */
  function SortedArticles(filtered: seq<Article>, order: SortBy): (r: seq<Article>)
    ensures multiset(r) == multiset(filtered)
    ensures forall i, j :: 0 <= i < j < |r| ==> SortKey(order, r[i]) <= SortKey(order, r[j])
  {
    SortByKey(filtered, (a: Article) => SortKey(order, a))
  }

  /** Inserting keeps, among the elements of any one key, `x` ahead of those
      already there. */
  lemma {:induction false} InsertStable<T>(x: T, t: seq<T>, key: T -> int, k: int)
    requires SortedBy(t, key)
    ensures Filter(Insert(x, t, key), (y: T) => key(y) == k)
         == Keep(x, (y: T) => key(y) == k) + Filter(t, (y: T) => key(y) == k)
    decreases |t|
  {
    var p := (y: T) => key(y) == k;
    if t == [] || key(x) <= key(t[0]) {
      FilterAppend([x], t, p);
      assert Filter([x], p) == Keep(x, p);
    } else {
      var rest := Insert(x, t[1..], key);
      assert Insert(x, t, key) == [t[0]] + rest;
      InsertStable(x, t[1..], key, k);
      assert t == [t[0]] + t[1..];
      PassAhead(t[0], x, rest, t[1..], p);
    }
  }

  /** `y` going ahead of `x` leaves the filtered order unchanged when at most one
      of the two is kept. */
  lemma PassAhead<T>(y: T, x: T, rest: seq<T>, tail: seq<T>, p: T -> bool)
    requires !(p(y) && p(x))
    requires Filter(rest, p) == Keep(x, p) + Filter(tail, p)
    ensures Filter([y] + rest, p) == Keep(x, p) + Filter([y] + tail, p)
  {
    FilterAppend([y], rest, p);
    FilterAppend([y], tail, p);
    assert Filter([y], p) == Keep(y, p);
  }

  /** The sort is stable: the elements sharing any one key keep their relative
      order, so ties stay in filtered order. */
  lemma {:induction false} SortStable<T>(s: seq<T>, key: T -> int, k: int)
    ensures Filter(SortByKey(s, key), (y: T) => key(y) == k) == Filter(s, (y: T) => key(y) == k)
    decreases |s|
  {
    if s != [] {
      SortStable(s[1..], key, k);
      InsertStable(s[0], SortByKey(s[1..], key), key, k);
      FilterStep(s, 0, (y: T) => key(y) == k);
      assert s[0..] == s && s[1..] == s[1..];
    }
  }

  /** Sorting by popularity puts an article with more views ahead of one with
      fewer; a missing view count counts as zero. */
  lemma PopularOrder(filtered: seq<Article>, i: int, j: int)
    requires 0 <= i < j < |SortedArticles(filtered, Popular)|
    ensures Views(SortedArticles(filtered, Popular)[i]) >= Views(SortedArticles(filtered, Popular)[j])
  {
  }

  // ---------------------------------------------------------------------------
  // Filter choices

  /** Some article carries tag `t`. */
  predicate HasTag(articles: seq<Article>, t: string) {
    exists i :: 0 <= i < |articles| && t in articles[i].tags
  }

  lemma HasTagCons(articles: seq<Article>, t: string)
    requires articles != []
    ensures HasTag(articles, t) <==> t in articles[0].tags || HasTag(articles[1..], t)
  {
    if HasTag(articles[1..], t) {
      var i :| 0 <= i < |articles[1..]| && t in articles[1..][i].tags;
      assert articles[i + 1] == articles[1..][i];
    }
    if HasTag(articles, t) && t !in articles[0].tags {
      var i :| 0 <= i < |articles| && t in articles[i].tags;
      assert articles[1..][i - 1] == articles[i];
    }
  }

  /** `articles.flatMap(a => a.tags)`. */
  function AllTagOccurrences(articles: seq<Article>): (r: seq<string>)
    ensures forall t :: t in r <==> HasTag(articles, t)
  {
    if articles == [] then []
    else
      var rest := AllTagOccurrences(articles[1..]);
      forall t ensures t in articles[0].tags + rest <==> HasTag(articles, t) {
        HasTagCons(articles, t);
      }
      articles[0].tags + rest
  }

  /** `allTags`: every tag of any article exactly once, in the order of first
      occurrence. */
  function AllTags(articles: seq<Article>): (r: seq<string>)
    ensures forall t :: t in r <==> HasTag(articles, t)
    ensures forall i, j :: 0 <= i < j < |r| ==> r[i] != r[j]
    ensures InFirstOccurrenceOrder(r, AllTagOccurrences(articles))
  {
    DedupMembers(AllTagOccurrences(articles));
    Dedup(AllTagOccurrences(articles))
  }

  /** `articles.map(a => a.language)`. */
  function Languages(articles: seq<Article>): (r: seq<string>)
    ensures |r| == |articles| && forall i :: 0 <= i < |r| ==> r[i] == articles[i].language
  {
    seq(|articles|, i requires 0 <= i < |articles| => articles[i].language)
  }

  /** `allLanguages`: every article language exactly once, in the order of first
      occurrence. */
  function AllLanguages(articles: seq<Article>): (r: seq<string>)
    ensures forall l :: l in r <==> exists i :: 0 <= i < |articles| && articles[i].language == l
    ensures forall i, j :: 0 <= i < j < |r| ==> r[i] != r[j]
    ensures InFirstOccurrenceOrder(r, Languages(articles))
  {
    var langs := Languages(articles);
    DedupMembers(langs);
    assert forall l :: l in langs <==> exists i :: 0 <= i < |articles| && articles[i].language == l by {
      forall l | exists i :: 0 <= i < |articles| && articles[i].language == l ensures l in langs {
        var i :| 0 <= i < |articles| && articles[i].language == l;
        assert langs[i] == l;
      }
    }
    Dedup(langs)
  }
}
