/** The article repository (src/services/ArticlesRepository.ts): a fixed list of
    articles, narrowed by optional filters and cut into pages, plus lookup by slug
    and the featured list. The simulated network delays are not modelled. */
module ArticlesRepository {
  import opened Seqs
  import opened Text
  import opened Types
  import opened Pagination
  import opened Filters

  const DefaultPage: int := 1
  const DefaultLimit: int := 10
  const DefaultFeaturedLimit: int := 5
  /** The page size `getFeaturedArticles` asks `getArticles` for. */
  const FeaturedSource: int := 50

  const NotFound: string := "Article not found"

  const SiteAuthor: Author := Author("1", "P. Sonats")

  /** One mock record: every mock article is by the same author, in Portuguese,
      never updated after publication, without category or view count. */
  function MockArticle(id: string, title: string, slug: string, excerpt: string, content: string,
                       publishedAt: int, tags: seq<string>, readingTime: int, featured: bool): Article
  {
    Article(id, title, slug, excerpt, content, SiteAuthor, tags, None, "pt",
            readingTime, publishedAt, publishedAt, featured, None)
  }

  const ReactTitle := "React Hooks: Guia Completo"
  const ReactSlug := "react-hooks-guia-completo"
  const ReactExcerpt := "Aprenda tudo sobre React Hooks, desde useState até custom hooks avançados."
  const TypeScriptTitle := "TypeScript para Iniciantes"
  const TypeScriptSlug := "typescript-para-iniciantes"
  const TypeScriptExcerpt := "Introdução completa ao TypeScript para desenvolvedores JavaScript."
  const NodeTitle := "Node.js Best Practices"
  const NodeSlug := "nodejs-best-practices"
  const NodeExcerpt := "Melhores práticas para desenvolvimento Node.js em produção."
  const GridTitle := "CSS Grid Layout Mastery"
  const GridSlug := "css-grid-layout-mastery"
  const GridExcerpt := "Domine o CSS Grid Layout para criar layouts modernos e responsivos."
  const PythonTitle := "Python para Data Science"
  const PythonSlug := "python-para-data-science"
  const PythonExcerpt := "Introdução ao Python para análise de dados e ciência de dados."

  const ReactSummary := "# React Hooks: Guia Completo\n\nOs React Hooks revolucionaram o desenvolvimento com React..."
  const TypeScriptSummary := "# TypeScript para Iniciantes\n\nTypeScript é um superset do JavaScript..."
  const NodeSummary := "# Node.js Best Practices\n\nDesenvolver aplicações Node.js robustas..."
  const GridSummary := "# CSS Grid Layout Mastery\n\nCSS Grid é uma ferramenta poderosa..."
  const PythonSummary := "# Python para Data Science\n\nPython se tornou a linguagem padrão..."

  const ReactBody := "# React Hooks: Guia Completo\n\nOs React Hooks revolucionaram o desenvolvimento com React, permitindo usar estado e outros recursos do React em componentes funcionais.\n\n## useState\n\nO hook mais básico para gerenciar estado...\n\n## useEffect\n\nPara efeitos colaterais...\n\n## Custom Hooks\n\nCriando seus próprios hooks..."
  const TypeScriptBody := "# TypeScript para Iniciantes\n\nTypeScript é um superset do JavaScript que adiciona tipagem estática...\n\n## Configuração\n\nComo configurar o TypeScript...\n\n## Tipos Básicos\n\nString, number, boolean...\n\n## Interfaces\n\nDefinindo estruturas de dados..."
  const NodeBody := "# Node.js Best Practices\n\nDesenvolver aplicações Node.js robustas e escaláveis...\n\n## Estrutura de Projeto\n\nOrganizando seu código...\n\n## Error Handling\n\nTratamento de erros...\n\n## Performance\n\nOtimizações importantes..."
  const GridBody := "# CSS Grid Layout Mastery\n\nCSS Grid é uma ferramenta poderosa para criar layouts...\n\n## Grid Container\n\nDefinindo o container...\n\n## Grid Items\n\nPosicionando elementos...\n\n## Responsive Grid\n\nGrids responsivos..."
  const PythonBody := "# Python para Data Science\n\nPython se tornou a linguagem padrão para ciência de dados...\n\n## NumPy\n\nComputação numérica...\n\n## Pandas\n\nManipulação de dados...\n\n## Matplotlib\n\nVisualização de dados..."

  /** The collection `getArticles` filters, newest first. */
  const MockArticles: seq<Article> := [
    MockArticle("1", ReactTitle, ReactSlug, ReactExcerpt, ReactSummary,
      1705312800, ["React", "JavaScript", "Hooks"], 8, true),
    MockArticle("2", TypeScriptTitle, TypeScriptSlug, TypeScriptExcerpt, TypeScriptSummary,
      1704897000, ["TypeScript", "JavaScript", "Tutorial"], 12, false),
    MockArticle("3", NodeTitle, NodeSlug, NodeExcerpt, NodeSummary,
      1704446100, ["Node.js", "Backend", "JavaScript"], 15, true),
    MockArticle("4", GridTitle, GridSlug, GridExcerpt, GridSummary,
      1704127500, ["CSS", "Layout", "Grid"], 10, false),
    MockArticle("5", PythonTitle, PythonSlug, PythonExcerpt, PythonSummary,
      1703762400, ["Python", "Data Science", "Analytics"], 18, true)
  ]

  /** The collection `getArticleBySlug` searches, a second copy of the same
      articles with longer bodies. */
  const DetailArticles: seq<Article> := [
    MockArticle("1", ReactTitle, ReactSlug, ReactExcerpt, ReactBody,
      1705312800, ["React", "JavaScript", "Hooks"], 8, true),
    MockArticle("2", TypeScriptTitle, TypeScriptSlug, TypeScriptExcerpt, TypeScriptBody,
      1704897000, ["TypeScript", "JavaScript", "Tutorial"], 12, false),
    MockArticle("3", NodeTitle, NodeSlug, NodeExcerpt, NodeBody,
      1704446100, ["Node.js", "Backend", "JavaScript"], 15, true),
    MockArticle("4", GridTitle, GridSlug, GridExcerpt, GridBody,
      1704127500, ["CSS", "Layout", "Grid"], 10, false),
    MockArticle("5", PythonTitle, PythonSlug, PythonExcerpt, PythonBody,
      1703762400, ["Python", "Data Science", "Analytics"], 18, true)
  ]

  predicate MatchesQuery(a: Article, q: string) {
    TextMatches(a.title, a.excerpt, a.tags, q)
  }

  /** The filters of `getArticles`, applied one after the other: query, then tags,
      then language. Any other field of `filters` is ignored. */
  function FilterArticles(items: seq<Article>, filters: SearchFilters): seq<Article> {
    var byQuery :=
      if QueryActive(filters) then
        var q := Lower(filters.query.value);
        Filter(items, (a: Article) => MatchesQuery(a, q))
      else items;
    var byTags :=
      if TagsActive(filters) then
        var wanted := filters.tags.value;
        Filter(byQuery, (a: Article) => HasAnyTag(a.tags, wanted))
      else byQuery;
    if LanguageActive(filters) then
      var lang := filters.language.value;
      Filter(byTags, (a: Article) => a.language == lang)
    else byTags
  }

  /** Reference definition: an article passes when it meets every active filter. */
  predicate ArticleMatches(a: Article, filters: SearchFilters) {
    (QueryActive(filters) ==> MatchesQuery(a, Lower(filters.query.value)))
    && (TagsActive(filters) ==> HasAnyTag(a.tags, filters.tags.value))
    && (LanguageActive(filters) ==> a.language == filters.language.value)
  }

  /** The staged filters keep exactly the articles meeting every active filter, in
      collection order. */
  lemma FilterArticlesSpec(items: seq<Article>, filters: SearchFilters)
    ensures FilterArticles(items, filters) == Filter(items, (a: Article) => ArticleMatches(a, filters))
  {
    var f := filters;
    var p1 := (a: Article) => QueryActive(f) ==> MatchesQuery(a, Lower(f.query.value));
    var p12 := (a: Article) => p1(a) && (TagsActive(f) ==> HasAnyTag(a.tags, f.tags.value));
    var p123 := (a: Article) => ArticleMatches(a, f);
    if QueryActive(f) {
      var q := Lower(f.query.value);
      FilterWhen(items, true, (a: Article) => MatchesQuery(a, q), p1);
    } else {
      FilterWhen(items, false, (a: Article) => true, p1);
    }
    if TagsActive(f) {
      var wanted := f.tags.value;
      FilterStage(items, p1, true, (a: Article) => HasAnyTag(a.tags, wanted), p12);
    } else {
      FilterStage(items, p1, false, (a: Article) => true, p12);
    }
    if LanguageActive(f) {
      var lang := f.language.value;
      FilterStage(items, p12, true, (a: Article) => a.language == lang, p123);
    } else {
      FilterStage(items, p12, false, (a: Article) => true, p123);
    }
  }

  /** Membership form of `FilterArticlesSpec`. */
  lemma ArticleKeptIff(items: seq<Article>, filters: SearchFilters, a: Article)
    ensures a in FilterArticles(items, filters) <==> a in items && ArticleMatches(a, filters)
  {
    FilterArticlesSpec(items, filters);
    FilterMember(items, (a: Article) => ArticleMatches(a, filters), a);
  }

  /** The query test ignores ASCII case: a query and its lower-cased form select
      the same articles. */
  lemma QueryCaseInsensitive(items: seq<Article>, filters: SearchFilters, q: string)
    ensures FilterArticles(items, filters.(query := Some(q)))
         == FilterArticles(items, filters.(query := Some(Lower(q))))
  {
    LowerIdempotent(q);
  }

  /** The page of `items` that `getArticles` builds: filter, then paginate. */
  function ArticlesPage(items: seq<Article>, page: int, limit: int, filters: SearchFilters): (r: Response<Article>)
    requires limit > 0
    ensures var matching := Filter(items, (a: Article) => ArticleMatches(a, filters));
      && r.pagination.total == |matching|
      && r.pagination.totalPages == CeilDiv(|matching|, limit)
      && (r.pagination.hasPrev <==> page > 1)
      && (page >= 1 ==> r.data == matching[Min(PageStart(page, limit), |matching|)..Min(PageStart(page, limit) + limit, |matching|)])
      && (page < 1 ==> r.data == JsSlice(matching, PageStart(page, limit), PageStart(page, limit) + limit))
      && (r.pagination.hasNext <==> PageStart(page, limit) + limit < |matching|)
      && (forall i :: 0 <= i < |r.data| ==> r.data[i] in items && ArticleMatches(r.data[i], filters))
  {
    FilterArticlesSpec(items, filters);
    Paginate(FilterArticles(items, filters), page, limit)
  }

  /** `getArticles(page, limit, filters)` over the mock collection. */
  function GetArticles(page: int, limit: int, filters: SearchFilters): (r: Response<Article>)
    requires limit > 0
  {
    ArticlesPage(MockArticles, page, limit, filters)
  }

  /** `getArticleBySlug(slug)` over a collection: the first article with that
      slug, or the error the source throws. */
  function ArticleBySlug(items: seq<Article>, slug: string): (r: Result<Article, string>)
    ensures r.Success? <==> exists i :: 0 <= i < |items| && items[i].slug == slug
    ensures r.Success? ==> r.value in items && r.value.slug == slug
    ensures r.Success? ==>
      exists i :: 0 <= i < |items| && items[i] == r.value && forall j :: 0 <= j < i ==> items[j].slug != slug
    ensures r.Failure? ==> r.error == NotFound
  {
    match Find(items, (a: Article) => a.slug == slug)
    case Some(a) => Success(a)
    case None => Failure(NotFound)
  }

  function GetArticleBySlug(slug: string): Result<Article, string> {
    ArticleBySlug(DetailArticles, slug)
  }

  predicate DistinctSlugs(items: seq<Article>) {
    forall i, j :: 0 <= i < j < |items| ==> items[i].slug != items[j].slug
  }

  /** When slugs are distinct, looking up an article's own slug finds that article. */
  lemma SlugLookupFindsOwner(items: seq<Article>, i: int)
    requires DistinctSlugs(items) && 0 <= i < |items|
    ensures ArticleBySlug(items, items[i].slug) == Success(items[i])
  {
    var slug := items[i].slug;
    FindUnique(items, (a: Article) => a.slug == slug, i);
  }

  /** The detail copy holds the listed articles in the same order, differing only
      in their bodies. */
  lemma DetailCopyMatchesListing()
    ensures |DetailArticles| == |MockArticles|
    ensures forall i :: 0 <= i < |MockArticles| ==>
      DetailArticles[i] == MockArticles[i].(content := DetailArticles[i].content)
  {
  }

  lemma DetailSlugsDistinct()
    ensures DistinctSlugs(DetailArticles)
  {
  }

  /** Every listed article's slug opens the detailed version of that same article. */
  lemma ListedSlugsResolve(i: int)
    requires 0 <= i < |MockArticles|
    ensures GetArticleBySlug(MockArticles[i].slug)
         == Success(MockArticles[i].(content := DetailArticles[i].content))
  {
    DetailCopyMatchesListing();
    DetailSlugsDistinct();
    SlugLookupFindsOwner(DetailArticles, i);
  }

  /** The first page with no filters is the start of the collection. */
  lemma FirstPageUnfiltered(items: seq<Article>, limit: int)
    requires limit > 0
    ensures ArticlesPage(items, 1, limit, NoFilters).data == items[..Min(limit, |items|)]
  {
    FilterAll(items, (a: Article) => ArticleMatches(a, NoFilters));
  }

  /** `getFeaturedArticles(limit)` over a collection: the featured articles of the
      unfiltered first page of 50, then `slice(0, limit)`; a negative `limit`
      drops that many from the end. */
  function FeaturedArticles(items: seq<Article>, limit: int): (r: seq<Article>)
    ensures var featured := Filter(items[..Min(FeaturedSource, |items|)], (a: Article) => a.featured);
      r == featured[..SliceIndex(limit, |featured|)]
    ensures limit >= 0 ==> |r| <= limit
    ensures forall i :: 0 <= i < |r| ==> r[i] in items && r[i].featured
  {
    var p := (a: Article) => a.featured;
    var head := items[..Min(FeaturedSource, |items|)];
    FirstPageUnfiltered(items, FeaturedSource);
    var featured := Filter(ArticlesPage(items, 1, FeaturedSource, NoFilters).data, p);
    assert featured == Filter(head, p);
    SliceFromStart(featured, limit);
    assert forall x :: x in featured ==> x in items && x.featured by {
      forall x | x in featured ensures x in items && x.featured {
        var i :| 0 <= i < |featured| && featured[i] == x;
        assert x in head;
      }
    }
    JsSlice(featured, 0, limit)
  }

  function GetFeaturedArticles(limit: int): seq<Article> {
    FeaturedArticles(MockArticles, limit)
  }

  /** On five articles of which the first, third and fifth are featured, the
      featured list with the default limit is those three. */
  lemma FeaturedOfFive(m: seq<Article>)
    requires |m| == 5
    requires m[0].featured && !m[1].featured && m[2].featured && !m[3].featured && m[4].featured
    ensures FeaturedArticles(m, DefaultFeaturedLimit) == [m[0], m[2], m[4]]
  {
    var f := Filter(m, (a: Article) => a.featured);
    FeaturedFlagsFive(m);
    assert m[..Min(FeaturedSource, |m|)] == m;
    assert f[..SliceIndex(DefaultFeaturedLimit, |f|)] == f;
  }

  /** The featured flags of those five articles keep the first, third and fifth. */
  lemma FeaturedFlagsFive(m: seq<Article>)
    requires |m| == 5
    requires m[0].featured && !m[1].featured && m[2].featured && !m[3].featured && m[4].featured
    ensures Filter(m, (a: Article) => a.featured) == [m[0], m[2], m[4]]
  {
    var p := (a: Article) => a.featured;
    FilterFive(m, p);
    assert Keep(m[1], p) == [] && Keep(m[3], p) == [];
  }

  /** With the default limit, the featured list is articles 1, 3 and 5. */
  lemma DefaultFeatured()
    ensures GetFeaturedArticles(DefaultFeaturedLimit) == [MockArticles[0], MockArticles[2], MockArticles[4]]
  {
    FeaturedOfFive(MockArticles);
  }
}
