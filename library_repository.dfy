/** The library repository (src/services/LibraryRepository.ts): a fixed list of
    downloadable resources, narrowed by optional filters and cut into pages. The
    simulated network delay is not modelled. */
module LibraryRepository {
  import opened Seqs
  import opened Text
  import opened Types
  import opened Pagination
  import opened Filters

  const DefaultPage: int := 1
  const DefaultLimit: int := 12

  /** One mock record: every mock item is in Portuguese. */
  function MockItem(id: string, title: string, description: string, kind: string,
                    tags: seq<string>, level: string, downloadUrl: string, previewUrl: string,
                    fileSize: string, format: string, featured: bool, createdAt: int): LibraryItem
  {
    LibraryItem(id, title, description, kind, "pt", level, tags,
                downloadUrl, previewUrl, fileSize, format, createdAt, featured)
  }

  /** The collection `getLibraryItems` filters, newest first. */
  const MockItems: seq<LibraryItem> := [
    MockItem("1", "React Cheat Sheet", "Guia rápido de referência para React", "cheatsheet",
      ["React", "JavaScript", "Reference"], "intermediate", "/downloads/react-cheatsheet.pdf", "/preview/react-cheatsheet",
      "2.5 MB", "PDF", true, 1705312800),
    MockItem("2", "TypeScript Handbook", "Manual completo do TypeScript", "ebook",
      ["TypeScript", "JavaScript", "Handbook"], "beginner", "/downloads/typescript-handbook.pdf", "/preview/typescript-handbook",
      "5.2 MB", "PDF", false, 1704897000),
    MockItem("3", "Node.js Snippets", "Códigos úteis para desenvolvimento Node.js", "snippets",
      ["Node.js", "JavaScript", "Snippets"], "advanced", "/downloads/nodejs-snippets.zip", "/preview/nodejs-snippets",
      "1.8 MB", "ZIP", true, 1704446100),
    MockItem("4", "CSS Grid Guide", "Guia completo de CSS Grid Layout", "ebook",
      ["CSS", "Layout", "Grid"], "intermediate", "/downloads/css-grid-guide.pdf", "/preview/css-grid-guide",
      "3.1 MB", "PDF", false, 1704127500),
    MockItem("5", "Python Data Science Toolkit", "Ferramentas essenciais para Data Science com Python", "cheatsheet",
      ["Python", "Data Science", "Analytics"], "advanced", "/downloads/python-datascience-toolkit.pdf", "/preview/python-datascience-toolkit",
      "4.7 MB", "PDF", true, 1703762400)
  ]

  function ByQuery(items: seq<LibraryItem>, filters: SearchFilters): seq<LibraryItem> {
    if QueryActive(filters) then
      var q := Lower(filters.query.value);
      Filter(items, (it: LibraryItem) => TextMatches(it.title, it.description, it.tags, q))
    else items
  }

  function ByTags(items: seq<LibraryItem>, filters: SearchFilters): seq<LibraryItem> {
    if TagsActive(filters) then
      var wanted := filters.tags.value;
      Filter(items, (it: LibraryItem) => HasAnyTag(it.tags, wanted))
    else items
  }

  function ByLanguage(items: seq<LibraryItem>, filters: SearchFilters): seq<LibraryItem> {
    if LanguageActive(filters) then
      var lang := filters.language.value;
      Filter(items, (it: LibraryItem) => it.language == lang)
    else items
  }

  function ByKind(items: seq<LibraryItem>, filters: SearchFilters): seq<LibraryItem> {
    if ChoiceActive(filters.kind) then
      var k := filters.kind.value;
      Filter(items, (it: LibraryItem) => it.kind == k)
    else items
  }

  function ByLevel(items: seq<LibraryItem>, filters: SearchFilters): seq<LibraryItem> {
    if ChoiceActive(filters.level) then
      var l := filters.level.value;
      Filter(items, (it: LibraryItem) => it.level == l)
    else items
  }

  /** The filters of `getLibraryItems`, applied one after the other: query, tags,
      language, type, level. A type or level of `'all'` applies no constraint. */
  function FilterLibraryItems(items: seq<LibraryItem>, filters: SearchFilters): seq<LibraryItem> {
    ByLevel(ByKind(ByLanguage(ByTags(ByQuery(items, filters), filters), filters), filters), filters)
  }

  predicate QueryPass(it: LibraryItem, filters: SearchFilters) {
    QueryActive(filters) ==> TextMatches(it.title, it.description, it.tags, Lower(filters.query.value))
  }

  predicate TagsPass(it: LibraryItem, filters: SearchFilters) {
    TagsActive(filters) ==> HasAnyTag(it.tags, filters.tags.value)
  }

  predicate LanguagePass(it: LibraryItem, filters: SearchFilters) {
    LanguageActive(filters) ==> it.language == filters.language.value
  }

  predicate KindPass(it: LibraryItem, filters: SearchFilters) {
    ChoiceActive(filters.kind) ==> it.kind == filters.kind.value
  }

  predicate LevelPass(it: LibraryItem, filters: SearchFilters) {
    ChoiceActive(filters.level) ==> it.level == filters.level.value
  }

  /** Reference definition: an item passes when it meets every active filter. */
  predicate ItemMatches(it: LibraryItem, filters: SearchFilters) {
    QueryPass(it, filters) && TagsPass(it, filters) && LanguagePass(it, filters)
    && KindPass(it, filters) && LevelPass(it, filters)
  }

  /** The staged filters keep exactly the items meeting every active filter, in
      collection order. */
  lemma FilterLibraryItemsSpec(items: seq<LibraryItem>, filters: SearchFilters)
    ensures FilterLibraryItems(items, filters) == Filter(items, (it: LibraryItem) => ItemMatches(it, filters))
  {
    var f := filters;
    var p1 := (it: LibraryItem) => QueryPass(it, f);
    var p2 := (it: LibraryItem) => QueryPass(it, f) && TagsPass(it, f);
    var p3 := (it: LibraryItem) => QueryPass(it, f) && TagsPass(it, f) && LanguagePass(it, f);
    var p4 := (it: LibraryItem) => QueryPass(it, f) && TagsPass(it, f) && LanguagePass(it, f) && KindPass(it, f);
    var p5 := (it: LibraryItem) => ItemMatches(it, f);
    QueryStage(items, f, p1);
    TagsStage(items, f, p1, p2);
    LanguageStage(items, f, p2, p3);
    KindStage(items, f, p3, p4);
    LevelStage(items, f, p4, p5);
  }

  lemma QueryStage(items: seq<LibraryItem>, f: SearchFilters, after: LibraryItem -> bool)
    requires forall it :: after(it) == QueryPass(it, f)
    ensures ByQuery(items, f) == Filter(items, after)
  {
    if QueryActive(f) {
      var q := Lower(f.query.value);
      FilterWhen(items, true, (it: LibraryItem) => TextMatches(it.title, it.description, it.tags, q), after);
    } else {
      FilterAll(items, after);
    }
  }

  lemma TagsStage(items: seq<LibraryItem>, f: SearchFilters, before: LibraryItem -> bool, after: LibraryItem -> bool)
    requires forall it :: after(it) == (before(it) && TagsPass(it, f))
    ensures ByTags(Filter(items, before), f) == Filter(items, after)
  {
    if TagsActive(f) {
      var wanted := f.tags.value;
      FilterStage(items, before, true, (it: LibraryItem) => HasAnyTag(it.tags, wanted), after);
    } else {
      FilterCongruent(items, before, after);
    }
  }

  lemma LanguageStage(items: seq<LibraryItem>, f: SearchFilters, before: LibraryItem -> bool, after: LibraryItem -> bool)
    requires forall it :: after(it) == (before(it) && LanguagePass(it, f))
    ensures ByLanguage(Filter(items, before), f) == Filter(items, after)
  {
    if LanguageActive(f) {
      var lang := f.language.value;
      FilterStage(items, before, true, (it: LibraryItem) => it.language == lang, after);
    } else {
      FilterCongruent(items, before, after);
    }
  }

  lemma KindStage(items: seq<LibraryItem>, f: SearchFilters, before: LibraryItem -> bool, after: LibraryItem -> bool)
    requires forall it :: after(it) == (before(it) && KindPass(it, f))
    ensures ByKind(Filter(items, before), f) == Filter(items, after)
  {
    if ChoiceActive(f.kind) {
      var k := f.kind.value;
      FilterStage(items, before, true, (it: LibraryItem) => it.kind == k, after);
    } else {
      FilterCongruent(items, before, after);
    }
  }

  lemma LevelStage(items: seq<LibraryItem>, f: SearchFilters, before: LibraryItem -> bool, after: LibraryItem -> bool)
    requires forall it :: after(it) == (before(it) && LevelPass(it, f))
    ensures ByLevel(Filter(items, before), f) == Filter(items, after)
  {
    if ChoiceActive(f.level) {
      var l := f.level.value;
      FilterStage(items, before, true, (it: LibraryItem) => it.level == l, after);
    } else {
      FilterCongruent(items, before, after);
    }
  }

  /** Membership form of `FilterLibraryItemsSpec`. */
  lemma ItemKeptIff(items: seq<LibraryItem>, filters: SearchFilters, it: LibraryItem)
    ensures it in FilterLibraryItems(items, filters) <==> it in items && ItemMatches(it, filters)
  {
    FilterLibraryItemsSpec(items, filters);
    FilterMember(items, (x: LibraryItem) => ItemMatches(x, filters), it);
  }

  /** A type or level of `'all'` filters exactly as leaving the field out. */
  lemma AllMeansUnfiltered(items: seq<LibraryItem>, filters: SearchFilters)
    ensures FilterLibraryItems(items, filters.(kind := Some("all"), level := Some("all")))
         == FilterLibraryItems(items, filters.(kind := None, level := None))
  {
  }

  /** The page of `items` that `getLibraryItems` builds: filter, then paginate. */
  function LibraryPage(items: seq<LibraryItem>, page: int, limit: int, filters: SearchFilters): (r: Response<LibraryItem>)
    requires limit > 0
    ensures var matching := Filter(items, (it: LibraryItem) => ItemMatches(it, filters));
      && r.pagination.total == |matching|
      && r.pagination.totalPages == CeilDiv(|matching|, limit)
      && (r.pagination.hasPrev <==> page > 1)
      && (page >= 1 ==> r.data == matching[Min(PageStart(page, limit), |matching|)..Min(PageStart(page, limit) + limit, |matching|)])
      && (page < 1 ==> r.data == JsSlice(matching, PageStart(page, limit), PageStart(page, limit) + limit))
      && (r.pagination.hasNext <==> PageStart(page, limit) + limit < |matching|)
      && (forall i :: 0 <= i < |r.data| ==> r.data[i] in items && ItemMatches(r.data[i], filters))
  {
    FilterLibraryItemsSpec(items, filters);
    Paginate(FilterLibraryItems(items, filters), page, limit)
  }

  /** `getLibraryItems(page, limit, filters)` over the mock collection. */
  function GetLibraryItems(page: int, limit: int, filters: SearchFilters): Response<LibraryItem>
    requires limit > 0
  {
    LibraryPage(MockItems, page, limit, filters)
  }
}
