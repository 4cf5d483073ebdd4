/** The article list page (src/pages/Articles.tsx): the three control cells, the
    filter object built from them on every render, and the handlers that update
    the cells and push a filter object to the articles hook. The hook's fetch is
    not modelled; `filters` is the last object pushed to it. */
module ArticlesPage {
  import opened Seqs
  import opened Types

  /** `{ type: 'article' }`. */
  const ArticleOnly := SearchFilters(None, None, None, None, None, Some("article"), None, None)

  /** `value || undefined`. */
  function NonEmpty(s: string): (r: Option<string>)
    ensures r.Some? <==> s != ""
    ensures r.Some? ==> r.value == s
  {
    if s != "" then Some(s) else None
  }

  /** The filter object of a render: an empty query, tag or language is left out,
      the type is always `'article'` and a selected tag goes in a one-element
      list. */
  function BuildFilters(query: string, tag: string, language: string): (r: SearchFilters)
    ensures r.kind == Some("article")
    ensures r.query.Some? <==> query != ""
    ensures r.tags.Some? <==> tag != ""
    ensures r.language.Some? <==> language != ""
    ensures r.tags.Some? ==> r.tags.value == [tag]
    ensures r.query.Some? ==> r.query.value == query
    ensures r.language.Some? ==> r.language.value == language
    ensures r.search.None? && r.category.None? && r.level.None? && r.featured.None?
  {
    SearchFilters(NonEmpty(query), None, if tag != "" then Some([tag]) else None, None,
                  NonEmpty(language), Some("article"), None, None)
  }

  /** The controls a filter object stands for: an absent field is the empty
      string. The partner of `BuildFilters`. */
  function Controls(f: SearchFilters): (string, string, string) {
    (if f.query.Some? then f.query.value else "",
     if f.tags.Some? && |f.tags.value| == 1 then f.tags.value[0] else "",
     if f.language.Some? then f.language.value else "")
  }

  /** The filter object loses nothing: the controls can be read back from it. */
  lemma ControlsRoundTrip(query: string, tag: string, language: string)
    ensures Controls(BuildFilters(query, tag, language)) == (query, tag, language)
  {
  }

  /** With every control empty the filter object is `{ type: 'article' }`, the
      object `clearFilters` pushes. */
  lemma EmptyControlsAreArticleOnly()
    ensures BuildFilters("", "", "") == ArticleOnly
  {
  }

  /** The select/deselect rule of the tag and language buttons: clicking the
      current choice clears it, clicking another selects it. */
  function Toggle(current: string, clicked: string): (r: string)
    ensures clicked == current ==> r == ""
    ensures clicked != current ==> r == clicked
  {
    if clicked == current then "" else clicked
  }

  /** Clicking the same button twice gives back the selection when nothing or
      that same value was selected; when another value was selected, the two
      clicks select and then clear, leaving nothing selected. */
  lemma ToggleTwice(current: string, clicked: string)
    ensures current == "" || current == clicked ==> Toggle(Toggle(current, clicked), clicked) == current
    ensures current != "" && current != clicked ==> Toggle(Toggle(current, clicked), clicked) == ""
  {
  }

  class ArticlesPage {
    var searchQuery: string
    var selectedTag: string
    var selectedLanguage: string
    /** The filters last pushed to the articles hook. */
    var filters: SearchFilters

    /** The first render hands its filter object to the hook as the initial
        filters. */
    constructor ()
      ensures searchQuery == "" && selectedTag == "" && selectedLanguage == ""
      ensures filters == ArticleOnly
    {
      searchQuery := "";
      selectedTag := "";
      selectedLanguage := "";
      filters := BuildFilters("", "", "");
    }

    /** The filter object of the current render. */
    function Current(): SearchFilters
      reads this
    {
      BuildFilters(searchQuery, selectedTag, selectedLanguage)
    }

    /** `handleSearch`: stores the query and pushes the render's filters with the
        query replaced, even by an empty one. */
    method HandleSearch(query: string)
      modifies this
      ensures searchQuery == query
      ensures selectedTag == old(selectedTag) && selectedLanguage == old(selectedLanguage)
      ensures filters == old(Current()).(query := Some(query))
      ensures query != "" ==> filters == Current()
    {
      var pushed := Current().(query := Some(query));
      searchQuery := query;
      filters := pushed;
    }

    /** `handleTagFilter`: toggles the tag and pushes the render's filters with
        the tag list cleared or replaced by the clicked tag. */
    method HandleTagFilter(tag: string)
      modifies this
      ensures selectedTag == Toggle(old(selectedTag), tag)
      ensures searchQuery == old(searchQuery) && selectedLanguage == old(selectedLanguage)
      ensures filters == old(Current()).(tags := if tag == old(selectedTag) then None else Some([tag]))
      ensures tag != "" ==> filters == Current()
    {
      var pushed := Current().(tags := if tag == selectedTag then None else Some([tag]));
      selectedTag := Toggle(selectedTag, tag);
      filters := pushed;
    }

    /** `handleLanguageFilter`: the same rule for the language. */
    method HandleLanguageFilter(language: string)
      modifies this
      ensures selectedLanguage == Toggle(old(selectedLanguage), language)
      ensures searchQuery == old(searchQuery) && selectedTag == old(selectedTag)
      ensures filters == old(Current()).(language := if language == old(selectedLanguage) then None else Some(language))
      ensures language != "" ==> filters == Current()
    {
      var pushed := Current().(language := if language == selectedLanguage then None else Some(language));
      selectedLanguage := Toggle(selectedLanguage, language);
      filters := pushed;
    }

    /** `clearFilters`: empties the three controls and pushes `{ type: 'article' }`,
        which is the filter object of the emptied controls. */
    method ClearFilters()
      modifies this
      ensures searchQuery == "" && selectedTag == "" && selectedLanguage == ""
      ensures filters == ArticleOnly && filters == Current()
    {
      searchQuery := "";
      selectedTag := "";
      selectedLanguage := "";
      filters := ArticleOnly;
      EmptyControlsAreArticleOnly();
    }
  }
}
