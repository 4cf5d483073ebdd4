/** The tests the repositories apply for each field of `SearchFilters`. */
module Filters {
  import opened Seqs
  import opened Text
  import opened Types

  /** The text test of a query already lower-cased: it occurs in the lower-cased
      title, body text or one of the tags. */
  predicate TextMatches(title: string, body: string, tags: seq<string>, q: string) {
    Includes(Lower(title), q) || Includes(Lower(body), q)
    || exists i :: 0 <= i < |tags| && Includes(Lower(tags[i]), q)
  }

  /** At least one wanted tag is among `tags` (exact, case-sensitive). */
  predicate HasAnyTag(tags: seq<string>, wanted: seq<string>) {
    exists i :: 0 <= i < |wanted| && wanted[i] in tags
  }

  /** The query filter runs when the query is present and non-empty. */
  predicate QueryActive(filters: SearchFilters) { Truthy(filters.query) }

  /** The tag filter runs when the tag list is present and non-empty. */
  predicate TagsActive(filters: SearchFilters) { filters.tags.Some? && |filters.tags.value| > 0 }

  predicate LanguageActive(filters: SearchFilters) { Truthy(filters.language) }

  /** A select-box filter runs when it is present, non-empty and not `'all'`. */
  predicate ChoiceActive(o: Option<string>) { Truthy(o) && o.value != "all" }
}
