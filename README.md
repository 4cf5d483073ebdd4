# codeXMind content logic in Dafny

codeXMind is a content site with articles, a resource library, news and search. Its
data comes from mock repositories that filter and paginate fixed lists. This project
models the logic behind the site:

- **Repositories.** The articles, library, search, categories and contact
  repositories: filters, pagination, slug lookup, suggestions, related searches and
  form validation.
- **Formatting helpers** (`src/utils/format.ts`): reading time, relative time,
  truncation, word capitalisation and slugs.
- **Stores.** The bookmark and theme stores.
- **The `useDebounce` hook,** as a state machine with an explicit clock.
- **Page logic.** Articles, news, library and article-detail pages: their filters,
  sorts, URL parameters, toggles and the line-by-line content renderer.

Modules:

- `Seqs` and `Text` hold JavaScript's array and string operations: `filter`, `find`,
  `slice`, `Set` de-duplication, `toLowerCase`, `includes` and `trim`.
- `Types` holds the records of `src/types/index.ts`.
- Every other module follows one source file.

Pure code is written as functions with lemmas. Code that keeps state is written as
classes whose methods update their fields: the two providers, the debounce hook and
the articles and article-detail pages.

## Model

| member | source | states |
|---|---|---|
| Seqs.Filter | src/services/ArticlesRepository.ts:154-158 | `Array.prototype.filter`: every kept element meets the test and comes from the input, every input element meeting it is kept, in order, as a subsequence |
| Seqs.FilterCount | src/services/ArticlesRepository.ts:154-158 | each element meeting the test appears as often as in the input, any other not at all; with the subsequence clause this fixes the result |
| Seqs.Find | src/services/ArticlesRepository.ts:323 | `Array.prototype.find`: found exactly when some element passes; the result is the first one that passes |
| Seqs.JsSlice | src/services/ArticlesRepository.ts:176 | `slice(start, end)` with negative indices counted from the end and clamping to the length |
| Seqs.Dedup | src/pages/News.tsx:79-80 | `[...new Set(s)]`: the same members, each once, in order of first occurrence |
| Text.Trim | src/utils/format.ts:86 | `trim()`: the result is a contiguous piece with only white space around it and none at its ends |
| Text.TrimEmptyIff | src/services/ContactRepository.ts:52 | `!s.trim()` holds exactly when `s` is all white space |
| Text.LowerIdempotent | src/services/ArticlesRepository.ts:153 | lower-casing twice is lower-casing once |
| Text.ParseNatToString | src/utils/format.ts:15 | a decimal rendering parses back to its number |
| Text.LeadingZeroIff | src/utils/format.ts:34 | a decimal rendering starts with `0` exactly for zero |
| Text.NatToStringInjective | src/utils/format.ts:15 | distinct numbers render differently |
| Pagination.CeilDiv | src/services/ArticlesRepository.ts:184 | `Math.ceil(n / limit)`: the least page count covering `n`, zero exactly when `n` is zero |
| Pagination.Paginate | src/services/ArticlesRepository.ts:173-188 | the page echoes `page` and `limit` and reports the filtered total and the least covering page count. `hasNext` holds iff `startIndex + limit` is below the total, with `startIndex = (page-1)*limit`. `hasPrev` holds iff `page > 1`. Data is the window from `startIndex` to `startIndex + limit`, clipped; below page 1 it is `slice` of those indices, counted from the end |
| Pagination.PageWindow | src/services/ArticlesRepository.ts:174-176 | for `page >= 1` the slice is the clipped window from `startIndex` and holds `min(limit, total - startIndex)` items, never negative |
| Pagination.NextPageIff | src/services/ArticlesRepository.ts:185 | `endIndex < total` holds exactly when `page` is below the page count `ceil(total / limit)` |
| Pagination.SliceWindow | src/services/ArticlesRepository.ts:174-176 | a window from a non-negative start holds `min(limit, total - start)` items |
| Pagination.PagesUpToPrefix | src/services/ArticlesRepository.ts:173-188 | pages `1..k` read in order are the first `min(k*limit, total)` items |
| Pagination.AllPagesCoverFiltered | src/services/ArticlesRepository.ts:173-188 | all `totalPages` pages together are exactly the filtered list |
| Pagination.PastLastPageEmpty | src/services/ArticlesRepository.ts:173-188 | a page past the last is empty but still reports the full total |
| ArticlesRepository.FilterArticlesSpec | src/services/ArticlesRepository.ts:149-171 | the query, tag and language stages keep exactly the articles meeting every active filter, in list order |
| ArticlesRepository.ArticleKeptIff | src/services/ArticlesRepository.ts:149-171 | an article is kept iff it is listed and meets every active filter |
| ArticlesRepository.QueryCaseInsensitive | src/services/ArticlesRepository.ts:152-158 | a query and its lower-cased form select the same articles |
| ArticlesRepository.ArticlesPage | src/services/ArticlesRepository.ts:149-188 | `getArticles`: the matching articles' total, page count, window, `hasNext` and `hasPrev`; every article on the page matches |
| ArticlesRepository.ArticleBySlug | src/services/ArticlesRepository.ts:322-329 | `getArticleBySlug`: the first article with that slug, else the error "Article not found" |
| ArticlesRepository.SlugLookupFindsOwner | src/services/ArticlesRepository.ts:323 | with distinct slugs, an article's own slug finds that article |
| ArticlesRepository.DetailCopyMatchesListing | src/services/ArticlesRepository.ts:194-317 | the detail copy lists the same articles in the same order, differing only in content |
| ArticlesRepository.DetailSlugsDistinct | src/services/ArticlesRepository.ts:194-317 | the detail copy's slugs are pairwise distinct |
| ArticlesRepository.ListedSlugsResolve | src/services/ArticlesRepository.ts:322-329 | every listed article's slug opens the detailed version of that same article |
| ArticlesRepository.FirstPageUnfiltered | src/services/ArticlesRepository.ts:17-21 | the first page with no filters is the start of the collection |
| ArticlesRepository.FeaturedArticles | src/services/ArticlesRepository.ts:335-344 | `getFeaturedArticles`: the featured articles of the first 50, cut by `slice(0, limit)`; at most `limit`, all featured |
| ArticlesRepository.FeaturedOfFive | src/services/ArticlesRepository.ts:335-344 | on five articles flagged featured, not, featured, not, featured, the default-limit list is the first, third and fifth |
| ArticlesRepository.DefaultFeatured | src/services/ArticlesRepository.ts:335-344 | with the default limit the featured list is articles 1, 3 and 5 |
| LibraryRepository.FilterLibraryItemsSpec | src/services/LibraryRepository.ts:109-143 | the five stages keep exactly the items meeting every active filter, in list order |
| LibraryRepository.QueryStage | src/services/LibraryRepository.ts:112-119 | the query stage is a filter by the query test |
| LibraryRepository.TagsStage | src/services/LibraryRepository.ts:121-125 | the tag stage adds the tag test to the tests so far |
| LibraryRepository.LanguageStage | src/services/LibraryRepository.ts:127-131 | the language stage adds the language test |
| LibraryRepository.KindStage | src/services/LibraryRepository.ts:133-137 | the type stage adds the type test, skipped for `'all'` |
| LibraryRepository.LevelStage | src/services/LibraryRepository.ts:139-143 | the level stage adds the level test, skipped for `'all'` |
| LibraryRepository.ItemKeptIff | src/services/LibraryRepository.ts:109-143 | an item is kept iff it is listed and meets every active filter |
| LibraryRepository.AllMeansUnfiltered | src/services/LibraryRepository.ts:133-143 | type and level `'all'` filter exactly as leaving them out |
| LibraryRepository.LibraryPage | src/services/LibraryRepository.ts:109-160 | `getLibraryItems`: the matching items' total, page count, window, `hasNext` and `hasPrev`; every item on the page matches |
| SearchRepository.SearchIn | src/services/SearchRepository.ts:66-77 | a blank query gives the first `limit` results. Otherwise the results whose title, excerpt or a tag contains the query, cut to `limit`. A negative limit drops that many from the end. Every result returned matches |
| SearchRepository.SuggestionsFrom | src/services/SearchRepository.ts:83-112 | no suggestions for queries under two characters; otherwise the first `limit` suggestions containing the query, ignoring case |
| SearchRepository.GetTrendingSearches | src/services/SearchRepository.ts:118-136 | the first `min(limit, 10)` trending searches; a negative limit drops that many from the end |
| SearchRepository.GetPopularTags | src/services/SearchRepository.ts:142-170 | the first `min(limit, 20)` popular tags; a negative limit drops that many from the end |
| SearchRepository.RelatedFrom | src/services/SearchRepository.ts:176-202 | the list of the first key, in table order, that the lower-cased query contains; the default list when there is none; both cut by `slice(0, limit)` |
| SearchRepository.TableOrderWins | src/services/SearchRepository.ts:181-197 | "typescript react" gets the react list: table order wins over the order typed |
| CategoriesRepository.GetCategories | src/services/CategoriesRepository.ts:10-63 | five categories with distinct slugs |
| CategoriesRepository.GetCategoryBySlug | src/services/CategoriesRepository.ts:69-71 | found exactly when some category has that slug, and the found one has it |
| CategoriesRepository.CategoryFoundBySlug | src/services/CategoriesRepository.ts:69-71 | each category is found by its own slug |
| CategoriesRepository.SlugIsCaseSensitive | src/services/CategoriesRepository.ts:71 | the display name "JavaScript" finds nothing |
| ContactRepository.ValidateEmail | src/services/ContactRepository.ts:38-41 | the character-level check accepts exactly the language of `^[^\s@]+@[^\s@]+\.[^\s@]+$` |
| ContactRepository.EmailCheckIsRegex | src/services/ContactRepository.ts:39 | no white space and an '@' splitting it into a run, the '@', a run, a '.' and a run is the same as matching the pattern |
| ContactRepository.ValidEmailNotBlank | src/services/ContactRepository.ts:58-61 | a valid address is never blank |
| ContactRepository.SpaceInvalidatesEmail | src/services/ContactRepository.ts:39 | white space anywhere, including at either end, makes an address invalid |
| ContactRepository.NameError | src/services/ContactRepository.ts:52-56 | the name has an error exactly when the trimmed name is shorter than 2; it is the required message when blank and the too-short message otherwise |
| ContactRepository.EmailError | src/services/ContactRepository.ts:58-62 | the email has an error exactly when the untrimmed address fails the check; it is the required message when blank and the invalid message otherwise |
| ContactRepository.MessageError | src/services/ContactRepository.ts:64-68 | the message has an error exactly when the trimmed message is shorter than 10; it is the required message when blank and the too-short message otherwise |
| ContactRepository.ErrorsObjectFields | src/services/ContactRepository.ts:50-68 | the errors object has a key for a field exactly when that field has an error, holds that error, and has no other keys |
| ContactRepository.NoErrorsIffNoKeys | src/services/ContactRepository.ts:71 | `Object.keys(errors).length === 0` holds exactly when none of the three field names is a key |
| ContactRepository.ValidateContactForm | src/services/ContactRepository.ts:46-74 | one error per failing field, with the missing or too-short message for name and message and the missing or invalid message for email. Valid iff there are no errors, i.e. iff the trimmed name has at least 2 characters, the email is valid and the trimmed message has at least 10 |
| Format.FormatReadingTime | src/utils/format.ts:8-16 | under one minute "Menos de 1 min", one minute "1 min", otherwise the count and " mins" |
| Format.NumberPrefixUnique | src/utils/format.ts:15 | a number rendered before text not starting with a digit determines both the number and the text |
| Format.ReadingTimeLabelsDistinct | src/utils/format.ts:8-16 | distinct minute counts of at least one get distinct labels |
| Format.UnitDivisions | src/utils/format.ts:32-57 | the nested floor divisions equal single divisions by the unit's length in seconds |
| Format.RelativeBucketOf | src/utils/format.ts:21-59 | just now under a minute. Minutes below an hour, hours below a day, days below a week. Weeks below 28 days, months below 360 days, years after that. Each count is the elapsed time floored by its unit |
| Format.FormatRelativeTime | src/utils/format.ts:21-58 | below a minute "Agora mesmo"; then, range by range, the whole minutes, hours, days, weeks (7 to 27 days), months of 30 days (28 to 359 days) or years of 365 days, each with its label |
| Format.ZeroLabelIff | src/utils/format.ts:47-58 | a label starts with `0` exactly for 28 to 29 days and for 360 to 364 days |
| Format.LabelStartsWithDigit | src/utils/format.ts:28-58 | only the "Agora mesmo" label does not start with a digit |
| Format.RenderBucketInjective | src/utils/format.ts:28-58 | different units or counts give different labels |
| Format.ZeroMonthsAsWritten | src/utils/format.ts:47-54 | 28 and 29 days render "0 meses atrás" |
| Format.ZeroYearsAsWritten | src/utils/format.ts:52-58 | 360 to 364 days render "0 anos atrás" |
| Format.CorrectedFormatRelativeTime | src/utils/format.ts:47-58 | the corrected labels never start with `0`, and they agree with the code outside the two gaps |
| Format.CorrectedBucketOf | src/utils/format.ts:47-58 | weeks until 30 days, months until 365. Every count shown is at least 1. It agrees with the code outside the two gaps |
| Format.TruncateText | src/utils/format.ts:84-87 | text that fits is returned unchanged. Otherwise: the trimmed first `maxLength` characters (as `slice` counts them) and "..."; at most `maxLength + 3` long |
| Format.TruncateWord | src/utils/format.ts:84-87 | text without white space is cut at exactly `maxLength` |
| Format.CapitalizeWords | src/utils/format.ts:92-97 | the replacement of each `\w\S*` match keeps the length |
| Format.CapStreamCaseOnly | src/utils/format.ts:92-97 | the character-stream reading of the replacement keeps white space and changes nothing but letter case |
| Format.CapitalizeIsStream | src/utils/format.ts:92-97 | the match-by-match replacement equals the character stream |
| Format.CapitalizeIdempotent | src/utils/format.ts:92-97 | capitalising twice is capitalising once |
| Format.CapitalizeChangesCaseOnly | src/utils/format.ts:92-97 | white space stays put; every other character becomes itself, its upper case or its lower case |
| Format.HyphenateSpaces | src/utils/format.ts:108 | `replace(/\s+/g, '-')` leaves no white space |
| Format.SqueezeHyphens | src/utils/format.ts:109 | `replace(/-+/g, '-')` leaves no doubled hyphen |
| Format.SlugSource | src/utils/format.ts:103-107 | after lower-casing and removing marks and other characters, only `[a-z0-9\s-]` is left |
| Format.GenerateSlug | src/utils/format.ts:102-111 | a slug holds only `[a-z0-9-]` and no doubled hyphen |
| Format.GenerateSlugIdempotent | src/utils/format.ts:102-111 | a slug is its own slug |
| Format.SlugFixedPoint | src/utils/format.ts:102-111 | text of slug characters without doubled hyphens is left unchanged |
| Format.GenerateSlugKeepsAlnum | src/utils/format.ts:102-111 | the slug keeps every lower-case letter and digit of the lower-cased title, in order, and adds none |
| Format.LeadingSpaceGivesHyphen | src/utils/format.ts:108-110 | a title starting with white space gets a slug starting with '-' |
| Format.CorrectedSlug | src/utils/format.ts:102-111 | the corrected slug holds only `[a-z0-9-]` and no doubled hyphen |
| Format.CorrectedIgnoresSurroundingSpace | src/utils/format.ts:102-111 | white space before or after the title does not change the corrected slug |
| BookmarkContext.BookmarkId | src/contexts/BookmarkContext.tsx:24 | the id is the type name, '-' and the URL |
| BookmarkContext.BookmarkIdInjective | src/contexts/BookmarkContext.tsx:24 | distinct (type, URL) pairs get distinct ids |
| BookmarkContext.NewBookmark | src/contexts/BookmarkContext.tsx:21-26 | the new bookmark carries the item's fields, its id and the given date |
| BookmarkContext.HasId | src/contexts/BookmarkContext.tsx:30 | `some(b => b.id === id)` |
| BookmarkContext.AddUpdater | src/contexts/BookmarkContext.tsx:28-34 | afterwards the id is present. The old list is a prefix. The list grows by one exactly when the id was absent, and then the entry appended is the new bookmark |
| BookmarkContext.RemoveUpdater | src/contexts/BookmarkContext.tsx:41 | the id is gone; every other bookmark is kept as often as it was stored, in order |
| BookmarkContext.AddIdempotent | src/contexts/BookmarkContext.tsx:28-34 | adding the same bookmark twice is adding it once |
| BookmarkContext.AddKeepsDistinct | src/contexts/BookmarkContext.tsx:28-34 | adding keeps ids pairwise distinct |
| BookmarkContext.RemoveKeepsDistinct | src/contexts/BookmarkContext.tsx:41 | removing keeps ids pairwise distinct |
| BookmarkContext.RemoveAbsent | src/contexts/BookmarkContext.tsx:41 | removing an absent id changes nothing |
| BookmarkContext.BookmarkProvider.constructor | src/contexts/BookmarkContext.tsx:15-18 | the store starts from the persisted list or from an empty one |
| BookmarkContext.BookmarkProvider.AddBookmark | src/contexts/BookmarkContext.tsx:20-37 | the list becomes the add updater's result and keeps ids distinct |
| BookmarkContext.BookmarkProvider.RemoveBookmark | src/contexts/BookmarkContext.tsx:39-44 | the list becomes the remove updater's result and keeps ids distinct |
| BookmarkContext.BookmarkProvider.IsBookmarked | src/contexts/BookmarkContext.tsx:46-51 | true iff some stored bookmark has the id |
| Types.UseContext | src/contexts/BookmarkContext.tsx:84-90 | `useBookmark` (and `useTheme` at src/contexts/ThemeContext.tsx:49-55, with its own message): the provider's value exactly when there is a provider, else the hook's error message |
| ThemeContext.Toggled | src/contexts/ThemeContext.tsx:19-24 | the mode changes and the colours stay |
| ThemeContext.ToggleInvolution | src/contexts/ThemeContext.tsx:19-24 | toggling twice gives back the theme |
| ThemeContext.ThemeProvider.constructor | src/contexts/ThemeContext.tsx:13-17 | the store starts from the persisted theme or dark/navy/cyan |
| ThemeContext.ThemeProvider.ToggleTheme | src/contexts/ThemeContext.tsx:19-24 | the theme becomes the toggled one |
| ThemeContext.ThemeProvider.SetTheme | src/contexts/ThemeContext.tsx:37-41 | the theme becomes the given one |
| Debounce.EffectiveDelay | src/hooks/useDebounce.ts:15-18 | the timer's wait: a delay below 2^31 is kept, a negative one is zero, and 2^31 up to 2^32 wraps negative and fires at once |
| Debounce.Debouncer.constructor | src/hooks/useDebounce.ts:8-23 | the first render settles the value, raises pending and arms one timer for the delay |
| Debounce.Debouncer.Render | src/hooks/useDebounce.ts:12-23 | a change of value or delay clears the timer, raises pending and arms a fresh timer; the settled value does not move; no change does nothing |
| Debounce.Debouncer.Advance | src/hooks/useDebounce.ts:15-18 | a due timer settles its value and lowers pending; otherwise nothing changes |
| Debounce.Debouncer.Unmount | src/hooks/useDebounce.ts:20-22 | the timer is cleared and never fires |
| Debounce.Debouncer.Burst | src/hooks/useDebounce.ts:12-23 | during a burst of renders the settled value never moves; one full delay later the last value is settled and pending is down |
| NewsPage.FilteredArticles | src/pages/News.tsx:55-62 | kept exactly when the title or excerpt contains the query, ignoring case, and the selected tag and language, if any, match; in order, each kept article as often as it is loaded |
| NewsPage.EmptyControlsShowAll | src/pages/News.tsx:55-62 | with empty controls every article is shown in order |
| NewsPage.SortByKey | src/pages/News.tsx:65 | the sort gives a permutation ordered by the key |
| NewsPage.SortedArticles | src/pages/News.tsx:65-76 | a permutation of the filtered list ordered by views descending, date descending or reading time ascending |
| NewsPage.SortStable | src/pages/News.tsx:65 | articles with equal keys keep their filtered order |
| NewsPage.PopularOrder | src/pages/News.tsx:67-68 | more views come first; a missing count counts as zero |
| NewsPage.AllTagOccurrences | src/pages/News.tsx:79 | `flatMap` of the tags holds exactly the tags of some article |
| NewsPage.AllTags | src/pages/News.tsx:79 | every tag of any article once, in order of first occurrence |
| NewsPage.AllLanguages | src/pages/News.tsx:80 | every language once, in order of first occurrence |
| LibraryPage.PageFilterSpec | src/pages/Library.tsx:117-151 | the page's query, type and level stages keep exactly the items matching every set control |
| LibraryPage.PageKeptIff | src/pages/Library.tsx:121-147 | an item is shown iff it is listed and matches every set control |
| LibraryPage.InitialControlsShowAll | src/pages/Library.tsx:26-34 | the initial controls show every item |
| LibraryPage.Without | src/pages/Library.tsx:154-161 | dropping a name's pairs hides that name and keeps every other `get` |
| LibraryPage.Set | src/pages/Library.tsx:156-159 | `URLSearchParams.set`: afterwards `get` gives the value and every other name is unchanged |
| LibraryPage.HandleSearch | src/pages/Library.tsx:154-161 | `search` only for a non-empty query; `type` and `level` only when not `'all'`; no other parameter |
| LibraryPage.InitialState | src/pages/Library.tsx:26-34 | a present, non-empty parameter becomes its control; a missing or empty one starts as '' for search and `'all'` for type and level |
| LibraryPage.GetFirstPair | src/pages/Library.tsx:26-34 | `URLSearchParams.get` gives the value of the first pair with the name |
| LibraryPage.GetAbsent | src/pages/Library.tsx:26-34 | `URLSearchParams.get` gives `null` exactly when no pair has the name |
| LibraryPage.OrDefault | src/pages/Library.tsx:27-33 | `value \|\| fallback` on an optional string |
| LibraryPage.SearchRoundTrip | src/pages/Library.tsx:26-34 | reading back the written parameters restores the controls |
| LibraryPage.TypeIcon | src/pages/Library.tsx:163-174 | the default icon exactly for types other than cheatsheet, ebook and snippets |
| LibraryPage.TypeIconsDistinct | src/pages/Library.tsx:163-174 | the three known types get distinct icons |
| LibraryPage.LevelColor | src/pages/Library.tsx:176-187 | grey exactly for levels other than beginner, intermediate and advanced |
| LibraryPage.LevelColorsDistinct | src/pages/Library.tsx:176-187 | the three levels get distinct colours |
| ArticleDetailPage.SplitLines | src/pages/ArticleDetail.tsx:319 | `split('\n')` gives at least one piece, none holding a line feed |
| ArticleDetailPage.JoinSplit | src/pages/ArticleDetail.tsx:319 | joining the pieces with line feeds gives back the content |
| ArticleDetailPage.SplitJoin | src/pages/ArticleDetail.tsx:319 | splitting joined lines that hold no line feed gives back the lines |
| ArticleDetailPage.PrefixesExclusive | src/pages/ArticleDetail.tsx:320-331 | the tested prefixes and a blank line exclude each other |
| ArticleDetailPage.ClassifyLine | src/pages/ArticleDetail.tsx:320-331 | the first matching rule wins. h1/h2/h3 exactly for '# ', '## ', '### ', with the prefix removed. Nothing exactly for a code fence. A break exactly for a blank line. Otherwise a paragraph holding the line verbatim, so '#x' is a paragraph |
| ArticleDetailPage.ClassifyPlain | src/pages/ArticleDetail.tsx:326-331 | the last three rules: fence, blank line, paragraph |
| ArticleDetailPage.HeadingRoundTrip | src/pages/ArticleDetail.tsx:320-325 | classifying a heading's source gives back the heading |
| ArticleDetailPage.Blocks | src/pages/ArticleDetail.tsx:319-333 | at most one block per line; exactly the fences give none |
| ArticleDetailPage.BlocksDropFences | src/pages/ArticleDetail.tsx:326-327 | fences contribute nothing: the blocks of the lines are the blocks of the lines without fences |
| ArticleDetailPage.BlocksSkipFences | src/pages/ArticleDetail.tsx:319-333 | for any content, block `i` is the classification of the `i`-th line that is not a fence |
| ArticleDetailPage.RenderContent | src/pages/ArticleDetail.tsx:319-333 | the content is split into lines and each line that is not a fence gives its block, in order |
| ArticleDetailPage.BlocksOnePerLine | src/pages/ArticleDetail.tsx:319-333 | content without fences gives one block per line, each the line's classification |
| ArticleDetailPage.IndexAsWritten | src/pages/ArticleDetail.tsx:179 | `mockArticles[slug]`: an own entry, else an inherited `Object.prototype` member, else nothing |
| ArticleDetailPage.IndexOwn | src/pages/ArticleDetail.tsx:179 | own-entry lookup: found exactly for keys of the table, never an inherited member |
| ArticleDetailPage.PrototypeSlugAsWritten | src/pages/ArticleDetail.tsx:179-183 | the slug "constructor" finds an inherited member as written and nothing with own-entry lookup |
| ArticleDetailPage.LookupsAgree | src/pages/ArticleDetail.tsx:179 | the two lookups agree on every slug that is not an inherited name |
| ArticleDetailPage.DetailPage.constructor | src/pages/ArticleDetail.tsx:10-12 | no article, loading, no error |
| ArticleDetailPage.DetailPage.LoadAsWritten | src/pages/ArticleDetail.tsx:176-188 | a present slug whose index is truthy stores it and clears the error. Otherwise the error is 'Artigo não encontrado' and the article stays |
| ArticleDetailPage.DetailPage.Load | src/pages/ArticleDetail.tsx:176-188 | the same with own-entry lookup: only a key of the table shows an article |
| ArticlesPage.NonEmpty | src/pages/Articles.tsx:24-26 | `value \|\| undefined` |
| ArticlesPage.BuildFilters | src/pages/Articles.tsx:23-28 | empty query, tag and language are absent. The type is always 'article'. A selected tag becomes a one-element list |
| ArticlesPage.ControlsRoundTrip | src/pages/Articles.tsx:23-28 | the controls can be read back from the filter object |
| ArticlesPage.EmptyControlsAreArticleOnly | src/pages/Articles.tsx:50-55 | empty controls give `{ type: 'article' }` |
| ArticlesPage.Toggle | src/pages/Articles.tsx:37-48 | clicking the current choice clears it; clicking another selects it |
| ArticlesPage.ToggleTwice | src/pages/Articles.tsx:37-40 | two clicks on the same button restore the selection when nothing or that value was selected; otherwise nothing ends up selected |
| ArticlesPage.ArticlesPage.constructor | src/pages/Articles.tsx:19-30 | empty controls; the hook starts from `{ type: 'article' }` |
| ArticlesPage.ArticlesPage.HandleSearch | src/pages/Articles.tsx:32-35 | stores the query and pushes the render's filters with the query replaced, even by ''. For a non-empty query this is the new render's filter object |
| ArticlesPage.ArticlesPage.HandleTagFilter | src/pages/Articles.tsx:37-40 | toggles the tag and pushes the filters with the tag list cleared or replaced; for a non-empty tag this is the new render's filter object |
| ArticlesPage.ArticlesPage.HandleLanguageFilter | src/pages/Articles.tsx:42-48 | the same rule for the language |
| ArticlesPage.ArticlesPage.ClearFilters | src/pages/Articles.tsx:50-55 | empties the controls and pushes `{ type: 'article' }`, the emptied controls' filter object |

### Code and documentation

Where the project's documentation and its code disagree, the model follows the code:

- A bookmark id joins type and URL with '-'.
- `totalPages` is 0 for an empty result.
- `getArticleBySlug` throws "Article not found" rather than returning nothing.
- The news "popular" sort orders by view count.
- The library page's mock list differs from the repository's in its third item: "CSS Grid Snippets" instead of "Node.js Snippets".
- `useDebounce` raises `isDebouncing` on mount, because its effect runs after the first render. The hook's own test expects `false` at that point (src/hooks/__tests__/useDebounce.test.ts:17). `Debounce.Debouncer.constructor` states what the code does.

## Left out

- Network calls (`fetch`) are not modelled:
  - the fetch-based repository methods at src/services/ArticlesRepository.ts:349-445 and src/services/LibraryRepository.ts:166-334;
  - `submitContactForm`.
- `formatFileSize` and `formatNumber` are not modelled: they rest on floating-point logarithms and `Intl` number formatting.
- Local storage, `useLocalStorage` and src/utils/storage.ts are not modelled. The persisted start values of the two stores are constructor arguments.
- Browser effects are not modelled:
  - `exportBookmarks` (Blob, DOM and object URLs);
  - the theme's `document.documentElement` class effect.
- Clock readings are parameters rather than modelled:
  - the bookmark `addedAt` date is a parameter;
  - relative time takes elapsed seconds;
  - dates are whole seconds since the epoch.
- The simulated `setTimeout` delays of repositories and pages are not modelled; those operations are synchronous.
- The loading flags of the library and news pages are not modelled.
- The hooks `useArticles`, `useLibrary` and `useSearch`, `SearchContext` and `SearchBar` are asynchronous orchestration and are not modelled. The articles page records the last filter object pushed to its hook.
- The news page's article loading is not modelled; its articles are an input. It calls `getArticles` with an object in the `page` position, and the model does not treat that as intended behaviour.
- The article page's article table and its contents are not modelled; the table is a parameter. `formatDate` (locale date formatting) and the page's rendering of what it stored are also not modelled.
- `Text.Lower`: only ASCII letters change case, because full Unicode case mapping is not modelled.
- `Format.GenerateSlug`: NFD decomposition is not modelled, so accented letters are dropped rather than reduced to their base letter. Only marks already decomposed in the input are removed.
- `Format.TruncateText`, `SearchRepository.SuggestionsFrom` and `ContactRepository.ValidateContactForm` count lengths in code points, not UTF-16 units.
- `Format.FormatReadingTime` takes whole minutes; fractional minutes are not modelled.
- `Pagination.Paginate`, `ArticlesRepository.ArticlesPage` and `LibraryRepository.LibraryPage` require `limit > 0`. With a zero limit the source divides by zero and reports infinite pages. With a negative limit it reports a negative page count and slices from the end.
- Page numbers, limits, `maxLength` and delays are whole numbers. Fractional values are not modelled: `slice` truncates a fractional index, and page windows and page counts computed from fractional values are fractional.

## Findings

| source | as written | input that shows it | evidently intended | confidence | as-written member | corrected member |
|---|---|---|---|---|---|---|
| src/utils/format.ts:47-54 | weeks are shown only below 28 days and months are `floor(days / 30)` | 28 or 29 days ago renders "0 meses atrás" | weeks until a month has passed, so every count is at least 1 | high, not executed | Format.ZeroMonthsAsWritten | Format.CorrectedBucketOf |
| src/utils/format.ts:52-58 | months are shown only below 360 days and years are `floor(days / 365)` | 360 to 364 days ago renders "0 anos atrás" | months until a year has passed | high, not executed | Format.ZeroYearsAsWritten | Format.CorrectedBucketOf |
| src/utils/format.ts:108-110 | the final `trim()` runs after white space has become hyphens, so it removes nothing | " React" gives "-react" | white space around the title does not reach the slug | medium, not executed | Format.LeadingSpaceGivesHyphen | Format.CorrectedIgnoresSurroundingSpace |
| src/pages/ArticleDetail.tsx:179 | the slug indexes a plain object, so inherited `Object.prototype` members count as found | route slug "constructor" stores a function as the article and sets no error | only the table's own keys are articles; any other slug shows 'Artigo não encontrado' | high, not executed | ArticleDetailPage.PrototypeSlugAsWritten | ArticleDetailPage.IndexOwn |
