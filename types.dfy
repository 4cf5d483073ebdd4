/** The records of the content site (src/types/index.ts). Optional fields are
    `Option`s; timestamps are whole seconds since the Unix epoch. */
module Types {
  import opened Seqs

  datatype Author = Author(id: string, name: string)

  /** An article. `category` is absent from every mock record, and `views` is read
      by the news page although the record type does not declare it. */
  datatype Article = Article(
    id: string,
    title: string,
    slug: string,
    excerpt: string,
    content: string,
    author: Author,
    tags: seq<string>,
    category: Option<string>,
    language: string,
    readingTime: int,
    publishedAt: int,
    updatedAt: int,
    featured: bool,
    views: Option<int>)

  /** A downloadable resource. `kind` and `level` are kept as strings: the mock data
      and the pages use values ('snippets') outside the declared unions. */
  datatype LibraryItem = LibraryItem(
    id: string,
    title: string,
    description: string,
    kind: string,
    language: string,
    level: string,
    tags: seq<string>,
    downloadUrl: string,
    previewUrl: string,
    fileSize: string,
    format: string,
    createdAt: int,
    featured: bool)

  datatype ResultKind = ArticleResult | LibraryResult

  datatype SearchResult = SearchResult(
    id: string,
    title: string,
    kind: ResultKind,
    excerpt: string,
    slug: string,
    tags: seq<string>)

  /** The optional constraints a caller passes to a repository. */
  datatype SearchFilters = SearchFilters(
    query: Option<string>,
    search: Option<string>,
    tags: Option<seq<string>>,
    category: Option<string>,
    language: Option<string>,
    kind: Option<string>,
    level: Option<string>,
    featured: Option<bool>)

  const NoFilters: SearchFilters := SearchFilters(None, None, None, None, None, None, None, None)

  /** JavaScript truthiness of an optional string: present and non-empty. */
  predicate Truthy(o: Option<string>) {
    o.Some? && o.value != ""
  }

  datatype PaginationInfo = PaginationInfo(
    page: int,
    limit: int,
    total: nat,
    totalPages: nat,
    hasNext: bool,
    hasPrev: bool)

  /** `ApiResponse<T[]>` as the mock repositories build it. */
  datatype Response<T> = Response(data: seq<T>, pagination: PaginationInfo)

  datatype Category = Category(
    id: string,
    name: string,
    slug: string,
    description: string,
    icon: string,
    color: string,
    articleCount: nat)

  datatype ContactForm = ContactForm(name: string, email: string, message: string)

  datatype Mode = Light | Dark

  datatype Theme = Theme(mode: Mode, primary: string, accent: string)

  datatype BookmarkKind = ArticleBookmark | LibraryBookmark

  datatype Bookmark = Bookmark(id: string, kind: BookmarkKind, title: string, url: string, addedAt: string)

  /** A context hook (`useBookmark`, `useTheme`): the value of the enclosing
      provider, or the error the hook throws when there is none. */
  function UseContext<P>(context: Option<P>, message: string): (r: Result<P, string>)
    ensures r.Success? <==> context.Some?
    ensures context.Some? ==> r.value == context.value
    ensures context.None? ==> r.error == message
  {
    match context
    case Some(p) => Success(p)
    case None => Failure(message)
  }
}
