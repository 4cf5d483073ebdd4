/** The resource page (src/pages/Library.tsx): its own mock list narrowed by the
    search box and the type and level selects (`'all'` switches a select off),
    the URL parameters the search form writes and the page reads back, and the
    icon and colour tables. The half-second delay is not modelled. */
module LibraryPage {
  import opened Seqs
  import opened Text
  import opened Types
  import opened Filters

  const All := "all"

  /** The page's mock list; it differs from the repository's in its third item. */
  const PageItems: seq<LibraryItem> := [
    LibraryItem("1", "React Cheat Sheet", "Guia rápido de referência para React", "cheatsheet", "pt",
      "intermediate", ["React", "JavaScript", "Reference"], "/downloads/react-cheatsheet.pdf",
      "/preview/react-cheatsheet", "2.5 MB", "PDF", 1705312800, true),
    LibraryItem("2", "TypeScript Handbook", "Manual completo do TypeScript", "ebook", "pt",
      "beginner", ["TypeScript", "JavaScript", "Handbook"], "/downloads/typescript-handbook.pdf",
      "/preview/typescript-handbook", "5.2 MB", "PDF", 1704897000, false),
    LibraryItem("3", "CSS Grid Snippets", "Códigos úteis para layouts com CSS Grid", "snippets", "pt",
      "intermediate", ["CSS", "Grid", "Layout", "Snippets"], "/downloads/css-grid-snippets.zip",
      "/preview/css-grid-snippets", "1.2 MB", "ZIP", 1704446100, true),
    LibraryItem("4", "CSS Grid Guide", "Guia completo de CSS Grid Layout", "ebook", "pt",
      "intermediate", ["CSS", "Layout", "Grid"], "/downloads/css-grid-guide.pdf",
      "/preview/css-grid-guide", "3.1 MB", "PDF", 1704127500, false),
    LibraryItem("5", "Python Data Science Toolkit", "Ferramentas essenciais para Data Science com Python",
      "cheatsheet", "pt", "advanced", ["Python", "Data Science", "Analytics"],
      "/downloads/python-datascience-toolkit.pdf", "/preview/python-datascience-toolkit",
      "4.7 MB", "PDF", 1703762400, true)
  ]

  // ---------------------------------------------------------------------------
  // Filter

  /** The three stages of the page's effect, each applied only when its control
      is set. */
  function PageFilter(items: seq<LibraryItem>, query: string, kind: string, level: string): seq<LibraryItem> {
    var q := Lower(query);
    var byQuery := if query != "" then Filter(items, (it: LibraryItem) => TextMatches(it.title, it.description, it.tags, q))
                   else items;
    var byKind := if kind != All then Filter(byQuery, (it: LibraryItem) => it.kind == kind) else byQuery;
    if level != All then Filter(byKind, (it: LibraryItem) => it.level == level) else byKind
  }

  /** The items the effect stores for the current controls. */
  function ShownItems(query: string, kind: string, level: string): seq<LibraryItem> {
    PageFilter(PageItems, query, kind, level)
  }

  /** Reference definition: the item matches every control that is set. */
  predicate PageMatches(it: LibraryItem, query: string, kind: string, level: string) {
    (query != "" ==> TextMatches(it.title, it.description, it.tags, Lower(query)))
    && (kind != All ==> it.kind == kind)
    && (level != All ==> it.level == level)
  }

  /** The staged filter keeps exactly the items matching every set control, in
      list order. */
  lemma PageFilterSpec(items: seq<LibraryItem>, query: string, kind: string, level: string)
    ensures PageFilter(items, query, kind, level)
         == Filter(items, (it: LibraryItem) => PageMatches(it, query, kind, level))
  {
    var q := Lower(query);
    var p1 := (it: LibraryItem) => query != "" ==> TextMatches(it.title, it.description, it.tags, q);
    var p2 := (it: LibraryItem) => p1(it) && (kind != All ==> it.kind == kind);
    var p3 := (it: LibraryItem) => PageMatches(it, query, kind, level);
    FilterWhen(items, query != "", (it: LibraryItem) => TextMatches(it.title, it.description, it.tags, q), p1);
    FilterStage(items, p1, kind != All, (it: LibraryItem) => it.kind == kind, p2);
    FilterStage(items, p2, level != All, (it: LibraryItem) => it.level == level, p3);
  }

  /** An item is shown exactly when it is in the list and matches every set
      control. */
  lemma PageKeptIff(items: seq<LibraryItem>, query: string, kind: string, level: string, it: LibraryItem)
    ensures it in PageFilter(items, query, kind, level) <==> it in items && PageMatches(it, query, kind, level)
  {
    PageFilterSpec(items, query, kind, level);
    FilterMember(items, (x: LibraryItem) => PageMatches(x, query, kind, level), it);
  }

  /** With the controls in their initial state every item is shown. */
  lemma InitialControlsShowAll(items: seq<LibraryItem>)
    ensures PageFilter(items, "", All, All) == items
  {
  }

  // ---------------------------------------------------------------------------
  // URL parameters

  /** A `URLSearchParams`: name/value pairs in insertion order. */
  type Params = seq<(string, string)>

  /** `params.get(name)`: the value of the first pair with that name. */
  function Get(params: Params, name: string): Option<string> {
    if params == [] then None
    else if params[0].0 == name then Some(params[0].1)
    else Get(params[1..], name)
  }

  /** `get` finds the value of the first pair with the name. */
  lemma {:induction false} GetFirstPair(params: Params, name: string, i: nat)
    requires i < |params| && params[i].0 == name
    requires forall j :: 0 <= j < i ==> params[j].0 != name
    ensures Get(params, name) == Some(params[i].1)
    decreases i
  {
    if i > 0 {
      assert params[0].0 != name;
      GetFirstPair(params[1..], name, i - 1);
    }
  }

  /** `get` gives `null` exactly when no pair has the name. */
  lemma {:induction false} GetAbsent(params: Params, name: string)
    ensures Get(params, name).None? <==> forall j :: 0 <= j < |params| ==> params[j].0 != name
    decreases |params|
  {
    if params != [] {
      GetAbsent(params[1..], name);
      assert forall j :: 1 <= j < |params| ==> params[j] == params[1..][j - 1];
    }
  }

  /** The pairs without any of the given name. */
  function Without(params: Params, name: string): (r: Params)
    ensures forall n :: Get(r, n) == if n == name then None else Get(params, n)
  {
    if params == [] then []
    else if params[0].0 == name then Without(params[1..], name)
    else [params[0]] + Without(params[1..], name)
  }

  /** `params.set(name, value)`: the first pair with that name takes the value and
      later ones are dropped; without one the pair is appended. */
  function Set(params: Params, name: string, value: string): (r: Params)
    ensures Get(r, name) == Some(value)
    ensures forall n :: n != name ==> Get(r, n) == Get(params, n)
  {
    if params == [] then [(name, value)]
    else if params[0].0 == name then [(name, value)] + Without(params[1..], name)
    else [params[0]] + Set(params[1..], name, value)
  }

  /** What `handleSearch` writes into the URL: the query when it is not empty, the
      type and the level when they are not `'all'`. */
  method HandleSearch(query: string, kind: string, level: string) returns (params: Params)
    ensures Get(params, "search") == if query != "" then Some(query) else None
    ensures Get(params, "type") == if kind != All then Some(kind) else None
    ensures Get(params, "level") == if level != All then Some(level) else None
    ensures forall n :: n != "search" && n != "type" && n != "level" ==> Get(params, n) == None
  {
    params := [];
    if query != "" { params := Set(params, "search", query); }
    if kind != All { params := Set(params, "type", kind); }
    if level != All { params := Set(params, "level", level); }
  }

  /** The page's starting controls: each parameter, or `''` for the query and
      `'all'` for the selects when the parameter is missing or empty. */
  function InitialState(params: Params): (r: (string, string, string))
    ensures !Filled(Get(params, "search")) ==> r.0 == ""
    ensures !Filled(Get(params, "type")) ==> r.1 == All
    ensures !Filled(Get(params, "level")) ==> r.2 == All
    ensures Filled(Get(params, "search")) ==> Get(params, "search") == Some(r.0)
    ensures Filled(Get(params, "type")) ==> Get(params, "type") == Some(r.1)
    ensures Filled(Get(params, "level")) ==> Get(params, "level") == Some(r.2)
  {
    (OrDefault(Get(params, "search"), ""), OrDefault(Get(params, "type"), All),
     OrDefault(Get(params, "level"), All))
  }

  /** A parameter that is present and not empty, so truthy. */
  predicate Filled(o: Option<string>) {
    o.Some? && o.value != ""
  }

  /** `value || fallback` on an optional string. */
  function OrDefault(o: Option<string>, fallback: string): (r: string)
    ensures Filled(o) ==> r == o.value
    ensures !Filled(o) ==> r == fallback
  {
    if Filled(o) then o.value else fallback
  }

  /** Reading the parameters the form wrote gives back the controls that wrote
      them. The selects only offer non-empty values. */
  method SearchRoundTrip(query: string, kind: string, level: string) returns (params: Params)
    requires kind != "" && level != ""
    ensures InitialState(params) == (query, kind, level)
  {
    params := HandleSearch(query, kind, level);
  }

  // ---------------------------------------------------------------------------
  // Icons and colours

  const CheatsheetIcon := "\U{1F4CB}"
  const EbookIcon := "\U{1F4DA}"
  const SnippetsIcon := "\U{1F4BB}"
  const DefaultIcon := "\U{1F4C4}"

  predicate KnownType(kind: string) {
    kind == "cheatsheet" || kind == "ebook" || kind == "snippets"
  }

  /** `getTypeIcon`: one icon per known type, the default icon for any other. */
  function TypeIcon(kind: string): (r: string)
    ensures r == DefaultIcon <==> !KnownType(kind)
  {
    if kind == "cheatsheet" then CheatsheetIcon
    else if kind == "ebook" then EbookIcon
    else if kind == "snippets" then SnippetsIcon
    else DefaultIcon
  }

  /** Distinct known types get distinct icons. */
  lemma TypeIconsDistinct(k1: string, k2: string)
    requires KnownType(k1) && KnownType(k2) && TypeIcon(k1) == TypeIcon(k2)
    ensures k1 == k2
  {
  }

  const Grey := "#6b7280"

  predicate KnownLevel(level: string) {
    level == "beginner" || level == "intermediate" || level == "advanced"
  }

  /** `getLevelColor`: green, amber and red for the three levels, grey for any
      other value. */
  function LevelColor(level: string): (r: string)
    ensures r == Grey <==> !KnownLevel(level)
  {
    if level == "beginner" then "#22c55e"
    else if level == "intermediate" then "#f59e0b"
    else if level == "advanced" then "#ef4444"
    else Grey
  }

  /** Distinct levels get distinct colours. */
  lemma LevelColorsDistinct(l1: string, l2: string)
    requires KnownLevel(l1) && KnownLevel(l2) && LevelColor(l1) == LevelColor(l2)
    ensures l1 == l2
  {
  }
}
