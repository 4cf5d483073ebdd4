/** The article page (src/pages/ArticleDetail.tsx): looking the route's slug up
    in the page's table of articles, and turning the article's content into
    blocks line by line. The table's contents and the half-second delay are not
    modelled; the table is a parameter. */
module ArticleDetailPage {
  import opened Seqs
  import opened Text

  // ---------------------------------------------------------------------------
  // Lines

  /** `content.split('\n')`: the pieces between line feeds; there is always at
      least one. */
  function SplitLines(s: string): (r: seq<string>)
    ensures r != []
    ensures forall i :: 0 <= i < |r| ==> '\n' !in r[i]
  {
    if s == [] then [""]
    else if s[0] == '\n' then [""] + SplitLines(s[1..])
    else
      var rest := SplitLines(s[1..]);
      [[s[0]] + rest[0]] + rest[1..]
  }

  /** The inverse of the split: the lines with a line feed between each two. */
  function JoinLines(lines: seq<string>): string
    requires lines != []
  {
    if |lines| == 1 then lines[0] else lines[0] + "\n" + JoinLines(lines[1..])
  }

  lemma JoinLinesCons(c: char, x: string, t: seq<string>)
    ensures JoinLines([[c] + x] + t) == [c] + JoinLines([x] + t)
  {
    if t != [] {
      assert ([[c] + x] + t)[1..] == t == ([x] + t)[1..];
    }
  }

  /** Joining the pieces of a split gives back the content. */
  lemma {:induction false} JoinSplit(s: string)
    ensures JoinLines(SplitLines(s)) == s
    decreases |s|
  {
    if s != [] {
      JoinSplit(s[1..]);
      var rest := SplitLines(s[1..]);
      if s[0] == '\n' {
        assert ([""] + rest)[1..] == rest;
      } else {
        JoinLinesCons(s[0], rest[0], rest[1..]);
        assert [rest[0]] + rest[1..] == rest;
        assert s == [s[0]] + s[1..];
      }
    }
  }

  lemma {:induction false} SplitOneLine(line: string)
    requires '\n' !in line
    ensures SplitLines(line) == [line]
    decreases |line|
  {
    if line != [] {
      assert line[0] in line;
      assert forall c :: c in line[1..] ==> c in line;
      SplitOneLine(line[1..]);
      assert line == [line[0]] + line[1..];
    }
  }

  lemma {:induction false} SplitAtFirstFeed(a: string, b: string)
    requires '\n' !in a
    ensures SplitLines(a + "\n" + b) == [a] + SplitLines(b)
    decreases |a|
  {
    if a == [] {
      assert a + "\n" + b == ['\n'] + b;
      assert (['\n'] + b)[1..] == b;
    } else {
      assert a[0] in a;
      assert forall c :: c in a[1..] ==> c in a;
      SplitAtFirstFeed(a[1..], b);
      assert (a + "\n" + b)[1..] == a[1..] + "\n" + b;
      assert (a + "\n" + b)[0] == a[0];
      assert [a[0]] + a[1..] == a;
    }
  }

  /** Splitting joined lines that hold no line feed gives back the lines. */
  lemma {:induction false} SplitJoin(lines: seq<string>)
    requires lines != []
    requires forall i :: 0 <= i < |lines| ==> '\n' !in lines[i]
    ensures SplitLines(JoinLines(lines)) == lines
    decreases |lines|
  {
    if |lines| == 1 {
      SplitOneLine(lines[0]);
    } else {
      SplitJoin(lines[1..]);
      SplitAtFirstFeed(lines[0], JoinLines(lines[1..]));
      assert [lines[0]] + lines[1..] == lines;
    }
  }

  // ---------------------------------------------------------------------------
  // Blocks

  datatype Block = H1(text: string) | H2(text: string) | H3(text: string) | Br | Para(text: string)

  /** The four prefixes the page tests for, and a blank line, exclude each
      other. */
  lemma PrefixesExclusive(line: string)
    ensures StartsWith(line, "## ") ==> !StartsWith(line, "# ")
    ensures StartsWith(line, "### ") ==> !StartsWith(line, "# ") && !StartsWith(line, "## ")
    ensures StartsWith(line, "```") ==>
      !StartsWith(line, "# ") && !StartsWith(line, "## ") && !StartsWith(line, "### ")
    ensures AllSpace(line) ==>
      !StartsWith(line, "# ") && !StartsWith(line, "## ") && !StartsWith(line, "### ") && !StartsWith(line, "```")
  {
    if StartsWith(line, "## ") { assert line[1] == '#'; }
    if StartsWith(line, "### ") { assert line[1] == '#' && line[2] == '#'; }
    if StartsWith(line, "```") { assert line[0] == '`'; }
    if AllSpace(line) && |line| > 0 { assert IsSpace(line[0]); }
  }

  lemma PrefixSplit(line: string, prefix: string)
    requires StartsWith(line, prefix)
    ensures line == prefix + line[|prefix|..]
  {
    assert line == line[..|prefix|] + line[|prefix|..];
  }

  /** The block one line of content becomes, or nothing for a code fence. The
      tests run in order: `# `, `## `, `### `, three backticks, a blank line,
      anything else. */
  function ClassifyLine(line: string): (r: Option<Block>)
    ensures (r.Some? && r.value.H1?) <==> StartsWith(line, "# ")
    ensures (r.Some? && r.value.H2?) <==> StartsWith(line, "## ")
    ensures (r.Some? && r.value.H3?) <==> StartsWith(line, "### ")
    ensures r.None? <==> StartsWith(line, "```")
    ensures (r.Some? && r.value.Br?) <==> AllSpace(line)
    ensures r.Some? && r.value.H1? ==> line == "# " + r.value.text
    ensures r.Some? && r.value.H2? ==> line == "## " + r.value.text
    ensures r.Some? && r.value.H3? ==> line == "### " + r.value.text
    ensures r.Some? && r.value.Para? ==> r.value.text == line
  {
    PrefixesExclusive(line);
    if StartsWith(line, "# ") then
      PrefixSplit(line, "# ");
      Some(H1(line[2..]))
    else if StartsWith(line, "## ") then
      PrefixSplit(line, "## ");
      Some(H2(line[3..]))
    else if StartsWith(line, "### ") then
      PrefixSplit(line, "### ");
      Some(H3(line[4..]))
    else ClassifyPlain(line)
  }

  /** The last three tests, for a line that is not a heading. */
  function ClassifyPlain(line: string): (r: Option<Block>)
    ensures r.None? <==> StartsWith(line, "```")
    ensures (r.Some? && r.value.Br?) <==> AllSpace(line)
    ensures r.Some? ==> r.value.Br? || r.value == Para(line)
  {
    TrimEmptyIff(line);
    PrefixesExclusive(line);
    if StartsWith(line, "```") then None
    else if Trim(line) == "" then Some(Br)
    else Some(Para(line))
  }

  /** What a block is written as: the partner of `ClassifyLine`. */
  function BlockSource(b: Block): string {
    match b
    case H1(t) => "# " + t
    case H2(t) => "## " + t
    case H3(t) => "### " + t
    case Br => ""
    case Para(t) => t
  }

  /** Classifying the source of a heading gives back the heading. */
  lemma HeadingRoundTrip(t: string)
    ensures ClassifyLine(BlockSource(H1(t))) == Some(H1(t))
    ensures ClassifyLine(BlockSource(H2(t))) == Some(H2(t))
    ensures ClassifyLine(BlockSource(H3(t))) == Some(H3(t))
  {
    assert StartsWith("# " + t, "# ");
    assert StartsWith("## " + t, "## ");
    assert StartsWith("### " + t, "### ");
  }

  /** The blocks rendered for some content: one per line, code fences dropped. */
  function Blocks(lines: seq<string>): (r: seq<Block>)
    ensures |r| <= |lines|
    ensures |r| == |lines| - |Filter(lines, (l: string) => StartsWith(l, "```"))|
  {
    if lines == [] then []
    else
      var rest := Blocks(lines[1..]);
      assert lines == [lines[0]] + lines[1..];
      FilterAppend([lines[0]], lines[1..], (l: string) => StartsWith(l, "```"));
      match ClassifyLine(lines[0])
      case None => rest
      case Some(b) => [b] + rest
  }

  /** The page's content area: the blocks of the content's lines that are not
      code fences, one per line and in order. */
  function RenderContent(content: string): (r: seq<Block>)
    ensures |r| == |Filter(SplitLines(content), NotFence)|
    ensures forall i :: 0 <= i < |r| ==> Some(r[i]) == ClassifyLine(Filter(SplitLines(content), NotFence)[i])
  {
    BlocksSkipFences(SplitLines(content));
    Blocks(SplitLines(content))
  }

  predicate NotFence(line: string) {
    !StartsWith(line, "```")
  }

  /** Fences contribute nothing: the blocks of some lines are the blocks of its
      lines that are not fences. */
  lemma {:induction false} BlocksDropFences(lines: seq<string>)
    ensures Blocks(lines) == Blocks(Filter(lines, NotFence))
    decreases |lines|
  {
    if lines != [] {
      var tail := lines[1..];
      BlocksDropFences(tail);
      var kept := Filter(tail, NotFence);
      if NotFence(lines[0]) {
        assert Filter(lines, NotFence) == [lines[0]] + kept;
        assert ([lines[0]] + kept)[1..] == kept;
      } else {
        assert Filter(lines, NotFence) == kept;
      }
    }
  }

  /** Whatever the content, the blocks are the classifications of the lines that
      are not fences, in order. */
  lemma BlocksSkipFences(lines: seq<string>)
    ensures |Blocks(lines)| == |Filter(lines, NotFence)|
    ensures forall i :: 0 <= i < |Blocks(lines)| ==>
      Some(Blocks(lines)[i]) == ClassifyLine(Filter(lines, NotFence)[i])
  {
    BlocksDropFences(lines);
    var kept := Filter(lines, NotFence);
    assert forall i :: 0 <= i < |kept| ==> NotFence(kept[i]);
    BlocksOnePerLine(kept);
  }

  /** Content without code fences gives exactly one block per line, and every
      paragraph holds its line unchanged. */
  lemma {:induction false} BlocksOnePerLine(lines: seq<string>)
    requires forall i :: 0 <= i < |lines| ==> !StartsWith(lines[i], "```")
    ensures |Blocks(lines)| == |lines|
    ensures forall i :: 0 <= i < |lines| ==> Some(Blocks(lines)[i]) == ClassifyLine(lines[i])
    decreases |lines|
  {
    if lines != [] {
      var tail := lines[1..];
      assert forall i :: 0 <= i < |tail| ==> tail[i] == lines[i + 1];
      BlocksOnePerLine(tail);
      var rest := Blocks(tail);
      var first := ClassifyLine(lines[0]);
      assert first.Some? by { assert !StartsWith(lines[0], "```"); }
      assert Blocks(lines) == [first.value] + rest;
      forall i | 0 <= i < |lines| ensures Some(Blocks(lines)[i]) == ClassifyLine(lines[i]) {
        if i > 0 {
          assert Blocks(lines)[i] == rest[i - 1] && tail[i - 1] == lines[i];
        }
      }
    }
  }

  // ---------------------------------------------------------------------------
  // Slug lookup

  const NotFound := "Artigo não encontrado"

  /** Names every plain object inherits from `Object.prototype`; reading one of
      them off the table yields a function or an object, never `undefined`. */
  const PrototypeNames: set<string> := {
    "constructor", "hasOwnProperty", "isPrototypeOf", "propertyIsEnumerable",
    "toString", "toLocaleString", "valueOf", "__defineGetter__",
    "__defineSetter__", "__lookupGetter__", "__lookupSetter__", "__proto__"
  }

  /** What indexing the table with a slug produces. */
  datatype Lookup<A> = Own(article: A) | Inherited(name: string) | Missing

  /** `mockArticles[slug]` as written: an own entry, else an inherited member,
      else `undefined`. */
  function IndexAsWritten<A>(table: map<string, A>, slug: string): (r: Lookup<A>)
    ensures r.Own? <==> slug in table
    ensures r.Own? ==> r.article == table[slug]
    ensures r.Inherited? <==> slug !in table && slug in PrototypeNames
  {
    if slug in table then Own(table[slug])
    else if slug in PrototypeNames then Inherited(slug)
    else Missing
  }

  /** The lookup the page evidently means: own entries only. */
  function IndexOwn<A>(table: map<string, A>, slug: string): (r: Lookup<A>)
    ensures !r.Inherited?
    ensures r.Own? <==> slug in table
    ensures r.Own? ==> r.article == table[slug]
  {
    if slug in table then Own(table[slug]) else Missing
  }

  /** A slug naming an inherited member passes the page's test as written: no
      error is set and what the page stores as its article is that member, not
      an article. */
  lemma PrototypeSlugAsWritten<A>(table: map<string, A>)
    requires "constructor" !in table
    ensures IndexAsWritten(table, "constructor") == Inherited("constructor")
    ensures IndexOwn(table, "constructor") == Missing
  {
  }

  /** Own-entry lookup and the lookup as written agree on every slug that is not
      an inherited name. */
  lemma LookupsAgree<A>(table: map<string, A>, slug: string)
    requires slug !in PrototypeNames
    ensures IndexAsWritten(table, slug) == IndexOwn(table, slug)
  {
  }

  /** The page's state cells: the article shown, the loading flag and the error. */
  class DetailPage<A> {
    var article: Option<Lookup<A>>
    var loading: bool
    var error: Option<string>

    constructor ()
      ensures article == None && loading && error == None
    {
      article := None;
      loading := true;
      error := None;
    }

    /** The effect's timeout as written: a slug that is present and whose index
        is truthy stores that value and clears the error; otherwise the error is
        set and the previous article stays. */
    method LoadAsWritten(slug: Option<string>, table: map<string, A>)
      modifies this
      ensures !loading
      ensures slug.Some? && slug.value != "" && !IndexAsWritten(table, slug.value).Missing? ==>
        article == Some(IndexAsWritten(table, slug.value)) && error == None
      ensures !(slug.Some? && slug.value != "" && !IndexAsWritten(table, slug.value).Missing?) ==>
        article == old(article) && error == Some(NotFound)
    {
      if slug.Some? && slug.value != "" && !IndexAsWritten(table, slug.value).Missing? {
        article := Some(IndexAsWritten(table, slug.value));
        error := None;
      } else {
        error := Some(NotFound);
      }
      loading := false;
    }

    /** The effect's timeout with own-entry lookup: only a slug of the table
        shows an article; every other slug sets the error. */
    method Load(slug: Option<string>, table: map<string, A>)
      modifies this
      ensures !loading
      ensures slug.Some? && slug.value != "" && slug.value in table ==>
        article == Some(Own(table[slug.value])) && error == None
      ensures !(slug.Some? && slug.value != "" && slug.value in table) ==>
        article == old(article) && error == Some(NotFound)
    {
      if slug.Some? && slug.value != "" && IndexOwn(table, slug.value).Own? {
        article := Some(IndexOwn(table, slug.value));
        error := None;
      } else {
        error := Some(NotFound);
      }
      loading := false;
    }
  }
}
