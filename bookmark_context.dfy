/** The bookmark store of src/contexts/BookmarkContext.tsx: a list of bookmarks
    held by the provider and replaced by the add and remove updaters. The
    persisted start value is a constructor argument; `addedAt` is a clock reading
    the caller passes in. */
module BookmarkContext {
  import opened Seqs
  import opened Types

  const OutsideProvider := "useBookmark must be used within a BookmarkProvider"

  /** What a caller hands to `addBookmark`: a bookmark without id and date. */
  datatype BookmarkItem = BookmarkItem(kind: BookmarkKind, title: string, url: string)

  function KindName(k: BookmarkKind): (r: string)
    ensures |r| == 7
  {
    match k
    case ArticleBookmark => "article"
    case LibraryBookmark => "library"
  }

  /** The id of a new bookmark: its type, a hyphen and its URL. */
  function BookmarkId(kind: BookmarkKind, url: string): (r: string)
    ensures |r| == 8 + |url| && r[7] == '-' && r[8..] == url
    ensures r[..7] == KindName(kind)
  {
    KindName(kind) + "-" + url
  }

  /** The id names the type and the URL: distinct pairs get distinct ids. */
  lemma BookmarkIdInjective(k1: BookmarkKind, u1: string, k2: BookmarkKind, u2: string)
    requires BookmarkId(k1, u1) == BookmarkId(k2, u2)
    ensures k1 == k2 && u1 == u2
  {
    assert KindName(k1) == BookmarkId(k1, u1)[..7] == KindName(k2);
    assert KindName(k1)[0] == KindName(k2)[0];
  }

  function NewBookmark(item: BookmarkItem, addedAt: string): (b: Bookmark)
    ensures b.id == BookmarkId(item.kind, item.url)
    ensures b.kind == item.kind && b.title == item.title && b.url == item.url && b.addedAt == addedAt
  {
    Bookmark(BookmarkId(item.kind, item.url), item.kind, item.title, item.url, addedAt)
  }

  /** `list.some(b => b.id === id)`. */
  function HasId(list: seq<Bookmark>, id: string): (r: bool)
    ensures r <==> exists i :: 0 <= i < |list| && list[i].id == id
  {
    if list == [] then false
    else list[0].id == id || HasId(list[1..], id)
  }

  predicate DistinctIds(list: seq<Bookmark>) {
    forall i, j :: 0 <= i < j < |list| ==> list[i].id != list[j].id
  }

  /** The updater `addBookmark` hands to the state setter: a list already holding
      the id is returned as it is, otherwise the bookmark goes at the end. */
  function AddUpdater(prev: seq<Bookmark>, b: Bookmark): (r: seq<Bookmark>)
    ensures HasId(r, b.id)
    ensures |prev| <= |r| <= |prev| + 1 && r[..|prev|] == prev
    ensures |r| == |prev| <==> HasId(prev, b.id)
    ensures !HasId(prev, b.id) ==> r[|prev|] == b
  {
    if HasId(prev, b.id) then prev
    else
      assert (prev + [b])[|prev|].id == b.id;
      prev + [b]
  }

  /** The updater `removeBookmark` hands to the state setter. */
  function RemoveUpdater(prev: seq<Bookmark>, id: string): (r: seq<Bookmark>)
    ensures !HasId(r, id)
    ensures forall i :: 0 <= i < |prev| && prev[i].id != id ==> prev[i] in r
    ensures forall i :: 0 <= i < |r| ==> r[i] in prev
    ensures IsSubsequence(r, prev)
    ensures forall b :: multiset(r)[b] == if b.id != id then multiset(prev)[b] else 0
  {
    var p := (b: Bookmark) => b.id != id;
    forall b ensures multiset(Filter(prev, p))[b] == if p(b) then multiset(prev)[b] else 0 {
      FilterCount(prev, p, b);
    }
    Filter(prev, p)
  }

  /** Adding the same bookmark twice is adding it once. */
  lemma AddIdempotent(prev: seq<Bookmark>, b: Bookmark)
    ensures AddUpdater(AddUpdater(prev, b), b) == AddUpdater(prev, b)
  {
  }

  /** Adding keeps ids pairwise distinct. */
  lemma AddKeepsDistinct(prev: seq<Bookmark>, b: Bookmark)
    requires DistinctIds(prev)
    ensures DistinctIds(AddUpdater(prev, b))
  {
    if !HasId(prev, b.id) {
      var r := prev + [b];
      forall i, j | 0 <= i < j < |r| ensures r[i].id != r[j].id {
        if j == |prev| {
          assert r[i] == prev[i];
        }
      }
    }
  }

  /** Removing keeps ids pairwise distinct. */
  lemma RemoveKeepsDistinct(prev: seq<Bookmark>, id: string)
    requires DistinctIds(prev)
    ensures DistinctIds(RemoveUpdater(prev, id))
  {
    FilterKeepsDistinct(prev, (b: Bookmark) => b.id != id);
  }

  lemma {:induction false} FilterKeepsDistinct(s: seq<Bookmark>, p: Bookmark -> bool)
    requires DistinctIds(s)
    ensures DistinctIds(Filter(s, p))
    decreases |s|
  {
    if s != [] {
      DistinctTail(s);
      FilterKeepsDistinct(s[1..], p);
      var t := Filter(s[1..], p);
      if p(s[0]) {
        forall y | y in t ensures y.id != s[0].id {
          var k :| 0 <= k < |s[1..]| && s[1..][k] == y;
          assert s[k + 1] == y;
        }
        DistinctCons(s[0], t);
      }
    }
  }

  lemma DistinctTail(s: seq<Bookmark>)
    requires s != [] && DistinctIds(s)
    ensures DistinctIds(s[1..])
  {
    forall i, j | 0 <= i < j < |s[1..]| ensures s[1..][i].id != s[1..][j].id {
      assert s[1..][i] == s[i + 1] && s[1..][j] == s[j + 1];
    }
  }

  /** A bookmark whose id is not in a list of distinct ids can go in front. */
  lemma DistinctCons(x: Bookmark, t: seq<Bookmark>)
    requires DistinctIds(t) && forall y :: y in t ==> y.id != x.id
    ensures DistinctIds([x] + t)
  {
    var r := [x] + t;
    forall i, j | 0 <= i < j < |r| ensures r[i].id != r[j].id {
      assert r[j] == t[j - 1];
      if i > 0 {
        assert r[i] == t[i - 1];
      }
    }
  }

  /** Removing an id that is not there changes nothing. */
  lemma RemoveAbsent(prev: seq<Bookmark>, id: string)
    requires !HasId(prev, id)
    ensures RemoveUpdater(prev, id) == prev
  {
    FilterAll(prev, (b: Bookmark) => b.id != id);
  }

  class BookmarkProvider {
    var bookmarks: seq<Bookmark>

    /** The provider starts from the persisted list, or from an empty one. */
    constructor (stored: Option<seq<Bookmark>>)
      ensures bookmarks == if stored.Some? then stored.value else []
    {
      bookmarks := if stored.Some? then stored.value else [];
    }

    method AddBookmark(item: BookmarkItem, addedAt: string)
      modifies this
      ensures bookmarks == AddUpdater(old(bookmarks), NewBookmark(item, addedAt))
      ensures DistinctIds(old(bookmarks)) ==> DistinctIds(bookmarks)
    {
      var b := NewBookmark(item, addedAt);
      if DistinctIds(bookmarks) { AddKeepsDistinct(bookmarks, b); }
      bookmarks := AddUpdater(bookmarks, b);
    }

    method RemoveBookmark(id: string)
      modifies this
      ensures bookmarks == RemoveUpdater(old(bookmarks), id)
      ensures DistinctIds(old(bookmarks)) ==> DistinctIds(bookmarks)
    {
      if DistinctIds(bookmarks) { RemoveKeepsDistinct(bookmarks, id); }
      bookmarks := RemoveUpdater(bookmarks, id);
    }

    function IsBookmarked(id: string): (r: bool)
      reads this
      ensures r <==> exists i :: 0 <= i < |bookmarks| && bookmarks[i].id == id
    {
      HasId(bookmarks, id)
    }
  }

  /** `useBookmark()`: the provider's value, or the error it throws without one. */
  function UseBookmark(context: Option<BookmarkProvider>): Result<BookmarkProvider, string> {
    UseContext(context, OutsideProvider)
  }
}
