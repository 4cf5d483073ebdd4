/** The array operations the core is built from (`filter`, `find`, `slice`,
    de-duplication through a `Set`), as functions on sequences. */
module Seqs {

  datatype Option<T> = None | Some(value: T)

  datatype Result<T, E> = Success(value: T) | Failure(error: E)

  /** `r` is `s` with some elements left out, the rest in their original order. */
  ghost predicate IsSubsequence<T>(r: seq<T>, s: seq<T>)
    decreases |s|
  {
    r == [] || (s != [] && ((r[0] == s[0] && IsSubsequence(r[1..], s[1..])) || IsSubsequence(r, s[1..])))
  }

  lemma {:induction false} SubsequenceRefl<T>(s: seq<T>)
    ensures IsSubsequence(s, s)
    decreases |s|
  {
    if s != [] { SubsequenceRefl(s[1..]); }
  }

  /** `Array.prototype.filter`: the elements satisfying `p`, in order. */
  function Filter<T>(s: seq<T>, p: T -> bool): (r: seq<T>)
    ensures |r| <= |s|
    ensures forall i :: 0 <= i < |r| ==> r[i] in s && p(r[i])
    ensures forall i :: 0 <= i < |s| && p(s[i]) ==> s[i] in r
    ensures IsSubsequence(r, s)
    decreases |s|
  {
    if s == [] then []
    else if p(s[0]) then [s[0]] + Filter(s[1..], p)
    else Filter(s[1..], p)
  }

  /** `Filter` keeps every copy of an element meeting the test and no copy of
      any other: together with `IsSubsequence` this fixes its result. */
  lemma {:induction false} FilterCount<T>(s: seq<T>, p: T -> bool, x: T)
    ensures multiset(Filter(s, p))[x] == if p(x) then multiset(s)[x] else 0
    decreases |s|
  {
    if s != [] {
      FilterCount(s[1..], p, x);
      assert s == [s[0]] + s[1..];
      assert multiset(s) == multiset([s[0]]) + multiset(s[1..]);
    }
  }

  lemma {:induction false} FilterAppend<T>(s: seq<T>, t: seq<T>, p: T -> bool)
    ensures Filter(s + t, p) == Filter(s, p) + Filter(t, p)
    decreases |s|
  {
    if s != [] {
      assert (s + t)[1..] == s[1..] + t;
      FilterAppend(s[1..], t, p);
    } else {
      assert s + t == t;
    }
  }

  /** Keep-or-drop of one element, the unit `Filter` is made of. */
  function Keep<T>(x: T, p: T -> bool): seq<T> {
    if p(x) then [x] else []
  }

  /** One step of `Filter` along `s`, from position `k`. */
  lemma {:induction false} FilterStep<T>(s: seq<T>, k: nat, p: T -> bool)
    requires k < |s|
    ensures Filter(s[k..], p) == Keep(s[k], p) + Filter(s[k + 1..], p)
  {
    assert s[k..][1..] == s[k + 1..];
  }

  /** `Filter` on a five-element list, element by element; the mock collections
      have five entries. */
  lemma {:induction false} FilterFive<T>(m: seq<T>, p: T -> bool)
    requires |m| == 5
    ensures Filter(m, p) == Keep(m[0], p) + (Keep(m[1], p) + (Keep(m[2], p) + (Keep(m[3], p) + Keep(m[4], p))))
  {
    var k0, k1, k2, k3, k4 := Keep(m[0], p), Keep(m[1], p), Keep(m[2], p), Keep(m[3], p), Keep(m[4], p);
    assert Filter(m[4..], p) == k4 by {
      FilterStep(m, 4, p);
      assert m[5..] == [];
    }
    assert Filter(m[3..], p) == k3 + k4 by { FilterStep(m, 3, p); }
    assert Filter(m[2..], p) == k2 + (k3 + k4) by { FilterStep(m, 2, p); }
    assert Filter(m[1..], p) == k1 + (k2 + (k3 + k4)) by { FilterStep(m, 1, p); }
    assert Filter(m, p) == k0 + (k1 + (k2 + (k3 + k4))) by {
      FilterStep(m, 0, p);
      assert m[0..] == m;
    }
  }

  /** Filtering keeps everything exactly when every element passes. */
  lemma {:induction false} FilterAll<T>(s: seq<T>, p: T -> bool)
    requires forall x :: x in s ==> p(x)
    ensures Filter(s, p) == s
    decreases |s|
  {
    if s != [] { FilterAll(s[1..], p); }
  }

  /** Two filters in a row keep the same elements, in the same order, as one filter
      by the conjunction of their predicates. */
  lemma {:induction false} FilterFusion<T>(s: seq<T>, p: T -> bool, q: T -> bool, pq: T -> bool)
    requires forall x :: pq(x) == (p(x) && q(x))
    ensures Filter(Filter(s, p), q) == Filter(s, pq)
    decreases |s|
  {
    if s != [] {
      FilterFusion(s[1..], p, q, pq);
    }
  }

  /** Filtering by predicates that agree on the elements gives the same result. */
  lemma {:induction false} FilterCongruent<T>(s: seq<T>, p: T -> bool, q: T -> bool)
    requires forall x :: x in s ==> p(x) == q(x)
    ensures Filter(s, p) == Filter(s, q)
    decreases |s|
  {
    if s != [] { FilterCongruent(s[1..], p, q); }
  }

  /** A filter applied only when `c` holds is one filter by `c ==> p`. */
  lemma FilterWhen<T>(s: seq<T>, c: bool, p: T -> bool, cp: T -> bool)
    requires forall x :: cp(x) == (c ==> p(x))
    ensures (if c then Filter(s, p) else s) == Filter(s, cp)
  {
    if c {
      FilterCongruent(s, p, cp);
    } else {
      FilterAll(s, cp);
    }
  }

  /** One more filter stage, applied only when `c` holds, on top of a filter by
      `before`: together one filter by `after`, the conjunction. */
  lemma FilterStage<T>(s: seq<T>, before: T -> bool, c: bool, p: T -> bool, after: T -> bool)
    requires forall x :: after(x) == (before(x) && (c ==> p(x)))
    ensures (if c then Filter(Filter(s, before), p) else Filter(s, before)) == Filter(s, after)
  {
    var cp := (x: T) => c ==> p(x);
    FilterWhen(Filter(s, before), c, p, cp);
    FilterFusion(s, before, cp, after);
  }

  /** An element survives a filter exactly when it is in the list and passes. */
  lemma FilterMember<T>(s: seq<T>, p: T -> bool, x: T)
    ensures x in Filter(s, p) <==> x in s && p(x)
  {
    var r := Filter(s, p);
    if x in r {
      var i :| 0 <= i < |r| && r[i] == x;
    }
    if x in s && p(x) {
      var i :| 0 <= i < |s| && s[i] == x;
    }
  }

  /** `Array.prototype.find`: the first element satisfying `p`, if any. */
  function Find<T>(s: seq<T>, p: T -> bool): (r: Option<T>)
    ensures r.Some? <==> exists i :: 0 <= i < |s| && p(s[i])
    ensures r.Some? ==> r.value in s && p(r.value)
    ensures r.Some? ==> exists i :: 0 <= i < |s| && s[i] == r.value && forall j :: 0 <= j < i ==> !p(s[j])
    decreases |s|
  {
    if s == [] then None
    else if p(s[0]) then Some(s[0])
    else
      var r := Find(s[1..], p);
      assert r.Some? ==> exists i :: 0 <= i < |s| && s[i] == r.value && forall j :: 0 <= j < i ==> !p(s[j]) by {
        if r.Some? {
          var i :| 0 <= i < |s[1..]| && s[1..][i] == r.value && forall j :: 0 <= j < i ==> !p(s[1..][j]);
          assert s[i + 1] == r.value;
          forall j | 0 <= j < i + 1 ensures !p(s[j]) {
            if j > 0 { assert s[j] == s[1..][j - 1]; }
          }
        }
      }
      r
  }

  /** When exactly one position satisfies `p`, `Find` returns the element there. */
  lemma FindUnique<T>(s: seq<T>, p: T -> bool, i: int)
    requires 0 <= i < |s| && p(s[i])
    requires forall j :: 0 <= j < |s| && j != i ==> !p(s[j])
    ensures Find(s, p) == Some(s[i])
  {
    var r := Find(s, p);
    var k :| 0 <= k < |s| && s[k] == r.value && forall j :: 0 <= j < k ==> !p(s[j]);
    assert k == i;
  }

  /** Index normalisation of `Array.prototype.slice`: a negative index counts from
      the end, and the result is clamped to `[0, len]`. */
  function SliceIndex(i: int, len: nat): (r: nat)
    ensures r <= len
    ensures 0 <= i <= len ==> r == i
    ensures i > len ==> r == len
    ensures i < 0 ==> r == if len + i < 0 then 0 else len + i
  {
    if i < 0 then (if len + i < 0 then 0 else len + i)
    else if i < len then i else len
  }

  /** `Array.prototype.slice(start, end)`. */
  function JsSlice<T>(s: seq<T>, start: int, end: int): (r: seq<T>)
    ensures |r| <= |s|
    ensures forall i :: 0 <= i < |r| ==> r[i] in s
    ensures SliceIndex(start, |s|) < SliceIndex(end, |s|) ==> r == s[SliceIndex(start, |s|)..SliceIndex(end, |s|)]
    ensures SliceIndex(start, |s|) >= SliceIndex(end, |s|) ==> r == []
  {
    var b, e := SliceIndex(start, |s|), SliceIndex(end, |s|);
    if b < e then s[b..e] else []
  }

  /** Slicing from the start keeps the first `SliceIndex(end, |s|)` elements. */
  lemma SliceFromStart<T>(s: seq<T>, end: int)
    ensures JsSlice(s, 0, end) == s[..SliceIndex(end, |s|)]
  {
  }

  /** Every element of `slice(0, end)` of a filtered list is in the list and
      passes the filter. */
  lemma FilteredPrefix<T>(s: seq<T>, p: T -> bool, end: int)
    ensures forall i :: 0 <= i < |JsSlice(Filter(s, p), 0, end)| ==>
      JsSlice(Filter(s, p), 0, end)[i] in s && p(JsSlice(Filter(s, p), 0, end)[i])
  {
    var f := Filter(s, p);
    SliceFromStart(f, end);
    var r := JsSlice(f, 0, end);
    forall i | 0 <= i < |r| ensures r[i] in s && p(r[i]) {
      assert r[i] == f[i];
    }
  }

  /** `slice(0, n)` for `n >= 0` is the prefix of length `min(n, |s|)`. */
  lemma TakePrefix<T>(s: seq<T>, n: int)
    requires n >= 0
    ensures JsSlice(s, 0, n) == s[..if n < |s| then n else |s|]
  {
  }

  /** The order in which a JavaScript `Set` built from `s` yields its elements:
      each element once, where it first occurs. `seen` holds what was inserted
      before `s`. */
  function DedupFrom<T(==)>(s: seq<T>, seen: set<T>): (r: seq<T>)
    ensures forall i :: 0 <= i < |r| ==> r[i] in s && r[i] !in seen
    ensures forall i :: 0 <= i < |s| && s[i] !in seen ==> s[i] in r
    ensures forall i, j :: 0 <= i < j < |r| ==> r[i] != r[j]
    ensures IsSubsequence(r, s)
    decreases |s|
  {
    if s == [] then []
    else if s[0] in seen then DedupFrom(s[1..], seen)
    else [s[0]] + DedupFrom(s[1..], seen + {s[0]})
  }

  function Dedup<T(==)>(s: seq<T>): (r: seq<T>)
    ensures forall i :: 0 <= i < |r| ==> r[i] in s
    ensures forall i :: 0 <= i < |s| ==> s[i] in r
    ensures forall i, j :: 0 <= i < j < |r| ==> r[i] != r[j]
    ensures InFirstOccurrenceOrder(r, s)
  {
    DedupFromOrder(s, {});
    DedupFrom(s, {})
  }

  /** Every element of `s`, and nothing else, is in its de-duplication. */
  lemma DedupMembers<T>(s: seq<T>)
    ensures forall x :: x in Dedup(s) <==> x in s
  {
    forall x | x in s ensures x in Dedup(s) {
      var i :| 0 <= i < |s| && s[i] == x;
    }
  }

  /** Index of the first occurrence of `x` in `s`. */
  function FirstIndex<T(==)>(s: seq<T>, x: T): (k: nat)
    requires x in s
    ensures k < |s| && s[k] == x && x !in s[..k]
    decreases |s|
  {
    if s[0] == x then 0 else 1 + FirstIndex(s[1..], x)
  }

  /** Every element of `r` occurs in `s`, and `r` lists them in the order of their
      first occurrences in `s`. */
  ghost predicate InFirstOccurrenceOrder<T>(r: seq<T>, s: seq<T>) {
    (forall i :: 0 <= i < |r| ==> r[i] in s) &&
    forall i, j :: 0 <= i < j < |r| ==> FirstIndex(s, r[i]) < FirstIndex(s, r[j])
  }

  /** The de-duplicated sequence lists elements in the order of their first
      occurrences in `s`. */
  lemma {:induction false} DedupFromOrder<T>(s: seq<T>, seen: set<T>)
    ensures InFirstOccurrenceOrder(DedupFrom(s, seen), s)
    decreases |s|
  {
    if s != [] {
      var r := DedupFrom(s, seen);
      var seen' := if s[0] in seen then seen else seen + {s[0]};
      var t := DedupFrom(s[1..], seen');
      var d := if s[0] in seen then 0 else 1;
      assert r == if d == 0 then t else [s[0]] + t;
      DedupFromOrder(s[1..], seen');
      forall k | 0 <= k < |t| ensures t[k] in s[1..] && t[k] != s[0] {
        assert t[k] !in seen';
      }
      forall i, j | 0 <= i < j < |r| ensures FirstIndex(s, r[i]) < FirstIndex(s, r[j]) {
        ConsOrder(s, r, t, d, i, j);
      }
    }
  }

  /** One step of `DedupFromOrder`: putting `s[0]` (or nothing) in front of an
      ordered tail keeps the order. */
  lemma {:induction false} ConsOrder<T>(s: seq<T>, r: seq<T>, t: seq<T>, d: nat, i: int, j: int)
    requires s != [] && d <= 1
    requires r == if d == 0 then t else [s[0]] + t
    requires forall k :: 0 <= k < |t| ==> t[k] in s[1..] && t[k] != s[0]
    requires InFirstOccurrenceOrder(t, s[1..])
    requires 0 <= i < j < |r|
    ensures r[i] in s && r[j] in s
    ensures FirstIndex(s, r[i]) < FirstIndex(s, r[j])
  {
    var y := t[j - d];
    assert r[j] == y;
    FirstIndexTail(s, y);
    if i >= d {
      var x := t[i - d];
      assert r[i] == x;
      FirstIndexTail(s, x);
    } else {
      assert r[i] == s[0];
    }
  }

  lemma {:induction false} FirstIndexTail<T>(s: seq<T>, y: T)
    requires s != [] && y in s[1..] && y != s[0]
    ensures FirstIndex(s, y) == 1 + FirstIndex(s[1..], y)
  {
  }
}
