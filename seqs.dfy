/**
 * JavaScript array operations the handlers and pages share: `filter`,
 * `slice` with its negative-index rules, `Math.ceil(n / d)`, and page-wise
 * slicing.
 */
module Seqs {

  /** `s.filter(p)`: the elements satisfying `p`, in their original order. */
  function Filter<T>(s: seq<T>, p: T -> bool): (r: seq<T>)
    ensures |r| <= |s|
    ensures forall i :: 0 <= i < |r| ==> p(r[i])
  {
    if s == [] then [] else (if p(s[0]) then [s[0]] else []) + Filter(s[1..], p)
  }

  /** The filter keeps exactly the elements satisfying `p`. */
  lemma {:induction false} FilterMembers<T>(s: seq<T>, p: T -> bool)
    ensures forall x :: x in Filter(s, p) <==> x in s && p(x)
  {
    if s != [] {
      FilterMembers(s[1..], p);
      assert s == [s[0]] + s[1..];
    }
  }

  /** Predicates that agree everywhere filter alike. */
  lemma {:induction false} FilterSame<T>(s: seq<T>, p: T -> bool, q: T -> bool)
    requires forall x :: p(x) == q(x)
    ensures Filter(s, p) == Filter(s, q)
  {
    if s != [] {
      FilterSame(s[1..], p, q);
    }
  }

  /** A predicate every element satisfies filters nothing out. */
  lemma {:induction false} FilterAll<T>(s: seq<T>, p: T -> bool)
    requires forall i :: 0 <= i < |s| ==> p(s[i])
    ensures Filter(s, p) == s
  {
    if s != [] {
      FilterAll(s[1..], p);
      assert s == [s[0]] + s[1..];
    }
  }

  /** Filtering twice is filtering by the conjunction. */
  lemma {:induction false} FilterFilter<T>(s: seq<T>, p: T -> bool, q: T -> bool, pq: T -> bool)
    requires forall x :: pq(x) == (p(x) && q(x))
    ensures Filter(Filter(s, p), q) == Filter(s, pq)
  {
    if s != [] {
      FilterFilter(s[1..], p, q, pq);
      if p(s[0]) {
        var f := Filter(s, p);
        assert f == [s[0]] + Filter(s[1..], p);
        assert f[0] == s[0] && f[1..] == Filter(s[1..], p);
        assert Filter(f, q) == (if q(s[0]) then [s[0]] else []) + Filter(f[1..], q);
        assert pq(s[0]) == (p(s[0]) && q(s[0]));
      } else {
        assert Filter(s, p) == [] + Filter(s[1..], p) == Filter(s[1..], p);
        assert !pq(s[0]);
      }
    }
  }

  /** Two predicates that never hold together keep disjoint element sets. */
  lemma FilterDisjoint<T>(s: seq<T>, p: T -> bool, q: T -> bool)
    requires forall x :: !(p(x) && q(x))
    ensures forall x :: !(x in Filter(s, p) && x in Filter(s, q))
  {
    FilterMembers(s, p);
    FilterMembers(s, q);
  }

  lemma {:induction false} FilterAppend<T>(a: seq<T>, b: seq<T>, p: T -> bool)
    ensures Filter(a + b, p) == Filter(a, p) + Filter(b, p)
  {
    if a == [] {
      assert a + b == b;
    } else {
      assert (a + b)[0] == a[0];
      assert (a + b)[1..] == a[1..] + b;
      FilterAppend(a[1..], b, p);
    }
  }

  /** A predicate and its negation split the elements between them. */
  lemma {:induction false} FilterComplement<T>(s: seq<T>, p: T -> bool, q: T -> bool)
    requires forall x :: q(x) == !p(x)
    ensures multiset(Filter(s, p)) + multiset(Filter(s, q)) == multiset(s)
  {
    if s != [] {
      var t := s[1..];
      FilterComplement(t, p, q);
      assert s == [s[0]] + t;
      var one := multiset{s[0]};
      var rp, rq := multiset(Filter(t, p)), multiset(Filter(t, q));
      if p(s[0]) {
        assert Filter(s, p) == [s[0]] + Filter(t, p) && Filter(s, q) == Filter(t, q);
        assert multiset(Filter(s, p)) == one + rp;
      } else {
        assert Filter(s, p) == Filter(t, p) && Filter(s, q) == [s[0]] + Filter(t, q);
        assert multiset(Filter(s, q)) == one + rq;
      }
      MultisetRegroup(one, rp, rq, multiset(t));
    }
  }

  lemma MultisetRegroup<T>(a: multiset<T>, b: multiset<T>, c: multiset<T>, d: multiset<T>)
    requires b + c == d
    ensures (a + b) + c == a + d && b + (a + c) == a + d
  {
  }

  /** The filter keeps its input's length exactly when it drops nothing. */
  lemma {:induction false} FilterKeepsLength<T>(s: seq<T>, p: T -> bool)
    ensures |Filter(s, p)| == |s| <==> forall i :: 0 <= i < |s| ==> p(s[i])
  {
    if s != [] {
      FilterKeepsLength(s[1..], p);
      if p(s[0]) {
        assert forall i :: 1 <= i < |s| ==> s[i] == s[1..][i - 1];
      }
    }
  }

  // ---------------------------------------------------------------- slicing and pages

  /** A `slice` bound: negative counts from the end, then clamped to [0, n]. */
  function SliceBound(k: int, n: nat): (r: nat)
    ensures r <= n
    ensures 0 <= k <= n ==> r == k
  {
    if k < 0 then (if n + k < 0 then 0 else n + k) else if k > n then n else k
  }

  /** `s.slice(start, end)`. */
  function JsSlice<T>(s: seq<T>, start: int, end: int): (r: seq<T>)
    ensures |r| <= |s|
    ensures 0 <= start <= end <= |s| ==> r == s[start..end]
  {
    var a, b := SliceBound(start, |s|), SliceBound(end, |s|);
    if a < b then s[a..b] else []
  }

  /** A window of `size` elements from a non-negative start: what is left of it inside `s`. */
  lemma JsSliceWindow<T>(s: seq<T>, lo: int, size: int)
    requires lo >= 0 && size >= 1
    ensures JsSlice(s, lo, lo + size) == if lo >= |s| then [] else s[lo..if lo + size <= |s| then lo + size else |s|]
    ensures |JsSlice(s, lo, lo + size)| <= size
  {
  }

  /** `Math.ceil(n / d)` for a non-zero divisor. */
  function CeilDiv(n: nat, d: int): (r: int)
    requires d != 0
    ensures d > 0 ==> (r - 1) * d < n <= r * d
    ensures d > 0 ==> r >= 0
  {
    if d > 0 then (n + d - 1) / d else -(n / -d)
  }

  /** The items of the 1-based page `page` of `size` items: `slice((page - 1) * size, (page - 1) * size + size)`. */
  function Page<T>(s: seq<T>, page: int, size: int): seq<T> {
    JsSlice(s, (page - 1) * size, (page - 1) * size + size)
  }

  /** The concatenation of pages 1..n. */
  function Pages<T>(s: seq<T>, n: nat, size: int): seq<T> {
    if n == 0 then [] else Pages(s, n - 1, size) + Page(s, n, size)
  }

  /** The first `n` pages are the first `n * size` elements. */
  lemma {:induction false} PagesPrefix<T>(s: seq<T>, n: nat, size: int)
    requires size > 0
    ensures Pages(s, n, size) == s[..if n * size <= |s| then n * size else |s|]
  {
    if n > 0 {
      PagesPrefix(s, n - 1, size);
      var lo := (n - 1) * size;
      PageBounds(s, n, size, lo);
      JsSliceWindow(s, lo, size);
      var e := if lo + size <= |s| then lo + size else |s|;
      if lo < |s| {
        PrefixThenSlice(s, lo, e);
      }
    }
  }

  lemma PrefixThenSlice<T>(s: seq<T>, lo: int, hi: int)
    requires 0 <= lo <= hi <= |s|
    ensures s[..lo] + s[lo..hi] == s[..hi]
  {
  }

  /** Page `n` starts at `(n - 1) * size` and ends before `n * size`. */
  lemma PageBounds<T>(s: seq<T>, n: nat, size: int, lo: int)
    requires n >= 1 && size > 0 && lo == (n - 1) * size
    ensures 0 <= lo && lo + size == n * size && (n - 1) * size == lo
    ensures Page(s, n, size) == JsSlice(s, lo, lo + size)
  {
    MulNonNegative(n - 1, size);
    MulSucc(n - 1, size);
  }

  lemma MulNonNegative(a: nat, b: int)
    requires b > 0
    ensures a * b >= 0
  {
  }

  lemma MulSucc(a: int, b: int)
    ensures (a + 1) * b == a * b + b
  {
  }

  /** Every page has at most `size` elements, and pages 1..ceil(|s| / size) together are `s`. */
  lemma PagesCover<T>(s: seq<T>, size: int)
    requires size > 0
    ensures forall p :: |Page(s, p, size)| <= size
    ensures Pages(s, CeilDiv(|s|, size), size) == s
  {
    forall p ensures |Page(s, p, size)| <= size {
      var a := SliceBound((p - 1) * size, |s|);
      var b := SliceBound((p - 1) * size + size, |s|);
      assert a < b ==> b - a <= size;
    }
    PagesPrefix(s, CeilDiv(|s|, size), size);
  }

  // ---------------------------------------------------------------- toggling membership

  function Other<T(==)>(id: T): T -> bool {
    f => f != id
  }

  /** A favourites toggle: the list without `id` when it holds it, else the list with `id` appended. */
  function Toggled<T(==)>(favs: seq<T>, id: T): (r: seq<T>)
    ensures id in favs ==> r == Filter(favs, Other(id))
    ensures id !in favs ==> r == favs + [id]
  {
    if id in favs then Filter(favs, Other(id)) else favs + [id]
  }

  /**
   * Toggling flips the id's membership and keeps every other id, in order;
   * toggling a new id twice gives back the list.
   */
  lemma ToggledFlips<T>(favs: seq<T>, id: T)
    ensures id in Toggled(favs, id) <==> id !in favs
    ensures forall x :: x != id ==> (x in Toggled(favs, id) <==> x in favs)
    ensures id !in favs ==> Toggled(Toggled(favs, id), id) == favs
  {
    FilterMembers(favs, Other(id));
    if id !in favs {
      FilterAppend(favs, [id], Other(id));
      FilterAll(favs, Other(id));
      assert Filter([id], Other(id)) == [];
    }
  }
}
