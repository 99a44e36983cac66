/**
 * The `filter(...).sort(...)[0]` chain that the route module uses twice:
 * keep the elements that pass a test, sort them stably by a numeric key in
 * descending order (the comparator `(a, b) => key(b) - key(a)`), take the head.
 * JavaScript's Array.prototype.sort is stable, so any stable sort gives the same
 * sequence; insertion sort is the one written here.
 */
module Selection {

  /** `s.filter(p)`: the elements of `s` that pass `p`, in their original order. */
  function Filter<T>(s: seq<T>, p: T -> bool): (r: seq<T>)
    ensures |r| <= |s|
    ensures forall i :: 0 <= i < |r| ==> r[i] in s && p(r[i])
    ensures forall j :: 0 <= j < |s| && p(s[j]) ==> s[j] in r
  {
    if s == [] then []
    else (if p(s[0]) then [s[0]] else []) + Filter(s[1..], p)
  }

  /** Filtering distributes over concatenation: `filter` keeps the relative order of what it keeps. */
  lemma {:induction false} FilterAppend<T>(a: seq<T>, b: seq<T>, p: T -> bool)
    ensures Filter(a + b, p) == Filter(a, p) + Filter(b, p)
  {
    if a == [] {
      assert a + b == b;
    } else {
      assert (a + b)[1..] == a[1..] + b;
      FilterAppend(a[1..], b, p);
    }
  }

  /** Keys never increase from left to right. */
  ghost predicate SortedDesc<T>(s: seq<T>, key: T -> int)
  {
    forall i, j :: 0 <= i < j < |s| ==> key(s[i]) >= key(s[j])
  }

  /**
   * Inserts `x`, which came before every element of `s` in the input, in front of
   * the first element whose key is not larger than its own: an element keeps its
   * place ahead of later elements with an equal key.
   */
  function Insert<T>(x: T, s: seq<T>, key: T -> int): (r: seq<T>)
    requires SortedDesc(s, key)
    ensures multiset(r) == multiset(s) + multiset{x}
    ensures SortedDesc(r, key)
    ensures r[0] == if s == [] || key(x) >= key(s[0]) then x else s[0]
  {
    if s == [] || key(x) >= key(s[0]) then
      ConsSorted(x, s, key);
      [x] + s
    else
      SortedTail(s, key);
      var rest := Insert(x, s[1..], key);
      ConsSorted(s[0], rest, key);
      assert s == [s[0]] + s[1..];
      [s[0]] + rest
  }

  /** Dropping the head keeps a sequence sorted. */
  lemma SortedTail<T>(s: seq<T>, key: T -> int)
    requires s != [] && SortedDesc(s, key)
    ensures SortedDesc(s[1..], key)
  {
    assert forall i :: 0 <= i < |s| - 1 ==> s[1..][i] == s[i + 1];
  }

  /** A head whose key is at least that of the first element keeps a sorted sequence sorted. */
  lemma ConsSorted<T>(y: T, t: seq<T>, key: T -> int)
    requires SortedDesc(t, key) && (t == [] || key(y) >= key(t[0]))
    ensures SortedDesc([y] + t, key)
  {
    var u := [y] + t;
    assert forall i :: 1 <= i < |u| ==> u[i] == t[i - 1];
  }

  /** `s.sort((a, b) => key(b) - key(a))`: a stable sort by descending key. */
  function SortByKeyDesc<T>(s: seq<T>, key: T -> int): (r: seq<T>)
    ensures multiset(r) == multiset(s)
    ensures |r| == |s|
    ensures SortedDesc(r, key)
  {
    if s == [] then []
    else
      assert s == [s[0]] + s[1..];
      Insert(s[0], SortByKeyDesc(s[1..], key), key)
  }

  /**
   * `s[i]` is what the chain picks by its meaning: it passes `p`, no element that
   * passes `p` has a larger key, and every earlier element that passes `p` has a
   * strictly smaller key (ties go to input order).
   */
  ghost predicate IsFirstBest<T>(s: seq<T>, p: T -> bool, key: T -> int, i: int)
  {
    && 0 <= i < |s|
    && p(s[i])
    && (forall j :: 0 <= j < |s| && p(s[j]) ==> key(s[j]) <= key(s[i]))
    && (forall j :: 0 <= j < i && p(s[j]) ==> key(s[j]) < key(s[i]))
  }

  /** An element that passes `p` and keys at least as high as every later one that passes is the first best. */
  lemma HeadIsFirstBest<T>(s: seq<T>, p: T -> bool, key: T -> int)
    requires |s| > 0 && p(s[0])
    requires forall j :: 1 <= j < |s| && p(s[j]) ==> key(s[j]) <= key(s[0])
    ensures IsFirstBest(s, p, key, 0)
  {
  }

  /** The first best of the tail stays first best when the new head loses to it or fails `p`. */
  lemma ShiftFirstBest<T>(s: seq<T>, p: T -> bool, key: T -> int, k: int)
    requires |s| > 0 && IsFirstBest(s[1..], p, key, k)
    requires !p(s[0]) || key(s[0]) < key(s[1..][k])
    ensures IsFirstBest(s, p, key, k + 1)
  {
    assert forall j :: 1 <= j < |s| ==> s[j] == s[1..][j - 1];
  }

  /** `Filter` unfolded once. */
  lemma FilterCons<T>(s: seq<T>, p: T -> bool)
    requires |s| > 0
    ensures Filter(s, p) == if p(s[0]) then [s[0]] + Filter(s[1..], p) else Filter(s[1..], p)
  {
  }

  /**
   * The head of the sorted filtered sequence exists exactly when some element
   * passes `p`, and it is the first element with the largest key among those.
   */
  lemma {:induction false} FilterSortHead<T>(s: seq<T>, p: T -> bool, key: T -> int)
    ensures var r := SortByKeyDesc(Filter(s, p), key);
      && (r == [] <==> forall j :: 0 <= j < |s| ==> !p(s[j]))
      && (r != [] ==> exists i :: IsFirstBest(s, p, key, i) && r[0] == s[i])
  {
    if s != [] {
      var tail := s[1..];
      var rt := SortByKeyDesc(Filter(tail, p), key);
      FilterSortHead(tail, p, key);
      FilterCons(s, p);
      var r := SortByKeyDesc(Filter(s, p), key);
      if p(s[0]) {
        assert r == Insert(s[0], rt, key);
        if rt == [] || key(s[0]) >= key(rt[0]) {
          assert forall j :: 1 <= j < |s| ==> s[j] == tail[j - 1];
          HeadIsFirstBest(s, p, key);
          assert r[0] == s[0];
        } else {
          var k :| IsFirstBest(tail, p, key, k) && rt[0] == tail[k];
          ShiftFirstBest(s, p, key, k);
          assert r[0] == s[k + 1];
        }
      } else {
        assert r == rt;
        assert forall j :: 1 <= j < |s| ==> s[j] == tail[j - 1];
        if rt != [] {
          var k :| IsFirstBest(tail, p, key, k) && rt[0] == tail[k];
          ShiftFirstBest(s, p, key, k);
          assert r[0] == s[k + 1];
        }
      }
    }
  }

  /** At most one index is the first best one. */
  lemma FirstBestUnique<T>(s: seq<T>, p: T -> bool, key: T -> int, i: int, j: int)
    requires IsFirstBest(s, p, key, i) && IsFirstBest(s, p, key, j)
    ensures i == j
  {
  }
}
