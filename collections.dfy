/** Generic helpers over the lists held in the document: an optional value for
    lookups that may find nothing, list comprehensions with a condition, and
    the uniqueness of ids. */
module Collections {

  datatype Option<T> = None | Some(value: T)

  /** The Python comprehension `[x for x in s if p(x)]`. */
  function Filter<T>(s: seq<T>, p: T -> bool): (r: seq<T>)
    ensures |r| <= |s|
    ensures forall i :: 0 <= i < |r| ==> r[i] in s && p(r[i])
    ensures forall i :: 0 <= i < |s| && p(s[i]) ==> s[i] in r
  {
    if s == [] then []
    else (if p(s[0]) then [s[0]] else []) + Filter(s[1..], p)
  }

  lemma {:induction false} FilterAppend<T>(a: seq<T>, b: seq<T>, p: T -> bool)
    ensures Filter(a + b, p) == Filter(a, p) + Filter(b, p)
  {
    if a == [] {
      assert a + b == b;
    } else {
      assert (a + b)[1..] == a[1..] + b;
      FilterAppend(a[1..], b, p);
    }
  }

  /** `[f(x) for x in xs]`: a comprehension without a condition. */
  function Map<A, B>(xs: seq<A>, f: A -> B): (ys: seq<B>)
    ensures |ys| == |xs|
    ensures forall i :: 0 <= i < |xs| ==> ys[i] == f(xs[i])
  {
    if xs == [] then []
    else
      var init := xs[..|xs| - 1];
      assert forall i :: 0 <= i < |init| ==> init[i] == xs[i];
      Map(init, f) + [f(xs[|xs| - 1])]
  }

  /** A one-element list is kept or dropped whole. */
  lemma FilterSingleton<T>(x: T, p: T -> bool)
    ensures Filter([x], p) == if p(x) then [x] else []
  {
    assert [x][1..] == [];
  }

  /** Moving an element past one that the predicate cannot keep together
      with it leaves the filtered list unchanged. */
  lemma FilterPastOther<T>(front: seq<T>, init: seq<T>, x: T, last: T, p: T -> bool)
    requires Filter(front, p) == Filter(init, p) + Filter([x], p)
    requires !(p(x) && p(last))
    ensures Filter(front + [last], p) == Filter(init + [last], p) + Filter([x], p)
  {
    FilterAppend(front, [last], p);
    FilterAppend(init, [last], p);
    FilterSingleton(x, p);
    FilterSingleton(last, p);
    SwapPastEmpty(Filter(init, p), Filter([x], p), Filter([last], p));
  }

  /** Two parts of which one is empty can trade places. */
  lemma SwapPastEmpty<T>(a: seq<T>, b: seq<T>, c: seq<T>)
    requires b == [] || c == []
    ensures (a + b) + c == (a + c) + b
  {
  }

  lemma {:induction false} FilterKeepsAll<T>(s: seq<T>, p: T -> bool)
    requires forall i :: 0 <= i < |s| ==> p(s[i])
    ensures Filter(s, p) == s
  {
    if s != [] {
      FilterKeepsAll(s[1..], p);
    }
  }

  /** When exactly the element at `k` fails the condition, the comprehension
      removes that one element and keeps the rest in order. */
  lemma {:induction false} FilterDropsOne<T>(s: seq<T>, p: T -> bool, k: int)
    requires 0 <= k < |s| && !p(s[k])
    requires forall i :: 0 <= i < |s| && i != k ==> p(s[i])
    ensures Filter(s, p) == s[..k] + s[k + 1..]
  {
    var t := s[1..];
    if k == 0 {
      FilterKeepsAll(t, p);
    } else {
      forall i | 0 <= i < |t| && i != k - 1
        ensures p(t[i])
      {
        assert t[i] == s[i + 1];
      }
      FilterDropsOne(t, p, k - 1);
      SpliceAfterHead(s, k);
    }
  }

  /** Cutting out position `k > 0` keeps the head in front. */
  lemma SpliceAfterHead<T>(s: seq<T>, k: int)
    requires 0 < k < |s|
    ensures s[..k] + s[k + 1..] == [s[0]] + (s[1..][..k - 1] + s[1..][k..])
  {
    assert s[..k] == [s[0]] + s[1..][..k - 1];
    assert s[k + 1..] == s[1..][k..];
  }

  /** No two elements share an id. */
  predicate UniqueIds<T>(c: seq<T>, key: T -> int) {
    forall i, j :: 0 <= i < j < |c| ==> key(c[i]) != key(c[j])
  }

  /** Every id is at least 1, as ids handed out from 1 upwards are. */
  predicate PositiveIds<T>(c: seq<T>, key: T -> int) {
    forall i :: 0 <= i < |c| ==> key(c[i]) >= 1
  }

  lemma UniqueIdsWithout<T>(c: seq<T>, key: T -> int, k: int)
    requires UniqueIds(c, key) && 0 <= k < |c|
    ensures UniqueIds(c[..k] + c[k + 1..], key)
  {
    var d := c[..k] + c[k + 1..];
    forall i | 0 <= i < |d|
      ensures d[i] == c[if i < k then i else i + 1]
    {
    }
  }
}
