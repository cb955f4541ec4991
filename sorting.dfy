/** `list.sort(key=..., reverse=True)` on a text key, as the feeds use it to put
    the newest review first. Python's sort is stable, also when reversed:
    elements whose keys are equal keep their original relative order. */
module Sorting {
  import opened Collections
  import opened Text

  /** Non-increasing by key, comparing keys as Python compares strings. */
  predicate SortedDesc<T>(s: seq<T>, key: T -> string) {
    forall i, j :: 0 <= i < j < |s| ==> LexLe(key(s[j]), key(s[i]))
  }

  /** The condition "the key equals `k`", for picking out one key's elements. */
  function HasKey<T>(key: T -> string, k: string): T -> bool {
    (x: T) => key(x) == k
  }

  /** Puts `x` into `s` directly after the last of the trailing elements whose
      key is not smaller than `x`'s; scanning from the back, as insertion sort
      shifts elements. */
  function InsertDesc<T>(x: T, s: seq<T>, key: T -> string): (r: seq<T>)
    ensures |r| == |s| + 1
  {
    if s == [] then [x]
    else
      var init, last := s[..|s| - 1], s[|s| - 1];
      if LexLe(key(x), key(last)) then s + [x]
      else InsertDesc(x, init, key) + [last]
  }

  /** The stable descending sort: each element in turn inserted into the
      sorted prefix before it. */
  function StableSortDesc<T>(s: seq<T>, key: T -> string): (r: seq<T>)
    ensures |r| == |s|
  {
    if s == [] then []
    else
      var init := s[..|s| - 1];
      InsertDesc(s[|s| - 1], StableSortDesc(init, key), key)
  }

  lemma {:induction false} InsertDescPermutes<T>(x: T, s: seq<T>, key: T -> string)
    ensures multiset(InsertDesc(x, s, key)) == multiset(s) + multiset{x}
  {
    if s != [] {
      var init, last := s[..|s| - 1], s[|s| - 1];
      assert s == init + [last];
      if !LexLe(key(x), key(last)) {
        InsertDescPermutes(x, init, key);
      }
    }
  }

  lemma {:induction false} StableSortDescPermutes<T>(s: seq<T>, key: T -> string)
    ensures multiset(StableSortDesc(s, key)) == multiset(s)
  {
    if s != [] {
      var init := s[..|s| - 1];
      assert s == init + [s[|s| - 1]];
      StableSortDescPermutes(init, key);
      InsertDescPermutes(s[|s| - 1], StableSortDesc(init, key), key);
    }
  }

  lemma {:induction false} InsertDescSorted<T>(x: T, s: seq<T>, key: T -> string)
    requires SortedDesc(s, key)
    ensures SortedDesc(InsertDesc(x, s, key), key)
  {
    if s != [] {
      var init, last := s[..|s| - 1], s[|s| - 1];
      var r := InsertDesc(x, s, key);
      if LexLe(key(x), key(last)) {
        forall i | 0 <= i < |s|
          ensures LexLe(key(x), key(s[i]))
        {
          if i < |s| - 1 {
            LexLeTransitive(key(x), key(last), key(s[i]));
          }
        }
      } else {
        LexLeTotal(key(x), key(last));
        assert SortedDesc(init, key);
        InsertDescSorted(x, init, key);
        var front := InsertDesc(x, init, key);
        InsertDescPermutes(x, init, key);
        forall y | y in multiset(front)
          ensures LexLe(key(last), key(y))
        {
          assert y in multiset(init) + multiset{x};
          if y != x {
            assert y in init;
          }
        }
        forall i | 0 <= i < |front|
          ensures LexLe(key(last), key(front[i]))
        {
          assert front[i] in multiset(front);
        }
        assert r == front + [last];
      }
    }
  }

  lemma {:induction false} StableSortDescSorted<T>(s: seq<T>, key: T -> string)
    ensures SortedDesc(StableSortDesc(s, key), key)
  {
    if s != [] {
      var init := s[..|s| - 1];
      StableSortDescSorted(init, key);
      InsertDescSorted(s[|s| - 1], StableSortDesc(init, key), key);
    }
  }

  /** Inserting `x` leaves the elements with any one key in the same order,
      with `x` after those of its own key. */
  lemma {:induction false} InsertDescStable<T>(x: T, s: seq<T>, key: T -> string, k: string)
    ensures Filter(InsertDesc(x, s, key), HasKey(key, k))
         == Filter(s, HasKey(key, k)) + Filter([x], HasKey(key, k))
  {
    var p := HasKey(key, k);
    if s == [] {
      assert InsertDesc(x, s, key) == [] + [x];
      FilterAppend([], [x], p);
    } else {
      var init, last := s[..|s| - 1], s[|s| - 1];
      assert s == init + [last];
      if LexLe(key(x), key(last)) {
        FilterAppend(s, [x], p);
      } else {
        LexLeReflexive(key(x));
        assert key(x) != key(last);
        var front := InsertDesc(x, init, key);
        assert InsertDesc(x, s, key) == front + [last];
        InsertDescStable(x, init, key, k);
        FilterPastOther(front, init, x, last, p);
      }
    }
  }

  /** The sort is stable: for every key, the elements with that key appear in
      the result in the same order as in the input. */
  lemma {:induction false} StableSortDescStable<T>(s: seq<T>, key: T -> string, k: string)
    ensures Filter(StableSortDesc(s, key), HasKey(key, k)) == Filter(s, HasKey(key, k))
  {
    if s != [] {
      var init, last := s[..|s| - 1], s[|s| - 1];
      assert s == init + [last];
      StableSortDescStable(init, key, k);
      InsertDescStable(last, StableSortDesc(init, key), key, k);
      FilterAppend(init, [last], HasKey(key, k));
    }
  }

  /** Everything the sort promises: ordered newest first, a permutation of its
      input, and stable on equal keys. */
  ghost predicate IsStableSortDesc<T>(r: seq<T>, s: seq<T>, key: T -> string) {
    && SortedDesc(r, key)
    && multiset(r) == multiset(s)
    && forall k :: Filter(r, HasKey(key, k)) == Filter(s, HasKey(key, k))
  }

  lemma StableSortDescCorrect<T>(s: seq<T>, key: T -> string)
    ensures IsStableSortDesc(StableSortDesc(s, key), s, key)
  {
    StableSortDescSorted(s, key);
    StableSortDescPermutes(s, key);
    forall k {
      StableSortDescStable(s, key, k);
    }
  }

  /** Three elements with strictly increasing keys come out in reverse order:
      the newest first. */
  lemma NewestFirstOfThree<T>(a: T, b: T, c: T, key: T -> string)
    requires !LexLe(key(b), key(a)) && !LexLe(key(c), key(b))
    ensures StableSortDesc([a, b, c], key) == [c, b, a]
  {
    LexLeTotal(key(a), key(b));
    if LexLe(key(c), key(a)) {
      LexLeTransitive(key(c), key(a), key(b));
    }
    assert [a, b, c][..2] == [a, b] && [a, b][..1] == [a] && [a][..0] == [];
    assert StableSortDesc([a], key) == [a] by {
      assert InsertDesc(a, [], key) == [a];
    }
    assert StableSortDesc([a, b], key) == [b, a] by {
      assert [a][..0] == [];
      assert InsertDesc(b, [a], key) == InsertDesc(b, [], key) + [a];
    }
    assert InsertDesc(c, [b, a], key) == [c, b, a] by {
      assert [b, a][..1] == [b] && [b][..0] == [];
      assert InsertDesc(c, [b, a], key) == InsertDesc(c, [b], key) + [a];
      assert InsertDesc(c, [b], key) == InsertDesc(c, [], key) + [b];
    }
  }

  lemma InsertDescShift<T>(x: T, done: seq<T>, j: int, key: T -> string)
    requires 0 < j <= |done| && !LexLe(key(x), key(done[j - 1]))
    ensures InsertDesc(x, done[..j], key) + done[j..] == InsertDesc(x, done[..j - 1], key) + done[j - 1..]
  {
    assert done[..j][..j - 1] == done[..j - 1];
    assert done[j - 1..] == [done[j - 1]] + done[j..];
  }

  lemma InsertDescStop<T>(x: T, done: seq<T>, j: int, key: T -> string)
    requires 0 <= j <= |done| && (j == 0 || LexLe(key(x), key(done[j - 1])))
    ensures InsertDesc(x, done[..j], key) == done[..j] + [x]
  {
  }

  /** Copying the element left of the hole at `j` into it moves the hole one
      place left: the prefix before it and the shifted run after it still
      agree with `done`. */
  lemma ShiftRight<T>(b: seq<T>, done: seq<T>, i: int, j: int)
    requires 0 < j <= i < |b| && i == |done|
    requires b[..j] == done[..j] && b[j + 1..i + 1] == done[j..]
    ensures b[j := b[j - 1]][..j - 1] == done[..j - 1]
    ensures b[j := b[j - 1]][j..i + 1] == done[j - 1..]
    ensures b[j := b[j - 1]][i + 1..] == b[i + 1..]
  {
    var c := b[j := b[j - 1]];
    assert c[..j - 1] == b[..j - 1] == b[..j][..j - 1];
    assert c[j..i + 1] == [b[j - 1]] + b[j + 1..i + 1];
    assert done[j - 1..] == [done[j - 1]] + done[j..];
  }

  /** One step of insertion sort: `a[i]` is moved left past the elements of
      `a[..i]` whose key is strictly smaller, which shift one place right. */
  method InsertInPlace<T>(a: array<T>, i: int, key: T -> string)
    requires 0 <= i < a.Length
    modifies a
    ensures a[..i + 1] == InsertDesc(old(a[i]), old(a[..i]), key)
    ensures a[i + 1..] == old(a[i + 1..])
  {
    var x := a[i];
    ghost var done := a[..i];
    var j := i;
    while j > 0 && !LexLe(key(x), key(a[j - 1]))
      invariant 0 <= j <= i
      invariant a[..j] == done[..j]
      invariant a[j + 1..i + 1] == done[j..]
      invariant a[i + 1..] == old(a[i + 1..])
      invariant InsertDesc(x, done, key) == InsertDesc(x, done[..j], key) + done[j..]
    {
      InsertDescShift(x, done, j, key);
      ghost var before := a[..];
      a[j] := a[j - 1];
      assert a[..] == before[j := before[j - 1]];
      ShiftRight(before, done, i, j);
      j := j - 1;
    }
    InsertDescStop(x, done, j, key);
    a[j] := x;
    assert a[..i + 1] == done[..j] + [x] + done[j..];
  }

  /** The in-place sort: insertion sort over the whole array. */
  method SortDescInPlace<T>(a: array<T>, key: T -> string)
    modifies a
    ensures a[..] == StableSortDesc(old(a[..]), key)
  {
    ghost var orig := a[..];
    var i := 0;
    while i < a.Length
      invariant 0 <= i <= a.Length
      invariant a[..i] == StableSortDesc(orig[..i], key)
      invariant a[i..] == orig[i..]
    {
      InsertInPlace(a, i, key);
      assert orig[..i + 1][..i] == orig[..i];
      i := i + 1;
    }
    assert a[..a.Length] == a[..];
    assert orig[..a.Length] == orig;
  }
}
