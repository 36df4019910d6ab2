/** Generic building blocks shared by the storefront model: optional values,
    results, and the array operations the components use (`filter`,
    `[...new Set(xs)]`, a stable `sort` with a comparator, `slice`). */
module Common {

  /** A value that may be missing (`undefined`/`null` in the components). */
  datatype Option<T> = None | Some(value: T) {
    /** The value, or `default` when missing. */
    function GetOr(default: T): T {
      match this
      case Some(v) => v
      case None => default
    }
  }

  /** The outcome of an operation that can fail with an error of type `E`. */
  datatype Result<T, E> = Ok(value: T) | Err(error: E)

  /** `s.filter(p)`: the elements satisfying `p`, in their original order. */
  function Filter<T(!new)>(s: seq<T>, p: T -> bool): (r: seq<T>)
    ensures |r| <= |s|
    ensures forall i :: 0 <= i < |r| ==> p(r[i])
    ensures forall x :: x in r <==> x in s && p(x)
    ensures multiset(r) <= multiset(s)
  {
    if |s| == 0 then []
    else
      assert s == [s[0]] + s[1..];
      (if p(s[0]) then [s[0]] else []) + Filter(s[1..], p)
  }

  /** Filtering distributes over concatenation, so the relative order of the
      kept elements is the order they had in the input. */
  lemma {:induction false} FilterAppend<T(!new)>(a: seq<T>, b: seq<T>, p: T -> bool)
    ensures Filter(a + b, p) == Filter(a, p) + Filter(b, p)
  {
    if |a| == 0 {
      assert a + b == b;
    } else {
      assert (a + b)[1..] == a[1..] + b;
      FilterAppend(a[1..], b, p);
    }
  }

  /** Two successive filters are one filter by the conjunction. */
  lemma {:induction false} FilterFilter<T(!new)>(s: seq<T>, p: T -> bool, q: T -> bool, both: T -> bool)
    requires forall x :: both(x) == (p(x) && q(x))
    ensures Filter(Filter(s, p), q) == Filter(s, both)
  {
    if |s| > 0 {
      FilterFilter(s[1..], p, q, both);
      var head := if p(s[0]) then [s[0]] else [];
      FilterAppend(head, Filter(s[1..], p), q);
    }
  }

  /** Filtering out one value drops all its copies and keeps every other
      element as often as it occurred. */
  lemma {:induction false} FilterOutMultiset<T(!new)>(s: seq<T>, p: T -> bool, v: T)
    requires forall x :: p(x) == (x != v)
    ensures multiset(Filter(s, p)) == multiset(s)[v := 0]
  {
    if |s| > 0 {
      assert s == [s[0]] + s[1..];
      FilterOutMultiset(s[1..], p, v);
    }
  }

  /** Filters with pointwise-equal predicates give the same result. */
  lemma {:induction false} FilterExt<T(!new)>(s: seq<T>, p: T -> bool, q: T -> bool)
    requires forall i :: 0 <= i < |s| ==> p(s[i]) == q(s[i])
    ensures Filter(s, p) == Filter(s, q)
  {
    if |s| > 0 {
      FilterExt(s[1..], p, q);
    }
  }

  /** A filter whose predicate holds of every element keeps them all. */
  lemma {:induction false} FilterAll<T(!new)>(s: seq<T>, p: T -> bool)
    requires forall i :: 0 <= i < |s| ==> p(s[i])
    ensures Filter(s, p) == s
  {
    if |s| > 0 {
      FilterAll(s[1..], p);
    }
  }

  /** A filter whose predicate holds of no element keeps none. */
  lemma {:induction false} FilterNone<T(!new)>(s: seq<T>, p: T -> bool)
    requires forall i :: 0 <= i < |s| ==> !p(s[i])
    ensures Filter(s, p) == []
  {
    if |s| > 0 {
      FilterNone(s[1..], p);
    }
  }

  /** `s.slice(0, n)`: the first `n` elements, clamped to the length. */
  function Take<T>(s: seq<T>, n: int): (r: seq<T>)
    ensures |r| == if n < 0 then 0 else if n < |s| then n else |s|
    ensures r <= s
  {
    if n <= 0 then [] else if n < |s| then s[..n] else s
  }

  /** No element occurs twice. */
  predicate Distinct<T(==)>(s: seq<T>) {
    forall i, j :: 0 <= i < j < |s| ==> s[i] != s[j]
  }

  /** `[...new Set(s)]`: the first occurrence of every element, in order. */
  function Dedup<T(==,!new)>(s: seq<T>): (r: seq<T>)
    ensures Distinct(r)
    ensures forall x :: x in r <==> x in s
    ensures |r| <= |s|
  {
    if |s| == 0 then []
    else
      var d := Dedup(s[..|s| - 1]);
      var x := s[|s| - 1];
      assert forall y :: y in s <==> y in s[..|s| - 1] || y == x;
      if x in d then d else d + [x]
  }

  /** Later elements never reorder the earlier ones: de-duplicating a prefix
      gives a prefix of the whole result. With `Distinct` and the
      membership clause this fixes `Dedup` as "first occurrences, in
      order". */
  lemma {:induction false} DedupPrefix<T(!new)>(s: seq<T>, t: seq<T>)
    ensures Dedup(s) <= Dedup(s + t)
  {
    if |t| > 0 {
      var u := t[..|t| - 1];
      assert (s + t)[..|s + t| - 1] == s + u;
      DedupPrefix(s, u);
    } else {
      assert s + t == s;
    }
  }

  /** A new element is appended after the ones already seen; a repeated one
      adds nothing. */
  lemma DedupSnoc<T(!new)>(s: seq<T>, x: T)
    ensures Dedup(s + [x]) == if x in s then Dedup(s) else Dedup(s) + [x]
  {
    assert (s + [x])[..|s + [x]| - 1] == s;
  }

  /** Adjacent elements are in `le` order. */
  predicate SortedBy<T>(s: seq<T>, le: (T, T) -> bool) {
    forall i :: 0 < i < |s| ==> le(s[i - 1], s[i])
  }

  /** `le` relates every pair one way or the other, as a comparator that
      answers `<= 0` or `>= 0` does. */
  ghost predicate TotalOrder<T(!new)>(le: (T, T) -> bool) {
    forall a, b :: le(a, b) || le(b, a)
  }

  /** One step of a stable insertion sort: `x`, which comes after every
      element of `s` in the input, is placed after every element `y` with
      `le(y, x)` at the tail of `s`. */
  function Insert<T>(s: seq<T>, x: T, le: (T, T) -> bool): (r: seq<T>)
    ensures |r| == |s| + 1
    ensures multiset(r) == multiset(s) + multiset{x}
    ensures r[|r| - 1] == x || (|s| > 0 && r[|r| - 1] == s[|s| - 1])
  {
    if |s| == 0 then [x]
    else if le(s[|s| - 1], x) then s + [x]
    else
      var init := s[..|s| - 1];
      assert s == init + [s[|s| - 1]];
      Insert(init, x, le) + [s[|s| - 1]]
  }

  /** A stable sort (`Array.prototype.sort` with a comparator): the order
      `le(a, b)` stands for "comparator(a, b) <= 0". */
  function Sort<T>(s: seq<T>, le: (T, T) -> bool): (r: seq<T>)
    ensures |r| == |s|
    ensures multiset(r) == multiset(s)
  {
    if |s| == 0 then []
    else
      assert s == s[..|s| - 1] + [s[|s| - 1]];
      Insert(Sort(s[..|s| - 1], le), s[|s| - 1], le)
  }

  lemma {:induction false} InsertSorted<T(!new)>(s: seq<T>, x: T, le: (T, T) -> bool)
    requires TotalOrder(le)
    requires SortedBy(s, le)
    ensures SortedBy(Insert(s, x, le), le)
  {
    if |s| > 0 && !le(s[|s| - 1], x) {
      var init := s[..|s| - 1];
      InsertSorted(init, x, le);
      var t := Insert(init, x, le);
      var last := s[|s| - 1];
      assert le(t[|t| - 1], last) by {
        if |init| > 0 && t[|t| - 1] == init[|init| - 1] {
          assert init[|init| - 1] == s[|s| - 2];
        } else {
          assert t[|t| - 1] == x;
          assert le(x, last) || le(last, x);
        }
      }
    }
  }

  /** Under a total comparator the result of `Sort` is ordered. */
  lemma {:induction false} SortSorted<T(!new)>(s: seq<T>, le: (T, T) -> bool)
    requires TotalOrder(le)
    ensures SortedBy(Sort(s, le), le)
  {
    if |s| > 0 {
      SortSorted(s[..|s| - 1], le);
      InsertSorted(Sort(s[..|s| - 1], le), s[|s| - 1], le);
    }
  }

  /** Sorting by a numeric key: `le(a, b)` is `key(a) <= key(b)`. */
  function KeyLe<T>(key: T -> real): (T, T) -> bool {
    (a: T, b: T) => key(a) <= key(b)
  }

  lemma KeyLeTotal<T(!new)>(key: T -> real)
    ensures TotalOrder(KeyLe(key))
  {
  }

  /** Adjacent order by a numeric key extends to every pair of positions. */
  lemma {:induction false} KeySortedPairwise<T>(s: seq<T>, key: T -> real)
    requires SortedBy(s, KeyLe(key))
    ensures forall i, j :: 0 <= i <= j < |s| ==> key(s[i]) <= key(s[j])
  {
    if |s| > 1 {
      var init := s[..|s| - 1];
      assert SortedBy(init, KeyLe(key)) by {
        forall i | 0 < i < |init| ensures KeyLe(key)(init[i - 1], init[i]) {
          assert init[i - 1] == s[i - 1] && init[i] == s[i];
        }
      }
      KeySortedPairwise(init, key);
      forall i, j | 0 <= i <= j < |s| ensures key(s[i]) <= key(s[j]) {
        if j < |s| - 1 {
          assert s[i] == init[i] && s[j] == init[j];
        } else if i < j {
          assert s[i] == init[i] && s[j - 1] == init[j - 1];
          assert KeyLe(key)(s[j - 1], s[j]);
        }
      }
    }
  }

  /** The elements with key `k`, in order. */
  function WithKey<T(!new)>(s: seq<T>, key: T -> real, k: real): seq<T> {
    Filter(s, x => key(x) == k)
  }

  lemma FilterSingleton<T(!new)>(x: T, p: T -> bool)
    ensures Filter([x], p) == if p(x) then [x] else []
  {
    assert [x][1..] == [];
  }

  lemma {:induction false} InsertStable<T(!new)>(s: seq<T>, x: T, key: T -> real, k: real)
    ensures WithKey(Insert(s, x, KeyLe(key)), key, k)
         == WithKey(s, key, k) + WithKey([x], key, k)
  {
    InsertFilter(s, x, KeyLe(key), y => key(y) == k);
  }

  /** Inserting never moves `x` past an element that `p` keeps too, as long
      as `le` puts every two such elements in either order. */
  lemma {:induction false} InsertFilter<T(!new)>(s: seq<T>, x: T, le: (T, T) -> bool, p: T -> bool)
    requires forall a, b | p(a) && p(b) :: le(a, b)
    ensures Filter(Insert(s, x, le), p) == Filter(s, p) + Filter([x], p)
  {
    if |s| == 0 {
      assert Insert(s, x, le) == [x];
    } else if le(s[|s| - 1], x) {
      assert Insert(s, x, le) == s + [x];
      FilterAppend(s, [x], p);
    } else {
      var init := s[..|s| - 1];
      var last := s[|s| - 1];
      assert Insert(s, x, le) == Insert(init, x, le) + [last];
      assert s == init + [last];
      InsertFilter(init, x, le, p);
      FilterSwap(init, Insert(init, x, le), x, last, p);
    }
  }

  /** The filter step behind `InsertFilter`: `last` and `x` change places,
      and at most one of them is kept. */
  lemma FilterSwap<T(!new)>(init: seq<T>, t: seq<T>, x: T, last: T, p: T -> bool)
    requires Filter(t, p) == Filter(init, p) + Filter([x], p)
    requires !(p(x) && p(last))
    ensures Filter(t + [last], p) == Filter(init + [last], p) + Filter([x], p)
  {
    FilterAppend(t, [last], p);
    FilterAppend(init, [last], p);
    if p(x) {
      DropLast(init, t, last, p);
    } else {
      DropX(init, t, x, last, p);
    }
  }

  lemma DropLast<T(!new)>(init: seq<T>, t: seq<T>, last: T, p: T -> bool)
    requires !p(last)
    ensures Filter(t + [last], p) == Filter(t, p)
    ensures Filter(init + [last], p) == Filter(init, p)
  {
    FilterAppend(t, [last], p);
    FilterAppend(init, [last], p);
    FilterSingleton(last, p);
    AppendEmpty(Filter(t, p));
    AppendEmpty(Filter(init, p));
  }

  lemma DropX<T(!new)>(init: seq<T>, t: seq<T>, x: T, last: T, p: T -> bool)
    requires !p(x)
    requires Filter(t, p) == Filter(init, p) + Filter([x], p)
    ensures Filter(t + [last], p) == Filter(init + [last], p) + Filter([x], p)
  {
    FilterSingleton(x, p);
    AppendEmpty(Filter(init, p));
    AppendEmpty(Filter(init + [last], p));
    FilterAppend(t, [last], p);
    FilterAppend(init, [last], p);
  }

  lemma AppendEmpty<T>(s: seq<T>)
    ensures s + [] == s
  {
  }

  /** Stability: sorting by a key never reorders elements that share a key. */
  lemma {:induction false} SortStable<T(!new)>(s: seq<T>, key: T -> real, k: real)
    ensures WithKey(Sort(s, KeyLe(key)), key, k) == WithKey(s, key, k)
  {
    if |s| > 0 {
      var init := s[..|s| - 1];
      assert s == init + [s[|s| - 1]];
      SortStable(init, key, k);
      InsertStable(Sort(init, KeyLe(key)), s[|s| - 1], key, k);
      FilterAppend(init, [s[|s| - 1]], x => key(x) == k);
    }
  }
}
