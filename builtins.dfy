/**
 * The JavaScript built-ins the core relies on, as functions on values:
 * `Array.prototype.filter`, `map`, `findIndex`, `join` and `sort`, and
 * `String.prototype.includes`. `Split` is not used by the source; it is the
 * reader that `Join` is proved against.
 */
module Builtins {

  /** `s.filter(keep)`: the elements that satisfy `keep`, in their original order. */
  function Filter<T(!new)>(s: seq<T>, keep: T -> bool): (r: seq<T>)
    ensures |r| <= |s|
    ensures forall i | 0 <= i < |r| :: keep(r[i]) && r[i] in s
  {
    if s == [] then [] else (if keep(s[0]) then [s[0]] else []) + Filter(s[1..], keep)
  }

  /** The filter keeps every occurrence of an element that passes and none of one that fails. */
  lemma {:induction false} FilterCounts<T(!new)>(s: seq<T>, keep: T -> bool, x: T)
    ensures multiset(Filter(s, keep))[x] == if keep(x) then multiset(s)[x] else 0
  {
    if s != [] {
      assert s == [s[0]] + s[1..];
      FilterCounts(s[1..], keep, x);
    }
  }

  /** Filtering a concatenation filters each part: the relative order of kept elements is the input's. */
  lemma {:induction false} FilterAppend<T(!new)>(a: seq<T>, b: seq<T>, keep: T -> bool)
    ensures Filter(a + b, keep) == Filter(a, keep) + Filter(b, keep)
  {
    if a == [] {
      assert a + b == b;
    } else {
      assert (a + b)[0] == a[0];
      assert (a + b)[1..] == a[1..] + b;
      FilterAppend(a[1..], b, keep);
    }
  }

  /** A filter that every element passes returns its input unchanged. */
  lemma {:induction false} FilterKeepsAll<T(!new)>(s: seq<T>, keep: T -> bool)
    requires forall i | 0 <= i < |s| :: keep(s[i])
    ensures Filter(s, keep) == s
  {
    if s != [] {
      FilterKeepsAll(s[1..], keep);
    }
  }

  /** A filter that no element passes returns the empty sequence. */
  lemma {:induction false} FilterKeepsNone<T(!new)>(s: seq<T>, keep: T -> bool)
    requires forall i | 0 <= i < |s| :: !keep(s[i])
    ensures Filter(s, keep) == []
  {
    if s != [] {
      FilterKeepsNone(s[1..], keep);
    }
  }

  /** Filtering twice with the same predicate is filtering once. */
  lemma FilterIdempotent<T(!new)>(s: seq<T>, keep: T -> bool)
    ensures Filter(Filter(s, keep), keep) == Filter(s, keep)
  {
    FilterKeepsAll(Filter(s, keep), keep);
  }

  /** When exactly the element at `k` is dropped, the filter cuts out that one position. */
  lemma {:induction false} FilterSplice<T(!new)>(s: seq<T>, keep: T -> bool, k: int)
    requires 0 <= k < |s| && !keep(s[k])
    requires forall i | 0 <= i < |s| && i != k :: keep(s[i])
    ensures Filter(s, keep) == s[..k] + s[k + 1..]
  {
    var rest := s[1..];
    if k == 0 {
      forall i | 0 <= i < |rest| ensures keep(rest[i]) {
        assert rest[i] == s[i + 1];
      }
      FilterKeepsAll(rest, keep);
    } else {
      forall i | 0 <= i < |rest| && i != k - 1 ensures keep(rest[i]) {
        assert rest[i] == s[i + 1];
      }
      FilterSplice(rest, keep, k - 1);
      assert [s[0]] + (rest[..k - 1] + rest[k..]) == s[..k] + s[k + 1..];
    }
  }

  /** `s.map(f)`: `f` applied to every element, positions kept. */
  function Map<T, U>(s: seq<T>, f: T -> U): (r: seq<U>)
    ensures |r| == |s|
    ensures forall i | 0 <= i < |s| :: r[i] == f(s[i])
  {
    if s == [] then [] else [f(s[0])] + Map(s[1..], f)
  }

  /** `s.findIndex(pred)`: the first index whose element satisfies `pred`, or -1. */
  function FindIndex<T>(s: seq<T>, pred: T -> bool): (r: int)
    ensures -1 <= r < |s|
    ensures r == -1 <==> forall i | 0 <= i < |s| :: !pred(s[i])
    ensures 0 <= r ==> pred(s[r]) && forall j | 0 <= j < r :: !pred(s[j])
  {
    if s == [] then -1
    else if pred(s[0]) then 0
    else
      var k := FindIndex(s[1..], pred);
      if k < 0 then -1 else k + 1
  }

  /** `s.includes(t)`: `t` occurs in `s` as a contiguous block. */
  function Includes(s: string, t: string): (r: bool)
    ensures r <==> exists i | 0 <= i <= |s| :: t <= s[i..]
  {
    if t <= s then
      assert t <= s[0..];
      true
    else if s == [] then false
    else
      assert forall i | 1 <= i <= |s| :: s[i..] == s[1..][i - 1..];
      Includes(s[1..], t)
  }

  /** `parts.join(sep)` for a one-character separator. */
  function Join(parts: seq<string>, sep: char): (r: string)
    ensures |parts| >= 1 ==> parts[0] <= r
    ensures |parts| >= 2 ==> |r| > |parts[0]| && r[|parts[0]|] == sep
  {
    if parts == [] then ""
    else if |parts| == 1 then parts[0]
    else parts[0] + [sep] + Join(parts[1..], sep)
  }

  /** `s.split(sep)`: the pieces between separators, left to right. */
  function Split(s: string, sep: char): (r: seq<string>)
    ensures |r| >= 1
  {
    if s == [] then [""]
    else
      var rest := Split(s[1..], sep);
      if s[0] == sep then [""] + rest
      else [[s[0]] + rest[0]] + rest[1..]
  }

  lemma {:induction false} SplitWithoutSeparator(a: string, sep: char)
    requires sep !in a
    ensures Split(a, sep) == [a]
  {
    if a != [] {
      SplitWithoutSeparator(a[1..], sep);
      assert [a[0]] + a[1..] == a;
    }
  }

  lemma {:induction false} SplitAtSeparator(a: string, b: string, sep: char)
    requires sep !in a
    ensures Split(a + [sep] + b, sep) == [a] + Split(b, sep)
  {
    if a == [] {
      assert (a + [sep] + b)[1..] == b;
    } else {
      assert (a + [sep] + b)[1..] == a[1..] + [sep] + b;
      SplitAtSeparator(a[1..], b, sep);
      assert [a[0]] + a[1..] == a;
    }
  }

  /** Splitting what `Join` wrote gives back the parts, when no part holds the separator. */
  lemma {:induction false} SplitJoin(parts: seq<string>, sep: char)
    requires |parts| >= 1
    requires forall i | 0 <= i < |parts| :: sep !in parts[i]
    ensures Split(Join(parts, sep), sep) == parts
  {
    if |parts| == 1 {
      SplitWithoutSeparator(parts[0], sep);
    } else {
      SplitAtSeparator(parts[0], Join(parts[1..], sep), sep);
      SplitJoin(parts[1..], sep);
      assert [parts[0]] + parts[1..] == parts;
    }
  }

  /** `cmp(a, b) <= 0` ("a may stand before b") is total and transitive. */
  ghost predicate TotalPreorder<T(!new)>(cmp: (T, T) -> int)
  {
    && (forall a, b :: cmp(a, b) <= 0 || cmp(b, a) <= 0)
    && (forall a, b, c :: cmp(a, b) <= 0 && cmp(b, c) <= 0 ==> cmp(a, c) <= 0)
  }

  /**
   * `cmp(a, b)` and `cmp(b, a)` have opposite signs or are both 0, as ECMA-262
   * requires of a consistent comparator; only then are the ties of the sort
   * exactly the pairs that compare 0.
   */
  ghost predicate Consistent<T(!new)>(cmp: (T, T) -> int)
  {
    forall a, b :: (cmp(a, b) < 0 <==> cmp(b, a) > 0) && (cmp(a, b) == 0 <==> cmp(b, a) == 0)
  }

  ghost predicate SortedBy<T>(s: seq<T>, cmp: (T, T) -> int)
  {
    forall i, j | 0 <= i < j < |s| :: cmp(s[i], s[j]) <= 0
  }

  /** Holds of the elements that `cmp` ranks level with `e`. */
  function LevelWith<T>(e: T, cmp: (T, T) -> int): T -> bool
  {
    x => cmp(x, e) <= 0 && cmp(e, x) <= 0
  }

  /** The elements of `s` that `cmp` ranks level with `e`, in the order of `s`. */
  function TiedWith<T(!new)>(s: seq<T>, e: T, cmp: (T, T) -> int): seq<T>
  {
    Filter(s, LevelWith(e, cmp))
  }

  /** Inserts `x` after the last element that does not rank strictly after it. */
  function Insert<T>(s: seq<T>, x: T, cmp: (T, T) -> int): (r: seq<T>)
    ensures |r| == |s| + 1
  {
    if s == [] || cmp(s[|s| - 1], x) <= 0 then s + [x]
    else Insert(s[..|s| - 1], x, cmp) + [s[|s| - 1]]
  }

  /** `s.sort(cmp)` on a copy: insertion sort, which is stable as ECMA-262 requires since its 2019 edition. */
  function Sort<T>(s: seq<T>, cmp: (T, T) -> int): (r: seq<T>)
    ensures |r| == |s|
  {
    if s == [] then [] else Insert(Sort(s[..|s| - 1], cmp), s[|s| - 1], cmp)
  }

  /** Inserting adds exactly the one element. */
  lemma {:induction false} InsertPermutes<T>(s: seq<T>, x: T, cmp: (T, T) -> int)
    ensures multiset(Insert(s, x, cmp)) == multiset(s) + multiset{x}
  {
    if s != [] && cmp(s[|s| - 1], x) > 0 {
      var init, last := s[..|s| - 1], s[|s| - 1];
      InsertPermutes(init, x, cmp);
      assert s == init + [last];
    }
  }

  /** The sort returns a permutation of its input. */
  lemma {:induction false} SortPermutes<T>(s: seq<T>, cmp: (T, T) -> int)
    ensures multiset(Sort(s, cmp)) == multiset(s)
  {
    if s != [] {
      var init, last := s[..|s| - 1], s[|s| - 1];
      SortPermutes(init, cmp);
      InsertPermutes(Sort(init, cmp), last, cmp);
      assert s == init + [last];
    }
  }

  /** Appending an element no smaller than the last keeps a list ordered. */
  lemma AppendSorted<T(!new)>(s: seq<T>, x: T, cmp: (T, T) -> int)
    requires TotalPreorder(cmp)
    requires SortedBy(s, cmp)
    requires s == [] || cmp(s[|s| - 1], x) <= 0
    ensures SortedBy(s + [x], cmp)
  {
    var r := s + [x];
    forall i, j | 0 <= i < j < |r| ensures cmp(r[i], r[j]) <= 0 {
      if j == |s| && i < |s| - 1 {
        assert cmp(s[i], s[|s| - 1]) <= 0;
      }
    }
  }

  lemma {:induction false} InsertSorted<T(!new)>(s: seq<T>, x: T, cmp: (T, T) -> int)
    requires TotalPreorder(cmp)
    requires SortedBy(s, cmp)
    ensures SortedBy(Insert(s, x, cmp), cmp)
  {
    if s == [] || cmp(s[|s| - 1], x) <= 0 {
      AppendSorted(s, x, cmp);
    } else {
      var init, last := s[..|s| - 1], s[|s| - 1];
      assert SortedBy(init, cmp);
      InsertSorted(init, x, cmp);
      var front := Insert(init, x, cmp);
      var y := front[|front| - 1];
      assert cmp(y, last) <= 0 by {
        InsertPermutes(init, x, cmp);
        assert y in multiset(init) + multiset{x};
        if y != x {
          assert y in init;
        }
      }
      AppendSorted(front, last, cmp);
    }
  }

  /** The sort's output is ordered by `cmp` whenever `cmp` is a total preorder. */
  lemma {:induction false} SortSorted<T(!new)>(s: seq<T>, cmp: (T, T) -> int)
    requires TotalPreorder(cmp)
    ensures SortedBy(Sort(s, cmp), cmp)
  {
    if s != [] {
      SortSorted(s[..|s| - 1], cmp);
      InsertSorted(Sort(s[..|s| - 1], cmp), s[|s| - 1], cmp);
    }
  }

  /** Dropping the last element of an ordered list leaves it ordered. */
  lemma SortedInit<T>(s: seq<T>, cmp: (T, T) -> int)
    requires s != [] && SortedBy(s, cmp)
    ensures SortedBy(s[..|s| - 1], cmp)
    ensures |s| >= 2 ==> cmp(s[|s| - 2], s[|s| - 1]) <= 0
  {
    var init := s[..|s| - 1];
    forall i, j | 0 <= i < j < |init| ensures cmp(init[i], init[j]) <= 0 {
      assert init[i] == s[i] && init[j] == s[j];
    }
  }

  /** Inserting an element no smaller than the last appends it. */
  lemma InsertAfterLast<T>(s: seq<T>, x: T, cmp: (T, T) -> int)
    requires s == [] || cmp(s[|s| - 1], x) <= 0
    ensures Insert(s, x, cmp) == s + [x]
  {
  }

  /** A sort of an already sorted list leaves it as it is. */
  lemma {:induction false} SortOfSorted<T(!new)>(s: seq<T>, cmp: (T, T) -> int)
    requires SortedBy(s, cmp)
    ensures Sort(s, cmp) == s
  {
    if s != [] {
      var init, last := s[..|s| - 1], s[|s| - 1];
      SortedInit(s, cmp);
      SortOfSorted(init, cmp);
      InsertAfterLast(init, last, cmp);
      assert init + [last] == s;
    }
  }

  /** Two elements that `cmp` puts in strict order are not both level with a third. */
  lemma {:induction false} NotBothLevel<T(!new)>(x: T, y: T, e: T, cmp: (T, T) -> int)
    requires TotalPreorder(cmp)
    requires cmp(y, x) > 0
    ensures TiedWith([x], e, cmp) == [] || TiedWith([y], e, cmp) == []
  {
    if LevelWith(e, cmp)(x) && LevelWith(e, cmp)(y) {
      assert false;
    }
  }

  lemma {:induction false} InsertTies<T(!new)>(s: seq<T>, x: T, e: T, cmp: (T, T) -> int)
    requires TotalPreorder(cmp)
    ensures TiedWith(Insert(s, x, cmp), e, cmp) == TiedWith(s, e, cmp) + TiedWith([x], e, cmp)
  {
    if s == [] || cmp(s[|s| - 1], x) <= 0 {
      FilterAppend(s, [x], LevelWith(e, cmp));
    } else {
      var init, last := s[..|s| - 1], s[|s| - 1];
      assert init + [last] == s;
      InsertTies(init, x, e, cmp);
      NotBothLevel(x, last, e, cmp);
      InsertTiesStep(init, x, last, e, cmp);
    }
  }

  /** The step of InsertTies where `x` goes before the last element. */
  lemma {:induction false} InsertTiesStep<T(!new)>(init: seq<T>, x: T, last: T, e: T, cmp: (T, T) -> int)
    requires cmp(last, x) > 0
    requires TiedWith(Insert(init, x, cmp), e, cmp) == TiedWith(init, e, cmp) + TiedWith([x], e, cmp)
    requires TiedWith([x], e, cmp) == [] || TiedWith([last], e, cmp) == []
    ensures TiedWith(Insert(init + [last], x, cmp), e, cmp) == TiedWith(init + [last], e, cmp) + TiedWith([x], e, cmp)
  {
    var s := init + [last];
    assert s[..|s| - 1] == init && s[|s| - 1] == last;
    var front := Insert(init, x, cmp);
    assert Insert(s, x, cmp) == front + [last];
    var a, b, c := TiedWith(init, e, cmp), TiedWith([x], e, cmp), TiedWith([last], e, cmp);
    FilterAppend(front, [last], LevelWith(e, cmp));
    FilterAppend(init, [last], LevelWith(e, cmp));
    SwapEmpty(a, b, c);
    calc {
      TiedWith(Insert(s, x, cmp), e, cmp);
      TiedWith(front + [last], e, cmp);
      TiedWith(front, e, cmp) + c;
      a + b + c;
      a + c + b;
      TiedWith(s, e, cmp) + b;
    }
  }

  /** Concatenation commutes past an empty part. */
  lemma SwapEmpty<T>(a: seq<T>, b: seq<T>, c: seq<T>)
    requires b == [] || c == []
    ensures a + b + c == a + c + b
  {
    if b == [] {
      assert a + b == a && c + b == c;
    } else {
      assert a + c == a && b + c == b;
    }
  }

  /** Stability: among elements that `cmp` ranks level, the sort keeps the input order. */
  lemma {:induction false} SortStable<T(!new)>(s: seq<T>, e: T, cmp: (T, T) -> int)
    requires TotalPreorder(cmp)
    ensures TiedWith(Sort(s, cmp), e, cmp) == TiedWith(s, e, cmp)
  {
    if s != [] {
      var init, last := s[..|s| - 1], s[|s| - 1];
      assert init + [last] == s;
      assert Sort(s, cmp) == Insert(Sort(init, cmp), last, cmp);
      SortStable(init, e, cmp);
      InsertTies(Sort(init, cmp), last, e, cmp);
      FilterAppend(init, [last], LevelWith(e, cmp));
    }
  }
}
