/** The Kotlin standard-library list and string operations the modelled code
    uses: `filter`, `sum`, `sorted`/`sortedDescending`, `reversed`, `take`,
    `takeLast`, `split` and `lines`. Lists are sequences; a list of `Int`s is a
    `seq<int>` whose elements are in `Int` range. */
module KotlinCollections {
  import opened Wrappers
  import opened KotlinLang

  // ---------------------------------------------------------------------------
  // filter
  // ---------------------------------------------------------------------------

  /** `s.filter(p)`: the elements of `s` that satisfy `p`, in their order. */
  function Filter<T(!new)>(s: seq<T>, p: T -> bool): (r: seq<T>)
    ensures |r| <= |s|
  {
    if s == [] then []
    else
      var rest := Filter(s[1..], p);
      if p(s[0]) then [s[0]] + rest else rest
  }

  /** `filter` keeps every copy of each element that satisfies the predicate
      and no copy of the others. */
  lemma {:induction false} FilterCounts<T(!new)>(s: seq<T>, p: T -> bool)
    ensures forall y :: multiset(Filter(s, p))[y] == if p(y) then multiset(s)[y] else 0
  {
    if s != [] {
      FilterCounts(s[1..], p);
      assert s == [s[0]] + s[1..];
    }
  }

  /** `filter` keeps exactly the elements that satisfy the predicate. */
  lemma FilterMembers<T(!new)>(s: seq<T>, p: T -> bool)
    ensures forall y :: y in Filter(s, p) <==> y in s && p(y)
  {
    FilterCounts(s, p);
    forall y
      ensures y in Filter(s, p) <==> y in s && p(y)
    {
      assert y in Filter(s, p) <==> multiset(Filter(s, p))[y] > 0;
      assert y in s <==> multiset(s)[y] > 0;
    }
  }

  /** `filter` distributes over concatenation, so it keeps relative order. */
  lemma {:induction false} FilterConcat<T(!new)>(a: seq<T>, b: seq<T>, p: T -> bool)
    ensures Filter(a + b, p) == Filter(a, p) + Filter(b, p)
  {
    if a == [] {
      assert a + b == b;
    } else {
      assert (a + b)[0] == a[0] && (a + b)[1..] == a[1..] + b;
      FilterConcat(a[1..], b, p);
    }
  }

  // ---------------------------------------------------------------------------
  // map, mapNotNull, count, singleOrNull
  // ---------------------------------------------------------------------------

  /** `s.map(f)`: `f` applied to every element, in order. */
  function Map<A, B>(s: seq<A>, f: A -> B): (r: seq<B>)
    ensures |r| == |s|
    ensures forall i :: 0 <= i < |s| ==> r[i] == f(s[i])
  {
    seq(|s|, i requires 0 <= i < |s| => f(s[i]))
  }

  /** `s.mapNotNull(f)`: the non-null results of `f`, in order. */
  function MapNotNull<A, B>(s: seq<A>, f: A -> Option<B>): (r: seq<B>)
    ensures |r| <= |s|
  {
    if s == [] then []
    else
      var rest := MapNotNull(s[1..], f);
      match f(s[0])
      case None => rest
      case Some(b) => [b] + rest
  }

  lemma MapCons<A, B>(x: A, s: seq<A>, g: A -> B)
    ensures Map([x] + s, g) == [g(x)] + Map(s, g)
  {
    assert forall i :: 0 < i < |s| + 1 ==> ([x] + s)[i] == s[i - 1];
  }

  /** Mapping to `takeIf`-style results keeps the mapped elements that pass the
      condition: `mapNotNull { g(it).takeIf { p(it) } }` is
      `filter(p).map(g)`. */
  lemma {:induction false} MapNotNullIsFilterMap<A(!new), B>(s: seq<A>, f: A -> Option<B>, p: A -> bool, g: A -> B)
    requires forall x :: f(x) == if p(x) then Some(g(x)) else None
    ensures MapNotNull(s, f) == Map(Filter(s, p), g)
  {
    if s != [] {
      MapNotNullIsFilterMap(s[1..], f, p, g);
      var rest := Filter(s[1..], p);
      assert MapNotNull(s, f) == if p(s[0]) then [g(s[0])] + Map(rest, g) else Map(rest, g);
      if p(s[0]) {
        assert Filter(s, p) == [s[0]] + rest;
        MapCons(s[0], rest, g);
      } else {
        assert Filter(s, p) == rest;
      }
    }
  }

  /** Strictly increasing: sorted and without repeats. */
  predicate Increasing(s: seq<int>) {
    forall i, j :: 0 <= i < j < |s| ==> s[i] < s[j]
  }

  /** Filtering keeps the order, so a strictly increasing list stays so. */
  lemma {:induction false} FilterKeepsIncreasing(s: seq<int>, p: int -> bool)
    requires Increasing(s)
    ensures Increasing(Filter(s, p))
    ensures |s| > 0 ==> forall y :: y in Filter(s, p) ==> y >= s[0]
  {
    if s != [] {
      var rest := Filter(s[1..], p);
      FilterKeepsIncreasing(s[1..], p);
      assert |s| > 1 ==> s[0] < s[1];
      if p(s[0]) {
        var r := [s[0]] + rest;
        assert Filter(s, p) == r;
        assert forall i :: 0 < i < |r| ==> r[i] == rest[i - 1] && rest[i - 1] in rest;
      } else {
        assert Filter(s, p) == rest;
      }
    }
  }

  /** `lo..hi`: the integers from `lo` up to `hi`, empty when `hi < lo`. */
  function RangeClosed(lo: int, hi: int): (r: seq<int>)
    ensures |r| == if hi < lo then 0 else hi - lo + 1
    ensures forall i :: 0 <= i < |r| ==> r[i] == lo + i
  {
    if hi < lo then [] else seq(hi - lo + 1, i => lo + i)
  }

  /** Filtering `lo..hi` by `x >= k` leaves the range from `max(lo, k)`. */
  lemma {:induction false} FilterRangeAtLeast(lo: int, hi: int, k: int, p: int -> bool)
    requires forall x :: p(x) == (x >= k)
    ensures Filter(RangeClosed(lo, hi), p) == RangeClosed(if lo < k then k else lo, hi)
    decreases hi - lo
  {
    if lo <= hi {
      var r := RangeClosed(lo, hi);
      assert r[1..] == RangeClosed(lo + 1, hi);
      FilterRangeAtLeast(lo + 1, hi, k, p);
      if lo >= k {
        assert r == [lo] + RangeClosed(lo + 1, hi);
      }
    }
  }

  /** No element occurs twice. */
  predicate NoDuplicates<T(==)>(s: seq<T>) {
    forall i, j :: 0 <= i < j < |s| ==> s[i] != s[j]
  }

  /** Appending an element that is not there yet keeps a list free of
      duplicates. */
  lemma AppendFreshKeepsNoDuplicates<T>(s: seq<T>, x: T)
    requires NoDuplicates(s) && x !in s
    ensures NoDuplicates(s + [x])
  {
    assert forall i :: 0 <= i < |s| ==> (s + [x])[i] == s[i];
  }

  /** `listOfNotNull(a, b, ...)`: the non-null arguments, in order. */
  function ListOfNotNull<T>(s: seq<Option<T>>): (r: seq<T>)
    ensures |r| <= |s|
  {
    MapNotNull(s, (x: Option<T>) => x)
  }

  /** `listOfNotNull(a, b)` keeps each of its two arguments exactly when it is
      non-null, the first before the second. */
  lemma ListOfNotNullPair<T>(a: Option<T>, b: Option<T>)
    ensures ListOfNotNull([a, b]) == (if a.Some? then [a.value] else []) + (if b.Some? then [b.value] else [])
  {
    var id := (x: Option<T>) => x;
    assert [a, b][1..] == [b] && [b][1..] == [];
    assert MapNotNull([b], id) == if b.Some? then [b.value] else [];
  }

  /** The index `i` is the only one whose element satisfies `p`. */
  ghost predicate OnlyMatch<T>(s: seq<T>, p: T -> bool, i: int) {
    0 <= i < |s| && p(s[i]) && forall j :: 0 <= j < |s| && j != i ==> !p(s[j])
  }

  predicate NoneMatch<T>(s: seq<T>, p: T -> bool) {
    forall j :: 0 <= j < |s| ==> !p(s[j])
  }

  /** `s.singleOrNull(p)`: the element satisfying `p` when there is exactly
      one, null when there is none or more than one. */
  function SingleOrNull<T>(s: seq<T>, p: T -> bool): (r: Option<T>)
    ensures r.Some? ==> r.value in s && p(r.value)
  {
    if s == [] then None
    else if p(s[0]) then (if NoneMatch(s[1..], p) then Some(s[0]) else None)
    else SingleOrNull(s[1..], p)
  }

  /** `singleOrNull` answers exactly when one element matches, and then with
      that element. */
  lemma {:induction false} SingleOrNullIsOnlyMatch<T>(s: seq<T>, p: T -> bool)
    ensures SingleOrNull(s, p).Some? <==> exists i :: OnlyMatch(s, p, i)
    ensures forall i :: OnlyMatch(s, p, i) ==> SingleOrNull(s, p) == Some(s[i])
  {
    if s != [] {
      SingleOrNullIsOnlyMatch(s[1..], p);
      if p(s[0]) {
        if NoneMatch(s[1..], p) {
          assert OnlyMatch(s, p, 0);
          forall i | OnlyMatch(s, p, i)
            ensures i == 0
          {
          }
        } else {
          var j :| 0 <= j < |s[1..]| && p(s[1..][j]);
          forall i | 0 <= i < |s|
            ensures !OnlyMatch(s, p, i)
          {
            if i != 0 {
              assert p(s[0]);
            } else {
              assert p(s[j + 1]);
            }
          }
        }
      } else {
        forall i | 0 <= i < |s|
          ensures OnlyMatch(s, p, i) <==> i > 0 && OnlyMatch(s[1..], p, i - 1)
        {
          if i > 0 && OnlyMatch(s[1..], p, i - 1) {
            forall j | 0 <= j < |s| && j != i
              ensures !p(s[j])
            {
              if j > 0 {
                assert s[j] == s[1..][j - 1];
              }
            }
          }
          if OnlyMatch(s, p, i) {
            assert i != 0;
            forall j | 0 <= j < |s[1..]| && j != i - 1
              ensures !p(s[1..][j])
            {
              assert s[1..][j] == s[j + 1];
            }
          }
        }
        if exists i :: OnlyMatch(s[1..], p, i) {
          var i :| OnlyMatch(s[1..], p, i);
          assert OnlyMatch(s, p, i + 1);
        }
      }
    }
  }

  // ---------------------------------------------------------------------------
  // sum
  // ---------------------------------------------------------------------------

  /** The mathematical sum of a list. */
  function Sum(s: seq<int>): int {
    if s == [] then 0 else s[0] + Sum(s[1..])
  }

  lemma {:induction false} SumConcat(a: seq<int>, b: seq<int>)
    ensures Sum(a + b) == Sum(a) + Sum(b)
  {
    if a == [] {
      assert a + b == b;
    } else {
      assert (a + b)[0] == a[0] && (a + b)[1..] == a[1..] + b;
      SumConcat(a[1..], b);
    }
  }

  /** `Iterable<Int>.sum()`: `Int` additions from 0, left to right. */
  function IntSumFold(s: seq<int>): int
    decreases |s|
  {
    if s == [] then 0 else Add(IntSumFold(s[..|s| - 1]), s[|s| - 1])
  }

  /** Because `Int` addition is addition modulo 2^32, `sum()` is the wrapped
      mathematical sum whatever the order of the additions. */
  lemma {:induction false} IntSumFoldWraps(s: seq<int>)
    ensures IntSumFold(s) == Wrap(Sum(s))
    decreases |s|
  {
    if s != [] {
      var init := s[..|s| - 1];
      IntSumFoldWraps(init);
      assert s == init + [s[|s| - 1]];
      SumConcat(init, [s[|s| - 1]]);
      AddWrapsOnce(Sum(init), s[|s| - 1]);
    }
  }

  /** `sum()` of a list of `Int`s. */
  function IntSum(s: seq<int>): int {
    Wrap(Sum(s))
  }

  // ---------------------------------------------------------------------------
  // Sorting
  // ---------------------------------------------------------------------------

  predicate Sorted(s: seq<int>) {
    forall i, j :: 0 <= i < j < |s| ==> s[i] <= s[j]
  }

  predicate SortedDesc(s: seq<int>) {
    forall i, j :: 0 <= i < j < |s| ==> s[i] >= s[j]
  }

  /** Inserts `x` into ascending `s` in front of the first element not below it. */
  function Insert(s: seq<int>, x: int): (r: seq<int>)
    ensures |r| == |s| + 1
  {
    if s == [] then [x]
    else if x <= s[0] then [x] + s
    else [s[0]] + Insert(s[1..], x)
  }

  /** Insertion adds `x` and keeps everything else. */
  lemma {:induction false} InsertPermutes(s: seq<int>, x: int)
    ensures multiset(Insert(s, x)) == multiset(s) + multiset{x}
  {
    if s != [] && x > s[0] {
      var t := Insert(s[1..], x);
      InsertPermutes(s[1..], x);
      assert Insert(s, x) == [s[0]] + t;
      assert multiset(Insert(s, x)) == multiset{s[0]} + multiset(t);
      assert s == [s[0]] + s[1..];
      assert multiset(s) == multiset{s[0]} + multiset(s[1..]);
    }
  }

  /** Insertion keeps a list ascending; the head is the smaller of `x` and the
      old head. */
  lemma {:induction false} InsertSorted(s: seq<int>, x: int)
    requires Sorted(s)
    ensures Sorted(Insert(s, x))
    ensures Insert(s, x)[0] == if s == [] || x <= s[0] then x else s[0]
  {
    if s != [] && x > s[0] {
      var t := Insert(s[1..], x);
      InsertSorted(s[1..], x);
      assert s[0] <= t[0];
      assert Insert(s, x) == [s[0]] + t;
    }
  }

  /** `sorted()`: insertion of the elements one by one, in list order. */
  function SortAsc(s: seq<int>): (r: seq<int>)
    ensures |r| == |s|
    ensures Sorted(r)
    decreases |s|
  {
    if s == [] then []
    else
      InsertSorted(SortAsc(s[..|s| - 1]), s[|s| - 1]);
      Insert(SortAsc(s[..|s| - 1]), s[|s| - 1])
  }

  /** Sorting keeps every element, as often as it occurs. */
  lemma {:induction false} SortAscPermutes(s: seq<int>)
    ensures multiset(SortAsc(s)) == multiset(s)
    decreases |s|
  {
    if s != [] {
      SortAscPermutes(s[..|s| - 1]);
      InsertPermutes(SortAsc(s[..|s| - 1]), s[|s| - 1]);
      assert s == s[..|s| - 1] + [s[|s| - 1]];
    }
  }

  /** `reversed()`. */
  function Reverse<T>(s: seq<T>): (r: seq<T>)
    ensures |r| == |s|
    ensures forall i :: 0 <= i < |s| ==> r[i] == s[|s| - 1 - i]
  {
    if s == [] then [] else Reverse(s[1..]) + [s[0]]
  }

  lemma ReverseKeepsMultiset<T>(s: seq<T>)
    ensures multiset(Reverse(s)) == multiset(s)
  {
    if s != [] {
      ReverseKeepsMultiset(s[1..]);
      assert s == [s[0]] + s[1..];
    }
  }

  lemma {:induction false} SumReverse(s: seq<int>)
    ensures Sum(Reverse(s)) == Sum(s)
  {
    if s != [] {
      SumReverse(s[1..]);
      SumConcat(Reverse(s[1..]), [s[0]]);
    }
  }

  /** `sortedDescending()`. */
  function SortDesc(s: seq<int>): (r: seq<int>)
    ensures |r| == |s|
    ensures SortedDesc(r)
    ensures multiset(r) == multiset(s)
  {
    SortAscPermutes(s);
    ReverseKeepsMultiset(SortAsc(s));
    Reverse(SortAsc(s))
  }

  // ---------------------------------------------------------------------------
  // take / takeLast
  // ---------------------------------------------------------------------------

  function Min(a: int, b: int): int {
    if a <= b then a else b
  }

  /** `take(k)`: the first `k` elements, or all of them when there are fewer. */
  function Take(s: seq<int>, k: nat): (r: seq<int>)
    ensures |r| == Min(k, |s|)
    ensures r <= s
  {
    s[..Min(k, |s|)]
  }

  /** `takeLast(k)`: the last `k` elements, or all of them when there are fewer. */
  function TakeLast(s: seq<int>, k: nat): (r: seq<int>)
    ensures |r| == Min(k, |s|)
    ensures forall i :: 0 <= i < |r| ==> r[i] == s[|s| - |r| + i]
  {
    s[|s| - Min(k, |s|)..]
  }

  /** Taking the first `k` of the reversed list is reversing the last `k`. */
  lemma TakeOfReverse(s: seq<int>, k: nat)
    ensures Take(Reverse(s), k) == Reverse(TakeLast(s, k))
  {
    var t := TakeLast(s, k);
    var l := Take(Reverse(s), k);
    assert |l| == |Reverse(t)|;
    forall i | 0 <= i < |l|
      ensures l[i] == Reverse(t)[i]
    {
    }
  }

  // ---------------------------------------------------------------------------
  // Top n
  // ---------------------------------------------------------------------------

  /** `r` is a choice of `n` largest elements of `xs`: `n` of its elements, each
      at least as large as every element left out. */
  predicate IsTopN(r: seq<int>, xs: seq<int>, n: int) {
    |r| == n
    && multiset(r) <= multiset(xs)
    && forall a, b :: a in multiset(r) && b in multiset(xs) - multiset(r) ==> a >= b
  }

  /** In an ascending list, everything from position `k` on is at least
      everything before it. */
  lemma SortedSplit(s: seq<int>, k: nat)
    requires Sorted(s) && k <= |s|
    ensures forall a, b :: a in s[k..] && b in s[..k] ==> a >= b
  {
    forall a, b | a in s[k..] && b in s[..k]
      ensures a >= b
    {
      var i :| 0 <= i < |s| - k && s[k..][i] == a;
      var j :| 0 <= j < k && s[..k][j] == b;
      assert s[j] <= s[k + i];
    }
  }

  /** Splitting a list into a low part and a high part, every element of the
      high part at least every element of the low part, makes the high part a
      choice of largest elements. */
  lemma HighPartIsTopN(xs: seq<int>, lo: seq<int>, hi: seq<int>)
    requires multiset(xs) == multiset(lo) + multiset(hi)
    requires forall a, b :: a in hi && b in lo ==> a >= b
    ensures IsTopN(hi, xs, |hi|)
  {
    assert multiset(xs) - multiset(hi) == multiset(lo);
    forall a, b | a in multiset(hi) && b in multiset(xs) - multiset(hi)
      ensures a >= b
    {
      assert a in hi && b in lo;
    }
  }

  lemma SplitKeepsMultiset(s: seq<int>, k: nat)
    requires k <= |s|
    ensures multiset(s) == multiset(s[..k]) + multiset(s[k..])
  {
    assert s == s[..k] + s[k..];
  }

  /** `takeLast` keeps a suffix, so it takes nothing the list does not hold. */
  lemma TakeLastKeepsMultiset(s: seq<int>, k: nat)
    ensures multiset(TakeLast(s, k)) <= multiset(s)
  {
    var j := |s| - Min(k, |s|);
    assert s == s[..j] + TakeLast(s, k);
  }

  /** The last `n` of the ascending order are a choice of `n` largest elements. */
  lemma LastOfSortedIsTopN(xs: seq<int>, n: nat)
    requires n <= |xs|
    ensures IsTopN(TakeLast(SortAsc(xs), n), xs, n)
  {
    var s := SortAsc(xs);
    var k := |s| - n;
    assert TakeLast(s, n) == s[k..];
    SortAscPermutes(xs);
    SplitKeepsMultiset(s, k);
    SortedSplit(s, k);
    HighPartIsTopN(xs, s[..k], s[k..]);
  }

  // ---------------------------------------------------------------------------
  // split / lines
  // ---------------------------------------------------------------------------

  /** `s.split(sep)` for a non-empty separator: cut at every occurrence of
      `sep`, scanning left to right without overlaps. */
  function Split(s: string, sep: string): (r: seq<string>)
    requires |sep| > 0
    ensures |r| >= 1
    decreases |s|
  {
    if |s| < |sep| then [s]
    else if s[..|sep|] == sep then [""] + Split(s[|sep|..], sep)
    else
      var rest := Split(s[1..], sep);
      [[s[0]] + rest[0]] + rest[1..]
  }

  /** An occurrence of `sep` starts at index `i` of `s`. */
  predicate OccursAt(s: string, sep: string, i: nat) {
    i + |sep| <= |s| && s[i..i + |sep|] == sep
  }

  /** A slice of `s` that starts after its first character is a slice of
      `s[1..]`, shifted by one. */
  lemma SliceOfTail(s: string, i: nat, n: nat)
    requires 1 <= i && i + n <= |s|
    ensures s[i..i + n] == s[1..][i - 1..i - 1 + n]
  {
    assert s[1..][i - 1..] == s[i..];
    assert s[1..][i - 1..i - 1 + n] == s[1..][i - 1..][..n];
    assert s[i..i + n] == s[i..][..n];
  }

  /** The first piece of `split(sep)` is a prefix of the text, and the whole
      text when it is the only piece. */
  lemma {:induction false} SplitFirstPieceIsPrefix(s: string, sep: string)
    requires |sep| > 0
    ensures var r := Split(s, sep);
      |r[0]| <= |s| && r[0] == s[..|r[0]|] && (|r| == 1 ==> r[0] == s)
    decreases |s|
  {
    if |s| < |sep| {
      assert Split(s, sep) == [s];
    } else if s[..|sep|] == sep {
      assert Split(s, sep)[0] == "";
    } else {
      var t := s[1..];
      SplitFirstPieceIsPrefix(t, sep);
      var rest := Split(t, sep);
      var r := Split(s, sep);
      assert r[0] == [s[0]] + rest[0] && |r| == |rest|;
      assert s == [s[0]] + t;
    }
  }

  /** `split(sep)` cuts at the leftmost occurrence of the separator: no
      occurrence starts inside the first piece. */
  lemma {:induction false} SplitFirstPieceIsLeftmost(s: string, sep: string)
    requires |sep| > 0
    ensures forall i: nat :: i < |Split(s, sep)[0]| ==> !OccursAt(s, sep, i)
    decreases |s|
  {
    if |s| >= |sep| && s[..|sep|] != sep {
      var t := s[1..];
      SplitFirstPieceIsLeftmost(t, sep);
      var first := Split(s, sep)[0];
      assert first == [s[0]] + Split(t, sep)[0];
      forall i: nat | i < |first|
        ensures !OccursAt(s, sep, i)
      {
        if i > 0 && i + |sep| <= |s| {
          assert i - 1 < |Split(t, sep)[0]|;
          assert !OccursAt(t, sep, i - 1);
          SliceOfTail(s, i, |sep|);
        }
      }
    }
  }

  /** `t` holds no occurrence of `sep`. */
  predicate Avoids(t: string, sep: string) {
    forall i: nat :: i < |t| ==> !OccursAt(t, sep, i)
  }

  /** No piece of `split(sep)` contains the separator. */
  lemma {:induction false} SplitPiecesAvoidSeparator(s: string, sep: string)
    requires |sep| > 0
    ensures forall k :: 0 <= k < |Split(s, sep)| ==> Avoids(Split(s, sep)[k], sep)
    decreases |s|
  {
    var r := Split(s, sep);
    if |s| < |sep| {
      assert r == [s];
    } else if s[..|sep|] == sep {
      SplitPiecesAvoidSeparator(s[|sep|..], sep);
      assert r == [""] + Split(s[|sep|..], sep);
    } else {
      var t := s[1..];
      SplitPiecesAvoidSeparator(t, sep);
      SplitFirstPieceIsPrefix(s, sep);
      var rest := Split(t, sep);
      assert r[0] == [s[0]] + rest[0] && r[1..] == rest[1..];
      forall i: nat | i < |r[0]|
        ensures !OccursAt(r[0], sep, i)
      {
        if i + |sep| <= |r[0]| {
          if i == 0 {
            assert r[0][..|sep|] == s[..|sep|];
          } else {
            assert !OccursAt(rest[0], sep, i - 1);
            assert r[0][1..] == rest[0];
            SliceOfTail(r[0], i, |sep|);
          }
        }
      }
      forall k | 1 <= k < |r|
        ensures Avoids(r[k], sep)
      {
        assert r[k] == rest[k];
      }
    }
  }

  /** When `split(sep)` yields more than one piece, an occurrence of the
      separator follows the first piece, and the other pieces are the split
      of the text after it. */
  lemma {:induction false} SplitContinuesAfterSeparator(s: string, sep: string)
    requires |sep| > 0
    ensures var r := Split(s, sep);
      |r| > 1 ==> OccursAt(s, sep, |r[0]|) && Split(s[|r[0]| + |sep|..], sep) == r[1..]
    decreases |s|
  {
    if |s| < |sep| {
      assert Split(s, sep) == [s];
    } else if s[..|sep|] == sep {
      assert Split(s, sep) == [""] + Split(s[|sep|..], sep);
    } else {
      var t := s[1..];
      SplitContinuesAfterSeparator(t, sep);
      var rest := Split(t, sep);
      var r := Split(s, sep);
      assert |r[0]| == 1 + |rest[0]| && r[1..] == rest[1..];
      if |r| > 1 {
        var k := |rest[0]|;
        assert OccursAt(t, sep, k);
        SliceOfTail(s, k + 1, |sep|);
        assert s[|r[0]| + |sep|..] == t[k + |sep|..];
      }
    }
  }

  /** `joinToString(sep)`. */
  function Join(parts: seq<string>, sep: string): string {
    if parts == [] then ""
    else if |parts| == 1 then parts[0]
    else parts[0] + sep + Join(parts[1..], sep)
  }

  /** `List<String>.toString()`: the elements between brackets, separated
      by ", ". */
  function ListToString(data: seq<string>): (r: string)
    ensures |r| >= 2 && r[0] == '[' && r[|r| - 1] == ']'
    ensures data == [] ==> r == "[]"
  {
    "[" + Join(data, ", ") + "]"
  }

  /** Joining the pieces with the separator gives back the text. */
  lemma {:induction false} JoinSplit(s: string, sep: string)
    requires |sep| > 0
    ensures Join(Split(s, sep), sep) == s
    decreases |s|
  {
    if |s| < |sep| {
      assert Split(s, sep) == [s];
    } else if s[..|sep|] == sep {
      var t := s[|sep|..];
      var rest := Split(t, sep);
      assert Split(s, sep) == [""] + rest;
      JoinSplit(t, sep);
      assert ([""] + rest)[1..] == rest;
      assert Join([""] + rest, sep) == "" + sep + Join(rest, sep);
      assert s == s[..|sep|] + t;
    } else {
      var t := s[1..];
      var rest := Split(t, sep);
      var r := [[s[0]] + rest[0]] + rest[1..];
      assert Split(s, sep) == r;
      JoinSplit(t, sep);
      if |rest| == 1 {
        assert Join(r, sep) == [s[0]] + rest[0];
        assert Join(rest, sep) == rest[0];
      } else {
        assert r[1..] == rest[1..];
        assert Join(r, sep) == ([s[0]] + rest[0]) + sep + Join(rest[1..], sep);
        assert Join(rest, sep) == rest[0] + sep + Join(rest[1..], sep);
      }
      assert s == [s[0]] + t;
    }
  }

  /** `s.lines()`: cut at every `\r\n`, `\n` or `\r`; a trailing terminator
      leaves a last empty line. */
  function Lines(s: string): (r: seq<string>)
    ensures |r| >= 1
    decreases |s|
  {
    if s == [] then [""]
    else if s[0] == '\r' && |s| > 1 && s[1] == '\n' then [""] + Lines(s[2..])
    else if s[0] == '\n' || s[0] == '\r' then [""] + Lines(s[1..])
    else
      var rest := Lines(s[1..]);
      [[s[0]] + rest[0]] + rest[1..]
  }

  /** On text with no `\r`, `lines()` is `split("\n")`. */
  lemma {:induction false} LinesIsSplitOnNewline(s: string)
    requires forall i :: 0 <= i < |s| ==> s[i] != '\r'
    ensures Lines(s) == Split(s, "\n")
    decreases |s|
  {
    if s != [] {
      LinesIsSplitOnNewline(s[1..]);
      if s[0] == '\n' {
        assert s[..1] == "\n";
      } else {
        assert s[..1] != "\n";
      }
    }
  }
}
