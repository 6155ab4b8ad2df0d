/** Advent of Code 2022, day 1 ("Calorie Counting"), and the quickselect-style
    `findTopN` of `AdventOfCodePuzzles`.

    The puzzle text lists one calorie count per line, each elf's list separated
    from the next by a blank line. Part 1 asks for the largest elf total, part
    2 for the sum of the three largest. */
module AdventOfCode {
  import opened Wrappers
  import opened KotlinLang
  import opened KotlinCollections

  // ===========================================================================
  // Parsing: split("\n\n"), lines(), toInt(), sumOf
  // ===========================================================================

  /** `toInt()` on each line: the values, or None as soon as one line is not an
      `Int` (`toInt()` throws NumberFormatException there). */
  function ParseLines(ls: seq<string>): (r: Option<seq<int>>)
    ensures r.Some? ==> (|r.value| == |ls|
      && forall i :: 0 <= i < |ls| ==> ToIntOrNull(ls[i]) == Some(r.value[i]))
    ensures r.None? <==> exists i :: 0 <= i < |ls| && ToIntOrNull(ls[i]).None?
  {
    if ls == [] then Some([])
    else
      match ToIntOrNull(ls[0])
      case None => None
      case Some(v) =>
        match ParseLines(ls[1..])
        case None =>
          assert forall i :: 1 <= i < |ls| ==> ls[i] == ls[1..][i - 1];
          None
        case Some(vs) =>
          assert forall i :: 1 <= i < |ls| ==> ls[i] == ls[1..][i - 1];
          Some([v] + vs)
  }

  /** One elf's total: `elf.lines().sumOf { it.toInt() }`. */
  function ElfTotal(elf: string): (r: Result<int>)
    ensures r.Ok? ==> InIntRange(r.value)
    ensures r.Err? ==> r.error == NumberFormatException
  {
    match ParseLines(Lines(elf))
    case None => Err(NumberFormatException)
    case Some(vs) => Ok(IntSum(vs))
  }

  /** The totals of the given elves in order, or the first parse failure. */
  function ElfTotalsOf(elves: seq<string>): (r: Result<seq<int>>)
    ensures r.Ok? ==> (|r.value| == |elves|
      && forall i :: 0 <= i < |elves| ==> ElfTotal(elves[i]) == Ok(r.value[i]))
    ensures r.Err? <==> exists i :: 0 <= i < |elves| && ElfTotal(elves[i]).Err?
    ensures r.Err? ==> r.error == NumberFormatException
  {
    if elves == [] then Ok([])
    else
      match ElfTotal(elves[0])
      case Err(e) => Err(e)
      case Ok(t) =>
        match ElfTotalsOf(elves[1..])
        case Err(e) =>
          assert forall i :: 1 <= i < |elves| ==> elves[i] == elves[1..][i - 1];
          Err(e)
        case Ok(ts) =>
          assert forall i :: 1 <= i < |elves| ==> elves[i] == elves[1..][i - 1];
          Ok([t] + ts)
  }

  /** `text.split("\n\n").map { it.lines().sumOf { it.toInt() } }`. */
  function ElfTotals(text: string): (r: Result<seq<int>>)
    ensures r.Ok? ==> |r.value| == |Split(text, "\n\n")| >= 1
    ensures r.Err? ==> r.error == NumberFormatException
  {
    ElfTotalsOf(Split(text, "\n\n"))
  }

  /** A trailing line break leaves an empty last line, which `toInt()` rejects:
      the whole computation fails on such a text. */
  lemma TrailingNewlineFails(text: string)
    requires |text| > 0 && text[|text| - 1] == '\n'
    ensures ElfTotals(text).Err?
  {
    var elves := Split(text, "\n\n");
    var last := elves[|elves| - 1];
    JoinSplit(text, "\n\n");
    JoinEndsWithLast(elves, "\n\n");
    assert |last| > 0 ==> last[|last| - 1] == text[|text| - 1];
    LinesOfTrailingNewline(last);
    var ls := Lines(last);
    assert ToIntOrNull(ls[|ls| - 1]).None?;
    assert ElfTotal(last).Err?;
  }

  /** The joined text ends with the last piece. */
  lemma {:induction false} JoinEndsWithLast(parts: seq<string>, sep: string)
    requires |parts| > 0
    ensures var j := Join(parts, sep);
      |parts[|parts| - 1]| <= |j| && j[|j| - |parts[|parts| - 1]|..] == parts[|parts| - 1]
  {
    if |parts| > 1 {
      JoinEndsWithLast(parts[1..], sep);
      var rest := Join(parts[1..], sep);
      assert Join(parts, sep) == (parts[0] + sep) + rest;
    }
  }

  /** `lines()` of a text that ends in a line break ends with an empty line. */
  lemma {:induction false} LinesOfTrailingNewline(s: string)
    requires |s| > 0 ==> s[|s| - 1] == '\n'
    ensures Lines(s)[|Lines(s)| - 1] == ""
    ensures |s| > 0 ==> |Lines(s)| >= 2
    decreases |s|
  {
    if |s| > 0 {
      var r := Lines(s);
      if s[0] == '\r' && |s| > 1 && s[1] == '\n' {
        LinesOfTrailingNewline(s[2..]);
      } else if s[0] == '\n' || s[0] == '\r' {
        LinesOfTrailingNewline(s[1..]);
      } else {
        LinesOfTrailingNewline(s[1..]);
        var rest := Lines(s[1..]);
        assert r[|r| - 1] == rest[|rest| - 1];
      }
    }
  }

  // ===========================================================================
  // Part 1: maxOf
  // ===========================================================================

  /** `maxOf`: the largest element; NoSuchElementException on an empty list. */
  function MaxOf(s: seq<int>): (r: Result<int>)
    ensures r.Ok? <==> |s| > 0
    ensures r.Ok? ==> r.value in s && forall y :: y in s ==> y <= r.value
    ensures r.Err? ==> r.error == NoSuchElementException
  {
    if |s| == 0 then Err(NoSuchElementException)
    else if |s| == 1 then Ok(s[0])
    else
      var m := MaxOf(s[1..]).value;
      assert s == [s[0]] + s[1..];
      Ok(if s[0] > m then s[0] else m)
  }

  /** Part 1: `text.split("\n\n").maxOf { elf -> elf.lines().sumOf { it.toInt() } }`. */
  function Part1(text: string): (r: Result<int>)
    ensures r.Ok? <==> ElfTotals(text).Ok?
    ensures r.Err? ==> r.error == NumberFormatException
    ensures r.Ok? ==> r.value in ElfTotals(text).value
  {
    match ElfTotals(text)
    case Err(e) => Err(e)
    case Ok(totals) => MaxOf(totals)
  }

  /** Part 1 fails only on a line that is not an `Int`; otherwise it is the
      total of some elf and no elf carries more. */
  lemma Part1IsLargestTotal(text: string)
    ensures Part1(text).Ok? <==> ElfTotals(text).Ok?
    ensures Part1(text).Ok? ==>
      var totals := ElfTotals(text).value;
      Part1(text).value in totals && forall t :: t in totals ==> t <= Part1(text).value
  {
  }

  // ===========================================================================
  // Part 2: sortedDescending().take(3).sum()
  // ===========================================================================

  /** The sum of the three largest totals, the way part 2 computes it. */
  function TopThreeSum(totals: seq<int>): (r: int)
    ensures InIntRange(r)
  {
    IntSum(Take(SortDesc(totals), 3))
  }

  /** Part 2: `...map { ... }.sortedDescending().take(3).sum()`. */
  function Part2(text: string): (r: Result<int>)
    ensures r.Ok? <==> ElfTotals(text).Ok?
    ensures r.Err? ==> r.error == NumberFormatException
    ensures r.Ok? ==> InIntRange(r.value)
  {
    match ElfTotals(text)
    case Err(e) => Err(e)
    case Ok(totals) => Ok(TopThreeSum(totals))
  }

  /** Part 2 sums a choice of three largest totals (all of them when there are
      fewer than three). */
  lemma {:induction false} TopThreeSumIsTopThree(totals: seq<int>)
    ensures var top := TakeLast(SortAsc(totals), 3);
      IsTopN(top, totals, Min(3, |totals|)) && TopThreeSum(totals) == IntSum(top)
  {
    var top := TakeLast(SortAsc(totals), 3);
    LastOfSortedIsTopN(totals, Min(3, |totals|));
    TakeOfReverse(SortAsc(totals), 3);
    SumReverse(top);
  }

  // ---------------------------------------------------------------------------
  // The PriorityQueue loop
  // ---------------------------------------------------------------------------

  /** A value above the head is inserted behind it. */
  lemma InsertPastHead(h: int, t: seq<int>, x: int)
    requires x > h
    ensures Insert([h] + t, x) == [h] + Insert(t, x)
  {
    assert ([h] + t)[1..] == t;
  }

  /** Inserting into a concatenation whose front part lies below `x` inserts
      into the back part; otherwise it inserts into the front part. */
  lemma {:induction false} InsertIntoConcat(p: seq<int>, q: seq<int>, x: int)
    requires q != [] && x > q[0] ==> forall i :: 0 <= i < |p| ==> p[i] < x
    ensures Insert(p + q, x) ==
      if q != [] && x > q[0] then p + Insert(q, x) else Insert(p, x) + q
  {
    if p == [] {
      assert p + q == q;
      if q != [] && x <= q[0] {
        assert Insert(q, x) == [x] + q;
      }
    } else {
      var t := p[1..] + q;
      assert p + q == [p[0]] + t && p == [p[0]] + p[1..];
      InsertIntoConcat(p[1..], q, x);
      if q != [] && x > q[0] {
        InsertPastHead(p[0], t, x);
        assert [p[0]] + (p[1..] + Insert(q, x)) == p + Insert(q, x);
      } else if x > p[0] {
        InsertPastHead(p[0], t, x);
        InsertPastHead(p[0], p[1..], x);
        assert [p[0]] + (Insert(p[1..], x) + q) == Insert(p, x) + q;
      } else {
        assert Insert(p + q, x) == [x] + (p + q);
      }
    }
  }

  /** The last `k` of a concatenation whose back part has at least `k`
      elements come from the back part alone. */
  lemma TakeLastOfConcat(p: seq<int>, r: seq<int>, k: nat)
    requires k <= |r|
    ensures TakeLast(p + r, k) == TakeLast(r, k)
  {
    assert (p + r)[|p + r| - k..] == r[|r| - k..];
  }

  /** Keeping only the `k` largest before inserting loses nothing of the `k`
      largest after inserting. */
  lemma InsertKeepsLargest(s: seq<int>, x: int, k: nat)
    requires Sorted(s)
    ensures TakeLast(Insert(TakeLast(s, k), x), k) == TakeLast(Insert(s, x), k)
  {
    var q := TakeLast(s, k);
    var p := s[..|s| - |q|];
    assert s == p + q;
    if |q| < k {
      assert p == [] && q == s;
    } else if q != [] && x > q[0] {
      InsertAboveKept(s, x, k);
    } else if q != [] {
      InsertBelowKept(s, x, k);
    }
  }

  /** A value above the smallest kept one goes in among the kept ones. */
  lemma InsertAboveKept(s: seq<int>, x: int, k: nat)
    requires Sorted(s)
    requires |TakeLast(s, k)| == k && TakeLast(s, k) != [] && x > TakeLast(s, k)[0]
    ensures TakeLast(Insert(TakeLast(s, k), x), k) == TakeLast(Insert(s, x), k)
  {
    var q := TakeLast(s, k);
    var p := s[..|s| - |q|];
    assert s == p + q;
    forall i | 0 <= i < |p|
      ensures p[i] < x
    {
      assert p[i] == s[i] && q[0] == s[|p|];
    }
    InsertIntoConcat(p, q, x);
    TakeLastOfConcat(p, Insert(q, x), k);
  }

  /** A value no larger than every kept one falls out again when `k` are kept. */
  lemma InsertBelowKept(s: seq<int>, x: int, k: nat)
    requires Sorted(s)
    requires |TakeLast(s, k)| == k && TakeLast(s, k) != [] && x <= TakeLast(s, k)[0]
    ensures TakeLast(Insert(TakeLast(s, k), x), k) == TakeLast(Insert(s, x), k)
  {
    var q := TakeLast(s, k);
    var p := s[..|s| - |q|];
    assert s == p + q;
    InsertIntoConcat(p, q, x);
    TakeLastOfConcat(Insert(p, x), q, k);
    assert Insert(q, x) == [x] + q;
    TakeLastOfConcat([x], q, k);
    assert TakeLast(q, k) == q;
  }

  /** With at most one element too many, keeping the last `k` is dropping the
      first one. */
  lemma DropFirstIsTakeLast(q: seq<int>, k: nat)
    requires |q| <= k + 1
    ensures TakeLast(q, k) == if |q| > k then q[1..] else q
  {
  }

  /** Sorting one more element is inserting it into the sorted prefix. */
  lemma SortAscStep(data: seq<int>, i: nat)
    requires i < |data|
    ensures Sorted(SortAsc(data[..i]))
    ensures SortAsc(data[..i + 1]) == Insert(SortAsc(data[..i]), data[i])
  {
    assert data[..i + 1][..i] == data[..i];
  }

  /** One round of the priority-queue loop keeps the three largest totals
      seen so far: `add` inserts, and `poll` drops the smallest of four. */
  lemma PriorityQueueStep(data: seq<int>, i: nat)
    requires i < |data|
    ensures var next := Insert(TakeLast(SortAsc(data[..i]), 3), data[i]);
      (if |next| > 3 then next[1..] else next) == TakeLast(SortAsc(data[..i + 1]), 3)
  {
    SortAscStep(data, i);
    var s := SortAsc(data[..i]);
    InsertKeepsLargest(s, data[i], 3);
    var next := Insert(TakeLast(s, 3), data[i]);
    DropFirstIsTakeLast(next, 3);
  }

  /** The third loop of part 2: a `PriorityQueue<Int>` (a min-heap) to which
      every total is added, `poll()` removing its smallest element whenever it
      holds more than three; the answer is the `sum()` of what remains. The
      heap is kept as the ascending list of its elements, its poll order. */
  method TopThreeWithPriorityQueue(data: seq<int>) returns (total: int)
    ensures total == IntSum(TakeLast(SortAsc(data), 3))
  {
    var queue: seq<int> := [];
    assert data[..0] == [];
    for i := 0 to |data|
      invariant queue == TakeLast(SortAsc(data[..i]), 3)
    {
      PriorityQueueStep(data, i);
      var next := Insert(queue, data[i]);
      if |next| > 3 {
        next := next[1..];
      }
      queue := next;
    }
    assert data[..|data|] == data;
    total := IntSum(queue);
  }

  /** The priority-queue loop and the sorting pipeline give the same answer. */
  lemma PriorityQueueAgreesWithSorting(data: seq<int>)
    ensures IntSum(TakeLast(SortAsc(data), 3)) == TopThreeSum(data)
  {
    TopThreeSumIsTopThree(data);
  }

  // ---------------------------------------------------------------------------
  // The sorted-set loop
  // ---------------------------------------------------------------------------

  /** `TreeSet.add`: the element goes in at its place unless it is already there. */
  function AddDistinct(s: seq<int>, x: int): (r: seq<int>)
    requires Increasing(s)
    ensures Increasing(r)
  {
    if x in s then s
    else
      InsertIncreasing(s, x);
      Insert(s, x)
  }

  /** After `add`, the set holds what it held and the added element. */
  lemma AddDistinctMembers(s: seq<int>, x: int)
    requires Increasing(s)
    ensures forall y :: y in AddDistinct(s, x) <==> y in s || y == x
  {
    if x !in s {
      InsertPermutes(s, x);
      assert forall y :: y in Insert(s, x) <==> y in multiset(Insert(s, x));
    }
  }

  lemma {:induction false} InsertIncreasing(s: seq<int>, x: int)
    requires Increasing(s) && x !in s
    ensures Increasing(Insert(s, x))
    ensures Insert(s, x)[0] == if s == [] || x < s[0] then x else s[0]
  {
    if s != [] && x > s[0] {
      var t := Insert(s[1..], x);
      InsertIncreasing(s[1..], x);
      assert s[0] < t[0];
      assert Insert(s, x) == [s[0]] + t;
    }
  }

  /** The elements of `s` as a set, in ascending order: adding them one by one
      to an empty sorted set. */
  function SortedDistinct(s: seq<int>): (r: seq<int>)
    ensures Increasing(r)
    decreases |s|
  {
    if s == [] then []
    else AddDistinct(SortedDistinct(s[..|s| - 1]), s[|s| - 1])
  }

  /** The sorted set holds exactly the elements added to it. */
  lemma {:induction false} SortedDistinctMembers(s: seq<int>)
    ensures forall y :: y in SortedDistinct(s) <==> y in s
    decreases |s|
  {
    if s != [] {
      var init, last := s[..|s| - 1], s[|s| - 1];
      assert s == init + [last];
      assert forall y :: y in s <==> y in init || y == last;
      assert SortedDistinct(s) == AddDistinct(SortedDistinct(init), last);
      SortedDistinctMembers(init);
      AddDistinctMembers(SortedDistinct(init), last);
    }
  }

  /** Keeping only the `k` largest before adding loses nothing of the `k`
      largest after adding. */
  lemma AddDistinctKeepsLargest(s: seq<int>, x: int, k: nat)
    requires Increasing(s)
    ensures Increasing(TakeLast(s, k))
    ensures TakeLast(AddDistinct(TakeLast(s, k), x), k) == TakeLast(AddDistinct(s, x), k)
  {
    var q := TakeLast(s, k);
    var p := s[..|s| - |q|];
    assert s == p + q;
    if x !in s {
      InsertSorted(s, x);
      InsertKeepsLargest(s, x, k);
    } else if x !in q {
      AddDroppedValue(s, x, k);
    }
  }

  /** Adding a value the trimmed set already let go of leaves it as it was:
      the value is below everything kept. */
  lemma AddDroppedValue(s: seq<int>, x: int, k: nat)
    requires Increasing(s) && Increasing(TakeLast(s, k))
    requires x in s && x !in TakeLast(s, k)
    ensures TakeLast(AddDistinct(TakeLast(s, k), x), k) == TakeLast(s, k)
  {
    var q := TakeLast(s, k);
    var n := |s| - |q|;
    assert q == s[n..];
    assert s == s[..n] + q;
    var i :| 0 <= i < n && s[i] == x;
    assert |q| == k;
    if q != [] {
      assert s[i] < s[n] && q[0] == s[n];
      assert AddDistinct(q, x) == [x] + q;
      assert TakeLast([x] + q, k) == q;
    }
  }

  /** The second loop of part 2: a `sortedSetOf<Int>()` into which every total
      is added, its first (smallest) element being removed whenever it holds
      more than three; the answer is the `sum()` of what remains. The set is
      kept as the ascending list of its elements, its iteration order. */
  method TopThreeWithSortedSet(data: seq<int>) returns (total: int)
    ensures total == IntSum(TakeLast(SortedDistinct(data), 3))
  {
    var sortedSet: seq<int> := [];
    assert data[..0] == [] && SortedDistinct(data[..0]) == [];
    for i := 0 to |data|
      invariant sortedSet == TakeLast(SortedDistinct(data[..i]), 3)
    {
      SortedSetStep(data, i);
      var next := AddDistinct(sortedSet, data[i]);
      if |next| > 3 {
        next := next[1..];
      }
      sortedSet := next;
    }
    assert data[..|data|] == data && SortedDistinct(data[..|data|]) == SortedDistinct(data);
    total := IntSum(sortedSet);
  }

  /** One round of the sorted-set loop keeps the three largest distinct
      totals seen so far. */
  lemma SortedSetStep(data: seq<int>, i: nat)
    requires i < |data|
    ensures Increasing(TakeLast(SortedDistinct(data[..i]), 3))
    ensures var next := AddDistinct(TakeLast(SortedDistinct(data[..i]), 3), data[i]);
      (if |next| > 3 then next[1..] else next) == TakeLast(SortedDistinct(data[..i + 1]), 3)
  {
    assert data[..i + 1][..i] == data[..i];
    var before := SortedDistinct(data[..i]);
    AddDistinctKeepsLargest(before, data[i], 3);
    var next := AddDistinct(TakeLast(before, 3), data[i]);
    DropFirstIsTakeLast(next, 3);
  }

  /** With pairwise different totals the sorted set holds what the sorted list
      holds, so the two loops agree. */
  lemma {:induction false} SortedDistinctOfDistinct(s: seq<int>)
    requires NoDuplicates(s)
    ensures SortedDistinct(s) == SortAsc(s)
    decreases |s|
  {
    if s != [] {
      var init := s[..|s| - 1];
      var x := s[|s| - 1];
      SortedDistinctOfDistinct(init);
      assert x !in init by {
        forall j | 0 <= j < |init|
          ensures init[j] != x
        {
          assert init[j] == s[j];
        }
      }
      SortedDistinctMembers(init);
      assert x !in SortedDistinct(init);
    }
  }

  /** With a repeated total the sorted set keeps it once, so the sorted-set
      loop can answer less than part 2: two elves carrying 5 each give 5
      instead of 10. */
  lemma SortedSetLoopDropsTies()
    ensures IntSum(TakeLast(SortedDistinct([5, 5]), 3)) == 5
    ensures TopThreeSum([5, 5]) == 10
  {
    assert [5, 5][..1] == [5] && [5][..0] == [];
    assert SortedDistinct([5, 5]) == [5];
    assert SortAsc([5, 5]) == [5, 5] by {
      assert Insert([5], 5) == [5, 5];
    }
    var r := Reverse([5, 5]);
    assert |r| == 2 && r[0] == 5 && r[1] == 5;
    assert Take(r, 3) == [5, 5];
    assert Sum([5, 5]) == 10;
  }

  // ---------------------------------------------------------------------------
  // findTopN: quickselect around a random pivot
  // ---------------------------------------------------------------------------

  function GreaterThan(x: int): int -> bool {
    y => y > x
  }

  function EqualTo(x: int): int -> bool {
    y => y == x
  }

  function LessThan(x: int): int -> bool {
    y => y < x
  }

  /** `gt`: the elements above the pivot, in list order. */
  function Above(xs: seq<int>, x: int): (r: seq<int>)
    ensures forall y :: y in r ==> y > x
  {
    FilterMembers(xs, GreaterThan(x));
    Filter(xs, GreaterThan(x))
  }

  /** `eq`: the copies of the pivot. */
  function Same(xs: seq<int>, x: int): (r: seq<int>)
    ensures forall y :: y in r ==> y == x
  {
    FilterMembers(xs, EqualTo(x));
    Filter(xs, EqualTo(x))
  }

  /** `lt`: the elements below the pivot, in list order. */
  function Below(xs: seq<int>, x: int): (r: seq<int>)
    ensures forall y :: y in r ==> y < x
  {
    FilterMembers(xs, LessThan(x));
    Filter(xs, LessThan(x))
  }

  /** `gt`, `eq` and `lt` share out the list: every element lands in exactly
      one of them. */
  lemma PartitionAround(xs: seq<int>, x: int)
    ensures multiset(xs) == multiset(Above(xs, x)) + multiset(Same(xs, x)) + multiset(Below(xs, x))
  {
    var gt, eq, lt := Above(xs, x), Same(xs, x), Below(xs, x);
    FilterCounts(xs, GreaterThan(x));
    FilterCounts(xs, EqualTo(x));
    FilterCounts(xs, LessThan(x));
    forall y
      ensures multiset(xs)[y] == multiset(gt)[y] + multiset(eq)[y] + multiset(lt)[y]
    {
      assert multiset(gt)[y] == if y > x then multiset(xs)[y] else 0;
      assert multiset(eq)[y] == if y == x then multiset(xs)[y] else 0;
      assert multiset(lt)[y] == if y < x then multiset(xs)[y] else 0;
    }
  }

  /** When the pivot comes from the list, `eq` holds it, so `gt` and `lt` are
      strictly shorter than the list: the recursion terminates. */
  lemma PartitionShrinks(xs: seq<int>, x: int)
    requires x in xs
    ensures x in Same(xs, x)
    ensures |Above(xs, x)| + |Same(xs, x)| + |Below(xs, x)| == |xs|
    ensures |Above(xs, x)| < |xs| && |Below(xs, x)| < |xs|
  {
    PartitionAround(xs, x);
    var gt, eq, lt := Above(xs, x), Same(xs, x), Below(xs, x);
    FilterMembers(xs, EqualTo(x));
    assert |multiset(xs)| == |multiset(gt)| + |multiset(eq)| + |multiset(lt)|;
    assert |eq| > 0;
  }

  /** `elements.random()`: the pivot is any element of the list, the one the
      oracle `pick` names (the first element should it name none). */
  function Pivot(xs: seq<int>, pick: seq<int> -> int): (x: int)
    requires |xs| > 0
    ensures x in xs
  {
    if pick(xs) in xs then pick(xs) else xs[0]
  }

  /** `findTopN` as written: it returns the list itself when it has exactly
      `n` elements and otherwise recurses into `gt` or `lt`; the `eq` branch
      keeps `takeLast(3)` whatever `n` is. It returns exactly when
      `0 <= n <= size`; otherwise it ends up calling `random()` on an empty
      list. */
  function FindTopN(n: int, xs: seq<int>, pick: seq<int> -> int): (r: Result<seq<int>>)
    ensures |xs| == n ==> r == Ok(xs)
    ensures r.Ok? <==> 0 <= n <= |xs|
    ensures r.Ok? ==> multiset(r.value) <= multiset(xs)
    ensures r.Err? ==> r.error == NoSuchElementException
    decreases |xs|
  {
    if |xs| == n then Ok(xs)
    else if |xs| == 0 then Err(NoSuchElementException)
    else
      var x := Pivot(xs, pick);
      var gt, eq, lt := Above(xs, x), Same(xs, x), Below(xs, x);
      PartitionShrinks(xs, x);
      PartitionAround(xs, x);
      if |gt| >= n then FindTopN(n, gt, pick)
      else if |gt| + |eq| >= n then
        TakeLastKeepsMultiset(eq + gt, 3);
        Ok(TakeLast(eq + gt, 3))
      else
        var rest := FindTopN(n - |gt| - |eq|, lt, pick);
        if rest.Err? then rest else Ok(rest.value + gt + eq)
  }

  /** A choice of largest elements of the upper part of a list is one of the
      whole list. */
  lemma TopNOfUpperPart(r: seq<int>, xs: seq<int>, hi: seq<int>, lo: seq<int>, n: nat)
    requires multiset(xs) == multiset(hi) + multiset(lo)
    requires forall a, b :: a in hi && b in lo ==> a >= b
    requires IsTopN(r, hi, n)
    ensures IsTopN(r, xs, n)
  {
    assert multiset(xs) - multiset(r) == (multiset(hi) - multiset(r)) + multiset(lo);
    forall a, b | a in multiset(r) && b in multiset(xs) - multiset(r)
      ensures a >= b
    {
      if b !in multiset(hi) - multiset(r) {
        assert a in hi && b in lo;
      }
    }
  }

  /** A choice of largest elements of the lower part, together with the whole
      upper part, is a choice of largest elements of the whole list. */
  lemma TopNWithUpperPart(r: seq<int>, xs: seq<int>, hi: seq<int>, lo: seq<int>, n: nat)
    requires multiset(xs) == multiset(hi) + multiset(lo)
    requires forall a, b :: a in hi && b in lo ==> a >= b
    requires IsTopN(r, lo, n)
    ensures IsTopN(r + hi, xs, n + |hi|)
  {
    assert multiset(r + hi) == multiset(r) + multiset(hi);
    assert multiset(xs) - multiset(r + hi) == multiset(lo) - multiset(r);
    forall a, b | a in multiset(r + hi) && b in multiset(xs) - multiset(r + hi)
      ensures a >= b
    {
      assert b in multiset(lo) - multiset(r);
      if a !in multiset(r) {
        assert a in hi && b in lo;
      }
    }
  }

  /** The `gt` branch: `n` largest of `gt` are `n` largest of the list. */
  lemma AboveBranchIsTopN(xs: seq<int>, x: int, r: seq<int>, n: nat)
    requires IsTopN(r, Above(xs, x), n)
    ensures IsTopN(r, xs, n)
  {
    var gt, eq, lt := Above(xs, x), Same(xs, x), Below(xs, x);
    PartitionAround(xs, x);
    assert multiset(xs) == multiset(gt) + multiset(eq + lt);
    TopNOfUpperPart(r, xs, gt, eq + lt, n);
  }

  /** The last branch: `m` largest of `lt`, followed by `gt` and `eq`, are the
      `m + |gt| + |eq|` largest of the list. */
  lemma BelowBranchIsTopN(xs: seq<int>, x: int, rest: seq<int>, m: nat)
    requires IsTopN(rest, Below(xs, x), m)
    ensures IsTopN(rest + Above(xs, x) + Same(xs, x), xs, m + |Above(xs, x)| + |Same(xs, x)|)
  {
    var gt, eq, lt := Above(xs, x), Same(xs, x), Below(xs, x);
    PartitionAround(xs, x);
    assert multiset(xs) == multiset(gt + eq) + multiset(lt);
    TopNWithUpperPart(rest, xs, gt + eq, lt, m);
    assert rest + gt + eq == rest + (gt + eq);
  }

  /** Copies of the pivot taken from `eq` are among the largest of `eq + lt`. */
  lemma PivotCopiesAreTopN(xs: seq<int>, x: int, m: nat)
    requires m <= |Same(xs, x)|
    ensures IsTopN(TakeLast(Same(xs, x), m), Same(xs, x) + Below(xs, x), m)
  {
    var eq, lt := Same(xs, x), Below(xs, x);
    var t := TakeLast(eq, m);
    TakeLastKeepsMultiset(eq, m);
    assert multiset(eq + lt) == multiset(eq) + multiset(lt);
    forall a, b | a in multiset(t) && b in multiset(eq + lt) - multiset(t)
      ensures a >= b
    {
      assert a in eq;
      assert b in eq + lt;
    }
  }

  /** The `eq` branch with `takeLast(n)`: some copies of the pivot and all of
      `gt` are a choice of `n` largest elements. */
  lemma SameThenAboveIsTopN(xs: seq<int>, x: int, n: nat)
    requires |Above(xs, x)| < n <= |Above(xs, x)| + |Same(xs, x)|
    ensures IsTopN(TakeLast(Same(xs, x) + Above(xs, x), n), xs, n)
  {
    var gt, eq, lt := Above(xs, x), Same(xs, x), Below(xs, x);
    var m := n - |gt|;
    assert TakeLast(eq + gt, n) == TakeLast(eq, m) + gt;
    PivotCopiesAreTopN(xs, x, m);
    PartitionAround(xs, x);
    assert multiset(xs) == multiset(gt) + multiset(eq + lt);
    TopNWithUpperPart(TakeLast(eq, m), xs, gt, eq + lt, m);
  }

  /** `findTopN` with `takeLast(n)` in the `eq` branch: it returns exactly
      when `0 <= n <= size`, and then a choice of `n` largest elements. */
  function FindTopNFixed(n: int, xs: seq<int>, pick: seq<int> -> int): (r: Result<seq<int>>)
    ensures r.Ok? <==> 0 <= n <= |xs|
    ensures r.Ok? ==> IsTopN(r.value, xs, n)
    ensures r.Err? ==> r.error == NoSuchElementException
    decreases |xs|
  {
    if |xs| == n then
      assert multiset(xs) - multiset(xs) == multiset{};
      Ok(xs)
    else if |xs| == 0 then Err(NoSuchElementException)
    else
      var x := Pivot(xs, pick);
      var gt, eq, lt := Above(xs, x), Same(xs, x), Below(xs, x);
      PartitionShrinks(xs, x);
      if |gt| >= n then
        var r := FindTopNFixed(n, gt, pick);
        if r.Ok? then AboveBranchIsTopN(xs, x, r.value, n); r else r
      else if |gt| + |eq| >= n then
        SameThenAboveIsTopN(xs, x, n);
        Ok(TakeLast(eq + gt, n))
      else
        var rest := FindTopNFixed(n - |gt| - |eq|, lt, pick);
        if rest.Err? then rest
        else
          BelowBranchIsTopN(xs, x, rest.value, n - |gt| - |eq|);
          Ok(rest.value + gt + eq)
  }

  ghost predicate Distinct(xs: seq<int>) {
    forall y :: multiset(xs)[y] <= 1
  }

  /** Without repeated values, `gt` and `lt` have none either, and `eq` is
      the pivot alone. */
  lemma DistinctParts(xs: seq<int>, x: int)
    requires x in xs
    ensures Distinct(xs) ==> Distinct(Above(xs, x)) && Distinct(Below(xs, x))
    ensures Distinct(xs) ==> |Same(xs, x)| == 1
  {
    if Distinct(xs) {
      PartitionAround(xs, x);
      PartitionShrinks(xs, x);
      var eq := Same(xs, x);
      FilterCounts(xs, GreaterThan(x));
      FilterCounts(xs, EqualTo(x));
      FilterCounts(xs, LessThan(x));
      assert forall y :: y != x ==> multiset(eq)[y] == 0;
      assert multiset(eq) == multiset{x};
    }
  }

  /** In the `gt` branch both versions recurse into `gt`. */
  lemma AgreeAbove(n: int, xs: seq<int>, pick: seq<int> -> int)
    requires |xs| != n && |xs| != 0
    requires |Above(xs, Pivot(xs, pick))| >= n
    requires FindTopN(n, Above(xs, Pivot(xs, pick)), pick) == FindTopNFixed(n, Above(xs, Pivot(xs, pick)), pick)
    ensures FindTopN(n, xs, pick) == FindTopNFixed(n, xs, pick)
  {
  }

  /** In the `eq` branch the two versions agree when `eq` is the pivot alone
      and `eq + gt` has at most three elements. */
  lemma AgreeSame(n: int, xs: seq<int>, pick: seq<int> -> int)
    requires |xs| != n && |xs| != 0
    requires |Same(xs, Pivot(xs, pick))| == 1
    requires |Above(xs, Pivot(xs, pick))| < n <= |Above(xs, Pivot(xs, pick))| + 1 <= 3
    ensures FindTopN(n, xs, pick) == FindTopNFixed(n, xs, pick)
  {
    var eqgt := Same(xs, Pivot(xs, pick)) + Above(xs, Pivot(xs, pick));
    assert TakeLast(eqgt, 3) == eqgt == TakeLast(eqgt, n);
  }

  /** In the last branch both versions append `gt` and `eq` to the same
      recursive result. */
  lemma AgreeBelow(n: int, xs: seq<int>, pick: seq<int> -> int)
    requires |xs| != n && |xs| != 0
    requires |Above(xs, Pivot(xs, pick))| + |Same(xs, Pivot(xs, pick))| < n
    requires var x := Pivot(xs, pick);
      var m := n - |Above(xs, x)| - |Same(xs, x)|;
      FindTopN(m, Below(xs, x), pick) == FindTopNFixed(m, Below(xs, x), pick)
    ensures FindTopN(n, xs, pick) == FindTopNFixed(n, xs, pick)
  {
  }

  /** On a list without repeated values and for `n <= 3`, `eq` is the pivot
      alone, so `takeLast(3)` keeps all of `eq + gt` just as `takeLast(n)`
      does: the code as written and the corrected code agree. */
  lemma {:induction false} FindTopNDistinct(n: int, xs: seq<int>, pick: seq<int> -> int)
    requires Distinct(xs) && n <= 3
    ensures FindTopN(n, xs, pick) == FindTopNFixed(n, xs, pick)
    decreases |xs|
  {
    if |xs| != n && |xs| != 0 {
      var x := Pivot(xs, pick);
      var gt, eq, lt := Above(xs, x), Same(xs, x), Below(xs, x);
      PartitionShrinks(xs, x);
      DistinctParts(xs, x);
      if |gt| >= n {
        FindTopNDistinct(n, gt, pick);
        AgreeAbove(n, xs, pick);
      } else if |gt| + |eq| >= n {
        AgreeSame(n, xs, pick);
      } else {
        FindTopNDistinct(n - |gt| - |eq|, lt, pick);
        AgreeBelow(n, xs, pick);
      }
    }
  }

  /** With a repeated value the `eq` branch keeps too many: asked for the one
      largest of `[5, 5]`, `findTopN` returns both, whatever the pivot. */
  lemma FindTopNKeepsTooMany(pick: seq<int> -> int)
    ensures FindTopN(1, [5, 5], pick) == Ok([5, 5])
    ensures FindTopNFixed(1, [5, 5], pick) == Ok([5])
  {
    var xs := [5, 5];
    var x := Pivot(xs, pick);
    assert x == 5;
    PartitionShrinks(xs, x);
    var eq := Same(xs, x);
    assert Above(xs, x) == [];
    assert Below(xs, x) == [];
    assert eq == [5, 5] by {
      assert |eq| == 2;
      assert eq[0] in eq && eq[1] in eq;
    }
    assert TakeLast(eq + [], 3) == [5, 5];
    assert TakeLast(eq + [], 1) == [5];
    assert FindTopN(1, xs, pick) == Ok(TakeLast(eq + Above(xs, x), 3));
    assert FindTopNFixed(1, xs, pick) == Ok(TakeLast(eq + Above(xs, x), 1));
  }
}
