/** `primeNumbersWithPipeline`: a prime sieve built from chained lazy
    iterators. The first iterator yields 2 until 1000; each of ten rounds
    takes the head of the current iterator, prints it, and replaces the
    iterator by one that yields the rest of it without the multiples of the
    head. An iterator is modelled by the finite sequence of values it would
    still yield. */
module PrimeSieve {
  import opened Wrappers
  import opened KotlinLang
  import opened KotlinCollections

  /** The exclusive upper end of `2 until 1000`. */
  const LIMIT: int := 1000
  /** `repeat(10)`. */
  const ROUNDS: nat := 10
  const FIRST_TEN_PRIMES: seq<int> := [2, 3, 5, 7, 11, 13, 17, 19, 23, 29]

  /** The values the current iterator will still yield, and the lines
      printed so far. */
  datatype Sieve = Sieve(stream: seq<int>, printed: seq<int>)

  predicate Divides(d: int, x: int) {
    d != 0 && x % d == 0
  }

  ghost predicate IsPrime(n: int) {
    n >= 2 && forall d :: 2 <= d < n ==> !Divides(d, n)
  }

  /** `x` is a multiple of no printed value. */
  ghost predicate Survives(x: int, printed: seq<int>) {
    forall i :: 0 <= i < |printed| ==> !Divides(printed[i], x)
  }

  /** The least value the current iterator can still yield: 2 at the start,
      and after each round one more than the value just printed. */
  function Lowest(printed: seq<int>): int {
    if printed == [] then 2 else printed[|printed| - 1] + 1
  }

  // ---------------------------------------------------------------------------
  // The operations
  // ---------------------------------------------------------------------------

  /** The first iterator, `(2 until 1000).forEach { yield(it) }`. */
  function InitialStream(): seq<int> {
    RangeClosed(2, LIMIT - 1)
  }

  /** The filter of a chained iterator, `next % value != 0`. */
  function NotMultipleOf(value: int): int -> bool
    requires value != 0
  {
    next => next % value != 0
  }

  /** One round of `repeat(10)`: on an exhausted iterator nothing happens;
      otherwise the head is printed and the iterator becomes the rest of it
      without the head's multiples. Kotlin would throw on a zero head, which
      is why a head must not be zero. */
  function SieveRound(s: Sieve): (r: Sieve)
    requires s.stream != [] ==> s.stream[0] != 0
    ensures |r.printed| == |s.printed| + (if s.stream == [] then 0 else 1)
    ensures r.printed[..|s.printed|] == s.printed
    ensures s.stream != [] ==> |r.stream| < |s.stream|
  {
    if s.stream == [] then s
    else
      var value := s.stream[0];
      Sieve(Filter(s.stream[1..], NotMultipleOf(value)), s.printed + [value])
  }

  /** A round on a non-empty stream prints its head and keeps, of the rest,
      exactly the values the head does not divide. */
  lemma SieveRoundMembers(s: Sieve)
    requires s.stream != [] && s.stream[0] != 0
    ensures SieveRound(s).printed == s.printed + [s.stream[0]]
    ensures forall x :: x in SieveRound(s).stream <==> x in s.stream[1..] && !Divides(s.stream[0], x)
  {
    FilterMembers(s.stream[1..], NotMultipleOf(s.stream[0]));
  }

  /** The state of the sieve after `k` rounds. */
  ghost function Rounds(k: nat): (r: Sieve)
    ensures forall x :: x in r.stream ==> x >= 2
  {
    if k == 0 then
      var r := Sieve(InitialStream(), []);
      assert forall i :: 0 <= i < |r.stream| ==> r.stream[i] == i + 2;
      r
    else
      var prev := Rounds(k - 1);
      if prev.stream == [] then prev
      else
        assert prev.stream[0] in prev.stream;
        assert forall x :: x in prev.stream[1..] ==> x in prev.stream;
        SieveRoundMembers(prev);
        SieveRound(prev)
  }

  lemma RoundsNext(k: nat)
    ensures Rounds(k).stream == [] ==> Rounds(k + 1) == Rounds(k)
    ensures Rounds(k).stream != [] ==>
      Rounds(k).stream[0] in Rounds(k).stream && Rounds(k + 1) == SieveRound(Rounds(k))
  {
  }

  /** `println("prime value $value")`. */
  function PrimeLine(value: int): string {
    "prime value " + IntToString(value)
  }

  /** A printed line starts with "prime value ", and the number after that
      prefix reads back as the value printed. */
  lemma PrimeLineReadsBack(value: int)
    requires InIntRange(value)
    ensures |PrimeLine(value)| > 12 && PrimeLine(value)[..12] == "prime value "
    ensures ToIntOrNull(PrimeLine(value)[12..]) == Some(value)
  {
    assert PrimeLine(value)[12..] == IntToString(value);
    ToIntOrNullInverts(value);
  }

  /** `primeNumbersWithPipeline`: the values it prints, and the lines
      themselves. */
  method PrimeNumbersWithPipeline() returns (printed: seq<int>, lines: seq<string>)
    ensures printed == Rounds(ROUNDS).printed
    ensures printed == FIRST_TEN_PRIMES
    ensures |lines| == |printed| && forall i :: 0 <= i < |printed| ==> lines[i] == PrimeLine(printed[i])
  {
    printed, lines := RepeatRounds();
    TenRoundsPrintTenPrimes();
  }

  /** The `repeat(10)` loop over the chain of iterators, starting from
      `2 until 1000`. */
  method RepeatRounds() returns (printed: seq<int>, lines: seq<string>)
    ensures printed == Rounds(ROUNDS).printed
    ensures |lines| == |printed| && forall i :: 0 <= i < |printed| ==> lines[i] == PrimeLine(printed[i])
  {
    var values := InitialStream();
    printed := [];
    lines := [];
    var round := 0;
    while round < ROUNDS
      invariant 0 <= round <= ROUNDS
      invariant Sieve(values, printed) == Rounds(round)
      invariant |lines| == |printed| && forall i :: 0 <= i < |printed| ==> lines[i] == PrimeLine(printed[i])
    {
      if values != [] {
        var value := values[0];
        assert value in values;
        printed := printed + [value];
        lines := lines + [PrimeLine(value)];
        var preIterator := values;
        values := Filter(preIterator[1..], NotMultipleOf(value));
      }
      RoundsNext(round);
      round := round + 1;
    }
  }

  // ---------------------------------------------------------------------------
  // The invariant of the sieve
  // ---------------------------------------------------------------------------

  /** The stream holds exactly the numbers from `Lowest` below `LIMIT` that
      no printed value divides. */
  ghost predicate StreamIsSurvivors(s: Sieve) {
    forall x :: x in s.stream <==> Lowest(s.printed) <= x < LIMIT && Survives(x, s.printed)
  }

  /** The printed values are strictly increasing primes. */
  ghost predicate PrintedArePrimes(printed: seq<int>) {
    Increasing(printed) && forall i :: 0 <= i < |printed| ==> IsPrime(printed[i])
  }

  /** Every number from 2 up to `Lowest` that was not printed is a multiple
      of a printed value. */
  ghost predicate BelowLowestSieved(printed: seq<int>) {
    forall x :: 2 <= x < Lowest(printed) && x !in printed ==> !Survives(x, printed)
  }

  /** What holds of the sieve between rounds. */
  ghost predicate SieveState(s: Sieve) {
    && Increasing(s.stream)
    && StreamIsSurvivors(s)
    && PrintedArePrimes(s.printed)
    && BelowLowestSieved(s.printed)
  }

  /** The iterator `2 until 1000` yields 2..999 in increasing order. */
  lemma InitialStreamIsRange()
    ensures Increasing(InitialStream())
    ensures forall x :: x in InitialStream() <==> 2 <= x < LIMIT
  {
    var r := InitialStream();
    forall x | 2 <= x < LIMIT
      ensures x in r
    {
      assert r[x - 2] == x;
    }
  }

  lemma InitialState()
    ensures SieveState(Sieve(InitialStream(), []))
  {
    InitialStreamIsRange();
  }

  lemma MultipleDivides(a: int, q: int)
    requires a > 0
    ensures Divides(a, a * q)
  {
  }

  /** A positive number is no multiple of a larger one. */
  lemma LargerDoesNotDivide(d: int, n: int)
    requires 0 < n < d
    ensures !Divides(d, n)
  {
  }

  lemma DividesTrans(a: int, b: int, c: int)
    requires a > 0 && b > 0
    ensures Divides(a, b) && Divides(b, c) ==> Divides(a, c)
  {
    var k, m := b / a, c / b;
    assert b == a * k + b % a;
    assert c == b * m + c % b;
    MultipleDivides(a, k * m);
    assert a * k * m == a * (k * m);
  }

  lemma SurvivesAppend(x: int, printed: seq<int>, head: int)
    ensures Survives(x, printed + [head]) <==> Survives(x, printed) && !Divides(head, x)
  {
    var printed' := printed + [head];
    assert forall i :: 0 <= i < |printed| ==> printed'[i] == printed[i];
    assert printed'[|printed|] == head;
  }

  /** The facts about the head of a non-empty stream every step uses. */
  lemma HeadFacts(s: Sieve)
    requires Increasing(s.stream) && StreamIsSurvivors(s) && PrintedArePrimes(s.printed)
    requires s.stream != []
    ensures Lowest(s.printed) >= 2
    ensures Lowest(s.printed) <= s.stream[0] < LIMIT && Survives(s.stream[0], s.printed)
    ensures forall x :: x in s.stream ==> s.stream[0] <= x
  {
    assert s.stream[0] in s.stream;
    if s.printed != [] {
      assert IsPrime(s.printed[|s.printed| - 1]);
    }
  }

  /** After a round the stream is still increasing and holds the numbers
      above the printed head that no printed value divides. */
  lemma StepKeepsStream(s: Sieve)
    requires Increasing(s.stream) && StreamIsSurvivors(s) && PrintedArePrimes(s.printed)
    requires s.stream != []
    ensures s.stream[0] != 0
    ensures Increasing(SieveRound(s).stream) && StreamIsSurvivors(SieveRound(s))
  {
    HeadFacts(s);
    var head := s.stream[0];
    var tail := s.stream[1..];
    assert Increasing(tail);
    forall x | x in s.stream && x > head
      ensures x in tail
    {
      var i :| 0 <= i < |s.stream| && s.stream[i] == x;
      assert tail[i - 1] == x;
    }
    FilterKeepsIncreasing(tail, NotMultipleOf(head));
    SieveRoundMembers(s);
    forall x {
      SurvivesAppend(x, s.printed, head);
    }
  }

  /** The head of the stream is prime: a divisor below it would be printed
      or a multiple of a printed value, and no printed value divides the
      head. */
  lemma HeadIsPrime(s: Sieve)
    requires SieveState(s) && s.stream != []
    ensures IsPrime(s.stream[0])
  {
    HeadFacts(s);
    var head, printed := s.stream[0], s.printed;
    forall d | 2 <= d < head
      ensures !Divides(d, head)
    {
      if d in printed {
        var i :| 0 <= i < |printed| && printed[i] == d;
      } else {
        assert d !in s.stream;
        var i :| 0 <= i < |printed| && Divides(printed[i], d);
        assert IsPrime(printed[i]);
        DividesTrans(printed[i], d, head);
      }
    }
  }

  /** A round preserves the invariant and prints the head of the stream. */
  lemma SieveStep(s: Sieve)
    requires SieveState(s) && s.stream != []
    ensures s.stream[0] != 0
    ensures SieveState(SieveRound(s))
  {
    HeadFacts(s);
    StepKeepsStream(s);
    HeadIsPrime(s);
    var head, printed := s.stream[0], s.printed;
    var printed' := printed + [head];
    SieveRoundMembers(s);
    assert PrintedArePrimes(printed') by {
      assert forall i :: 0 <= i < |printed| ==> printed'[i] == printed[i];
      if printed != [] {
        assert printed[|printed| - 1] < head;
      }
    }
    forall x | 2 <= x < Lowest(printed') && x !in printed'
      ensures !Survives(x, printed')
    {
      SurvivesAppend(x, printed, head);
      if x >= Lowest(printed) {
        assert x !in s.stream;
      }
    }
  }

  /** Every round keeps the invariant. */
  lemma {:induction false} RoundsKeepState(k: nat)
    ensures SieveState(Rounds(k))
  {
    if k == 0 {
      InitialState();
    } else {
      RoundsKeepState(k - 1);
      if Rounds(k - 1).stream != [] {
        SieveStep(Rounds(k - 1));
      }
    }
  }

  // ---------------------------------------------------------------------------
  // What the sieve prints
  // ---------------------------------------------------------------------------

  /** Below the next value the stream can yield, the printed values are
      exactly the primes. */
  lemma SievePrintsThePrimes(s: Sieve)
    requires SieveState(s)
    ensures forall n :: 2 <= n < Lowest(s.printed) ==> (n in s.printed <==> IsPrime(n))
  {
    forall n | 2 <= n < Lowest(s.printed) && IsPrime(n)
      ensures n in s.printed
    {
      forall i | 0 <= i < |s.printed| && s.printed[i] > n {
        LargerDoesNotDivide(s.printed[i], n);
      }
      assert Survives(n, s.printed) || n in s.printed;
    }
  }

  /** No printed value is a multiple of an earlier one. */
  lemma PrintedNotMultiplesOfEarlier(s: Sieve)
    requires SieveState(s)
    ensures forall i, j :: 0 <= i < j < |s.printed| ==> !Divides(s.printed[i], s.printed[j])
  {
    forall i, j | 0 <= i < j < |s.printed|
      ensures !Divides(s.printed[i], s.printed[j])
    {
      assert IsPrime(s.printed[i]) && IsPrime(s.printed[j]);
    }
  }

  /** A round on an exhausted iterator prints nothing and changes nothing. */
  lemma ExhaustedRoundChangesNothing(s: Sieve)
    requires s.stream == []
    ensures SieveRound(s) == s
  {
  }

  /** Each number in a gap between two of the first ten primes is a
      multiple of 2, 3 or 5, which are printed before the gap is reached. */
  lemma GapsAreSieved(j: nat, x: int)
    requires j < |FIRST_TEN_PRIMES|
    ensures Lowest(FIRST_TEN_PRIMES[..j]) <= x < FIRST_TEN_PRIMES[j] ==> !Survives(x, FIRST_TEN_PRIMES[..j])
  {
    var printed := FIRST_TEN_PRIMES[..j];
    if 2 <= j && FIRST_TEN_PRIMES[j - 1] < x < FIRST_TEN_PRIMES[j] {
      assert printed[0] == 2 && printed[1] == 3;
      if j == 9 {
        assert printed[2] == 5;
      }
    }
  }

  /** None of the first ten primes is a multiple of an earlier one. */
  lemma FirstPrimesSurvive(j: nat)
    requires j < |FIRST_TEN_PRIMES|
    ensures Survives(FIRST_TEN_PRIMES[j], FIRST_TEN_PRIMES[..j])
  {
  }

  /** Once the first `j` primes are printed, the stream starts with the
      next one. */
  lemma NextPrimeIsHead(s: Sieve, j: nat)
    requires SieveState(s)
    requires j < |FIRST_TEN_PRIMES| && s.printed == FIRST_TEN_PRIMES[..j]
    ensures s.stream != [] && s.stream[0] == FIRST_TEN_PRIMES[j]
  {
    var p := FIRST_TEN_PRIMES[j];
    FirstPrimesSurvive(j);
    assert Lowest(s.printed) <= p by {
      if j > 0 {
        assert s.printed[j - 1] == FIRST_TEN_PRIMES[j - 1];
      }
    }
    assert p in s.stream;
    HeadFacts(s);
    GapsAreSieved(j, s.stream[0]);
  }

  /** Round `k` prints the `k`-th prime, so the ten rounds print 2 through 29
      and the stream is never exhausted on the way. */
  lemma {:induction false} RoundsPrintFirstPrimes(k: nat)
    requires k <= ROUNDS
    ensures Rounds(k).printed == FIRST_TEN_PRIMES[..k]
  {
    if k > 0 {
      RoundsPrintFirstPrimes(k - 1);
      RoundsKeepState(k - 1);
      NextPrimeIsHead(Rounds(k - 1), k - 1);
      PrefixGrows(FIRST_TEN_PRIMES, k);
    }
  }

  /** Stated over any sequence so that the ten-value table is not unfolded
      at the call. */
  lemma PrefixGrows(s: seq<int>, k: nat)
    requires 0 < k <= |s|
    ensures s[..k - 1] + [s[k - 1]] == s[..k]
  {
  }

  /** The ten rounds print the ten values of the table. */
  lemma TenRoundsPrintTenPrimes()
    ensures Rounds(ROUNDS).printed == FIRST_TEN_PRIMES
  {
    RoundsPrintFirstPrimes(ROUNDS);
    assert FIRST_TEN_PRIMES[..ROUNDS] == FIRST_TEN_PRIMES;
  }

  /** The ten printed values are the first ten primes. */
  lemma PipelinePrintsFirstTenPrimes()
    ensures Rounds(ROUNDS).printed == FIRST_TEN_PRIMES
    ensures forall n :: 2 <= n < 30 ==> (n in FIRST_TEN_PRIMES <==> IsPrime(n))
  {
    TenRoundsPrintTenPrimes();
    RoundsKeepState(ROUNDS);
    SievePrintsThePrimes(Rounds(ROUNDS));
  }
}
