/** The loops of the beginner control-flow notes: the `while` and `do-while`
    cake counters, the pizza counter, and Fizz buzz. Console output is
    modelled as the sequence of printed lines each method returns. */
module RangeControlFlow {
  import opened KotlinLang

  // ---------------------------------------------------------------------------
  // while and do-while
  // ---------------------------------------------------------------------------

  const EAT_LINE: string := "Eat a cake"
  const BAKE_LINE: string := "Bake a cake"

  /** `n` copies of the same printed line. */
  function Repeat(line: string, n: nat): (r: seq<string>)
    ensures |r| == n
    ensures forall i :: 0 <= i < n ==> r[i] == line
  {
    seq(n, _ => line)
  }

  /** `while (cakesEaten < 3) { println("Eat a cake"); cakesEaten++ }`,
      starting from no cakes. */
  method EatCakes() returns (cakesEaten: int, lines: seq<string>)
    ensures cakesEaten == 3
    ensures lines == Repeat(EAT_LINE, 3)
  {
    cakesEaten := 0;
    lines := [];
    while cakesEaten < 3
      invariant 0 <= cakesEaten <= 3
      invariant lines == Repeat(EAT_LINE, cakesEaten)
    {
      lines := lines + [EAT_LINE];
      cakesEaten := cakesEaten + 1;
    }
  }

  /** `do { println("Bake a cake"); cakesBaked++ } while (cakesBaked <
      cakesEaten)`: the body runs once before the condition is first
      checked, so at least one cake is baked. */
  method BakeCakes(cakesEaten: int) returns (cakesBaked: int, lines: seq<string>)
    ensures cakesBaked == if cakesEaten < 1 then 1 else cakesEaten
    ensures lines == Repeat(BAKE_LINE, cakesBaked)
  {
    cakesBaked := 0;
    lines := [BAKE_LINE];
    cakesBaked := cakesBaked + 1;
    while cakesBaked < cakesEaten
      invariant 1 <= cakesBaked
      invariant cakesBaked <= cakesEaten || cakesBaked == 1
      invariant lines == Repeat(BAKE_LINE, cakesBaked)
    {
      lines := lines + [BAKE_LINE];
      cakesBaked := cakesBaked + 1;
    }
  }

  /** `doWhileLoop`: eat three cakes, then bake as many as were eaten. */
  method DoWhileLoop() returns (cakesEaten: int, cakesBaked: int, lines: seq<string>)
    ensures cakesEaten == 3 && cakesBaked == 3
    ensures lines == Repeat(EAT_LINE, 3) + Repeat(BAKE_LINE, 3)
  {
    var eaten, baked;
    cakesEaten, eaten := EatCakes();
    cakesBaked, baked := BakeCakes(cakesEaten);
    lines := eaten + baked;
  }

  // ---------------------------------------------------------------------------
  // Counting pizza slices
  // ---------------------------------------------------------------------------

  const WHOLE_PIZZA: int := 8

  function SliceLine(slices: int): string {
    "There's only " + IntToString(slices) + " slice/s of pizza :("
  }

  const WHOLE_PIZZA_LINE: string :=
    "There are " + IntToString(WHOLE_PIZZA) + " slices of pizza. Hooray! We have a whole pizza! :D"

  /** The lines the counter prints while the pizza is incomplete: one per
      slice, for 1 up to `n` slices. */
  function SliceLines(n: nat): (r: seq<string>)
    ensures |r| == n
    ensures forall i :: 0 <= i < n ==> r[i] == SliceLine(i + 1)
  {
    seq(n, i => SliceLine(i + 1))
  }

  /** `exercise1`: the do-while counts slices one by one, printing each
      count, until the pizza has eight; then the final message. */
  method CountPizzaSlices() returns (pizzaSlices: int, lines: seq<string>)
    ensures pizzaSlices == WHOLE_PIZZA
    ensures lines == SliceLines(8) + [WHOLE_PIZZA_LINE]
  {
    pizzaSlices := 0;
    pizzaSlices := pizzaSlices + 1;
    lines := [SliceLine(pizzaSlices)];
    while pizzaSlices < WHOLE_PIZZA
      invariant 1 <= pizzaSlices <= WHOLE_PIZZA
      invariant lines == SliceLines(pizzaSlices)
    {
      pizzaSlices := pizzaSlices + 1;
      lines := lines + [SliceLine(pizzaSlices)];
    }
    lines := lines + ["There are " + IntToString(pizzaSlices) + " slices of pizza. Hooray! We have a whole pizza! :D"];
  }

  // ---------------------------------------------------------------------------
  // Fizz buzz
  // ---------------------------------------------------------------------------

  /** The `when` of `exercise2`. A remainder is zero under Kotlin's
      truncating `%` exactly when it is zero under Dafny's, so the tests
      carry over for negative numbers too. */
  function Fizzbuzz(number: int): (r: string)
    ensures number % 3 == 0 || number % 5 == 0 ==> r == "fizzbuzz" || r == "fizz" || r == "buzz"
    ensures number % 3 != 0 && number % 5 != 0 ==> r == IntToString(number)
  {
    if number % 15 == 0 then "fizzbuzz"
    else if number % 3 == 0 then "fizz"
    else if number % 5 == 0 then "buzz"
    else IntToString(number)
  }

  lemma IntToStringNotAWord(n: int)
    ensures IntToString(n) != "fizzbuzz" && IntToString(n) != "fizz" && IntToString(n) != "buzz"
  {
    var s := IntToString(n);
    if n < 0 {
      assert s[0] == '-';
    } else {
      assert IsDigit(s[0]);
    }
  }

  /** Each of the four outcomes happens exactly in its own case: thanks to
      the branch order, a multiple of 15 is never just "fizz" or "buzz". */
  lemma FizzbuzzClassifies(number: int)
    ensures Fizzbuzz(number) == "fizzbuzz" <==> number % 3 == 0 && number % 5 == 0
    ensures Fizzbuzz(number) == "fizz" <==> number % 3 == 0 && number % 5 != 0
    ensures Fizzbuzz(number) == "buzz" <==> number % 3 != 0 && number % 5 == 0
    ensures number % 3 != 0 && number % 5 != 0 ==> Fizzbuzz(number) == IntToString(number)
  {
    IntToStringNotAWord(number);
    MultipleOfFifteen(number);
  }

  lemma MultipleOfFifteen(number: int)
    ensures number % 15 == 0 <==> number % 3 == 0 && number % 5 == 0
  {
    var q, r := number / 15, number % 15;
    assert number == 3 * (5 * q) + r && number == 5 * (3 * q) + r;
  }

  /** The hundred lines of one pass of the inner loop, `for (number in
      1..100)`. */
  function FizzbuzzPass(): (r: seq<string>)
    ensures |r| == 100
    ensures forall i :: 0 <= i < 100 ==> r[i] == Fizzbuzz(i + 1)
  {
    seq(100, i => Fizzbuzz(i + 1))
  }

  /** `k` passes of the inner loop, one after the other. */
  function Passes(k: nat): (r: seq<string>)
    ensures |r| == 100 * k
  {
    if k == 0 then [] else Passes(k - 1) + FizzbuzzPass()
  }

  /** Line `i` of any number of passes is the classification of
      `i % 100 + 1`. */
  lemma {:induction false} PassesRepeatThePass(k: nat)
    ensures forall i :: 0 <= i < 100 * k ==> Passes(k)[i] == Fizzbuzz(i % 100 + 1)
  {
    if k > 0 {
      PassesRepeatThePass(k - 1);
      forall i | 100 * (k - 1) <= i < 100 * k
        ensures Passes(k)[i] == Fizzbuzz(i % 100 + 1)
      {
        var j := i - 100 * (k - 1);
        assert i == 100 * (k - 1) + j;
        assert i % 100 == j;
      }
    }
  }

  /** `exercise2`: the 1..100 Fizz buzz loop sits inside another 1..100
      loop, so the sequence is printed a hundred times. */
  method Exercise2() returns (lines: seq<string>)
    ensures lines == Passes(100)
  {
    lines := [];
    for i := 1 to 101
      invariant lines == Passes(i - 1)
    {
      for number := 1 to 101
        invariant lines == Passes(i - 1) + FizzbuzzPass()[..number - 1]
      {
        lines := lines + [Fizzbuzz(number)];
      }
      assert FizzbuzzPass()[..100] == FizzbuzzPass();
    }
  }

  /** The printed output is ten thousand lines, and line `i` classifies
      `i % 100 + 1`. */
  lemma Exercise2Output()
    ensures |Passes(100)| == 10000
    ensures forall i :: 0 <= i < 10000 ==> Passes(100)[i] == Fizzbuzz(i % 100 + 1)
  {
    PassesRepeatThePass(100);
  }
}
