/** The basic-syntax notes: `incrementX`, `maxOf`, `describe`, stepped and
    descending ranges, `printProduct` in its two spellings and the three
    `getStringLength` variants. */
module BasicSyntax {
  import opened Wrappers
  import opened KotlinLang

  // ---------------------------------------------------------------------------
  // Top-level properties
  // ---------------------------------------------------------------------------

  /** The top-level `val PI = 3.14` and `var x = 0`. */
  class TopLevel {
    const PI: real
    var x: int

    constructor()
      ensures PI == 3.14 && x == 0
    {
      PI := 3.14;
      x := 0;
    }

    /** `incrementX()`: `x += 1` on an `Int`; `PI` is a `val`. */
    method IncrementX()
      modifies this
      ensures x == Add(old(x), 1)
      ensures INT_MIN <= old(x) < INT_MAX ==> x == old(x) + 1
    {
      x := Add(x, 1);
    }
  }

  /** `x = 0; PI = 3.14`, then `incrementX()`, then `x = 1; PI = 3.14`. */
  method IncrementXExample() returns (x: int, pi: real)
    ensures x == 1 && pi == 3.14
  {
    var top := new TopLevel();
    top.IncrementX();
    x, pi := top.x, top.PI;
  }

  // ---------------------------------------------------------------------------
  // maxOf
  // ---------------------------------------------------------------------------

  /** `maxOf` as an expression body. */
  function MaxOf(a: int, b: int): (r: int)
    ensures r >= a && r >= b
    ensures r == a || r == b
  {
    if a > b then a else b
  }

  /** `maxOf1`, written with two `return` statements; it agrees with
      `maxOf`. */
  method MaxOf1(a: int, b: int) returns (r: int)
    ensures r == MaxOf(a, b)
  {
    if a > b {
      return a;
    } else {
      return b;
    }
  }

  // ---------------------------------------------------------------------------
  // describe
  // ---------------------------------------------------------------------------

  /** `describe(obj: Any)`; the branches are tried in order, and `1` equals
      only the boxed `Int` 1, not a `Long`. */
  function Describe(obj: AnyValue): (r: string)
    ensures r in {"one", "Greeting", "Long", "Not a string", "Unknown"}
    ensures r == "Unknown" ==> obj.StringValue?
  {
    if obj == IntValue(1) then "one"
    else if obj == StringValue("Hello") then "Greeting"
    else if obj.LongValue? then "Long"
    else if !obj.StringValue? then "Not a string"
    else "Unknown"
  }

  /** Each answer names exactly the values that reach its branch. */
  lemma DescribeBranches(obj: AnyValue)
    ensures Describe(obj) == "one" <==> obj == IntValue(1)
    ensures Describe(obj) == "Greeting" <==> obj == StringValue("Hello")
    ensures Describe(obj) == "Long" <==> obj.LongValue?
    ensures Describe(obj) == "Not a string" <==> !obj.StringValue? && !obj.LongValue? && obj != IntValue(1)
    ensures Describe(obj) == "Unknown" <==> obj.StringValue? && obj.s != "Hello"
  {
  }

  // ---------------------------------------------------------------------------
  // Ranges
  // ---------------------------------------------------------------------------

  /** `first`, `first + step`, ... as long as the value stays at or below
      `last`. */
  function Progression(first: int, last: int, step: int): (p: seq<int>)
    requires step > 0
    ensures p == [] <==> first > last
    ensures forall x :: x in p ==> first <= x <= last
    decreases last - first
  {
    if first > last then [] else [first] + Progression(first + step, last, step)
  }

  /** `first`, `first - step`, ... as long as the value stays at or above
      `last`. */
  function DownProgression(first: int, last: int, step: int): (p: seq<int>)
    requires step > 0
    ensures p == [] <==> first < last
    ensures forall x :: x in p ==> last <= x <= first
    decreases first - last
  {
    if first < last then [] else [first] + DownProgression(first - step, last, step)
  }

  function StepMessage(step: int): string {
    "Step must be positive, was: " + IntToString(step) + "."
  }

  /** `first..last step step`: a step that is not positive throws. */
  function StepUp(first: int, last: int, step: int): (r: Result<seq<int>>)
    ensures r.Err? <==> step <= 0
    ensures r.Err? ==> r.error == IllegalArgumentException(StepMessage(step))
  {
    if step <= 0 then Err(IllegalArgumentException(StepMessage(step)))
    else Ok(Progression(first, last, step))
  }

  /** `first downTo last step step`: a step that is not positive throws. */
  function StepDown(first: int, last: int, step: int): (r: Result<seq<int>>)
    ensures r.Err? <==> step <= 0
    ensures r.Err? ==> r.error == IllegalArgumentException(StepMessage(step))
  {
    if step <= 0 then Err(IllegalArgumentException(StepMessage(step)))
    else Ok(DownProgression(first, last, step))
  }

  /** An ascending progression is `first + i * step` at index `i`, is empty
      exactly when `first > last`, and ends within one step below `last`. */
  lemma {:induction false} ProgressionElements(first: int, last: int, step: int)
    requires step > 0
    ensures var p := Progression(first, last, step);
      && (p == [] <==> first > last)
      && (forall i :: 0 <= i < |p| ==> p[i] == first + i * step)
      && (p != [] ==> last - step < p[|p| - 1] <= last)
    decreases last - first
  {
    if first <= last {
      var p := Progression(first, last, step);
      ProgressionElements(first + step, last, step);
      forall i | 1 <= i < |p|
        ensures p[i] == first + i * step
      {
        assert p[i] == first + step + (i - 1) * step;
        assert (i - 1) * step == i * step - step;
      }
    }
  }

  /** A descending progression is `first - i * step` at index `i`, is empty
      exactly when `first < last`, and ends within one step above `last`. */
  lemma {:induction false} DownProgressionElements(first: int, last: int, step: int)
    requires step > 0
    ensures var p := DownProgression(first, last, step);
      && (p == [] <==> first < last)
      && (forall i :: 0 <= i < |p| ==> p[i] == first - i * step)
      && (p != [] ==> last <= p[|p| - 1] < last + step)
    decreases first - last
  {
    if first >= last {
      var p := DownProgression(first, last, step);
      DownProgressionElements(first - step, last, step);
      forall i | 1 <= i < |p|
        ensures p[i] == first - i * step
      {
        assert p[i] == first - step - (i - 1) * step;
        assert (i - 1) * step == i * step - step;
      }
    }
  }

  /** `for (i in first..last step step) println(i)`. */
  method PrintStepUp(first: int, last: int, step: int) returns (printed: seq<int>)
    requires step > 0
    ensures printed == StepUp(first, last, step).value
  {
    printed := [];
    var i := first;
    while i <= last
      invariant printed + Progression(i, last, step) == Progression(first, last, step)
      decreases last - i
    {
      printed := printed + [i];
      i := i + step;
    }
  }

  /** `for (i in first downTo last step step) println(i)`. */
  method PrintStepDown(first: int, last: int, step: int) returns (printed: seq<int>)
    requires step > 0
    ensures printed == StepDown(first, last, step).value
  {
    printed := [];
    var i := first;
    while i >= last
      invariant printed + DownProgression(i, last, step) == DownProgression(first, last, step)
      decreases i - last
    {
      printed := printed + [i];
      i := i - step;
    }
  }

  /** The three loops of the notes print 1, 3, 5, 7, 9; then 9, 6, 3, 0;
      and nothing at all for `9 downTo 100`. */
  method RangeExamples() returns (odd: seq<int>, down: seq<int>, empty: seq<int>)
    ensures odd == [1, 3, 5, 7, 9]
    ensures down == [9, 6, 3, 0]
    ensures empty == []
  {
    odd := PrintStepUp(1, 10, 2);
    down := PrintStepDown(9, 0, 3);
    empty := PrintStepDown(9, 100, 1);
  }

  // ---------------------------------------------------------------------------
  // printProduct
  // ---------------------------------------------------------------------------

  function ParseInt(s: string): Option<int> {
    ToIntOrNull(s)
  }

  function NullsMessage(arg1: string, arg2: string): string {
    arg1 + " or " + arg2 + " are null"
  }

  /** The line `printProduct` prints: the `Int` product when both arguments
      parse, the message otherwise. */
  function PrintProduct(arg1: string, arg2: string): (line: string)
    ensures ParseInt(arg1).Some? && ParseInt(arg2).Some? ==>
      ToIntOrNull(line) == Some(Mul(ParseInt(arg1).value, ParseInt(arg2).value))
  {
    var x := ParseInt(arg1);
    var y := ParseInt(arg2);
    if x.Some? && y.Some? then
      ToIntOrNullInverts(Mul(x.value, y.value));
      IntToString(Mul(x.value, y.value))
    else NullsMessage(arg1, arg2)
  }

  lemma NumeralHasNoSpace(n: int)
    ensures ' ' !in IntToString(n)
  {
    var d := NatToString(if n < 0 then -n else n);
    assert forall i :: 0 <= i < |d| ==> IsDigit(d[i]);
    if n < 0 {
      assert IntToString(n) == ['-'] + d;
    }
  }

  /** The product is printed exactly when both arguments parse: only the
      message contains a space. */
  lemma PrintProductPrintsProductIffBothParse(arg1: string, arg2: string)
    ensures ParseInt(arg1).Some? && ParseInt(arg2).Some? <==> ' ' !in PrintProduct(arg1, arg2)
    ensures ParseInt(arg1).Some? && ParseInt(arg2).Some? ==>
      PrintProduct(arg1, arg2) == IntToString(Mul(ParseInt(arg1).value, ParseInt(arg2).value))
  {
    var x, y := ParseInt(arg1), ParseInt(arg2);
    if x.Some? && y.Some? {
      NumeralHasNoSpace(Mul(x.value, y.value));
    } else {
      assert NullsMessage(arg1, arg2)[|arg1|] == ' ';
    }
  }

  /** `printProduct1` as written:
      `x?.let { y?.let { x * y } ?: "$arg1 or $arg2 are null" }`. The elvis
      sits inside the outer `let`, so a first argument that does not parse
      makes the whole expression null, and `println` prints "null". */
  function PrintProduct1(arg1: string, arg2: string): (line: string)
    ensures ParseInt(arg1).Some? && ParseInt(arg2).None? ==> line == NullsMessage(arg1, arg2)
  {
    var x := ParseInt(arg1);
    var y := ParseInt(arg2);
    var printed: Option<string> :=
      if x.None? then None
      else Some(if y.Some? then IntToString(Mul(x.value, y.value)) else NullsMessage(arg1, arg2));
    if printed.Some? then printed.value else "null"
  }

  /** The two spellings agree whenever the first argument parses, and
      `printProduct1` prints "null" whenever it does not. */
  lemma PrintProduct1Agreement(arg1: string, arg2: string)
    ensures ParseInt(arg1).Some? ==> PrintProduct1(arg1, arg2) == PrintProduct(arg1, arg2)
    ensures ParseInt(arg1).None? ==> PrintProduct1(arg1, arg2) == "null"
  {
  }

  /** `printProduct1` with the elvis applied to the whole chain,
      `x?.let { y?.let { x * y } } ?: "$arg1 or $arg2 are null"`. */
  function PrintProduct1Fixed(arg1: string, arg2: string): (line: string)
    ensures ParseInt(arg1).None? || ParseInt(arg2).None? ==> line == NullsMessage(arg1, arg2)
  {
    var x := ParseInt(arg1);
    var y := ParseInt(arg2);
    var product: Option<string> :=
      if x.None? then None
      else if y.None? then None
      else Some(IntToString(Mul(x.value, y.value)));
    product.GetOr(NullsMessage(arg1, arg2))
  }

  /** The corrected spelling prints what `printProduct` prints, for every
      pair of arguments. */
  lemma PrintProduct1FixedAgrees(arg1: string, arg2: string)
    ensures PrintProduct1Fixed(arg1, arg2) == PrintProduct(arg1, arg2)
  {
  }

  /** For ("a", "2") `printProduct` prints "a or 2 are null" but
      `printProduct1` prints "null". */
  lemma PrintProduct1Discrepancy()
    ensures PrintProduct("a", "2") == "a or 2 are null"
    ensures PrintProduct1("a", "2") == "null"
    ensures PrintProduct1Fixed("a", "2") == "a or 2 are null"
  {
    assert !IsDigit('a');
    assert ParseInt("a").None?;
  }

  // ---------------------------------------------------------------------------
  // getStringLength
  // ---------------------------------------------------------------------------

  /** `getStringLength`: the length inside the `is String` branch, null
      after it. The length is `String.length`, in UTF-16 code units. */
  function GetStringLength(obj: AnyValue): (r: Option<int>)
    ensures r.Some? <==> obj.StringValue?
    ensures r.Some? ==> r.value == Length(obj.s)
  {
    if obj.StringValue? then Some(Length(obj.s)) else None
  }

  /** `getStringLength1`: null first when `obj !is String`. */
  function GetStringLength1(obj: AnyValue): (r: Option<int>)
    ensures r.None? <==> !obj.StringValue?
    ensures r.Some? ==> r.value == Length(obj.s)
  {
    if !obj.StringValue? then None else Some(Length(obj.s))
  }

  /** `getStringLength2`: a length only for a non-empty string. */
  function GetStringLength2(obj: AnyValue): (r: Option<int>)
    ensures r.Some? <==> obj.StringValue? && obj.s != ""
    ensures r.Some? ==> r.value == Length(obj.s) > 0
  {
    if obj.StringValue? && Length(obj.s) > 0 then Some(Length(obj.s)) else None
  }

  /** The first two variants agree on every value; the third differs from
      them only on the empty string. */
  lemma GetStringLengthVariants(obj: AnyValue)
    ensures GetStringLength1(obj) == GetStringLength(obj)
    ensures GetStringLength2(obj) == GetStringLength(obj) <==> obj != StringValue("")
  {
  }
}
