/** Kotlin idioms (`basic/Idioms.kt`): the two `filter` overloads, a `when`
    that throws, an if-expression, building an array with `apply`, a regex
    replacement as an extension function, swapping with `also`, and a
    `when` over `Any`. */
module Idioms {
  import opened Wrappers
  import opened KotlinLang
  import opened KotlinCollections

  // ---------------------------------------------------------------------------
  // The two filter overloads
  // ---------------------------------------------------------------------------

  /** `x >= "d"` for strings. */
  predicate AtLeastD(x: string) {
    !LexLess(x, "d")
  }

  /** `filter(list: Iterable<String>)` prints `list.filter { x -> x >= "d" }`;
      this is the list it prints, and `ListToString` of it is the line. */
  function FilterStrings(list: seq<string>): (r: seq<string>)
    ensures |r| <= |list|
  {
    Filter(list, AtLeastD)
  }

  /** The strings kept are exactly those of the list not ordered before "d". */
  lemma FilterStringsKeepsAtLeastD(list: seq<string>)
    ensures forall x :: x in FilterStrings(list) <==> x in list && !LexLess(x, "d")
  {
    FilterMembers(list, AtLeastD);
  }

  /** `filter(listOf("a", "b", "c", "d"))` keeps only "d". */
  lemma FilterStringsExample()
    ensures FilterStrings(["a", "b", "c", "d"]) == ["d"]
  {
    assert LexLess("a", "d") && LexLess("b", "d") && LexLess("c", "d") && !LexLess("d", "d");
    var list := ["a", "b", "c", "d"];
    assert list[1..] == ["b", "c", "d"] && list[1..][1..] == ["c", "d"];
    assert list[1..][1..][1..] == ["d"] && ["d"][1..] == [];
    assert Filter(["d"], AtLeastD) == ["d"];
    assert Filter(["c", "d"], AtLeastD) == ["d"];
    assert Filter(["b", "c", "d"], AtLeastD) == ["d"];
  }

  /** `filter(listOf("a", "b", "c", "d"))` prints the line "[d]". */
  lemma FilterStringsPrintsExample()
    ensures ListToString(FilterStrings(["a", "b", "c", "d"])) == "[d]"
  {
    FilterStringsExample();
    assert Join(["d"], ", ") == "d";
  }

  predicate AtLeastFive(x: int) {
    x >= 5
  }

  /** `filter(list: IntRange)` prints `list.filter { it >= 5 }`; this is the
      list it prints, and `ListToString` of its decimal texts is the line. */
  function FilterRange(lo: int, hi: int): (r: seq<int>)
    ensures forall x :: x in r ==> x >= 5
  {
    FilterMembers(RangeClosed(lo, hi), AtLeastFive);
    Filter(RangeClosed(lo, hi), AtLeastFive)
  }

  /** What is left of `lo..hi` is the range from `max(lo, 5)` to `hi`, in
      order; `filter(0..20)` is `5..20`. */
  lemma FilterRangeIsRange(lo: int, hi: int)
    ensures FilterRange(lo, hi) == RangeClosed(if lo < 5 then 5 else lo, hi)
    ensures FilterRange(0, 20) == RangeClosed(5, 20)
  {
    FilterRangeAtLeast(lo, hi, 5, AtLeastFive);
    FilterRangeAtLeast(0, 20, 5, AtLeastFive);
  }

  /** The decimal texts of `lo..hi` are those of `lo..mid` followed by
      those of `mid+1..hi`. */
  lemma RangeTextsSplit(lo: int, mid: int, hi: int)
    requires lo <= mid <= hi
    ensures Map(RangeClosed(lo, hi), IntToString)
         == Map(RangeClosed(lo, mid), IntToString) + Map(RangeClosed(mid + 1, hi), IntToString)
  {
  }

  lemma RangeTextsLow()
    ensures Map(RangeClosed(5, 12), IntToString) == ["5", "6", "7", "8", "9", "10", "11", "12"]
  {
    assert IntToString(5) == "5" && IntToString(6) == "6" && IntToString(7) == "7";
    assert IntToString(8) == "8" && IntToString(9) == "9";
    assert IntToString(10) == "10" && IntToString(11) == "11" && IntToString(12) == "12";
  }

  lemma RangeTextsHigh()
    ensures Map(RangeClosed(13, 20), IntToString) == ["13", "14", "15", "16", "17", "18", "19", "20"]
  {
    assert IntToString(13) == "13" && IntToString(14) == "14";
    assert IntToString(15) == "15" && IntToString(16) == "16" && IntToString(17) == "17";
    assert IntToString(18) == "18" && IntToString(19) == "19" && IntToString(20) == "20";
  }

  /** `filter(0..20)` keeps 5..20, whose decimal texts are "5" to "20". */
  lemma FilterRangeTexts()
    ensures Map(FilterRange(0, 20), IntToString)
         == ["5", "6", "7", "8", "9", "10", "11", "12",
             "13", "14", "15", "16", "17", "18", "19", "20"]
  {
    FilterRangeIsRange(0, 20);
    RangeTextsLow();
    RangeTextsHigh();
    RangeTextsSplit(5, 12, 20);
  }

  /** `filter(0..20)` prints the list 5..20: its line is `List.toString()`
      of the texts "5" to "20". */
  lemma FilterRangePrintsExample()
    ensures ListToString(Map(FilterRange(0, 20), IntToString))
         == ListToString(["5", "6", "7", "8", "9", "10", "11", "12",
                          "13", "14", "15", "16", "17", "18", "19", "20"])
  {
    FilterRangeTexts();
  }

  // ---------------------------------------------------------------------------
  // transform
  // ---------------------------------------------------------------------------

  const INVALID_COLOR := "Invalid color param value"

  /** `when (color) { "Red" -> 0; "Green" -> 1; "Blue" -> 2; else -> throw }`. */
  function Transform(color: string): (r: Result<int>)
    ensures r.Ok? ==> 0 <= r.value < 3
    ensures r.Err? ==> r.error == IllegalArgumentException(INVALID_COLOR)
  {
    if color == "Red" then Ok(0)
    else if color == "Green" then Ok(1)
    else if color == "Blue" then Ok(2)
    else Err(IllegalArgumentException(INVALID_COLOR))
  }

  /** The colour a code stands for. */
  function ColorName(code: int): (r: string)
    requires 0 <= code < 3
    ensures Transform(r) == Ok(code)
  {
    if code == 0 then "Red" else if code == 1 then "Green" else "Blue"
  }

  /** `transform` and `ColorName` are inverse: every code is reached by its
      colour name, and every accepted string is the name of its code. */
  lemma TransformInvertsColorName(code: int, color: string)
    requires 0 <= code < 3
    ensures Transform(ColorName(code)) == Ok(code)
    ensures Transform(color).Ok? ==> ColorName(Transform(color).value) == color
  {
  }

  /** Only the three names are accepted. */
  lemma TransformAcceptsOnlyColors(color: string)
    ensures Transform(color).Ok? <==> color == "Red" || color == "Green" || color == "Blue"
  {
  }

  // ---------------------------------------------------------------------------
  // foo(param)
  // ---------------------------------------------------------------------------

  /** `if (param == 1) true else if (param == 2) false else true`. */
  function Foo(param: int): (r: bool)
    ensures r <==> param != 2
  {
    if param == 1 then true else if param == 2 then false else true
  }

  // ---------------------------------------------------------------------------
  // arrayOfMinusOnes
  // ---------------------------------------------------------------------------

  /** `IntArray.fill(value)`. */
  method Fill(a: array<int>, value: int)
    modifies a
    ensures forall i :: 0 <= i < a.Length ==> a[i] == value
  {
    var i := 0;
    while i < a.Length
      invariant 0 <= i <= a.Length
      invariant forall j :: 0 <= j < i ==> a[j] == value
    {
      a[i] := value;
      i := i + 1;
    }
  }

  /** `IntArray(size).apply { fill(1) }` as written: despite its name the
      array holds ones. A negative size throws. */
  method ArrayOfMinusOnes(size: int) returns (r: Result<array<int>>)
    ensures size < 0 ==> r == Err(NegativeArraySizeException)
    ensures size >= 0 ==> r.Ok? && fresh(r.value) && r.value.Length == size
                          && forall i :: 0 <= i < size ==> r.value[i] == 1
  {
    if size < 0 {
      return Err(NegativeArraySizeException);
    }
    var a := new int[size];
    Fill(a, 1);
    return Ok(a);
  }

  /** The array the name promises: `size` entries of -1. */
  method ArrayOfMinusOnesFixed(size: int) returns (r: Result<array<int>>)
    ensures size < 0 ==> r == Err(NegativeArraySizeException)
    ensures size >= 0 ==> r.Ok? && fresh(r.value) && r.value.Length == size
                          && forall i :: 0 <= i < size ==> r.value[i] == -1
  {
    if size < 0 {
      return Err(NegativeArraySizeException);
    }
    var a := new int[size];
    Fill(a, -1);
    return Ok(a);
  }

  /** `arrayOfMinusOnes(3)` prints `[1, 1, 1]`; the corrected version gives
      `[-1, -1, -1]`. */
  method ArrayOfMinusOnesExample() returns (asWritten: seq<int>, fixed: seq<int>)
    ensures asWritten == [1, 1, 1]
    ensures fixed == [-1, -1, -1]
  {
    var r := ArrayOfMinusOnes(3);
    asWritten := r.value[..];
    var f := ArrayOfMinusOnesFixed(3);
    fixed := f.value[..];
  }

  // ---------------------------------------------------------------------------
  // spaceToCamelCase
  // ---------------------------------------------------------------------------

  /** The characters the regex `.` does not match. */
  predicate IsLineTerminator(c: char) {
    c == '\n' || c == '\r' || c == '\U{85}' || c == '\U{2028}' || c == '\U{2029}'
  }

  /** One step of the left-to-right scan: the text it emits and the input
      left after it. An underscore consumes the character after it unless
      that is a line break (`.` does not match one) or there is none. */
  function CamelStep(s: string): (r: (string, string))
    requires s != []
    ensures |r.1| < |s|
    ensures |r.0| + |r.1| <= |s|
    ensures s[0] == '_' ==> r.0 == Uppercase(CamelGroup(s))
  {
    if s[0] == '_' then
      if |s| >= 2 && !IsLineTerminator(s[1]) then ([UpperChar(s[1])], s[2..]) else ([], s[1..])
    else ([s[0]], s[1..])
  }

  /** `replace(Regex("_(.)?")) { it.groupValues[1].uppercase() }`: each
      underscore, scanned left to right, is removed together with the
      character after it, which comes back upper-cased; an underscore at the
      end or before a line break is just removed. */
  function SpaceToCamelCase(s: string): (r: string)
    ensures |r| <= |s|
    decreases |s|
  {
    if s == [] then [] else CamelStep(s).0 + SpaceToCamelCase(CamelStep(s).1)
  }

  /** `it.groupValues[1]` of the match a step at an underscore makes: the
      character after the underscore, or "" when the optional group did not
      match. */
  function CamelGroup(s: string): (g: string)
    requires s != [] && s[0] == '_'
    ensures |g| <= 1
  {
    if |s| >= 2 && !IsLineTerminator(s[1]) then [s[1]] else []
  }

  /** The line printed for the match a step makes, if it makes one. */
  function StepGroup(s: string): (lines: seq<string>)
    requires s != []
    ensures |lines| == if s[0] == '_' then 1 else 0
  {
    if s[0] == '_' then [CamelGroup(s)] else []
  }

  /** The lines the replacement lambda prints, `println(it.groupValues[1])`:
      one per match, in the order of the matches. */
  function CamelGroups(s: string): (lines: seq<string>)
    ensures |lines| <= |s|
    decreases |s|
  {
    if s == [] then []
    else StepGroup(s) + CamelGroups(CamelStep(s).1)
  }

  /** Nothing grows, and text without an underscore is left as it is. */
  lemma {:induction false} SpaceToCamelCaseShortens(s: string)
    ensures |SpaceToCamelCase(s)| <= |s|
    ensures '_' !in s ==> SpaceToCamelCase(s) == s
    decreases |s|
  {
    if s != [] {
      var r := CamelStep(s).1;
      assert '_' !in s ==> r == s[1..] && '_' !in s[1..];
      SpaceToCamelCaseShortens(r);
      if '_' !in s {
        assert s == [s[0]] + s[1..];
      }
    }
  }

  /** A step does not look past the first two characters, so it is the same
      step when more text follows a prefix that does not end in an
      underscore. */
  lemma CamelStepConcat(a: string, b: string)
    requires a != [] && a[|a| - 1] != '_'
    ensures CamelStep(a + b).0 == CamelStep(a).0
    ensures CamelStep(a + b).1 == CamelStep(a).1 + b
    ensures CamelStep(a).1 == [] || CamelStep(a).1[|CamelStep(a).1| - 1] != '_'
    ensures a[0] == '_' ==> CamelGroup(a + b) == CamelGroup(a)
  {
    var ab := a + b;
    assert ab[0] == a[0];
    if a[0] == '_' {
      assert |a| >= 2 && ab[1] == a[1] && ab[2..] == a[2..] + b;
    }
    assert ab[1..] == a[1..] + b;
  }

  lemma UnfoldConcat(a: string, b: string)
    requires a != [] && a[|a| - 1] != '_'
    ensures SpaceToCamelCase(a + b) == CamelStep(a).0 + SpaceToCamelCase(CamelStep(a).1 + b)
  {
    CamelStepConcat(a, b);
  }

  /** The replacement works piece by piece: a prefix that does not end in an
      underscore is converted on its own. */
  lemma {:induction false} SpaceToCamelCaseConcat(a: string, b: string)
    requires a == [] || a[|a| - 1] != '_'
    ensures SpaceToCamelCase(a + b) == SpaceToCamelCase(a) + SpaceToCamelCase(b)
    decreases |a|
  {
    if a == [] {
      assert a + b == b;
    } else {
      CamelStepConcat(a, b);
      UnfoldConcat(a, b);
      var e, r := CamelStep(a).0, CamelStep(a).1;
      SpaceToCamelCaseConcat(r, b);
    }
  }

  /** An underscore and the character after it become that character in
      upper case, wherever the prefix before them does not end in an
      underscore. */
  lemma SpaceToCamelCaseReplacesPair(a: string, c: char, b: string)
    requires a == [] || a[|a| - 1] != '_'
    requires !IsLineTerminator(c)
    ensures SpaceToCamelCase(a + ['_', c] + b) == SpaceToCamelCase(a) + [UpperChar(c)] + SpaceToCamelCase(b)
  {
    var t := ['_', c] + b;
    assert a + ['_', c] + b == a + t;
    assert CamelStep(t) == ([UpperChar(c)], b);
    SpaceToCamelCaseConcat(a, t);
  }

  /** Text without an underscore makes no match, so nothing is printed. */
  lemma {:induction false} CamelGroupsNoUnderscore(s: string)
    requires '_' !in s
    ensures CamelGroups(s) == []
    decreases |s|
  {
    if s != [] {
      assert CamelStep(s).1 == s[1..] && '_' !in s[1..];
      CamelGroupsNoUnderscore(s[1..]);
    }
  }

  /** One step of `CamelGroupsConcat`: if the text after the first match
      splits, so does the whole. */
  lemma GroupsConcatStep(a: string, b: string)
    requires a != [] && a[|a| - 1] != '_'
    requires CamelGroups(CamelStep(a).1 + b) == CamelGroups(CamelStep(a).1) + CamelGroups(b)
    ensures CamelGroups(a + b) == CamelGroups(a) + CamelGroups(b)
  {
    var g, r := StepGroup(a), CamelStep(a).1;
    assert CamelGroups(a) == g + CamelGroups(r);
    assert CamelGroups(a + b) == g + CamelGroups(r + b) by {
      CamelStepConcat(a, b);
      assert (a + b)[0] == a[0];
      assert StepGroup(a + b) == g && CamelStep(a + b).1 == r + b;
    }
    assert g + (CamelGroups(r) + CamelGroups(b)) == (g + CamelGroups(r)) + CamelGroups(b);
  }

  /** The printed lines split the same way as the replacement: a prefix that
      does not end in an underscore prints its own lines first. */
  lemma {:induction false} CamelGroupsConcat(a: string, b: string)
    requires a == [] || a[|a| - 1] != '_'
    ensures CamelGroups(a + b) == CamelGroups(a) + CamelGroups(b)
    decreases |a|
  {
    if a == [] {
      assert a + b == b;
    } else {
      CamelStepConcat(a, b);
      CamelGroupsConcat(CamelStep(a).1, b);
      GroupsConcatStep(a, b);
    }
  }

  /** An underscore followed by a character other than a line break prints
      that character, between the lines of the text around it. */
  lemma CamelGroupsPrintPair(a: string, c: char, b: string)
    requires a == [] || a[|a| - 1] != '_'
    requires !IsLineTerminator(c)
    ensures CamelGroups(a + ['_', c] + b) == CamelGroups(a) + [[c]] + CamelGroups(b)
  {
    var t := ['_', c] + b;
    assert a + ['_', c] + b == a + t;
    assert CamelStep(t).1 == b && CamelGroup(t) == [c];
    assert CamelGroups(t) == [[c]] + CamelGroups(b);
    CamelGroupsConcat(a, t);
  }

  /** `"abc_defg".spaceToCamelCase()` is "abcDefg". */
  lemma SpaceToCamelCaseExample(s: string)
    requires s == "abc_defg"
    ensures SpaceToCamelCase(s) == "abcDefg"
  {
    var head, rest := "abc", "efg";
    assert SpaceToCamelCase(s) == SpaceToCamelCase(head) + [UpperChar('d')] + SpaceToCamelCase(rest) by {
      assert s == head + ['_', 'd'] + rest;
      SpaceToCamelCaseReplacesPair(head, 'd', rest);
    }
    assert SpaceToCamelCase(head) == head by {
      assert '_' !in head;
      SpaceToCamelCaseShortens(head);
    }
    assert SpaceToCamelCase(rest) == rest by {
      assert '_' !in rest;
      SpaceToCamelCaseShortens(rest);
    }
    assert UpperChar('d') == 'D';
    assert head + ['D'] + rest == "abcDefg";
  }

  /** Converting "abc_defg" prints the one group value, "d". */
  lemma SpaceToCamelCasePrintsGroups(s: string)
    requires s == "abc_defg"
    ensures CamelGroups(s) == ["d"]
  {
    var head, rest := "abc", "efg";
    assert s == head + ['_', 'd'] + rest;
    CamelGroupsPrintPair(head, 'd', rest);
    CamelGroupsNoUnderscore(head);
    CamelGroupsNoUnderscore(rest);
  }

  // ---------------------------------------------------------------------------
  // swap
  // ---------------------------------------------------------------------------

  /** `a = b.also { b = a }`: `also` hands on the old `b` after its block
      has stored the old `a` into `b`; then `swap` prints " a: $a, b: $b". */
  method Swap(a0: int, b0: int) returns (a: int, b: int, line: string)
    ensures a == b0 && b == a0
    ensures line == " a: " + IntToString(b0) + ", b: " + IntToString(a0)
  {
    a, b := a0, b0;
    var also := b;
    b := a;
    a := also;
    line := " a: " + IntToString(a) + ", b: " + IntToString(b);
  }

  /** `swap()` starts from `a = 1` and `b = 2` and prints " a: 2, b: 1". */
  method SwapExample() returns (line: string)
    ensures line == " a: 2, b: 1"
  {
    var a, b;
    a, b, line := Swap(1, 2);
  }

  // ---------------------------------------------------------------------------
  // theAnswer2
  // ---------------------------------------------------------------------------

  /** The branches of `when (a)` in `theAnswer2`, top to bottom. */
  datatype Answer2Branch = IsInt | NotInt | Three | InList | NotInSet | Else

  /** `when (a) { is Int -> ...; !is Int -> ...; 3 -> ...; in listOf(3, 4, 5)
      -> ...; !in setOf(3, 4, 5) -> ...; else -> 123 }`: the first branch
      whose condition holds. */
  function TheAnswer2(a: AnyValue): (r: Answer2Branch)
    ensures r == IsInt <==> a.IntValue?
    ensures r == NotInt <==> !a.IntValue?
  {
    if a.IntValue? then IsInt
    else if !a.IntValue? then NotInt
    else if a == IntValue(3) then Three
    else if a in [IntValue(3), IntValue(4), IntValue(5)] then InList
    else if a !in {IntValue(3), IntValue(4), IntValue(5)} then NotInSet
    else Else
  }

  /** The first two branches cover every value, so the others never run;
      `theAnswer2(2)` takes the first. */
  lemma TheAnswer2OnlyTypeBranches(a: AnyValue)
    ensures TheAnswer2(a) !in {Three, InList, NotInSet, Else}
    ensures TheAnswer2(IntValue(2)) == IsInt
  {
  }
}
