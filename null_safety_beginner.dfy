/** The beginner null-safety notes: `!!` on a missing map entry,
    `describeString`, the safe call `lengthString`, the elvis default, and
    the `employeeById`/`salaryById` exercise. A nullable value is an
    `Option`; a thrown exception is an `Err`. */
module BeginnerNullSafety {
  import opened Wrappers
  import opened KotlinLang
  import opened KotlinCollections

  // ---------------------------------------------------------------------------
  // Maps and `!!`
  // ---------------------------------------------------------------------------

  /** `map.get(key)`: null for a key the map does not hold. */
  function MapGet<K, V>(m: map<K, V>, key: K): (r: Option<V>)
    ensures r.Some? <==> key in m
    ensures r.Some? ==> r.value == m[key]
  {
    if key in m then Some(m[key]) else None
  }

  /** `x!!`: the value itself, or a `NullPointerException` for null. */
  function NotNull<T>(x: Option<T>): (r: Result<T>)
    ensures r.Err? <==> x.None?
    ensures r.Err? ==> r.error == NullPointerException
    ensures r.Ok? ==> r.value == x.value
  {
    match x
    case None => Err(NullPointerException)
    case Some(v) => Ok(v)
  }

  /** `mapOf(1 to "2").get(3)!!` throws before anything is printed, while
      key 1 would have given "2". */
  lemma MissingKeyThrows()
    ensures NotNull(MapGet(map[1 := "2"], 3)) == Err(NullPointerException)
    ensures NotNull(MapGet(map[1 := "2"], 1)) == Ok("2")
  {
  }

  // ---------------------------------------------------------------------------
  // describeString
  // ---------------------------------------------------------------------------

  const EMPTY_OR_NULL: string := "Empty or null string"
  const LENGTH_PREFIX: string := "String of length "

  /** `describeString(maybeString)`: the `&&` only reads the length of a
      string that is not null. */
  function DescribeString(maybeString: Option<string>): (line: string)
    ensures line == EMPTY_OR_NULL || (|line| > |LENGTH_PREFIX| && line[..|LENGTH_PREFIX|] == LENGTH_PREFIX)
  {
    if maybeString.Some? && Length(maybeString.value) > 0 then
      LENGTH_PREFIX + IntToString(Length(maybeString.value))
    else
      EMPTY_OR_NULL
  }

  /** The fallback is printed exactly for null and for the empty string;
      otherwise the line is the prefix followed by the length in UTF-16
      code units, and reading the digits back gives that length. */
  lemma DescribeStringCases(maybeString: Option<string>)
    ensures DescribeString(maybeString) == EMPTY_OR_NULL <==>
      maybeString.None? || maybeString.value == ""
    ensures maybeString.Some? && maybeString.value != "" ==>
      var line := DescribeString(maybeString);
      && |line| > |LENGTH_PREFIX|
      && line[..|LENGTH_PREFIX|] == LENGTH_PREFIX
      && DigitsValue(line[|LENGTH_PREFIX|..]) == Length(maybeString.value)
  {
    if maybeString.Some? && maybeString.value != "" {
      var line := DescribeString(maybeString);
      assert line[0] != EMPTY_OR_NULL[0];
      assert line[|LENGTH_PREFIX|..] == NatToString(Length(maybeString.value));
      DigitsOfNat(Length(maybeString.value));
    }
  }

  /** `describeString(null)` prints the fallback. */
  lemma DescribeNullString()
    ensures DescribeString(None) == "Empty or null string"
  {
  }

  // ---------------------------------------------------------------------------
  // Safe calls and the elvis operator
  // ---------------------------------------------------------------------------

  /** `maybeString?.length`, in UTF-16 code units. */
  function LengthString(maybeString: Option<string>): (r: Option<int>)
    ensures r.None? <==> maybeString.None?
    ensures r.Some? ==> r.value == Length(maybeString.value)
  {
    match maybeString
    case None => None
    case Some(s) => Some(Length(s))
  }

  /** `nullString?.length ?: 0`: 0 exactly for null and for the empty
      string. */
  function LengthOrZero(maybeString: Option<string>): (n: int)
    ensures n == 0 <==> maybeString.None? || maybeString.value == ""
  {
    LengthString(maybeString).GetOr(0)
  }

  /** The elvis default is 0 for null, and the length otherwise. */
  lemma LengthOrZeroCases(maybeString: Option<string>)
    ensures maybeString.None? ==> LengthOrZero(maybeString) == 0
    ensures maybeString.Some? ==> LengthOrZero(maybeString) == Length(maybeString.value)
  {
  }

  // ---------------------------------------------------------------------------
  // employeeById and salaryById
  // ---------------------------------------------------------------------------

  /** `data class Employee(val name: String, var salary: Int)`. */
  datatype Employee = Employee(name: string, salary: int)

  /** `employeeById(id)`: the `when` over the company database. */
  function EmployeeById(id: int): (r: Option<Employee>)
    ensures r.Some? ==> 1 <= id <= 4 && r.value.name != "" && r.value.salary > 0
  {
    if id == 1 then Some(Employee("Mary", 20))
    else if id == 2 then None
    else if id == 3 then Some(Employee("John", 21))
    else if id == 4 then Some(Employee("Ann", 23))
    else None
  }

  /** The database holds exactly the employees 1, 3 and 4. */
  lemma EmployeeByIdKnowsThree(id: int)
    ensures EmployeeById(id).Some? <==> id == 1 || id == 3 || id == 4
  {
  }

  /** `salaryById(id) = employeeById(id)?.salary ?: 0`. */
  function SalaryById(id: int): (salary: int)
    ensures EmployeeById(id).None? ==> salary == 0
    ensures EmployeeById(id).Some? ==> salary == EmployeeById(id).value.salary
  {
    SafeSalary(EmployeeById(id)).GetOr(0)
  }

  /** `employee?.salary`. */
  function SafeSalary(employee: Option<Employee>): Option<int> {
    if employee.None? then None else Some(employee.value.salary)
  }

  /** `(1..5).sumOf { id -> salaryById(id) }` is 20 + 0 + 21 + 23 + 0 = 64;
      the `Int` sum does not wrap. */
  lemma SalarySumOfFirstFive()
    ensures IntSum(Map(RangeClosed(1, 5), SalaryById)) == 64
  {
    var salaries := Map(RangeClosed(1, 5), SalaryById);
    assert salaries == [20, 0, 21, 23, 0];
    assert Sum([0]) == 0;
    assert Sum([23, 0]) == 23;
    assert Sum([21, 23, 0]) == 44;
    assert Sum([0, 21, 23, 0]) == 44;
    assert Sum(salaries) == 64;
  }
}
