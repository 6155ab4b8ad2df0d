/** The functions chapter of the beginner tour
    (`take/tour/beginner/Functions.kt`): plain and defaulted `Int`
    functions, an early-returning registration against two mutable lists,
    a function that returns a lambda, and a function that repeats an
    action. */
module BeginnerFunctions {
  import opened KotlinLang
  import opened KotlinCollections

  // ---------------------------------------------------------------------------
  // sum and multipleNamedFun
  // ---------------------------------------------------------------------------

  /** `fun sum(x: Int, y: Int): Int = x + y`, on 32-bit `Int`s. */
  function Sum(x: int, y: int): (r: int)
    ensures InIntRange(r)
    ensures InIntRange(x + y) ==> r == x + y
  {
    Add(x, y)
  }

  /** The order of the arguments does not matter. */
  lemma SumCommutes(x: int, y: int)
    ensures Sum(x, y) == Sum(y, x)
  {
  }

  /** `fun multipleNamedFun(a: Int = 1, b: Int = 2, c: Int = 3) = a + b + c`. */
  function MultipleNamedFun(a: int := 1, b: int := 2, c: int := 3): (r: int)
    ensures InIntRange(r)
    ensures InIntRange(a + b) && InIntRange(a + b + c) ==> r == a + b + c
  {
    Add(Add(a, b), c)
  }

  /** The two additions wrap as one: the result is `a + b + c` modulo 2^32. */
  lemma MultipleNamedFunWrapsOnce(a: int, b: int, c: int)
    ensures MultipleNamedFun(a, b, c) == Wrap(a + b + c)
  {
    AddWrapsOnce(a + b, c);
  }

  /** `multipleNamedFun(b = 2)` takes the other two defaults: 1 + 2 + 3. */
  lemma MultipleNamedFunDefaults()
    ensures MultipleNamedFun(b := 2) == 6
    ensures MultipleNamedFun() == 6
  {
  }

  // ---------------------------------------------------------------------------
  // intervalInSeconds
  // ---------------------------------------------------------------------------

  /** `((hours * 60) + minutes) * 60 + seconds` with every argument
      defaulting to 0, on 32-bit `Int`s. */
  function IntervalInSeconds(hours: int := 0, minutes: int := 0, seconds: int := 0): (r: int)
    ensures InIntRange(r)
    ensures hours == 0 && minutes == 0 && InIntRange(seconds) ==> r == seconds
  {
    Add(Mul(Add(Mul(hours, 60), minutes), 60), seconds)
  }

  /** The interval is `3600 h + 60 m + s`, wrapped to an `Int` once. */
  lemma IntervalInSecondsIsTotal(hours: int, minutes: int, seconds: int)
    ensures IntervalInSeconds(hours, minutes, seconds) == Wrap(3600 * hours + 60 * minutes + seconds)
  {
    var a := hours * 60;
    MulWrapsOnce(hours, 60);
    AddWrapsOnce(a, minutes);
    assert Add(Mul(hours, 60), minutes) == Wrap(a + minutes);
    MulWrapsOnce(a + minutes, 60);
    assert Mul(Add(Mul(hours, 60), minutes), 60) == Wrap((a + minutes) * 60);
    AddWrapsOnce((a + minutes) * 60, seconds);
  }

  /** The six calls of the exercise, with named and skipped arguments. */
  lemma IntervalInSecondsExamples()
    ensures IntervalInSeconds(1, 20, 15) == 4815
    ensures IntervalInSeconds(0, 1, 25) == 85
    ensures IntervalInSeconds(hours := 2, minutes := 0, seconds := 0) == 7200
    ensures IntervalInSeconds(0, seconds := 10, minutes := 0) == 10
    ensures IntervalInSeconds(1, 0, 1) == 3601
    ensures IntervalInSeconds(seconds := 0, minutes := 1) == 60
  {
  }

  // ---------------------------------------------------------------------------
  // toSeconds
  // ---------------------------------------------------------------------------

  /** `fun toSeconds(time: String): (Int) -> Int = when (time) { ... }`. */
  function ToSeconds(time: string): (toSecs: int -> int)
    ensures time == "hour" || time == "minute" ==> forall value :: InIntRange(toSecs(value))
    ensures time != "hour" && time != "minute" ==> forall value :: toSecs(value) == value
  {
    if time == "hour" then (value: int) => Mul(Mul(value, 60), 60)
    else if time == "minute" then (value: int) => Mul(value, 60)
    else if time == "second" then (value: int) => value
    else (value: int) => value
  }

  /** Hours scale by 3600 and minutes by 60 (modulo 2^32); every other unit,
      "second" included, leaves the value alone. */
  lemma ToSecondsScales(time: string, value: int)
    ensures time == "hour" ==> ToSeconds(time)(value) == Wrap(3600 * value)
    ensures time == "minute" ==> ToSeconds(time)(value) == Wrap(60 * value)
    ensures time != "hour" && time != "minute" ==> ToSeconds(time)(value) == value
  {
    if time == "hour" {
      MulWrapsOnce(value * 60, 60);
    }
  }

  /** `listOf(2, 10, 15, 1).map(toSeconds("minute")).sum()` is 1680. */
  lemma MinutesToSecondsExample()
    ensures IntSum(Map([2, 10, 15, 1], ToSeconds("minute"))) == 1680
  {
    var m := Map([2, 10, 15, 1], ToSeconds("minute"));
    assert m == [120, 600, 900, 60];
    assert KotlinCollections.Sum(m) == 1680;
  }

  // ---------------------------------------------------------------------------
  // registerUser
  // ---------------------------------------------------------------------------

  const USERNAME_TAKEN := "Username already taken. Please choose a different username."
  const EMAIL_TAKEN := "Email already registered. Please use a different email."

  /** The two mutable lists `registerUser` closes over. */
  class Registry {
    var registeredUsernames: seq<string>
    var registeredEmails: seq<string>

    /** Usernames and emails are registered in pairs, and neither list holds
        a value twice. */
    predicate Valid()
      reads this
    {
      |registeredUsernames| == |registeredEmails|
      && NoDuplicates(registeredUsernames) && NoDuplicates(registeredEmails)
    }

    constructor()
      ensures registeredUsernames == ["john_doe", "jane_smith"]
      ensures registeredEmails == ["john@example.com", "jane@example.com"]
      ensures Valid()
    {
      registeredUsernames := ["john_doe", "jane_smith"];
      registeredEmails := ["john@example.com", "jane@example.com"];
    }

    /** A taken username is refused first, then a taken email; a refusal
        changes nothing. Otherwise both are appended together. */
    method RegisterUser(username: string, email: string) returns (message: string)
      requires Valid()
      modifies this
      ensures Valid()
      ensures username in old(registeredUsernames) ==> message == USERNAME_TAKEN
      ensures username !in old(registeredUsernames) && email in old(registeredEmails) ==> message == EMAIL_TAKEN
      ensures username in old(registeredUsernames) || email in old(registeredEmails) ==>
                registeredUsernames == old(registeredUsernames) && registeredEmails == old(registeredEmails)
      ensures username !in old(registeredUsernames) && email !in old(registeredEmails) ==>
                registeredUsernames == old(registeredUsernames) + [username]
                && registeredEmails == old(registeredEmails) + [email]
                && message == "User registered successfully: " + username
    {
      if username in registeredUsernames {
        return USERNAME_TAKEN;
      }
      if email in registeredEmails {
        return EMAIL_TAKEN;
      }
      AppendFreshKeepsNoDuplicates(registeredUsernames, username);
      AppendFreshKeepsNoDuplicates(registeredEmails, email);
      registeredUsernames := registeredUsernames + [username];
      registeredEmails := registeredEmails + [email];
      message := "User registered successfully: " + username;
    }
  }

  /** The demo: "john_doe" is refused even with a new email, and "new_user"
      is registered. */
  method EarlyReturnExample() returns (first: string, second: string)
    ensures first == USERNAME_TAKEN
    ensures second == "User registered successfully: new_user"
  {
    var registry := new Registry();
    first := registry.RegisterUser("john_doe", "newjohn@example.com");
    assert "new_user" != "john_doe" && "new_user" != "jane_smith";
    assert "newuser@example.com" != "john@example.com" && "newuser@example.com" != "jane@example.com";
    second := registry.RegisterUser("new_user", "newuser@example.com");
  }

  // ---------------------------------------------------------------------------
  // repeatN
  // ---------------------------------------------------------------------------

  /** The state after `action` has run `k` times: running it k times is
      running it once and then k - 1 more times. */
  function Iterate<S>(action: S -> S, s: S, k: nat): (r: S)
    ensures k > 0 ==> r == Iterate(action, action(s), k - 1)
  {
    if k == 0 then s else action(Iterate(action, s, k - 1))
  }

  /** `fun repeatN(n: Int, action: () -> Unit) { for (i in 1..n) action() }`:
      the action is a step on some state. For `n < 1` the range is empty. */
  method RepeatN<S>(n: int, action: S -> S, initial: S) returns (s: S)
    ensures s == Iterate(action, initial, if n < 0 then 0 else n)
  {
    s := initial;
    var i := 1;
    while i <= n
      invariant 1 <= i <= if n < 1 then 1 else n + 1
      invariant s == Iterate(action, initial, i - 1)
    {
      s := action(s);
      i := i + 1;
    }
  }

  /** An action that prints a line, run `k` times, prints it `k` times. */
  lemma {:induction false} IteratePrintsLines(emit: seq<string> -> seq<string>, line: string, k: nat)
    requires forall out :: emit(out) == out + [line]
    ensures Iterate(emit, [], k) == seq(k, _ => line)
  {
    if k > 0 {
      IteratePrintsLines(emit, line, k - 1);
    }
  }

  /** `repeatN(5) { println("Hello") }` prints "Hello" five times. */
  method RepeatHelloExample() returns (out: seq<string>)
    ensures out == ["Hello", "Hello", "Hello", "Hello", "Hello"]
  {
    var emit := (o: seq<string>) => o + ["Hello"];
    out := RepeatN(5, emit, []);
    IteratePrintsLines(emit, "Hello", 5);
  }
}
