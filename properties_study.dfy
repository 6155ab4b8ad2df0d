/** The properties chapter of the intermediate tour
    (`take/tour/intermediate/PropertiesStudy.kt`): a setter that writes its
    backing field, an extension property, a caching property delegate, an
    observable property, and the out-of-stock exercise. */
module PropertiesStudy {
  import opened Wrappers
  import opened KotlinLang

  // ---------------------------------------------------------------------------
  // A setter that capitalises: `field = value.replaceFirstChar { it.uppercase() }`
  // ---------------------------------------------------------------------------

  /** `s.replaceFirstChar { it.uppercase() }`: the first character in upper
      case, the rest untouched. */
  function ReplaceFirstCharUppercase(s: string): (r: string)
    ensures |r| == |s|
    ensures |s| > 0 ==> r[0] == UpperChar(s[0]) && r[1..] == s[1..]
    ensures |s| > 0 ==> !IsLower(r[0])
    ensures |s| > 0 && !IsLower(s[0]) ==> r == s
  {
    if s == [] then [] else [UpperChar(s[0])] + s[1..]
  }

  /** Assigning an already capitalised name stores it unchanged. */
  lemma ReplaceFirstCharIdempotent(s: string)
    ensures ReplaceFirstCharUppercase(ReplaceFirstCharUppercase(s)) == ReplaceFirstCharUppercase(s)
  {
  }

  /** The local `Person` whose `name` setter capitalises. The initial `""`
      does not pass through the setter. */
  class CapitalizingPerson {
    var name: string

    constructor()
      ensures name == ""
    {
      name := "";
    }

    /** `person.name = value`. */
    method SetName(value: string)
      modifies this
      ensures name == ReplaceFirstCharUppercase(value)
    {
      name := ReplaceFirstCharUppercase(value);
    }
  }

  /** `person.name = "kodee"` reads back as "Kodee". */
  method BackingFieldExample() returns (name: string)
    ensures name == "Kodee"
  {
    var person := new CapitalizingPerson();
    person.SetName("kodee");
    name := person.name;
  }

  // ---------------------------------------------------------------------------
  // The `fullName` extension property
  // ---------------------------------------------------------------------------

  datatype Person = Person(firstName: string, lastName: string)

  /** `val Person.fullName get() = "$firstName $lastName"`: both names, in
      order, one space apart. */
  function FullName(p: Person): (r: string)
    ensures |r| == |p.firstName| + 1 + |p.lastName|
    ensures r[..|p.firstName|] == p.firstName && r[|p.firstName|] == ' '
    ensures r[|p.firstName| + 1..] == p.lastName
  {
    p.firstName + " " + p.lastName
  }

  /** The position of the first occurrence of `c` in `s`, if any. */
  function IndexOf(s: string, c: char): (r: Option<nat>)
    ensures r.None? ==> c !in s
    ensures r.Some? ==> r.value < |s| && s[r.value] == c && c !in s[..r.value]
  {
    if s == [] then None
    else if s[0] == c then Some(0)
    else
      match IndexOf(s[1..], c)
      case None => None
      case Some(i) => assert s[..i + 1] == [s[0]] + s[1..][..i]; Some(i + 1)
  }

  /** Splitting a full name at its first space. */
  function SplitFullName(s: string): Person {
    match IndexOf(s, ' ')
    case None => Person(s, "")
    case Some(i) => Person(s[..i], s[i + 1..])
  }

  /** The full name determines the person whenever the first name has no
      space: splitting at the first space gives back both parts. */
  lemma FullNameSplits(p: Person)
    requires ' ' !in p.firstName
    ensures SplitFullName(FullName(p)) == p
  {
    var s := FullName(p);
    var n := |p.firstName|;
    assert s[..n] == p.firstName && s[n] == ' ' && s[n + 1..] == p.lastName;
    assert forall j :: 0 <= j < n ==> s[j] == p.firstName[j];
  }

  /** "John" and "Doe" make "John Doe". */
  lemma FullNameExample()
    ensures FullName(Person("John", "Doe")) == "John Doe"
  {
  }

  // ---------------------------------------------------------------------------
  // CachedStringDelegate and the User whose displayName it backs
  // ---------------------------------------------------------------------------

  const COMPUTED_PREFIX: string := "Computed and cached: "
  const CACHED_PREFIX: string := "Accessed from cache: "

  /** `class CachedStringDelegate { var cachedValue: String? = null }`. */
  class CachedStringDelegate {
    var cachedValue: Option<string>

    constructor()
      ensures cachedValue == None
    {
      cachedValue := None;
    }

    /** `getValue`: computes "firstName lastName" and caches it on the first
        call, and returns the cached string from then on; `printed` is the
        line it prints, which tells a miss from a hit. The `?: "Unknown"`
        fallback is never taken: the cache is filled before it is read. */
    method GetValue(thisRef: User) returns (r: string, printed: string)
      modifies this
      ensures old(cachedValue).None? ==> cachedValue == Some(FullName(Person(thisRef.firstName, thisRef.lastName)))
      ensures old(cachedValue).Some? ==> cachedValue == old(cachedValue)
      ensures cachedValue.Some? && r == cachedValue.value
      ensures printed == (if old(cachedValue).None? then COMPUTED_PREFIX else CACHED_PREFIX) + r
    {
      if cachedValue.None? {
        cachedValue := Some(FullName(Person(thisRef.firstName, thisRef.lastName)));
        printed := COMPUTED_PREFIX + cachedValue.value;
      } else {
        printed := CACHED_PREFIX + cachedValue.value;
      }
      r := cachedValue.GetOr("Unknown");
    }
  }

  /** `class User(firstName, lastName) { val displayName by CachedStringDelegate() }`. */
  class User {
    const firstName: string
    const lastName: string
    const displayNameDelegate: CachedStringDelegate

    /** The cache is empty or holds this user's full name. */
    predicate Valid()
      reads displayNameDelegate
    {
      displayNameDelegate.cachedValue.None?
      || displayNameDelegate.cachedValue == Some(FullName(Person(firstName, lastName)))
    }

    constructor(firstName: string, lastName: string)
      ensures this.firstName == firstName && this.lastName == lastName
      ensures fresh(displayNameDelegate) && displayNameDelegate.cachedValue.None?
      ensures Valid()
    {
      this.firstName := firstName;
      this.lastName := lastName;
      displayNameDelegate := new CachedStringDelegate();
    }

    /** `user.displayName`: always the full name, cached after the first
        read; the delegate's line says whether the cache was hit. */
    method DisplayName() returns (r: string, printed: string)
      requires Valid()
      modifies displayNameDelegate
      ensures Valid()
      ensures r == FullName(Person(firstName, lastName))
      ensures displayNameDelegate.cachedValue == Some(r)
      ensures printed == (if old(displayNameDelegate.cachedValue).None? then COMPUTED_PREFIX else CACHED_PREFIX) + r
    {
      r, printed := displayNameDelegate.GetValue(this);
    }
  }

  /** Two reads of `displayName` for John Doe, each printed: the first
      computes and caches the name, the second reads it from the cache. */
  method DelegatedPractice() returns (output: seq<string>)
    ensures output == ["Computed and cached: John Doe", "John Doe", "Accessed from cache: John Doe", "John Doe"]
  {
    var user := new User("John", "Doe");
    var first, firstLine := user.DisplayName();
    var second, secondLine := user.DisplayName();
    output := [firstLine, first, secondLine, second];
    FullNameExample();
    assert COMPUTED_PREFIX + "John Doe" == "Computed and cached: John Doe";
    assert CACHED_PREFIX + "John Doe" == "Accessed from cache: John Doe";
  }

  // ---------------------------------------------------------------------------
  // findOutOfStockBooks
  // ---------------------------------------------------------------------------

  /** The indices from `start` on whose stock is zero or negative, in
      increasing order. */
  function OutOfStockFrom(inventory: seq<int>, start: nat): (r: seq<int>)
    requires start <= |inventory|
    ensures |r| <= |inventory| - start
    decreases |inventory| - start
  {
    if start == |inventory| then []
    else
      var rest := OutOfStockFrom(inventory, start + 1);
      if inventory[start] <= 0 then [start] + rest else rest
  }

  /** Exactly the valid indices whose stock is at most zero are listed, each
      once, in increasing order. */
  lemma {:induction false} OutOfStockFromIsExact(inventory: seq<int>, start: nat)
    requires start <= |inventory|
    ensures forall x :: x in OutOfStockFrom(inventory, start) <==> start <= x < |inventory| && inventory[x] <= 0
    ensures forall i, j :: 0 <= i < j < |OutOfStockFrom(inventory, start)| ==>
              OutOfStockFrom(inventory, start)[i] < OutOfStockFrom(inventory, start)[j]
    decreases |inventory| - start
  {
    if start < |inventory| {
      OutOfStockFromIsExact(inventory, start + 1);
      var rest := OutOfStockFrom(inventory, start + 1);
      if inventory[start] <= 0 {
        var r := [start] + rest;
        assert OutOfStockFrom(inventory, start) == r;
        assert forall i :: 0 < i < |r| ==> r[i] == rest[i - 1] && rest[i - 1] in rest;
      }
    }
  }

  /** `buildList { inventory.forEachIndexed { i, n -> if (n <= 0) add(i) } }`. */
  method FindOutOfStockBooks(inventory: seq<int>) returns (r: seq<int>)
    ensures r == OutOfStockFrom(inventory, 0)
  {
    r := [];
    var index := 0;
    while index < |inventory|
      invariant 0 <= index <= |inventory|
      invariant r + OutOfStockFrom(inventory, index) == OutOfStockFrom(inventory, 0)
    {
      if inventory[index] <= 0 {
        assert r + OutOfStockFrom(inventory, index) == (r + [index]) + OutOfStockFrom(inventory, index + 1);
        r := r + [index];
      }
      index := index + 1;
    }
  }

  /** The inventory `[3, 0, 7, 0, 5]` has books 1 and 3 out of stock. */
  lemma OutOfStockExample()
    ensures OutOfStockFrom([3, 0, 7, 0, 5], 0) == [1, 3]
  {
    var inventory := [3, 0, 7, 0, 5];
    assert OutOfStockFrom(inventory, 4) == [];
    assert OutOfStockFrom(inventory, 3) == [3];
  }

  // ---------------------------------------------------------------------------
  // Budget
  // ---------------------------------------------------------------------------

  /** What the budget observer is meant to report. */
  datatype BudgetNotice = Warning(remaining: int) | GoodNews(remaining: int)

  /** The observer's intended decision for an assignment of `newValue` over
      `oldValue`: a warning below 20% of the total (`newValue < total * 0.2`,
      stated over integers as `5 * newValue < total`), otherwise good news
      on an increase, otherwise nothing. */
  function BudgetObserver(totalBudget: int, oldValue: int, newValue: int): (n: Option<BudgetNotice>)
    ensures n == Some(Warning(newValue)) <==> 5 * newValue < totalBudget
    ensures n == Some(GoodNews(newValue)) <==> 5 * newValue >= totalBudget && newValue > oldValue
    ensures n.None? <==> 5 * newValue >= totalBudget && newValue <= oldValue
  {
    if 5 * newValue < totalBudget then Some(Warning(newValue))
    else if newValue > oldValue then Some(GoodNews(newValue))
    else None
  }

  /** `class Budget(val totalBudget: Int)` with
      `var remainingBudget: Int by observable(totalBudget) { ... }`;
      `notices` collects what the observer prints. */
  class Budget {
    const totalBudget: int
    var remainingBudget: int
    var notices: seq<BudgetNotice>

    constructor(totalBudget: int)
      ensures this.totalBudget == totalBudget
      ensures remainingBudget == totalBudget && notices == []
    {
      this.totalBudget := totalBudget;
      remainingBudget := totalBudget;
      notices := [];
    }

    /** The assignment as written: the observer's body is a lambda that
        builds another lambda and never calls it, so the new value is stored
        and nothing is reported. */
    method SetRemainingBudget(newValue: int)
      modifies this
      ensures remainingBudget == newValue
      ensures notices == old(notices)
    {
      remainingBudget := newValue;
    }

    /** The assignment with the observer's body run, as the exercise means it. */
    method SetRemainingBudgetObserved(newValue: int)
      modifies this
      ensures remainingBudget == newValue
      ensures notices == old(notices) + match BudgetObserver(totalBudget, old(remainingBudget), newValue)
                                        case None => []
                                        case Some(n) => [n]
    {
      var notice := BudgetObserver(totalBudget, remainingBudget, newValue);
      remainingBudget := newValue;
      if notice.Some? {
        notices := notices + [notice.value];
      }
    }
  }

  /** The exercise's `main`: a budget of 1000 set to 800, 150, 50 and 300.
      As written nothing is reported; with the observer run, the two low
      values warn and the rise to 300 is good news. */
  method BudgetExample() returns (asWritten: seq<BudgetNotice>, observed: seq<BudgetNotice>)
    ensures asWritten == []
    ensures observed == [Warning(150), Warning(50), GoodNews(300)]
  {
    var budget := new Budget(1000);
    budget.SetRemainingBudget(800);
    budget.SetRemainingBudget(150);
    budget.SetRemainingBudget(50);
    budget.SetRemainingBudget(300);
    asWritten := budget.notices;

    var fixed := new Budget(1000);
    fixed.SetRemainingBudgetObserved(800);
    fixed.SetRemainingBudgetObserved(150);
    fixed.SetRemainingBudgetObserved(50);
    fixed.SetRemainingBudgetObserved(300);
    observed := fixed.notices;
  }
}
