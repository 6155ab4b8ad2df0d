# Kotlin study notes: a verified model of their sequential core

The repository is a set of Kotlin study notes: the Kotlin tour (basics, null
safety, functions, properties, scope functions, special classes, lambdas
with receivers), a page of Kotlin idioms, an Advent of Code 2022 day-1
solution and a coroutine tutorial. Scattered through the notes are small
sequential functions with behaviour that can be stated. This project models
those functions in Dafny and proves what the notes promise about them:

- **Top-N selection and calorie counting** (`AdventOfCode`, `advent_of_code.dfy`):
  - the text is split into elf groups and each group is summed, with 32-bit `Int` sums;
  - part 1 takes the maximum;
  - part 2 takes the sum of the three largest, computed three ways: sorting, a
    bounded sorted set loop and a bounded priority-queue loop;
  - `findTopN` is the quickselect-style recursion around a random pivot.
- **The prime sieve** built from chained lazy iterators (`PrimeSieve`, `prime_sieve.dfy`).
- **Null-safety validators and lookups**: early returns, safe calls and the elvis
  operator (`IntermediateNullSafety`, `BeginnerNullSafety`).
- **Small stateful objects** as classes whose methods update their fields:
  - the user registry with its two lists;
  - the caching property delegate;
  - the capitalising setter;
  - the menu builder;
  - the observable budget;
  - `StringBuilder`, `User.email`.
- **String and list transforms**:
  - snake-to-camel replacement;
  - the out-of-stock index search;
  - `incremented`;
  - the filter/reverse pipelines;
  - `fizzbuzz`.
- **Decision tables over sealed classes and enums** (`SpecialClasses`).

Three modules model the parts of the Kotlin standard library these functions
rely on:

- `Wrappers`: nullable values as `Option`, thrown exceptions as `Result`'s `Err`;
- `KotlinLang`:
  - 32-bit `Int` wrap-around;
  - `toString`/`toIntOrNull` on `Int`;
  - ASCII case mapping;
  - `String.length`, counted in UTF-16 code units;
  - `String.compareTo`;
  - the `Any` values the demos pass around;
- `KotlinCollections`:
  - `filter`, `map`, `mapNotNull`, `singleOrNull`, `listOfNotNull`;
  - `sorted`, `sortedDescending`, `take`, `takeLast`, `reversed`;
  - `sum`, `split`, `lines`, `joinToString`, `List.toString()`.

Where a modelled function prints, the lines it prints are returned beside its result, as strings or lists of lines: the caching delegate's "Computed and cached" and "Accessed from cache" lines, `sendNotification`'s greeting, the groups `spaceToCamelCase` prints, the medal lists, the sieve's "prime value N" lines and `swap`'s " a: $a, b: $b" line. The two `filter` overloads return the list they print; `List.toString()` of it is the printed line, stated for the notes' two calls. Output printed by test bodies outside the modelled functions is left out.

## Model

| member | source | states |
|---|---|---|
| AdventOfCode.ParseLines | kotlin-tutorial/kotlin-basics/src/test/kotlin/coding/babya/me/learningmaterials/AdventOfCodePuzzles.kt:117 | `toInt()` on every line: the values in order, and None exactly when some line is not an `Int` |
| AdventOfCode.ElfTotal | kotlin-tutorial/kotlin-basics/src/test/kotlin/coding/babya/me/learningmaterials/AdventOfCodePuzzles.kt:116-117 | one group's `sumOf { it.toInt() }`: an `Int` when every line parses, NumberFormatException otherwise |
| AdventOfCode.ElfTotalsOf | kotlin-tutorial/kotlin-basics/src/test/kotlin/coding/babya/me/learningmaterials/AdventOfCodePuzzles.kt:116-117 | one total per group, each the wrapped sum of the group's values; an error exactly when some group has a line that does not parse |
| AdventOfCode.ElfTotals | kotlin-tutorial/kotlin-basics/src/test/kotlin/coding/babya/me/learningmaterials/AdventOfCodePuzzles.kt:116-117 | a successful parse yields one total per `split("\n\n")` piece, so at least one |
| AdventOfCode.TrailingNewlineFails | kotlin-tutorial/kotlin-basics/src/test/kotlin/coding/babya/me/learningmaterials/AdventOfCodePuzzles.kt:114-117 | a text ending in a newline fails: its last line is "" and `toInt()` throws |
| AdventOfCode.MaxOf | kotlin-tutorial/kotlin-basics/src/test/kotlin/coding/babya/me/learningmaterials/AdventOfCodePuzzles.kt:116 | `maxOf` succeeds exactly on a non-empty list, giving an element no smaller than any other, and throws NoSuchElementException on an empty one |
| AdventOfCode.Part1 | kotlin-tutorial/kotlin-basics/src/test/kotlin/coding/babya/me/learningmaterials/AdventOfCodePuzzles.kt:114-118 | part 1 succeeds exactly when every group parses, fails only with NumberFormatException, and answers with one of the group totals |
| AdventOfCode.Part1IsLargestTotal | kotlin-tutorial/kotlin-basics/src/test/kotlin/coding/babya/me/learningmaterials/AdventOfCodePuzzles.kt:115-117 | part 1 succeeds exactly when every group parses, and its answer is a group total no smaller than any other |
| AdventOfCode.TopThreeSumIsTopThree | kotlin-tutorial/kotlin-basics/src/test/kotlin/coding/babya/me/learningmaterials/AdventOfCodePuzzles.kt:129-130 | `sortedDescending().take(3)` holds the three largest totals (with multiplicity), and its sum is the sum of the last three of the ascending sort |
| AdventOfCode.TopThreeSum | kotlin-tutorial/kotlin-basics/src/test/kotlin/coding/babya/me/learningmaterials/AdventOfCodePuzzles.kt:129-130 | `sortedDescending().take(3).sum()` is an `Int` |
| AdventOfCode.Part2 | kotlin-tutorial/kotlin-basics/src/test/kotlin/coding/babya/me/learningmaterials/AdventOfCodePuzzles.kt:128-131 | part 2 succeeds exactly when every group parses, fails only with NumberFormatException, and gives an `Int` |
| AdventOfCode.TopThreeWithPriorityQueue | kotlin-tutorial/kotlin-basics/src/test/kotlin/coding/babya/me/learningmaterials/AdventOfCodePuzzles.kt:155-165 | the priority-queue loop ends with the sum of the three largest totals; the loop invariant is that the queue holds the three largest totals seen so far |
| AdventOfCode.PriorityQueueStep | kotlin-tutorial/kotlin-basics/src/test/kotlin/coding/babya/me/learningmaterials/AdventOfCodePuzzles.kt:158-162 | one `add` followed by a `poll` when the queue holds four keeps exactly the three largest totals seen so far |
| AdventOfCode.InsertKeepsLargest | kotlin-tutorial/kotlin-basics/src/test/kotlin/coding/babya/me/learningmaterials/AdventOfCodePuzzles.kt:158-162 | keeping only the k largest before an insertion loses none of the k largest after it |
| AdventOfCode.PriorityQueueAgreesWithSorting | kotlin-tutorial/kotlin-basics/src/test/kotlin/coding/babya/me/learningmaterials/AdventOfCodePuzzles.kt:157-165 | the priority-queue answer equals `sortedDescending().take(3).sum()` for every list of totals |
| AdventOfCode.AddDistinct | kotlin-tutorial/kotlin-basics/src/test/kotlin/coding/babya/me/learningmaterials/AdventOfCodePuzzles.kt:141 | `TreeSet.add` keeps the set's elements strictly increasing |
| AdventOfCode.AddDistinctMembers | kotlin-tutorial/kotlin-basics/src/test/kotlin/coding/babya/me/learningmaterials/AdventOfCodePuzzles.kt:141 | after `add(x)` the set holds exactly its old elements and x |
| AdventOfCode.SortedDistinct | kotlin-tutorial/kotlin-basics/src/test/kotlin/coding/babya/me/learningmaterials/AdventOfCodePuzzles.kt:137-141 | the set built from a list is strictly increasing |
| AdventOfCode.SortedDistinctMembers | kotlin-tutorial/kotlin-basics/src/test/kotlin/coding/babya/me/learningmaterials/AdventOfCodePuzzles.kt:137-141 | the set built from a list holds exactly the list's values |
| AdventOfCode.AddDistinctKeepsLargest | kotlin-tutorial/kotlin-basics/src/test/kotlin/coding/babya/me/learningmaterials/AdventOfCodePuzzles.kt:141-145 | trimming the set to its k largest before an `add` loses none of the k largest after it |
| AdventOfCode.SortedSetStep | kotlin-tutorial/kotlin-basics/src/test/kotlin/coding/babya/me/learningmaterials/AdventOfCodePuzzles.kt:140-146 | one round of the sorted-set loop keeps the three largest distinct totals seen so far |
| AdventOfCode.TopThreeWithSortedSet | kotlin-tutorial/kotlin-basics/src/test/kotlin/coding/babya/me/learningmaterials/AdventOfCodePuzzles.kt:137-147 | the sorted-set loop ends with the sum of the three largest distinct totals |
| AdventOfCode.SortedDistinctOfDistinct | kotlin-tutorial/kotlin-basics/src/test/kotlin/coding/babya/me/learningmaterials/AdventOfCodePuzzles.kt:137-147 | on totals without repeats the set holds what the sorted list holds, so the two loops agree |
| AdventOfCode.SortedSetLoopDropsTies | kotlin-tutorial/kotlin-basics/src/test/kotlin/coding/babya/me/learningmaterials/AdventOfCodePuzzles.kt:137-147 | with tied totals the set loop loses one: for [5, 5] it gives 5 while the list-based answer is 10 |
| AdventOfCode.Above | kotlin-tutorial/kotlin-basics/src/test/kotlin/coding/babya/me/learningmaterials/AdventOfCodePuzzles.kt:176 | `gt`: only elements above the pivot |
| AdventOfCode.Same | kotlin-tutorial/kotlin-basics/src/test/kotlin/coding/babya/me/learningmaterials/AdventOfCodePuzzles.kt:177 | `eq`: only copies of the pivot |
| AdventOfCode.Below | kotlin-tutorial/kotlin-basics/src/test/kotlin/coding/babya/me/learningmaterials/AdventOfCodePuzzles.kt:178 | `lt`: only elements below the pivot |
| AdventOfCode.PartitionAround | kotlin-tutorial/kotlin-basics/src/test/kotlin/coding/babya/me/learningmaterials/AdventOfCodePuzzles.kt:176-178 | every element lands in exactly one of `gt`, `eq`, `lt` (as multisets, gt + eq + lt = the input) |
| AdventOfCode.PartitionShrinks | kotlin-tutorial/kotlin-basics/src/test/kotlin/coding/babya/me/learningmaterials/AdventOfCodePuzzles.kt:175-178 | a pivot taken from the list is in `eq`; the three sizes add up to the input's; `gt` and `lt` are strictly shorter, so the recursion terminates |
| AdventOfCode.Pivot | kotlin-tutorial/kotlin-basics/src/test/kotlin/coding/babya/me/learningmaterials/AdventOfCodePuzzles.kt:175 | `elements.random()` yields an element of the list |
| AdventOfCode.FindTopN | kotlin-tutorial/kotlin-basics/src/test/kotlin/coding/babya/me/learningmaterials/AdventOfCodePuzzles.kt:172-188 | as written: a list of exactly n elements comes back unchanged; the call succeeds exactly when 0 <= n <= size (otherwise `random()` on an empty list throws NoSuchElementException); the result is drawn from the input |
| AdventOfCode.FindTopNFixed | kotlin-tutorial/kotlin-basics/src/test/kotlin/coding/babya/me/learningmaterials/AdventOfCodePuzzles.kt:172-188 | with `takeLast(n)`: succeeds exactly when 0 <= n <= size, and returns n elements of the input, each no smaller than any element left out |
| AdventOfCode.AboveBranchIsTopN | kotlin-tutorial/kotlin-basics/src/test/kotlin/coding/babya/me/learningmaterials/AdventOfCodePuzzles.kt:180-181 | when `gt` holds at least n elements, the top n of `gt` are the top n of the list |
| AdventOfCode.SameThenAboveIsTopN | kotlin-tutorial/kotlin-basics/src/test/kotlin/coding/babya/me/learningmaterials/AdventOfCodePuzzles.kt:182-184 | when `gt` is short but `gt + eq` is not, the last n of `eq + gt` are the top n of the list |
| AdventOfCode.BelowBranchIsTopN | kotlin-tutorial/kotlin-basics/src/test/kotlin/coding/babya/me/learningmaterials/AdventOfCodePuzzles.kt:187 | the top m of `lt`, followed by `gt` and `eq`, are the top m + |gt| + |eq| of the list |
| AdventOfCode.FindTopNDistinct | kotlin-tutorial/kotlin-basics/src/test/kotlin/coding/babya/me/learningmaterials/AdventOfCodePuzzles.kt:172-188 | on a list without repeated values and n <= 3, the code as written returns the corrected answer |
| AdventOfCode.FindTopNKeepsTooMany | kotlin-tutorial/kotlin-basics/src/test/kotlin/coding/babya/me/learningmaterials/AdventOfCodePuzzles.kt:184 | asked for the top 1 of [5, 5], the code as written returns [5, 5]; the corrected version returns [5] |
| IntermediateNullSafety.CalculateTotalStringLength | kotlin-tutorial/kotlin-basics/src/test/kotlin/coding/babya/me/take/tour/intermediate/NullSafety.kt:92-109 | the total is an `Int`; lengths count UTF-16 code units |
| IntermediateNullSafety.NonStringsAddNothing | kotlin-tutorial/kotlin-basics/src/test/kotlin/coding/babya/me/take/tour/intermediate/NullSafety.kt:108 | items that are not strings add 0 to the sum |
| IntermediateNullSafety.TotalStringLengthCountsStrings | kotlin-tutorial/kotlin-basics/src/test/kotlin/coding/babya/me/take/tour/intermediate/NullSafety.kt:108 | the total is the wrapped sum of the UTF-16 lengths of the `String` items |
| IntermediateNullSafety.GetNumberOfFriends | kotlin-tutorial/kotlin-basics/src/test/kotlin/coding/babya/me/take/tour/intermediate/NullSafety.kt:256-263 | -1 exactly for an absent id; otherwise the size of that user's friends list |
| IntermediateNullSafety.NumberOfFriendsExamples | kotlin-tutorial/kotlin-basics/src/test/kotlin/coding/babya/me/take/tour/intermediate/NullSafety.kt:265-278 | Alice has 2 friends, Bob has 1, and id 4 gives -1 |
| IntermediateNullSafety.UserName | kotlin-tutorial/kotlin-basics/src/test/kotlin/coding/babya/me/take/tour/intermediate/NullSafety.kt:310-311 | "Guest" exactly for a non-User argument, a null name, or the name "Guest" itself |
| IntermediateNullSafety.GetNotificationPreferences | kotlin-tutorial/kotlin-basics/src/test/kotlin/coding/babya/me/take/tour/intermediate/NullSafety.kt:309-318 | as written: the email entry, then the SMS entry, each present exactly when its flag is set |
| IntermediateNullSafety.GetNotificationPreferencesFixed | kotlin-tutorial/kotlin-basics/src/test/kotlin/coding/babya/me/take/tour/intermediate/NullSafety.kt:309-318 | as the notes intend: [] for a non-User argument, otherwise the same entries |
| IntermediateNullSafety.NotificationPreferencesExamples | kotlin-tutorial/kotlin-basics/src/test/kotlin/coding/babya/me/take/tour/intermediate/NullSafety.kt:320-331 | the example calls give the commented output, except that the invalid user gets two Guest entries where the comment expects [] |
| IntermediateNullSafety.GetActiveSubscription | kotlin-tutorial/kotlin-basics/src/test/kotlin/coding/babya/me/take/tour/intermediate/NullSafety.kt:342-345 | a returned subscription is one of the list's and is active |
| IntermediateNullSafety.ActiveSubscriptionIsTheOnlyActive | kotlin-tutorial/kotlin-basics/src/test/kotlin/coding/babya/me/take/tour/intermediate/NullSafety.kt:344 | a subscription is returned exactly when exactly one is active, and it is that one |
| IntermediateNullSafety.ActiveSubscriptionExamples | kotlin-tutorial/kotlin-basics/src/test/kotlin/coding/babya/me/take/tour/intermediate/NullSafety.kt:347-363 | Premium Plan for the first user; null for the conflicting plans |
| IntermediateNullSafety.GetActiveUsernames | kotlin-tutorial/kotlin-basics/src/test/kotlin/coding/babya/me/take/tour/intermediate/NullSafety.kt:376-382 | no more names than users |
| IntermediateNullSafety.ActiveUsernamesInOrder | kotlin-tutorial/kotlin-basics/src/test/kotlin/coding/babya/me/take/tour/intermediate/NullSafety.kt:377-381 | exactly the usernames of the active users, in their original order |
| IntermediateNullSafety.ActiveUsernamesExample | kotlin-tutorial/kotlin-basics/src/test/kotlin/coding/babya/me/take/tour/intermediate/NullSafety.kt:384-393 | the three example users give [alice123, charlie99] |
| IntermediateNullSafety.ValidateStock | kotlin-tutorial/kotlin-basics/src/test/kotlin/coding/babya/me/take/tour/intermediate/NullSafety.kt:410-418 | -1 exactly for a null request, a null stock, a negative request or a request above the stock; otherwise the request, which then lies in 0..available |
| PropertiesStudy.ReplaceFirstCharUppercase | kotlin-tutorial/kotlin-basics/src/test/kotlin/coding/babya/me/take/tour/intermediate/PropertiesStudy.kt:95 | same length; the first character is the upper-case form of the old one, so no longer lower-case, and the rest is unchanged; text whose first character is not lower-case is left alone |
| PropertiesStudy.ReplaceFirstCharIdempotent | kotlin-tutorial/kotlin-basics/src/test/kotlin/coding/babya/me/take/tour/intermediate/PropertiesStudy.kt:95 | capitalising twice is capitalising once |
| PropertiesStudy.CapitalizingPerson.constructor | kotlin-tutorial/kotlin-basics/src/test/kotlin/coding/babya/me/take/tour/intermediate/PropertiesStudy.kt:92-93 | a new person's name is "" |
| PropertiesStudy.CapitalizingPerson.SetName | kotlin-tutorial/kotlin-basics/src/test/kotlin/coding/babya/me/take/tour/intermediate/PropertiesStudy.kt:94-96 | the setter stores the value with its first character upper-cased |
| PropertiesStudy.BackingFieldExample | kotlin-tutorial/kotlin-basics/src/test/kotlin/coding/babya/me/take/tour/intermediate/PropertiesStudy.kt:99-102 | assigning "kodee" stores "Kodee" |
| PropertiesStudy.FullNameSplits | kotlin-tutorial/kotlin-basics/src/test/kotlin/coding/babya/me/take/tour/intermediate/PropertiesStudy.kt:125-126 | `fullName` loses nothing when the first name has no space: splitting at the first space gives back both names |
| PropertiesStudy.FullName | kotlin-tutorial/kotlin-basics/src/test/kotlin/coding/babya/me/take/tour/intermediate/PropertiesStudy.kt:125-126 | the first name, one space and the last name, in that order |
| PropertiesStudy.FullNameExample | kotlin-tutorial/kotlin-basics/src/test/kotlin/coding/babya/me/take/tour/intermediate/PropertiesStudy.kt:134-139 | John Doe's full name is "John Doe" |
| PropertiesStudy.CachedStringDelegate.constructor | kotlin-tutorial/kotlin-basics/src/test/kotlin/coding/babya/me/take/tour/intermediate/PropertiesStudy.kt:225-226 | the cache starts empty |
| PropertiesStudy.CachedStringDelegate.GetValue | kotlin-tutorial/kotlin-basics/src/test/kotlin/coding/babya/me/take/tour/intermediate/PropertiesStudy.kt:228-236 | the first call caches "firstName lastName" and prints "Computed and cached: " before it; later calls keep the cache and print "Accessed from cache: " before it; the result is always the cached value, never "Unknown" |
| PropertiesStudy.User.constructor | kotlin-tutorial/kotlin-basics/src/test/kotlin/coding/babya/me/take/tour/intermediate/PropertiesStudy.kt:222-223 | a user with those names and a fresh, empty delegate |
| PropertiesStudy.User.DisplayName | kotlin-tutorial/kotlin-basics/src/test/kotlin/coding/babya/me/take/tour/intermediate/PropertiesStudy.kt:222-223 | `displayName` is the full name, cached after the first read; the line printed says whether it was computed or taken from the cache |
| PropertiesStudy.DelegatedPractice | kotlin-tutorial/kotlin-basics/src/test/kotlin/coding/babya/me/take/tour/intermediate/PropertiesStudy.kt:240-255 | the demo prints "Computed and cached: John Doe", "John Doe", "Accessed from cache: John Doe", "John Doe" |
| PropertiesStudy.OutOfStockFrom | kotlin-tutorial/kotlin-basics/src/test/kotlin/coding/babya/me/take/tour/intermediate/PropertiesStudy.kt:382-389 | no more indices than inventory entries |
| PropertiesStudy.OutOfStockFromIsExact | kotlin-tutorial/kotlin-basics/src/test/kotlin/coding/babya/me/take/tour/intermediate/PropertiesStudy.kt:382-389 | exactly the indices whose stock is <= 0, in increasing order |
| PropertiesStudy.FindOutOfStockBooks | kotlin-tutorial/kotlin-basics/src/test/kotlin/coding/babya/me/take/tour/intermediate/PropertiesStudy.kt:380-390 | the `forEachIndexed` loop returns those indices |
| PropertiesStudy.OutOfStockExample | kotlin-tutorial/kotlin-basics/src/test/kotlin/coding/babya/me/take/tour/intermediate/PropertiesStudy.kt:393-395 | [3, 0, 7, 0, 5] gives [1, 3] |
| PropertiesStudy.BudgetObserver | kotlin-tutorial/kotlin-basics/src/test/kotlin/coding/babya/me/take/tour/intermediate/PropertiesStudy.kt:477-483 | the observer body: a warning exactly below 20% of the total; good news exactly for an increase at or above 20%; nothing otherwise |
| PropertiesStudy.Budget.constructor | kotlin-tutorial/kotlin-basics/src/test/kotlin/coding/babya/me/take/tour/intermediate/PropertiesStudy.kt:464-477 | the remaining budget starts at the total budget, with no notice printed |
| PropertiesStudy.Budget.SetRemainingBudget | kotlin-tutorial/kotlin-basics/src/test/kotlin/coding/babya/me/take/tour/intermediate/PropertiesStudy.kt:477-483 | as written: the assignment stores the value, and no notice is ever printed because the observer only builds a lambda |
| PropertiesStudy.Budget.SetRemainingBudgetObserved | kotlin-tutorial/kotlin-basics/src/test/kotlin/coding/babya/me/take/tour/intermediate/PropertiesStudy.kt:477-483 | as intended: the value is stored and the observer's notice, if any, is printed |
| PropertiesStudy.BudgetExample | kotlin-tutorial/kotlin-basics/src/test/kotlin/coding/babya/me/take/tour/intermediate/PropertiesStudy.kt:486-495 | the example prints nothing as written, and Warning(150), Warning(50), GoodNews(300) as intended |
| BeginnerFunctions.Sum | kotlin-tutorial/kotlin-basics/src/test/kotlin/coding/babya/me/take/tour/beginner/Functions.kt:49-51 | `x + y` as an `Int`: the true sum when it fits |
| BeginnerFunctions.SumCommutes | kotlin-tutorial/kotlin-basics/src/test/kotlin/coding/babya/me/take/tour/beginner/Functions.kt:49-51 | the order of the arguments does not matter, even when the sum wraps |
| BeginnerFunctions.MultipleNamedFunWrapsOnce | kotlin-tutorial/kotlin-basics/src/test/kotlin/coding/babya/me/take/tour/beginner/Functions.kt:97-99 | `a + b + c` wraps once, as the wrapped true sum |
| BeginnerFunctions.MultipleNamedFun | kotlin-tutorial/kotlin-basics/src/test/kotlin/coding/babya/me/take/tour/beginner/Functions.kt:97-99 | the result is an `Int`, and the true sum a + b + c whenever neither addition overflows |
| BeginnerFunctions.MultipleNamedFunDefaults | kotlin-tutorial/kotlin-basics/src/test/kotlin/coding/babya/me/take/tour/beginner/Functions.kt:97-106 | with the defaults, or with only b = 2 given, the result is 6 |
| BeginnerFunctions.IntervalInSecondsIsTotal | kotlin-tutorial/kotlin-basics/src/test/kotlin/coding/babya/me/take/tour/beginner/Functions.kt:206-207 | `((h * 60) + m) * 60 + s` is the wrapped `3600h + 60m + s` |
| BeginnerFunctions.IntervalInSeconds | kotlin-tutorial/kotlin-basics/src/test/kotlin/coding/babya/me/take/tour/beginner/Functions.kt:206-207 | the result is an `Int`, and with no hours and no minutes it is the seconds given |
| BeginnerFunctions.IntervalInSecondsExamples | kotlin-tutorial/kotlin-basics/src/test/kotlin/coding/babya/me/take/tour/beginner/Functions.kt:210-215 | the six example calls give 4815, 85, 7200, 10, 3601 and 60 |
| BeginnerFunctions.ToSecondsScales | kotlin-tutorial/kotlin-basics/src/test/kotlin/coding/babya/me/take/tour/beginner/Functions.kt:369-374 | "hour" multiplies by 3600, "minute" by 60, any other string is the identity |
| BeginnerFunctions.ToSeconds | kotlin-tutorial/kotlin-basics/src/test/kotlin/coding/babya/me/take/tour/beginner/Functions.kt:369-374 | the "hour" and "minute" converters give `Int`s; every other unit, "second" included, gives back its value |
| BeginnerFunctions.MinutesToSecondsExample | kotlin-tutorial/kotlin-basics/src/test/kotlin/coding/babya/me/take/tour/beginner/Functions.kt:376-379 | [2, 10, 15, 1] minutes is 1680 seconds |
| BeginnerFunctions.Registry.constructor | kotlin-tutorial/kotlin-basics/src/test/kotlin/coding/babya/me/take/tour/beginner/Functions.kt:150-153 | the registry starts with the two known users, as equally long lists without repeats |
| BeginnerFunctions.Registry.RegisterUser | kotlin-tutorial/kotlin-basics/src/test/kotlin/coding/babya/me/take/tour/beginner/Functions.kt:155-171 | the username is checked before the email; a rejection changes neither list; a success appends both at the end and names the user; the lists stay equally long and free of repeats |
| BeginnerFunctions.EarlyReturnExample | kotlin-tutorial/kotlin-basics/src/test/kotlin/coding/babya/me/take/tour/beginner/Functions.kt:173-176 | "john_doe" is rejected as taken, and "new_user" is registered |
| BeginnerFunctions.RepeatN | kotlin-tutorial/kotlin-basics/src/test/kotlin/coding/babya/me/take/tour/beginner/Functions.kt:434-438 | the loop applies the action exactly max(n, 0) times |
| BeginnerFunctions.IteratePrintsLines | kotlin-tutorial/kotlin-basics/src/test/kotlin/coding/babya/me/take/tour/beginner/Functions.kt:435-437 | k printing actions print k copies of the line |
| BeginnerFunctions.Iterate | kotlin-tutorial/kotlin-basics/src/test/kotlin/coding/babya/me/take/tour/beginner/Functions.kt:434-438 | running an action k > 0 times is running it once and then k - 1 more times |
| BeginnerFunctions.RepeatHelloExample | kotlin-tutorial/kotlin-basics/src/test/kotlin/coding/babya/me/take/tour/beginner/Functions.kt:441 | `repeatN(5)` prints "Hello" five times |
| Idioms.FilterStrings | kotlin-tutorial/kotlin-basics/src/test/kotlin/coding/babya/me/basic/Idioms.kt:52-55 | the list `filter` prints keeps no more strings than it is given |
| Idioms.FilterStringsKeepsAtLeastD | kotlin-tutorial/kotlin-basics/src/test/kotlin/coding/babya/me/basic/Idioms.kt:54 | it keeps exactly the strings not ordered before "d" |
| Idioms.FilterStringsExample | kotlin-tutorial/kotlin-basics/src/test/kotlin/coding/babya/me/basic/Idioms.kt:492 | ["a", "b", "c", "d"] keeps ["d"] |
| Idioms.FilterStringsPrintsExample | kotlin-tutorial/kotlin-basics/src/test/kotlin/coding/babya/me/basic/Idioms.kt:492 | `filter(listOf("a","b","c","d"))` prints the line "[d]" |
| Idioms.FilterRange | kotlin-tutorial/kotlin-basics/src/test/kotlin/coding/babya/me/basic/Idioms.kt:60-62 | every number in the list `filter` prints is at least 5 |
| Idioms.FilterRangeIsRange | kotlin-tutorial/kotlin-basics/src/test/kotlin/coding/babya/me/basic/Idioms.kt:61-62 | what is kept of `lo..hi` is the range from max(lo, 5) to hi, so `0..20` keeps 5..20 |
| Idioms.FilterRangePrintsExample | kotlin-tutorial/kotlin-basics/src/test/kotlin/coding/babya/me/basic/Idioms.kt:494 | `filter(0..20)` prints `List.toString()` of the texts "5", "6", ..., "20" |
| Idioms.Transform | kotlin-tutorial/kotlin-basics/src/test/kotlin/coding/babya/me/basic/Idioms.kt:294-301 | a code in 0..2, or IllegalArgumentException("Invalid color param value") |
| Idioms.TransformInvertsColorName | kotlin-tutorial/kotlin-basics/src/test/kotlin/coding/babya/me/basic/Idioms.kt:294-301 | `transform` is the inverse of naming a colour code |
| Idioms.ColorName | kotlin-tutorial/kotlin-basics/src/test/kotlin/coding/babya/me/basic/Idioms.kt:294-301 | `transform` maps the name of a colour code back to that code |
| Idioms.TransformAcceptsOnlyColors | kotlin-tutorial/kotlin-basics/src/test/kotlin/coding/babya/me/basic/Idioms.kt:295-299 | it succeeds exactly on "Red", "Green" and "Blue" |
| Idioms.Foo | kotlin-tutorial/kotlin-basics/src/test/kotlin/coding/babya/me/basic/Idioms.kt:322-324 | false exactly when param == 2 |
| Idioms.Fill | kotlin-tutorial/kotlin-basics/src/test/kotlin/coding/babya/me/basic/Idioms.kt:338 | `fill(v)` sets every element to v |
| Idioms.ArrayOfMinusOnes | kotlin-tutorial/kotlin-basics/src/test/kotlin/coding/babya/me/basic/Idioms.kt:334-340 | as written: an array of the requested size whose elements are all 1; NegativeArraySizeException for a negative size |
| Idioms.ArrayOfMinusOnesFixed | kotlin-tutorial/kotlin-basics/src/test/kotlin/coding/babya/me/basic/Idioms.kt:334-340 | as the name promises: an array of the requested size whose elements are all -1 |
| Idioms.ArrayOfMinusOnesExample | kotlin-tutorial/kotlin-basics/src/test/kotlin/coding/babya/me/basic/Idioms.kt:583 | `arrayOfMinusOnes(3)` holds [1, 1, 1]; the corrected version holds [-1, -1, -1] |
| Idioms.CamelStep | kotlin-tutorial/kotlin-basics/src/test/kotlin/coding/babya/me/basic/Idioms.kt:187 | one step of the left-to-right match of `_(.)?` consumes at least one character |
| Idioms.CamelGroup | kotlin-tutorial/kotlin-basics/src/test/kotlin/coding/babya/me/basic/Idioms.kt:187 | the group `(.)?` captures at most one character |
| Idioms.CamelGroups | kotlin-tutorial/kotlin-basics/src/test/kotlin/coding/babya/me/basic/Idioms.kt:187 | the lambda prints one group per match, so no more lines than characters |
| Idioms.CamelGroupsNoUnderscore | kotlin-tutorial/kotlin-basics/src/test/kotlin/coding/babya/me/basic/Idioms.kt:187 | text without "_" has no match and prints nothing |
| Idioms.CamelGroupsConcat | kotlin-tutorial/kotlin-basics/src/test/kotlin/coding/babya/me/basic/Idioms.kt:187 | the printed groups of a concatenation are those of its parts when the first part does not end in "_" |
| Idioms.CamelGroupsPrintPair | kotlin-tutorial/kotlin-basics/src/test/kotlin/coding/babya/me/basic/Idioms.kt:187 | a "_" followed by a character prints that character between the groups of the text around it |
| Idioms.SpaceToCamelCasePrintsGroups | kotlin-tutorial/kotlin-basics/src/test/kotlin/coding/babya/me/basic/Idioms.kt:517 | "abc_defg".spaceToCamelCase() prints the single line "d" |
| Idioms.SpaceToCamelCase | kotlin-tutorial/kotlin-basics/src/test/kotlin/coding/babya/me/basic/Idioms.kt:186-188 | the result is never longer than the input |
| Idioms.SpaceToCamelCaseShortens | kotlin-tutorial/kotlin-basics/src/test/kotlin/coding/babya/me/basic/Idioms.kt:186-188 | the result is never longer than the input, and text without "_" is unchanged |
| Idioms.SpaceToCamelCaseConcat | kotlin-tutorial/kotlin-basics/src/test/kotlin/coding/babya/me/basic/Idioms.kt:187 | the replacement works piece by piece across a cut not preceded by "_" |
| Idioms.SpaceToCamelCaseReplacesPair | kotlin-tutorial/kotlin-basics/src/test/kotlin/coding/babya/me/basic/Idioms.kt:187 | "_" followed by a character other than a line terminator becomes that character upper-cased |
| Idioms.SpaceToCamelCaseExample | kotlin-tutorial/kotlin-basics/src/test/kotlin/coding/babya/me/basic/Idioms.kt:517 | "abc_defg" becomes "abcDefg" |
| Idioms.Swap | kotlin-tutorial/kotlin-basics/src/test/kotlin/coding/babya/me/basic/Idioms.kt:463-472 | `a = b.also { b = a }` exchanges a and b, and the printed line " a: $a, b: $b" shows the exchanged values |
| Idioms.SwapExample | kotlin-tutorial/kotlin-basics/src/test/kotlin/coding/babya/me/basic/Idioms.kt:463-472 | `swap()` from a = 1, b = 2 prints " a: 2, b: 1" |
| Idioms.TheAnswer2 | kotlin-tutorial/kotlin-basics/src/test/kotlin/coding/babya/me/basic/Idioms.kt:356-362 | the `is Int` branch is taken exactly for an `Int`, and the `!is Int` branch exactly otherwise |
| Idioms.TheAnswer2OnlyTypeBranches | kotlin-tutorial/kotlin-basics/src/test/kotlin/coding/babya/me/basic/Idioms.kt:356-362 | the `3`, `in`, `!in` and `else` branches are unreachable |
| PrimeSieve.SieveRoundMembers | kotlin-tutorial/kotlin-coroutine/src/test/kotlin/club/smileboy/app/Channel_10Tests.kt:179-186 | a round prints the head and keeps exactly the rest of the stream that the head does not divide |
| PrimeSieve.SieveRound | kotlin-tutorial/kotlin-coroutine/src/test/kotlin/club/smileboy/app/Channel_10Tests.kt:177-187 | a round prints at most one value and keeps what was printed; on a live stream it prints one and the stream shrinks |
| PrimeSieve.PrimeLineReadsBack | kotlin-tutorial/kotlin-coroutine/src/test/kotlin/club/smileboy/app/Channel_10Tests.kt:180 | each line starts with "prime value ", and the number after it reads back as the value printed |
| PrimeSieve.Rounds | kotlin-tutorial/kotlin-coroutine/src/test/kotlin/club/smileboy/app/Channel_10Tests.kt:177-188 | every value left in the stream is at least 2 |
| PrimeSieve.InitialStreamIsRange | kotlin-tutorial/kotlin-coroutine/src/test/kotlin/club/smileboy/app/Channel_10Tests.kt:171-175 | the initial iterator yields exactly 2..999, increasing |
| PrimeSieve.InitialState | kotlin-tutorial/kotlin-coroutine/src/test/kotlin/club/smileboy/app/Channel_10Tests.kt:171-175 | the sieve invariant holds before the first round |
| PrimeSieve.StepKeepsStream | kotlin-tutorial/kotlin-coroutine/src/test/kotlin/club/smileboy/app/Channel_10Tests.kt:182-186 | filtering keeps the stream increasing and made of the numbers no printed value divides |
| PrimeSieve.HeadIsPrime | kotlin-tutorial/kotlin-coroutine/src/test/kotlin/club/smileboy/app/Channel_10Tests.kt:179-180 | the head of the stream is prime |
| PrimeSieve.SieveStep | kotlin-tutorial/kotlin-coroutine/src/test/kotlin/club/smileboy/app/Channel_10Tests.kt:179-186 | a round preserves the sieve invariant |
| PrimeSieve.RoundsKeepState | kotlin-tutorial/kotlin-coroutine/src/test/kotlin/club/smileboy/app/Channel_10Tests.kt:177-188 | the invariant holds after any number of rounds |
| PrimeSieve.SievePrintsThePrimes | kotlin-tutorial/kotlin-coroutine/src/test/kotlin/club/smileboy/app/Channel_10Tests.kt:177-188 | below the last printed value, a number has been printed exactly when it is prime |
| PrimeSieve.PrintedNotMultiplesOfEarlier | kotlin-tutorial/kotlin-coroutine/src/test/kotlin/club/smileboy/app/Channel_10Tests.kt:180-184 | no printed value is divisible by an earlier one |
| PrimeSieve.ExhaustedRoundChangesNothing | kotlin-tutorial/kotlin-coroutine/src/test/kotlin/club/smileboy/app/Channel_10Tests.kt:178 | a round on an exhausted stream prints nothing and changes nothing |
| PrimeSieve.NextPrimeIsHead | kotlin-tutorial/kotlin-coroutine/src/test/kotlin/club/smileboy/app/Channel_10Tests.kt:179-180 | after printing the first j primes, the head of the stream is the next prime |
| PrimeSieve.RoundsPrintFirstPrimes | kotlin-tutorial/kotlin-coroutine/src/test/kotlin/club/smileboy/app/Channel_10Tests.kt:177-188 | after k <= 10 rounds, the first k primes have been printed |
| PrimeSieve.PrimeNumbersWithPipeline | kotlin-tutorial/kotlin-coroutine/src/test/kotlin/club/smileboy/app/Channel_10Tests.kt:171-188 | the `repeat(10)` loop prints 2, 3, 5, 7, 11, 13, 17, 19, 23, 29, as the lines "prime value N" |
| PrimeSieve.RepeatRounds | kotlin-tutorial/kotlin-coroutine/src/test/kotlin/club/smileboy/app/Channel_10Tests.kt:177-187 | the `repeat(10)` loop prints the values of ten sieve rounds, one "prime value N" line per value |
| PrimeSieve.PipelinePrintsFirstTenPrimes | kotlin-tutorial/kotlin-coroutine/src/test/kotlin/club/smileboy/app/Channel_10Tests.kt:177-180 | the ten printed values are exactly the primes below 30 |
| RangeControlFlow.EatCakes | kotlin-tutorial/kotlin-basics/src/test/kotlin/coding/babya/me/take/tour/beginner/RangeCF.kt:84-88 | the while loop runs three times and ends with `cakesEaten` == 3 |
| RangeControlFlow.BakeCakes | kotlin-tutorial/kotlin-basics/src/test/kotlin/coding/babya/me/take/tour/beginner/RangeCF.kt:110-113 | the do-while bakes at least once, and as many as were eaten |
| RangeControlFlow.DoWhileLoop | kotlin-tutorial/kotlin-basics/src/test/kotlin/coding/babya/me/take/tour/beginner/RangeCF.kt:104-118 | both counters end at 3, after three "Eat" lines and three "Bake" lines |
| RangeControlFlow.CountPizzaSlices | kotlin-tutorial/kotlin-basics/src/test/kotlin/coding/babya/me/take/tour/beginner/RangeCF.kt:149-156 | eight increments, one line per slice, then the whole-pizza line |
| RangeControlFlow.FizzbuzzClassifies | kotlin-tutorial/kotlin-basics/src/test/kotlin/coding/babya/me/take/tour/beginner/RangeCF.kt:183-188 | "fizzbuzz" exactly for multiples of 3 and 5; "fizz" for other multiples of 3; "buzz" for other multiples of 5; the number otherwise |
| RangeControlFlow.Fizzbuzz | kotlin-tutorial/kotlin-basics/src/test/kotlin/coding/babya/me/take/tour/beginner/RangeCF.kt:183-188 | the number itself exactly when it is divisible by neither 3 nor 5; a word otherwise |
| RangeControlFlow.MultipleOfFifteen | kotlin-tutorial/kotlin-basics/src/test/kotlin/coding/babya/me/take/tour/beginner/RangeCF.kt:184-186 | a multiple of 15 is exactly a multiple of both 3 and 5, so the branch order never yields "fizz" or "buzz" for one |
| RangeControlFlow.FizzbuzzPass | kotlin-tutorial/kotlin-basics/src/test/kotlin/coding/babya/me/take/tour/beginner/RangeCF.kt:181-190 | one pass of the inner loop: 100 lines, line i classifying i + 1 |
| RangeControlFlow.PassesRepeatThePass | kotlin-tutorial/kotlin-basics/src/test/kotlin/coding/babya/me/take/tour/beginner/RangeCF.kt:166-191 | k passes repeat the same 100 lines k times |
| RangeControlFlow.Exercise2 | kotlin-tutorial/kotlin-basics/src/test/kotlin/coding/babya/me/take/tour/beginner/RangeCF.kt:165-191 | the nested loops print the pass 100 times |
| RangeControlFlow.Exercise2Output | kotlin-tutorial/kotlin-basics/src/test/kotlin/coding/babya/me/take/tour/beginner/RangeCF.kt:166-191 | 10000 lines, line i classifying i mod 100 + 1 |
| LambdaWithReceiver.Render | kotlin-tutorial/kotlin-basics/src/test/kotlin/coding/babya/me/take/tour/intermediate/LambdaExpressionWithReceiver.kt:44-49 | one fresh canvas; the block's drawing calls are printed in order |
| LambdaWithReceiver.RenderExample | kotlin-tutorial/kotlin-basics/src/test/kotlin/coding/babya/me/take/tour/intermediate/LambdaExpressionWithReceiver.kt:72-76 | the circle is printed, then the square |
| LambdaWithReceiver.Menu.constructor | kotlin-tutorial/kotlin-basics/src/test/kotlin/coding/babya/me/take/tour/intermediate/LambdaExpressionWithReceiver.kt:87-88 | a new menu has its name and no items |
| LambdaWithReceiver.Menu.Item | kotlin-tutorial/kotlin-basics/src/test/kotlin/coding/babya/me/take/tour/intermediate/LambdaExpressionWithReceiver.kt:90-92 | `item(name)` appends exactly one item with that name at the end |
| LambdaWithReceiver.ItemsOf | kotlin-tutorial/kotlin-basics/src/test/kotlin/coding/babya/me/take/tour/intermediate/LambdaExpressionWithReceiver.kt:90-92 | one item per name, in call order |
| LambdaWithReceiver.MakeMenu | kotlin-tutorial/kotlin-basics/src/test/kotlin/coding/babya/me/take/tour/intermediate/LambdaExpressionWithReceiver.kt:95-101 | a fresh menu with that name whose items are the names `init` passes to `item`, in call order |
| LambdaWithReceiver.PrintMenu | kotlin-tutorial/kotlin-basics/src/test/kotlin/coding/babya/me/take/tour/intermediate/LambdaExpressionWithReceiver.kt:104-107 | the title line, then one indented line per item |
| LambdaWithReceiver.MenuExample | kotlin-tutorial/kotlin-basics/src/test/kotlin/coding/babya/me/take/tour/intermediate/LambdaExpressionWithReceiver.kt:109-114 | the main menu holds Home, Settings and Exit, in that order |
| LambdaWithReceiver.StringBuilder.constructor | kotlin-tutorial/kotlin-basics/src/test/kotlin/coding/babya/me/take/tour/intermediate/LambdaExpressionWithReceiver.kt:132 | the builder starts with the given text |
| LambdaWithReceiver.StringBuilder.Append | kotlin-tutorial/kotlin-basics/src/test/kotlin/coding/babya/me/take/tour/intermediate/LambdaExpressionWithReceiver.kt:138-139 | `append` adds the text at the end |
| LambdaWithReceiver.ProcessedCallback | kotlin-tutorial/kotlin-basics/src/test/kotlin/coding/babya/me/take/tour/intermediate/LambdaExpressionWithReceiver.kt:137-141 | the inner callback appends " - Processed" and prints the builder |
| LambdaWithReceiver.FetchDataProcessed | kotlin-tutorial/kotlin-basics/src/test/kotlin/coding/babya/me/take/tour/intermediate/LambdaExpressionWithReceiver.kt:131-134 | the fresh builder holds "Data received" before the callback runs |
| LambdaWithReceiver.Exercise1 | kotlin-tutorial/kotlin-basics/src/test/kotlin/coding/babya/me/take/tour/intermediate/LambdaExpressionWithReceiver.kt:130-143 | the output is the one line "Data received - Processed", and the outer builder is unchanged |
| LambdaWithReceiver.ClickMessage | kotlin-tutorial/kotlin-basics/src/test/kotlin/coding/babya/me/take/tour/intermediate/LambdaExpressionWithReceiver.kt:176-180 | "Double click" exactly for a left click with amount 2 |
| LambdaWithReceiver.OnEventDeliversDoubleClick | kotlin-tutorial/kotlin-basics/src/test/kotlin/coding/babya/me/take/tour/intermediate/LambdaExpressionWithReceiver.kt:163-180 | every handler sees a left click with amount 2, so the notes' handler prints "Double click" |
| LambdaWithReceiver.Incremented | kotlin-tutorial/kotlin-basics/src/test/kotlin/coding/babya/me/take/tour/intermediate/LambdaExpressionWithReceiver.kt:189-199 | same length; element i is the original element i plus 1, as an `Int` |
| LambdaWithReceiver.IncrementedExample | kotlin-tutorial/kotlin-basics/src/test/kotlin/coding/babya/me/take/tour/intermediate/LambdaExpressionWithReceiver.kt:201-204 | [1, 2, 3] gives [2, 3, 4] |
| SpecialClasses.GreetMammal | kotlin-tutorial/kotlin-basics/src/test/kotlin/coding/babya/me/take/tour/intermediate/OpenAndSpecialClasses.kt:163-171 | "Hello <name>" for both variants, followed by "; You're working as a <job>" exactly for a Human |
| SpecialClasses.GreetSnowy | kotlin-tutorial/kotlin-basics/src/test/kotlin/coding/babya/me/take/tour/intermediate/OpenAndSpecialClasses.kt:203-204 | the cat Snowy is greeted "Hello Snowy" |
| SpecialClasses.StateMessagesDistinct | kotlin-tutorial/kotlin-basics/src/test/kotlin/coding/babya/me/take/tour/intermediate/OpenAndSpecialClasses.kt:238-242 | the mapping covers every state and gives each its own message |
| SpecialClasses.StateMessage | kotlin-tutorial/kotlin-basics/src/test/kotlin/coding/babya/me/take/tour/intermediate/OpenAndSpecialClasses.kt:238-242 | every message starts with "It's " |
| SpecialClasses.ContainsRedIffRedByte | kotlin-tutorial/kotlin-basics/src/test/kotlin/coding/babya/me/take/tour/intermediate/OpenAndSpecialClasses.kt:260 | `(rgb and 0xFF0000) != 0` holds exactly when the red byte is non-zero |
| SpecialClasses.ContainsRedExamples | kotlin-tutorial/kotlin-basics/src/test/kotlin/coding/babya/me/take/tour/intermediate/OpenAndSpecialClasses.kt:257-281 | RED and YELLOW contain red; GREEN and BLUE do not |
| SpecialClasses.ContainsRed | kotlin-tutorial/kotlin-basics/src/test/kotlin/coding/babya/me/take/tour/intermediate/OpenAndSpecialClasses.kt:260 | exactly RED and YELLOW contain red |
| SpecialClasses.DeliveryMessagesDistinct | kotlin-tutorial/kotlin-basics/src/test/kotlin/coding/babya/me/take/tour/intermediate/OpenAndSpecialClasses.kt:340-357 | two statuses of different variants never print the same line, and a one-field variant's line determines its field |
| SpecialClasses.DeliveryMessage | kotlin-tutorial/kotlin-basics/src/test/kotlin/coding/babya/me/take/tour/intermediate/OpenAndSpecialClasses.kt:340-357 | every delivery line ends with "." |
| SpecialClasses.DeliveryMessageMark | kotlin-tutorial/kotlin-basics/src/test/kotlin/coding/babya/me/take/tour/intermediate/OpenAndSpecialClasses.kt:340-357 | a fixed character of each line tells the four variants apart |
| SpecialClasses.HandleStatusDistinct | kotlin-tutorial/kotlin-basics/src/test/kotlin/coding/babya/me/take/tour/intermediate/OpenAndSpecialClasses.kt:401-410 | Loading, OK and each of the three problems print different lines |
| SpecialClasses.HandleStatus | kotlin-tutorial/kotlin-basics/src/test/kotlin/coding/babya/me/take/tour/intermediate/OpenAndSpecialClasses.kt:401-410 | the line ends with "]" exactly when data was received |
| SpecialClasses.HandleStatusExamples | kotlin-tutorial/kotlin-basics/src/test/kotlin/coding/babya/me/take/tour/intermediate/OpenAndSpecialClasses.kt:412-419 | "Network issue" and "Data received: [Data1, Data2]" |
| ScopeFunctions.SafeLet | kotlin-tutorial/kotlin-basics/src/test/kotlin/coding/babya/me/take/tour/intermediate/ScopeFunctions.kt:68-72 | `x?.let(f)` is null exactly for a null x, and otherwise `f(x)` |
| ScopeFunctions.SendNotification | kotlin-tutorial/kotlin-basics/src/test/kotlin/coding/babya/me/take/tour/intermediate/ScopeFunctions.kt:42-45 | prints "Yo " + the address + "!" and returns "Notification sent!" |
| ScopeFunctions.ConfirmIfElse | kotlin-tutorial/kotlin-basics/src/test/kotlin/coding/babya/me/take/tour/intermediate/ScopeFunctions.kt:63-66 | a confirmation exactly when the address is not null, and then "Notification sent!" |
| ScopeFunctions.LetMatchesIfElse | kotlin-tutorial/kotlin-basics/src/test/kotlin/coding/babya/me/take/tour/intermediate/ScopeFunctions.kt:63-72 | the `let` spellings and the if/else form agree for every address, in the confirmation and in the line printed |
| ScopeFunctions.NextAddressIsNotified | kotlin-tutorial/kotlin-basics/src/test/kotlin/coding/babya/me/take/tour/intermediate/ScopeFunctions.kt:47-72 | the next address is never null, so "Yo sebastian@jetbrains.com!" is printed and the confirmation is "Notification sent!" |
| ScopeFunctions.ReversedLongUppercaseMembers | kotlin-tutorial/kotlin-basics/src/test/kotlin/coding/babya/me/take/tour/intermediate/ScopeFunctions.kt:194-205 | the result holds exactly the upper-cased medals longer than four UTF-16 code units |
| ScopeFunctions.UppercaseKeepsLength | kotlin-tutorial/kotlin-basics/src/test/kotlin/coding/babya/me/take/tour/intermediate/ScopeFunctions.kt:197-200 | upper-casing keeps UTF-16 lengths, so filtering before or after it keeps the same medals |
| ScopeFunctions.MedalsExample | kotlin-tutorial/kotlin-basics/src/test/kotlin/coding/babya/me/take/tour/intermediate/ScopeFunctions.kt:194-205 | [GOLD, SILVER, BRONZE] after `map`, [SILVER, BRONZE] after `filter`, [BRONZE, SILVER] at the end, with lengths in UTF-16 code units |
| ScopeFunctions.ReversedLongUppercase | kotlin-tutorial/kotlin-basics/src/test/kotlin/coding/babya/me/take/tour/intermediate/ScopeFunctions.kt:194-203 | the pipeline keeps no more medals than it is given |
| ScopeFunctions.MedalsOutput | kotlin-tutorial/kotlin-basics/src/test/kotlin/coding/babya/me/take/tour/intermediate/ScopeFunctions.kt:194-204 | three lines are printed, the last being the pipeline's result |
| ScopeFunctions.MedalsPrinted | kotlin-tutorial/kotlin-basics/src/test/kotlin/coding/babya/me/take/tour/intermediate/ScopeFunctions.kt:194-205 | the demo prints [GOLD, SILVER, BRONZE], [SILVER, BRONZE] and [BRONZE, SILVER] |
| ScopeFunctions.GetPriceInEuros | kotlin-tutorial/kotlin-basics/src/test/kotlin/coding/babya/me/take/tour/intermediate/ScopeFunctions.kt:349 | null exactly when the product info or its price is null; otherwise the converted price |
| ScopeFunctions.GetPriceInEurosStepwise | kotlin-tutorial/kotlin-basics/src/test/kotlin/coding/babya/me/take/tour/intermediate/ScopeFunctions.kt:341-347 | the step-by-step original agrees with the safe-call chain on every input |
| ScopeFunctions.PriceInEurosExample | kotlin-tutorial/kotlin-basics/src/test/kotlin/coding/babya/me/take/tour/intermediate/ScopeFunctions.kt:331-358 | a price of 100.0 gives 85.0 |
| ScopeFunctions.User.constructor | kotlin-tutorial/kotlin-basics/src/test/kotlin/coding/babya/me/take/tour/intermediate/ScopeFunctions.kt:367 | a user with that id and email |
| ScopeFunctions.UpdateEmail | kotlin-tutorial/kotlin-basics/src/test/kotlin/coding/babya/me/take/tour/intermediate/ScopeFunctions.kt:370-372 | the same instance comes back with the new email, and the log line names its id |
| ScopeFunctions.Exercise2 | kotlin-tutorial/kotlin-basics/src/test/kotlin/coding/babya/me/take/tour/intermediate/ScopeFunctions.kt:374-379 | user 1 gets "new_email@example.com" and the log line names id 1 |
| BasicSyntax.TopLevel.constructor | kotlin-tutorial/kotlin-basics/src/test/kotlin/coding/babya/me/basic/BasicSyntax.kt:148-150 | PI is 3.14 and x starts at 0 |
| BasicSyntax.TopLevel.IncrementX | kotlin-tutorial/kotlin-basics/src/test/kotlin/coding/babya/me/basic/BasicSyntax.kt:152-154 | x grows by exactly 1 (wrapping at `Int.MAX_VALUE`), and PI is unchanged |
| BasicSyntax.IncrementXExample | kotlin-tutorial/kotlin-basics/src/test/kotlin/coding/babya/me/basic/BasicSyntax.kt:156-160 | after one call x is 1 and PI is 3.14 |
| BasicSyntax.MaxOf | kotlin-tutorial/kotlin-basics/src/test/kotlin/coding/babya/me/basic/BasicSyntax.kt:230-232 | the result is one of the arguments and no smaller than either |
| BasicSyntax.MaxOf1 | kotlin-tutorial/kotlin-basics/src/test/kotlin/coding/babya/me/basic/BasicSyntax.kt:234-240 | the statement form agrees with the expression form |
| BasicSyntax.Describe | kotlin-tutorial/kotlin-basics/src/test/kotlin/coding/babya/me/basic/BasicSyntax.kt:264-270 | one of the five answers, and "Unknown" only for a `String` |
| BasicSyntax.DescribeBranches | kotlin-tutorial/kotlin-basics/src/test/kotlin/coding/babya/me/basic/BasicSyntax.kt:264-270 | "one", "Greeting", "Long", "Not a string" and "Unknown" each for exactly the inputs the branch order leaves them |
| BasicSyntax.StepUp | kotlin-tutorial/kotlin-basics/src/test/kotlin/coding/babya/me/basic/BasicSyntax.kt:310 | `first..last step s` throws IllegalArgumentException exactly for s <= 0 |
| BasicSyntax.StepDown | kotlin-tutorial/kotlin-basics/src/test/kotlin/coding/babya/me/basic/BasicSyntax.kt:316 | `first downTo last step s` throws IllegalArgumentException exactly for s <= 0 |
| BasicSyntax.Progression | kotlin-tutorial/kotlin-basics/src/test/kotlin/coding/babya/me/basic/BasicSyntax.kt:310 | empty exactly when first > last; every element lies between first and last |
| BasicSyntax.DownProgression | kotlin-tutorial/kotlin-basics/src/test/kotlin/coding/babya/me/basic/BasicSyntax.kt:316-324 | empty exactly when first < last; every element lies between last and first |
| BasicSyntax.ProgressionElements | kotlin-tutorial/kotlin-basics/src/test/kotlin/coding/babya/me/basic/BasicSyntax.kt:310-312 | empty exactly when first > last; element i is first + i·step; the last element lies within one step below last |
| BasicSyntax.DownProgressionElements | kotlin-tutorial/kotlin-basics/src/test/kotlin/coding/babya/me/basic/BasicSyntax.kt:316-324 | empty exactly when first < last; element i is first − i·step; the last element lies within one step above last |
| BasicSyntax.PrintStepUp | kotlin-tutorial/kotlin-basics/src/test/kotlin/coding/babya/me/basic/BasicSyntax.kt:310-312 | the loop prints the progression's elements in order |
| BasicSyntax.PrintStepDown | kotlin-tutorial/kotlin-basics/src/test/kotlin/coding/babya/me/basic/BasicSyntax.kt:316-318 | the loop prints the down progression's elements in order |
| BasicSyntax.RangeExamples | kotlin-tutorial/kotlin-basics/src/test/kotlin/coding/babya/me/basic/BasicSyntax.kt:310-324 | `1..10 step 2` is 1, 3, 5, 7, 9; `9 downTo 0 step 3` is 9, 6, 3, 0; `9 downTo 100` is empty |
| BasicSyntax.PrintProduct | kotlin-tutorial/kotlin-basics/src/test/kotlin/coding/babya/me/basic/BasicSyntax.kt:368-377 | when both arguments parse, the line printed reads back as their `Int` product |
| BasicSyntax.PrintProduct1 | kotlin-tutorial/kotlin-basics/src/test/kotlin/coding/babya/me/basic/BasicSyntax.kt:381-385 | when only the second argument fails, the "are null" line is printed |
| BasicSyntax.PrintProduct1Fixed | kotlin-tutorial/kotlin-basics/src/test/kotlin/coding/babya/me/basic/BasicSyntax.kt:381-385 | whenever either argument fails, the "are null" line is printed |
| BasicSyntax.PrintProductPrintsProductIffBothParse | kotlin-tutorial/kotlin-basics/src/test/kotlin/coding/babya/me/basic/BasicSyntax.kt:368-377 | the product is printed exactly when both arguments parse, and otherwise the "are null" message is printed |
| BasicSyntax.PrintProduct1Agreement | kotlin-tutorial/kotlin-basics/src/test/kotlin/coding/babya/me/basic/BasicSyntax.kt:380-385 | as written, `printProduct1` agrees with `printProduct` when the first argument parses, and prints "null" otherwise |
| BasicSyntax.PrintProduct1FixedAgrees | kotlin-tutorial/kotlin-basics/src/test/kotlin/coding/babya/me/basic/BasicSyntax.kt:380-385 | the corrected `printProduct1` agrees with `printProduct` on every input |
| BasicSyntax.PrintProduct1Discrepancy | kotlin-tutorial/kotlin-basics/src/test/kotlin/coding/babya/me/basic/BasicSyntax.kt:384 | on ("a", "2") `printProduct` prints "a or 2 are null", the code as written prints "null", and the corrected version prints "a or 2 are null" |
| BasicSyntax.GetStringLength | kotlin-tutorial/kotlin-basics/src/test/kotlin/coding/babya/me/basic/BasicSyntax.kt:401-409 | a length exactly for a `String`, and that length in UTF-16 code units |
| BasicSyntax.GetStringLength1 | kotlin-tutorial/kotlin-basics/src/test/kotlin/coding/babya/me/basic/BasicSyntax.kt:412-416 | null exactly for a non-`String`; for a `String`, its length in UTF-16 units |
| BasicSyntax.GetStringLength2 | kotlin-tutorial/kotlin-basics/src/test/kotlin/coding/babya/me/basic/BasicSyntax.kt:420-426 | a length exactly for a non-empty `String`, and that positive length in UTF-16 code units |
| BasicSyntax.GetStringLengthVariants | kotlin-tutorial/kotlin-basics/src/test/kotlin/coding/babya/me/basic/BasicSyntax.kt:401-426 | the first two variants agree everywhere; the third differs from them only on "" |
| BeginnerNullSafety.MapGet | kotlin-tutorial/kotlin-basics/src/test/kotlin/coding/babya/me/take/tour/beginner/NullSafety.kt:41 | `get` is null exactly for a key the map does not hold |
| BeginnerNullSafety.NotNull | kotlin-tutorial/kotlin-basics/src/test/kotlin/coding/babya/me/take/tour/beginner/NullSafety.kt:41 | `!!` throws NullPointerException exactly on null, and otherwise gives the value |
| BeginnerNullSafety.MissingKeyThrows | kotlin-tutorial/kotlin-basics/src/test/kotlin/coding/babya/me/take/tour/beginner/NullSafety.kt:41-42 | `mapOf(1 to "2").get(3)!!` throws, while key 1 would give "2" |
| BeginnerNullSafety.DescribeStringCases | kotlin-tutorial/kotlin-basics/src/test/kotlin/coding/babya/me/take/tour/beginner/NullSafety.kt:75-81 | the fallback exactly for null and ""; otherwise "String of length " followed by digits that read back as the UTF-16 length |
| BeginnerNullSafety.DescribeString | kotlin-tutorial/kotlin-basics/src/test/kotlin/coding/babya/me/take/tour/beginner/NullSafety.kt:75-81 | either the fallback or a line starting with "String of length " |
| BeginnerNullSafety.DescribeNullString | kotlin-tutorial/kotlin-basics/src/test/kotlin/coding/babya/me/take/tour/beginner/NullSafety.kt:83-86 | null is described as "Empty or null string" |
| BeginnerNullSafety.LengthString | kotlin-tutorial/kotlin-basics/src/test/kotlin/coding/babya/me/take/tour/beginner/NullSafety.kt:95 | null exactly for null, and otherwise the length in UTF-16 code units |
| BeginnerNullSafety.LengthOrZeroCases | kotlin-tutorial/kotlin-basics/src/test/kotlin/coding/babya/me/take/tour/beginner/NullSafety.kt:127-128 | 0 for null, and the UTF-16 length of a string otherwise |
| BeginnerNullSafety.LengthOrZero | kotlin-tutorial/kotlin-basics/src/test/kotlin/coding/babya/me/take/tour/beginner/NullSafety.kt:128 | zero exactly for null and for the empty string |
| BeginnerNullSafety.EmployeeByIdKnowsThree | kotlin-tutorial/kotlin-basics/src/test/kotlin/coding/babya/me/take/tour/beginner/NullSafety.kt:139-145 | exactly the ids 1, 3 and 4 find an employee |
| BeginnerNullSafety.EmployeeById | kotlin-tutorial/kotlin-basics/src/test/kotlin/coding/babya/me/take/tour/beginner/NullSafety.kt:139-145 | only ids 1 to 4 can find an employee, who has a name and a positive salary |
| BeginnerNullSafety.SalaryById | kotlin-tutorial/kotlin-basics/src/test/kotlin/coding/babya/me/take/tour/beginner/NullSafety.kt:148 | the employee's salary, or 0 for a missing employee |
| BeginnerNullSafety.SalarySumOfFirstFive | kotlin-tutorial/kotlin-basics/src/test/kotlin/coding/babya/me/take/tour/beginner/NullSafety.kt:151 | the salaries of ids 1..5 sum to 64 |
| KotlinLang.Wrap | kotlin-tutorial/kotlin-basics/src/test/kotlin/coding/babya/me/take/tour/beginner/Functions.kt:49-51 | 32-bit `Int` arithmetic: the result is in `Int` range, congruent to the true value, and equal to it when it fits |
| KotlinLang.ToIntOrNull | kotlin-tutorial/kotlin-basics/src/test/kotlin/coding/babya/me/basic/BasicSyntax.kt:364-365 | `toIntOrNull` gives only `Int` values |
| KotlinLang.ToIntOrNullInverts | kotlin-tutorial/kotlin-basics/src/test/kotlin/coding/babya/me/basic/BasicSyntax.kt:364-365 | every `Int`'s decimal text parses back to it |
| KotlinLang.Uppercase | kotlin-tutorial/kotlin-basics/src/test/kotlin/coding/babya/me/take/tour/intermediate/ScopeFunctions.kt:197 | `uppercase()` keeps the length and upper-cases each character |
| KotlinLang.UppercaseKeepsUnits | kotlin-tutorial/kotlin-basics/src/test/kotlin/coding/babya/me/take/tour/intermediate/ScopeFunctions.kt:197-199 | upper-casing keeps the UTF-16 length |
| KotlinLang.Length | kotlin-tutorial/kotlin-basics/src/test/kotlin/coding/babya/me/take/tour/beginner/NullSafety.kt:77 | `String.length` counts UTF-16 code units: at least one and at most two per character |
| KotlinLang.LengthOfBmp | kotlin-tutorial/kotlin-basics/src/test/kotlin/coding/babya/me/take/tour/beginner/NullSafety.kt:77 | on text without characters above U+FFFF the length is the number of characters |
| KotlinLang.LengthCountsSurrogatePairs | kotlin-tutorial/kotlin-basics/src/test/kotlin/coding/babya/me/take/tour/beginner/NullSafety.kt:77 | a character above U+FFFF counts two |
| KotlinLang.LexLessTrichotomy | kotlin-tutorial/kotlin-basics/src/test/kotlin/coding/babya/me/basic/Idioms.kt:54 | `String` comparison is a strict total order |
| KotlinCollections.JoinSplit | kotlin-tutorial/kotlin-basics/src/test/kotlin/coding/babya/me/learningmaterials/AdventOfCodePuzzles.kt:116 | joining the pieces of `split(sep)` with sep gives back the text |
| KotlinCollections.LinesIsSplitOnNewline | kotlin-tutorial/kotlin-basics/src/test/kotlin/coding/babya/me/learningmaterials/AdventOfCodePuzzles.kt:117 | on text without "\r", `lines()` is `split("\n")` |
| KotlinCollections.SplitFirstPieceIsPrefix | kotlin-tutorial/kotlin-basics/src/test/kotlin/coding/babya/me/learningmaterials/AdventOfCodePuzzles.kt:116 | the first piece of `split(sep)` is a prefix of the text, and the whole text when it is the only piece |
| KotlinCollections.SplitFirstPieceIsLeftmost | kotlin-tutorial/kotlin-basics/src/test/kotlin/coding/babya/me/learningmaterials/AdventOfCodePuzzles.kt:116 | no occurrence of the separator starts inside the first piece |
| KotlinCollections.SplitContinuesAfterSeparator | kotlin-tutorial/kotlin-basics/src/test/kotlin/coding/babya/me/learningmaterials/AdventOfCodePuzzles.kt:116 | with more than one piece, the separator follows the first piece and the other pieces are the split of what comes after it |
| KotlinCollections.SplitPiecesAvoidSeparator | kotlin-tutorial/kotlin-basics/src/test/kotlin/coding/babya/me/learningmaterials/AdventOfCodePuzzles.kt:116 | no piece of `split(sep)` contains the separator |
| KotlinCollections.ListToString | kotlin-tutorial/kotlin-basics/src/test/kotlin/coding/babya/me/take/tour/intermediate/OpenAndSpecialClasses.kt:404 | `List.toString()` is bracketed, and "[]" for the empty list |
| KotlinCollections.SortAscPermutes | kotlin-tutorial/kotlin-basics/src/test/kotlin/coding/babya/me/learningmaterials/AdventOfCodePuzzles.kt:129 | sorting keeps every element as often as it occurs |
| KotlinCollections.SortDesc | kotlin-tutorial/kotlin-basics/src/test/kotlin/coding/babya/me/learningmaterials/AdventOfCodePuzzles.kt:129 | `sortedDescending()` is descending and a permutation of its input |
| KotlinCollections.LastOfSortedIsTopN | kotlin-tutorial/kotlin-basics/src/test/kotlin/coding/babya/me/learningmaterials/AdventOfCodePuzzles.kt:129-130 | the last n of the sorted list are the n largest |
| KotlinCollections.TakeOfReverse | kotlin-tutorial/kotlin-basics/src/test/kotlin/coding/babya/me/learningmaterials/AdventOfCodePuzzles.kt:129 | taking the first k of the reversed list is reversing the last k |
| KotlinCollections.SingleOrNullIsOnlyMatch | kotlin-tutorial/kotlin-basics/src/test/kotlin/coding/babya/me/take/tour/intermediate/NullSafety.kt:344 | `singleOrNull` gives a value exactly when one element matches, and it is that element |
| KotlinCollections.MapNotNullIsFilterMap | kotlin-tutorial/kotlin-basics/src/test/kotlin/coding/babya/me/take/tour/intermediate/NullSafety.kt:377-381 | `mapNotNull` of a `takeIf` is a `filter` followed by a `map` |
| KotlinCollections.ListOfNotNullPair | kotlin-tutorial/kotlin-basics/src/test/kotlin/coding/babya/me/take/tour/intermediate/NullSafety.kt:313-316 | `listOfNotNull(a, b)` keeps a, then b, each when it is not null |
| KotlinCollections.IntSumFoldWraps | kotlin-tutorial/kotlin-basics/src/test/kotlin/coding/babya/me/take/tour/beginner/NullSafety.kt:151 | summing `Int`s one by one is the wrapped true sum |
| KotlinCollections.ReverseKeepsMultiset | kotlin-tutorial/kotlin-basics/src/test/kotlin/coding/babya/me/take/tour/intermediate/ScopeFunctions.kt:203 | `reversed()` keeps every element |
| KotlinCollections.FilterRangeAtLeast | kotlin-tutorial/kotlin-basics/src/test/kotlin/coding/babya/me/basic/Idioms.kt:61 | filtering a range with a lower bound gives a range |
| KotlinCollections.Filter | kotlin-tutorial/kotlin-basics/src/test/kotlin/coding/babya/me/basic/Idioms.kt:54 | `filter` keeps no more elements than it is given |
| KotlinCollections.FilterCounts | kotlin-tutorial/kotlin-basics/src/test/kotlin/coding/babya/me/basic/Idioms.kt:54 | `filter` keeps every element that satisfies the predicate as often as it occurs, and drops every other element |
| KotlinCollections.Map | kotlin-tutorial/kotlin-basics/src/test/kotlin/coding/babya/me/take/tour/intermediate/ScopeFunctions.kt:197 | `map` keeps the length, and element i of the result is f applied to element i |
| KotlinCollections.MapNotNull | kotlin-tutorial/kotlin-basics/src/test/kotlin/coding/babya/me/take/tour/intermediate/NullSafety.kt:377-381 | `mapNotNull` keeps no more elements than it is given |
| KotlinCollections.ListOfNotNull | kotlin-tutorial/kotlin-basics/src/test/kotlin/coding/babya/me/take/tour/intermediate/NullSafety.kt:313-316 | `listOfNotNull` keeps no more values than it is given |
| KotlinCollections.SingleOrNull | kotlin-tutorial/kotlin-basics/src/test/kotlin/coding/babya/me/take/tour/intermediate/NullSafety.kt:344 | a value from `singleOrNull` is an element of the list that matches |
| KotlinCollections.RangeClosed | kotlin-tutorial/kotlin-basics/src/test/kotlin/coding/babya/me/take/tour/beginner/NullSafety.kt:151 | `lo..hi` has hi - lo + 1 elements (none when hi < lo), and element i is lo + i |
| KotlinCollections.Take | kotlin-tutorial/kotlin-basics/src/test/kotlin/coding/babya/me/learningmaterials/AdventOfCodePuzzles.kt:129 | `take(k)` is a prefix of min(k, size) elements |
| KotlinCollections.TakeLast | kotlin-tutorial/kotlin-basics/src/test/kotlin/coding/babya/me/learningmaterials/AdventOfCodePuzzles.kt:184 | `takeLast(k)` is the suffix of min(k, size) elements |
| KotlinCollections.SortAsc | kotlin-tutorial/kotlin-basics/src/test/kotlin/coding/babya/me/learningmaterials/AdventOfCodePuzzles.kt:129 | `sorted()` keeps the length and is ascending |
| KotlinCollections.Reverse | kotlin-tutorial/kotlin-basics/src/test/kotlin/coding/babya/me/take/tour/intermediate/ScopeFunctions.kt:203 | `reversed()` keeps the length, and element i is element size - 1 - i of the input |
| KotlinCollections.SumReverse | kotlin-tutorial/kotlin-basics/src/test/kotlin/coding/babya/me/learningmaterials/AdventOfCodePuzzles.kt:129-130 | the sum does not depend on the order, so summing the descending sort is summing the ascending one |
| KotlinCollections.Split | kotlin-tutorial/kotlin-basics/src/test/kotlin/coding/babya/me/learningmaterials/AdventOfCodePuzzles.kt:116 | `split(sep)` gives at least one piece |
| KotlinCollections.Lines | kotlin-tutorial/kotlin-basics/src/test/kotlin/coding/babya/me/learningmaterials/AdventOfCodePuzzles.kt:117 | `lines()` gives at least one line |
| KotlinCollections.Insert | kotlin-tutorial/kotlin-basics/src/test/kotlin/coding/babya/me/learningmaterials/AdventOfCodePuzzles.kt:159 | `PriorityQueue.add` on the queue kept in poll order: one more element |
| KotlinCollections.InsertSorted | kotlin-tutorial/kotlin-basics/src/test/kotlin/coding/babya/me/learningmaterials/AdventOfCodePuzzles.kt:159 | `add` keeps the queue in poll order, and the smallest element is polled first |
| KotlinCollections.InsertPermutes | kotlin-tutorial/kotlin-basics/src/test/kotlin/coding/babya/me/learningmaterials/AdventOfCodePuzzles.kt:159 | `add` keeps every old element and adds x once |
| RangeControlFlow.Passes | kotlin-tutorial/kotlin-basics/src/test/kotlin/coding/babya/me/take/tour/beginner/RangeCF.kt:166-191 | k passes of the inner loop print 100 lines each |
| Wrappers.TakeIf | kotlin-tutorial/kotlin-basics/src/test/kotlin/coding/babya/me/take/tour/intermediate/NullSafety.kt:314-315 | `takeIf` keeps the value exactly when the condition holds |

## Left out

- Coroutines: everything in the coroutine tutorial except the iterator sieve in `primeNumbersWithPipeline`. Channels, flows, select, actors and cancellation are about concurrency and rely on library internals outside this model.
- The Kotlin `iterator { ... }` builder: the sieve's lazy chain of iterators is modelled as the sequence of values it will still yield. Laziness and the nesting of iterators are not modelled.
- PrimeSieve.SieveRound: requires a non-zero head, because Kotlin's `next % 0` would throw; a head of 0 never occurs in 2..999.
- Floating point: `PI` is a Dafny `real`, and `convertToEuros` is a parameter. The `Budget` 20% test is stated as `5 * newValue < totalBudget`, which is exact for `Int` values.
- I/O:
  - the resource file is a text parameter;
  - printed output of a modelled function is returned as lines beside its result; lines printed by test bodies around those functions are not modelled;
  - `println` of a list uses the "[a, b]" format.
- Randomness: `elements.random()` is an oracle function `pick` that names the pivot value; a value not in the list is replaced by the first element.
- The regex engine: `spaceToCamelCase` scans characters directly, with the regex `.` excluding line terminators. Case mapping covers ASCII only.
- PropertiesStudy.BudgetObserver: the observer's notices are the values `Warning(n)` and `GoodNews(n)`, not the "Warning: Your remaining budget (n) is below 20% of your total budget." and "Good news: Your remaining budget increased to n." lines it would print; proving equality with those long literal strings is beyond the solver's resource limit here.
- Receiver lambdas: `render`, `menu` and the Button handler are modelled by the calls they make (drawing calls, item names, the handler as a function), not by dispatch on a receiver.
- The `PriorityQueue` and `sortedSetOf` collections are kept as ascending lists (poll order / iteration order), not as heaps or trees.
- BasicSyntax.ProgressionElements: uses unbounded integers; Kotlin's `IntProgression` arithmetic near `Int.MAX_VALUE` is not modelled.
- BeginnerNullSafety.SalarySumOfFirstFive: the sum is the wrapped `Int` sum; 64 needs no wrap.
- Object identity and `toString()` of data classes (`User(id=1, email=...)`, `Subscription(...)`) are not modelled; the model returns the values themselves.
- `theAnswer2`'s printed text is not modelled; only which branch runs.
- Kotlin `toIntOrNull`: the model accepts an optional '+' or '-' sign and ASCII digits; non-ASCII digits are not modelled.
- KotlinLang.LexLessTrichotomy: `String` comparison is modelled by code points, while Kotlin compares UTF-16 code units; the two orders differ only between a character above U+FFFF and one in U+E000–U+FFFF.
- The `let` demo calls `sendNotification` four times and so prints its greeting four times; the model states the greeting per call (ScopeFunctions.SendNotification, ScopeFunctions.LetMatchesIfElse), not the demo's four-line transcript.

## Findings

| source | as written | input that shows it | evidently intended | confidence | as-written member | corrected member |
|---|---|---|---|---|---|---|
| kotlin-tutorial/kotlin-basics/src/test/kotlin/coding/babya/me/learningmaterials/AdventOfCodePuzzles.kt:184 | `(eq + gt).takeLast(3)` | `findTopN(1, [5, 5])` returns [5, 5] | `takeLast(n)`, which returns [5] | high, not executed | AdventOfCode.FindTopN, AdventOfCode.FindTopNKeepsTooMany | AdventOfCode.FindTopNFixed |
| kotlin-tutorial/kotlin-basics/src/test/kotlin/coding/babya/me/take/tour/intermediate/NullSafety.kt:310-317 | a non-User argument falls back to "Guest" and still gets entries | `getNotificationPreferences("NotAUser", true, true)` returns two Guest entries | [] for a non-User argument, as the comment at line 331 expects | high, not executed | IntermediateNullSafety.GetNotificationPreferences, IntermediateNullSafety.NotificationPreferencesExamples | IntermediateNullSafety.GetNotificationPreferencesFixed |
| kotlin-tutorial/kotlin-basics/src/test/kotlin/coding/babya/me/take/tour/intermediate/PropertiesStudy.kt:477-483 | the observer returns a lambda and never runs its body | assigning 150 to a budget of 1000 prints nothing | print the warning or the good news | high, not executed | PropertiesStudy.Budget.SetRemainingBudget, PropertiesStudy.BudgetExample | PropertiesStudy.Budget.SetRemainingBudgetObserved |
| kotlin-tutorial/kotlin-basics/src/test/kotlin/coding/babya/me/basic/Idioms.kt:334-340 | `fill(1)` | `arrayOfMinusOnes(3)` holds [1, 1, 1] | `fill(-1)`, giving [-1, -1, -1] | high, not executed | Idioms.ArrayOfMinusOnes, Idioms.ArrayOfMinusOnesExample | Idioms.ArrayOfMinusOnesFixed |
| kotlin-tutorial/kotlin-basics/src/test/kotlin/coding/babya/me/basic/BasicSyntax.kt:384 | `x?.let { ... }` is null when x is null, so "null" is printed | `printProduct1("a", "2")` prints "null" | the "are null" message, as `printProduct` prints | medium, not executed | BasicSyntax.PrintProduct1Agreement, BasicSyntax.PrintProduct1Discrepancy | BasicSyntax.PrintProduct1FixedAgrees |
