/** The null-safety exercises of the intermediate tour
    (`take/tour/intermediate/NullSafety.kt`): a safe cast with an elvis
    default inside `sumOf`, a map lookup with safe calls, `takeIf` inside
    `listOfNotNull` and `mapNotNull`, `singleOrNull`, and early returns. */
module IntermediateNullSafety {
  import opened Wrappers
  import opened KotlinLang
  import opened KotlinCollections

  // ---------------------------------------------------------------------------
  // calculateTotalStringLength
  // ---------------------------------------------------------------------------

  predicate IsString(v: AnyValue) {
    v.StringValue?
  }

  /** `(it as? String)?.length ?: 0`: the length in UTF-16 code units. */
  function LengthOrZero(v: AnyValue): nat {
    if v.StringValue? then Length(v.s) else 0
  }

  /** `items.sumOf { (it as? String)?.length ?: 0 }`, summed as an `Int`. */
  function CalculateTotalStringLength(items: seq<AnyValue>): (total: int)
    ensures InIntRange(total)
  {
    IntSum(Map(items, LengthOrZero))
  }

  /** Items that are not strings add nothing: the sum over the mixed list is
      the sum of the lengths of its strings alone. */
  lemma {:induction false} NonStringsAddNothing(items: seq<AnyValue>)
    ensures Sum(Map(items, LengthOrZero)) == Sum(Map(Filter(items, IsString), LengthOrZero))
  {
    if items != [] {
      NonStringsAddNothing(items[1..]);
      var rest := Filter(items[1..], IsString);
      assert items == [items[0]] + items[1..];
      MapCons(items[0], items[1..], LengthOrZero);
      if IsString(items[0]) {
        assert Filter(items, IsString) == [items[0]] + rest;
        MapCons(items[0], rest, LengthOrZero);
      } else {
        assert Filter(items, IsString) == rest;
      }
    }
  }

  /** The total is the `Int` sum of the lengths of the string items, in order. */
  lemma TotalStringLengthCountsStrings(items: seq<AnyValue>)
    ensures CalculateTotalStringLength(items) == Wrap(Sum(Map(Filter(items, IsString), LengthOrZero)))
  {
    NonStringsAddNothing(items);
  }

  // ---------------------------------------------------------------------------
  // getNumberOfFriends
  // ---------------------------------------------------------------------------

  /** The `User(id, name, friends)` of the early-return example; `friends`
      holds user ids. */
  datatype FriendsUser = FriendsUser(id: int, name: string, friends: seq<int>)

  /** `users[userId]?.friends?.size ?: -1`. */
  function GetNumberOfFriends(users: map<int, FriendsUser>, userId: int): (r: int)
    ensures r == -1 <==> userId !in users
    ensures userId in users ==> r == |users[userId].friends|
  {
    if userId in users then |users[userId].friends| else -1
  }

  /** The sample users: Alice has two friends, Bob one, and id 4 is unknown. */
  lemma NumberOfFriendsExamples()
    ensures var users := map[1 := FriendsUser(1, "Alice", [2, 3]),
                             2 := FriendsUser(2, "Bob", [1]),
                             3 := FriendsUser(3, "Charlie", [1])];
            GetNumberOfFriends(users, 1) == 2
            && GetNumberOfFriends(users, 2) == 1
            && GetNumberOfFriends(users, 4) == -1
  {
  }

  // ---------------------------------------------------------------------------
  // getNotificationPreferences
  // ---------------------------------------------------------------------------

  /** The `User(name: String?)` of the notification exercise. */
  datatype NamedUser = NamedUser(name: Option<string>)

  /** The `user: Any` argument: a `User`, or any other value. */
  datatype Recipient = AUser(user: NamedUser) | NotAUser(other: AnyValue)

  /** `(user as? User)?.name ?: "Guest"`. */
  function UserName(user: Recipient): (name: string)
    ensures name == "Guest" <==> user.NotAUser? || user.user.name.None? || user.user.name.value == "Guest"
  {
    match user
    case AUser(u) => u.name.GetOr("Guest")
    case NotAUser(_) => "Guest"
  }

  function EmailEntry(name: string): string {
    "Email Notifications enabled for " + name
  }

  function SmsEntry(name: string): string {
    "SMS Notifications enabled for " + name
  }

  /** `listOfNotNull(email.takeIf { emailEnabled }, sms.takeIf { smsEnabled })`
      as written: a non-`User` argument is served as "Guest". */
  function GetNotificationPreferences(user: Recipient, emailEnabled: bool, smsEnabled: bool): (r: seq<string>)
    ensures |r| == (if emailEnabled then 1 else 0) + (if smsEnabled then 1 else 0)
    ensures emailEnabled ==> r[0] == EmailEntry(UserName(user))
    ensures smsEnabled ==> r[|r| - 1] == SmsEntry(UserName(user))
  {
    var name := UserName(user);
    var email, sms := TakeIf(EmailEntry(name), emailEnabled), TakeIf(SmsEntry(name), smsEnabled);
    ListOfNotNullPair(email, sms);
    ListOfNotNull([email, sms])
  }

  /** The exercise's intended behaviour: a non-`User` argument gets no
      notifications at all, and a `User` gets the entries above. */
  function GetNotificationPreferencesFixed(user: Recipient, emailEnabled: bool, smsEnabled: bool): (r: seq<string>)
    ensures user.NotAUser? ==> r == []
    ensures user.AUser? ==> r == GetNotificationPreferences(user, emailEnabled, smsEnabled)
  {
    if user.NotAUser? then [] else GetNotificationPreferences(user, emailEnabled, smsEnabled)
  }

  /** The three calls of the exercise's `main`. The third, with the string
      "NotAUser", yields two "Guest" entries instead of the expected `[]`;
      the corrected function yields `[]`. */
  lemma NotificationPreferencesExamples()
    ensures GetNotificationPreferences(AUser(NamedUser(Some("Alice"))), true, false)
            == ["Email Notifications enabled for Alice"]
    ensures GetNotificationPreferences(AUser(NamedUser(None)), false, true)
            == ["SMS Notifications enabled for Guest"]
    ensures GetNotificationPreferences(NotAUser(StringValue("NotAUser")), true, true)
            == ["Email Notifications enabled for Guest", "SMS Notifications enabled for Guest"]
    ensures GetNotificationPreferencesFixed(NotAUser(StringValue("NotAUser")), true, true) == []
  {
    assert EmailEntry("Alice") == "Email Notifications enabled for Alice";
    assert EmailEntry("Guest") == "Email Notifications enabled for Guest";
    assert SmsEntry("Guest") == "SMS Notifications enabled for Guest";
  }

  // ---------------------------------------------------------------------------
  // getActiveSubscription
  // ---------------------------------------------------------------------------

  datatype Subscription = Subscription(name: string, isActive: bool)

  predicate IsActive(s: Subscription) {
    s.isActive
  }

  /** `subscriptions.singleOrNull { it.isActive }`. */
  function GetActiveSubscription(subscriptions: seq<Subscription>): (r: Option<Subscription>)
    ensures r.Some? ==> r.value in subscriptions && r.value.isActive
  {
    SingleOrNull(subscriptions, IsActive)
  }

  /** A subscription comes back exactly when one and only one is active, and
      then it is that one; none active or several active give null. */
  lemma ActiveSubscriptionIsTheOnlyActive(subscriptions: seq<Subscription>)
    ensures GetActiveSubscription(subscriptions).Some? <==> exists i :: OnlyMatch(subscriptions, IsActive, i)
    ensures forall i :: OnlyMatch(subscriptions, IsActive, i) ==>
              GetActiveSubscription(subscriptions) == Some(subscriptions[i])
  {
    SingleOrNullIsOnlyMatch(subscriptions, IsActive);
  }

  /** The exercise's two customers: one active plan is returned, two active
      plans give null. */
  lemma ActiveSubscriptionExamples()
    ensures GetActiveSubscription([Subscription("Basic Plan", false), Subscription("Premium Plan", true)])
            == Some(Subscription("Premium Plan", true))
    ensures GetActiveSubscription([Subscription("Basic Plan", true), Subscription("Premium Plan", true)]) == None
  {
    var premium := [Subscription("Basic Plan", false), Subscription("Premium Plan", true)];
    var conflicting := [Subscription("Basic Plan", true), Subscription("Premium Plan", true)];
    assert premium[1..] == [Subscription("Premium Plan", true)];
    assert conflicting[1..] == [Subscription("Premium Plan", true)];
    assert IsActive(conflicting[1..][0]);
  }

  // ---------------------------------------------------------------------------
  // getActiveUsernames
  // ---------------------------------------------------------------------------

  /** The `User(username, isActive)` of the social-media exercise. */
  datatype Account = Account(username: string, isActive: bool)

  predicate IsActiveAccount(u: Account) {
    u.isActive
  }

  function Username(u: Account): string {
    u.username
  }

  /** `user.username.takeIf { user.isActive }`. */
  function ActiveUsername(u: Account): Option<string> {
    TakeIf(u.username, u.isActive)
  }

  /** `users.mapNotNull { user -> user.username.takeIf { user.isActive } }`. */
  function GetActiveUsernames(users: seq<Account>): (r: seq<string>)
    ensures |r| <= |users|
  {
    MapNotNull(users, ActiveUsername)
  }

  /** The result is the usernames of the active users, in their original
      order: `filter { it.isActive }.map { it.username }`. */
  lemma ActiveUsernamesInOrder(users: seq<Account>)
    ensures GetActiveUsernames(users) == Map(Filter(users, IsActiveAccount), Username)
  {
    MapNotNullIsFilterMap(users, ActiveUsername, IsActiveAccount, Username);
  }

  /** Alice and Charlie are active, Bob is not. */
  lemma ActiveUsernamesExample()
    ensures GetActiveUsernames([Account("alice123", true), Account("bob_the_builder", false),
                                Account("charlie99", true)]) == ["alice123", "charlie99"]
  {
    var users := [Account("alice123", true), Account("bob_the_builder", false), Account("charlie99", true)];
    assert users[1..] == [Account("bob_the_builder", false), Account("charlie99", true)];
    assert users[1..][1..] == [Account("charlie99", true)];
    assert MapNotNull(users[1..][1..], ActiveUsername) == ["charlie99"];
  }

  // ---------------------------------------------------------------------------
  // validateStock
  // ---------------------------------------------------------------------------

  /** Early returns of -1 for a null request, a null stock, a negative
      request or a request above the stock; otherwise the request. */
  function ValidateStock(requested: Option<int>, available: Option<int>): (r: int)
    ensures r == -1 <==> requested.None? || available.None? || requested.value < 0
                         || requested.value > available.value
    ensures r != -1 ==> requested.Some? && available.Some? && r == requested.value
                        && 0 <= r <= available.value
  {
    if requested.None? then -1
    else if available.None? then -1
    else if requested.value < 0 then -1
    else if requested.value > available.value then -1
    else requested.value
  }
}
