/** The scope-function notes: `?.let` against its if/else form, the
    `map`/`also`/`filter`/`reversed` medals pipeline, `getPriceInEuros` as a
    safe-call chain against its step-by-step original, and `updateEmail`
    with `apply` and `also`. */
module ScopeFunctions {
  import opened Wrappers
  import opened KotlinLang
  import opened KotlinCollections

  // ---------------------------------------------------------------------------
  // let
  // ---------------------------------------------------------------------------

  /** `x?.let(f)`: null stays null, otherwise `f` is applied. */
  function SafeLet<T, R>(x: Option<T>, f: T -> R): (r: Option<R>)
    ensures r.None? <==> x.None?
    ensures x.Some? ==> r.value == f(x.value)
  {
    match x
    case None => None
    case Some(v) => Some(f(v))
  }

  const NOTIFICATION_SENT: string := "Notification sent!"

  /** What a call of `sendNotification(recipientAddress)` does: the line it
      prints and the confirmation it returns. */
  datatype Notification = Notification(printed: string, confirmation: string)

  /** `sendNotification(recipientAddress)`: it prints "Yo <address>!" and
      returns "Notification sent!". */
  function SendNotification(recipientAddress: string): (r: Notification)
    ensures r.confirmation == NOTIFICATION_SENT
    ensures |r.printed| == |recipientAddress| + 4 && r.printed[3..|r.printed| - 1] == recipientAddress
    ensures r.printed[..3] == "Yo " && r.printed[|r.printed| - 1] == '!'
  {
    Notification("Yo " + recipientAddress + "!", NOTIFICATION_SENT)
  }

  /** `if (address != null) sendNotification(address) else null`: a
      notification is sent exactly when there is an address. */
  function ConfirmIfElse(address: Option<string>): (r: Option<Notification>)
    ensures r.None? <==> address.None?
    ensures r.Some? ==> r.value.confirmation == NOTIFICATION_SENT
  {
    if address.Some? then Some(SendNotification(address.value)) else None
  }

  /** The three `address?.let` spellings and the if/else form print the same
      line and give the same confirmation for every address, and neither
      prints anything when there is none. */
  lemma LetMatchesIfElse(address: Option<string>)
    ensures SafeLet(address, SendNotification) == ConfirmIfElse(address)
    ensures SafeLet(address, (it: string) => SendNotification(it)) == ConfirmIfElse(address)
  {
  }

  /** `getNextAddress()` never returns null, so the notification is sent. */
  lemma NextAddressIsNotified()
    ensures SafeLet(Some("sebastian@jetbrains.com"), SendNotification)
         == Some(Notification("Yo sebastian@jetbrains.com!", NOTIFICATION_SENT))
  {
    assert "Yo " + "sebastian@jetbrains.com" + "!" == "Yo sebastian@jetbrains.com!";
  }

  // ---------------------------------------------------------------------------
  // The medals pipeline
  // ---------------------------------------------------------------------------

  /** `it.length > 4`, with the length in UTF-16 code units. */
  predicate LongerThanFour(s: string) {
    Length(s) > 4
  }

  /** `medals.map { it.uppercase() }.filter { it.length > 4 }.reversed()`. */
  function ReversedLongUppercase(medals: seq<string>): (r: seq<string>)
    ensures |r| <= |medals|
  {
    Reverse(Filter(Map(medals, Uppercase), LongerThanFour))
  }

  /** What `alsoDoSomething` prints: the list after `map` and after `filter`
      (the two `also { println(it) }` steps), then the result. */
  function MedalsOutput(medals: seq<string>): (lines: seq<string>)
    ensures |lines| == 3
    ensures lines[2] == ListToString(ReversedLongUppercase(medals))
  {
    var upper := Map(medals, Uppercase);
    var kept := Filter(upper, LongerThanFour);
    [ListToString(upper), ListToString(kept), ListToString(Reverse(kept))]
  }

  /** The result holds, last first, the upper-cased medals whose names are
      longer than four code units. */
  lemma ReversedLongUppercaseMembers(medals: seq<string>)
    ensures forall y :: y in ReversedLongUppercase(medals) <==> y in Map(medals, Uppercase) && Length(y) > 4
  {
    var kept := Filter(Map(medals, Uppercase), LongerThanFour);
    FilterMembers(Map(medals, Uppercase), LongerThanFour);
    ReverseKeepsMultiset(kept);
    assert forall y :: y in ReversedLongUppercase(medals) <==> y in multiset(kept);
  }

  /** Upper-casing keeps each name's length, so the filter keeps exactly the
      medals whose own names are longer than four code units. */
  lemma {:induction false} UppercaseKeepsLength(medals: seq<string>)
    ensures Filter(Map(medals, Uppercase), LongerThanFour) == Map(Filter(medals, LongerThanFour), Uppercase)
  {
    if medals != [] {
      UppercaseKeepsLength(medals[1..]);
      UppercaseKeepsUnits(medals[0]);
      MapCons(medals[0], medals[1..], Uppercase);
      assert medals == [medals[0]] + medals[1..];
      if LongerThanFour(medals[0]) {
        MapCons(medals[0], Filter(medals[1..], LongerThanFour), Uppercase);
      }
    }
  }

  /** The steps of the notes' example: [GOLD, SILVER, BRONZE] after `map`,
      [SILVER, BRONZE] after `filter`, and [BRONZE, SILVER] at the end. */
  lemma MedalsExample(medals: seq<string>)
    requires medals == ["Gold", "Silver", "Bronze"]
    ensures Map(medals, Uppercase) == ["GOLD", "SILVER", "BRONZE"]
    ensures Filter(Map(medals, Uppercase), LongerThanFour) == ["SILVER", "BRONZE"]
    ensures ReversedLongUppercase(medals) == ["BRONZE", "SILVER"]
  {
    MedalsUppercase(medals);
    var upper := Map(medals, Uppercase);
    MedalLengths();
    assert upper[1..] == ["SILVER", "BRONZE"] && upper[1..][1..] == ["BRONZE"] && upper[1..][1..][1..] == [];
    assert Filter(upper[1..][1..], LongerThanFour) == ["BRONZE"];
    assert Filter(upper[1..], LongerThanFour) == ["SILVER"] + ["BRONZE"];
    var kept := Filter(upper, LongerThanFour);
    assert kept == ["SILVER", "BRONZE"];
    assert Reverse(kept) == ["BRONZE", "SILVER"];
  }

  lemma MedalsUppercase(medals: seq<string>)
    requires medals == ["Gold", "Silver", "Bronze"]
    ensures Map(medals, Uppercase) == ["GOLD", "SILVER", "BRONZE"]
  {
    assert Uppercase("Gold") == "GOLD";
    assert Uppercase("Silver") == "SILVER";
    assert Uppercase("Bronze") == "BRONZE";
  }

  lemma MedalLengths()
    ensures !LongerThanFour("GOLD") && LongerThanFour("SILVER") && LongerThanFour("BRONZE")
  {
    LengthOfBmp("GOLD");
    LengthOfBmp("SILVER");
    LengthOfBmp("BRONZE");
  }

  /** The three lines the example prints. */
  lemma MedalsPrinted(medals: seq<string>)
    requires medals == ["Gold", "Silver", "Bronze"]
    ensures MedalsOutput(medals) == ["[GOLD, SILVER, BRONZE]", "[SILVER, BRONZE]", "[BRONZE, SILVER]"]
  {
    MedalsExample(medals);
    assert MedalsOutput(medals) == [ListToString(["GOLD", "SILVER", "BRONZE"]),
      ListToString(["SILVER", "BRONZE"]), ListToString(["BRONZE", "SILVER"])];
    MedalListsPrinted();
  }

  lemma MedalListsPrinted()
    ensures ListToString(["GOLD", "SILVER", "BRONZE"]) == "[GOLD, SILVER, BRONZE]"
    ensures ListToString(["SILVER", "BRONZE"]) == "[SILVER, BRONZE]"
    ensures ListToString(["BRONZE", "SILVER"]) == "[BRONZE, SILVER]"
  {
    JoinThree("GOLD", "SILVER", "BRONZE");
    JoinTwo("SILVER", "BRONZE");
    JoinTwo("BRONZE", "SILVER");
  }

  lemma JoinTwo(a: string, b: string)
    ensures ListToString([a, b]) == "[" + a + ", " + b + "]"
  {
    assert [a, b][1..] == [b];
    assert Join([a, b], ", ") == a + ", " + b;
    assert "[" + (a + ", " + b) + "]" == "[" + a + ", " + b + "]";
  }

  lemma JoinThree(a: string, b: string, c: string)
    ensures ListToString([a, b, c]) == "[" + a + ", " + b + ", " + c + "]"
  {
    assert [a, b, c][1..] == [b, c] && [b, c][1..] == [c];
    assert Join([b, c], ", ") == b + ", " + c;
    assert Join([a, b, c], ", ") == a + ", " + (b + ", " + c);
    assert "[" + (a + ", " + (b + ", " + c)) + "]" == "[" + a + ", " + b + ", " + c + "]";
  }

  // ---------------------------------------------------------------------------
  // getPriceInEuros
  // ---------------------------------------------------------------------------

  /** `data class ProductInfo(val priceInDollars: Double?)`, with the price
      kept abstract. */
  datatype ProductInfo<P> = ProductInfo(priceInDollars: Option<P>)

  /** `getProductInfo()?.priceInDollars?.let { convertToEuros(it) }`. */
  function GetPriceInEuros<P>(info: Option<ProductInfo<P>>, convertToEuros: P -> P): (r: Option<P>)
    ensures r.None? <==> info.None? || info.value.priceInDollars.None?
    ensures r.Some? ==> r.value == convertToEuros(info.value.priceInDollars.value)
  {
    if info.None? then None else SafeLet(info.value.priceInDollars, convertToEuros)
  }

  /** The step-by-step original with its two early returns; it agrees with
      the safe-call chain on every input. */
  method GetPriceInEurosStepwise<P>(info: Option<ProductInfo<P>>, convertToEuros: P -> P) returns (r: Option<P>)
    ensures r == GetPriceInEuros(info, convertToEuros)
  {
    if info.None? {
      return None;
    }
    var price := info.value.priceInDollars;
    if price.None? {
      return None;
    }
    return Some(convertToEuros(price.value));
  }

  /** `getProductInfo()` returns `ProductInfo(100.0)` and `convertToEuros`
      multiplies by 0.85, so the price is 85.0. */
  lemma PriceInEurosExample()
    ensures GetPriceInEuros(Some(ProductInfo(Some(100.0))), (d: real) => d * 0.85) == Some(85.0)
  {
  }

  // ---------------------------------------------------------------------------
  // updateEmail
  // ---------------------------------------------------------------------------

  /** `data class User(val id: Int, var email: String)`. */
  class User {
    const id: int
    var email: string

    constructor(id: int, email: string)
      ensures this.id == id && this.email == email
    {
      this.id := id;
      this.email := email;
    }
  }

  function UpdateLogLine(id: int): string {
    "Updating email for user with ID: " + IntToString(id)
  }

  /** `user.apply { email = newEmail }.also { println(...) }`: the same
      instance comes back with the new email, and the log line names its
      id. */
  method UpdateEmail(user: User, newEmail: string) returns (r: User, printed: string)
    modifies user
    ensures r == user
    ensures user.email == newEmail
    ensures printed == UpdateLogLine(user.id)
  {
    user.email := newEmail;
    r := user;
    printed := UpdateLogLine(r.id);
  }

  /** `exercise2`: user 1 gets its new email. */
  method Exercise2() returns (updated: User, printed: string)
    ensures updated.id == 1 && updated.email == "new_email@example.com"
    ensures printed == "Updating email for user with ID: 1"
  {
    var user := new User(1, "old_email@example.com");
    assert IntToString(1) == "1";
    updated, printed := UpdateEmail(user, "new_email@example.com");
  }
}
