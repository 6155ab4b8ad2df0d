/** Sealed classes, enums and the `when` tables over them: `greetMammal`,
    the `State` messages, `Color.containsRed`, `printDeliveryStatus` and
    `handleStatus`. A printed message is modelled as the string the branch
    prints. */
module SpecialClasses {
  import opened KotlinCollections

  // ---------------------------------------------------------------------------
  // greetMammal
  // ---------------------------------------------------------------------------

  /** `sealed class Mammal(val name: String)` with its two subclasses. */
  datatype Mammal =
    | Cat(name: string)
    | Human(name: string, job: string)

  /** `greetMammal`: the `when` is exhaustive over the sealed class. */
  function GreetMammal(mammal: Mammal): (greeting: string)
    ensures |greeting| >= 6 + |mammal.name|
    ensures greeting[..6 + |mammal.name|] == "Hello " + mammal.name
    ensures mammal.Cat? <==> |greeting| == 6 + |mammal.name|
    ensures mammal.Human? ==> greeting[6 + |mammal.name|..] == "; You're working as a " + mammal.job
  {
    match mammal
    case Human(name, job) => "Hello " + name + "; You're working as a " + job
    case Cat(name) => "Hello " + name
  }

  /** `greetMammal(Cat("Snowy"))` is "Hello Snowy". */
  lemma GreetSnowy()
    ensures GreetMammal(Cat("Snowy")) == "Hello Snowy"
  {
  }

  // ---------------------------------------------------------------------------
  // enum class State
  // ---------------------------------------------------------------------------

  datatype State = IDLE | RUNNING | FINISHED

  function StateMessage(state: State): (r: string)
    ensures |r| > 5 && r[..5] == "It's "
  {
    match state
    case IDLE => "It's idle"
    case RUNNING => "It's running"
    case FINISHED => "It's finished"
  }

  /** The mapping covers every state and tells them apart. */
  lemma StateMessagesDistinct(a: State, b: State)
    ensures StateMessage(a) == StateMessage(b) <==> a == b
  {
    if a != b {
      assert StateMessage(a)[5] != StateMessage(b)[5];
    }
  }

  // ---------------------------------------------------------------------------
  // enum class Color
  // ---------------------------------------------------------------------------

  datatype Color = RED | GREEN | BLUE | YELLOW

  /** The `rgb` value of each constant, as a 32-bit `Int`. */
  function Rgb(color: Color): bv32 {
    match color
    case RED => 0xFF0000
    case GREEN => 0x00FF00
    case BLUE => 0x0000FF
    case YELLOW => 0xFFFF00
  }

  /** The red byte of a packed 0xRRGGBB value. */
  function RedComponent(rgb: bv32): bv32 {
    (rgb >> 16) & 0xFF
  }

  /** `(rgb and 0xFF0000) != 0`: infix `and` binds tighter than `!=`. */
  predicate ContainsRedRgb(rgb: bv32) {
    rgb & 0xFF0000 != 0
  }

  function ContainsRed(color: Color): (r: bool)
    ensures r <==> color == RED || color == YELLOW
  {
    ContainsRedRgb(Rgb(color))
  }

  /** The mask test holds exactly when the red byte is non-zero. */
  lemma ContainsRedIffRedByte(rgb: bv32)
    ensures ContainsRedRgb(rgb) <==> RedComponent(rgb) != 0
  {
  }

  /** RED and YELLOW contain red; GREEN and BLUE do not. */
  lemma ContainsRedExamples()
    ensures ContainsRed(RED) && ContainsRed(YELLOW)
    ensures !ContainsRed(GREEN) && !ContainsRed(BLUE)
  {
  }

  // ---------------------------------------------------------------------------
  // printDeliveryStatus
  // ---------------------------------------------------------------------------

  datatype DeliveryStatus =
    | Pending(sender: string)
    | InTransit(estimatedDeliveryDate: string)
    | Delivered(deliveryDate: string, recipient: string)
    | Canceled(reason: string)

  const PENDING_PREFIX: string := "The package is pending pickup from "
  const IN_TRANSIT_PREFIX: string := "The package is in transit and expected to arrive by "
  const DELIVERED_PREFIX: string := "The package was delivered to "
  const CANCELED_PREFIX: string := "The delivery was canceled due to: "

  /** The line `printDeliveryStatus` prints for each variant. */
  function DeliveryMessage(status: DeliveryStatus): (r: string)
    ensures |r| > 0 && r[|r| - 1] == '.'
  {
    match status
    case Pending(sender) => PENDING_PREFIX + sender + "."
    case InTransit(date) => IN_TRANSIT_PREFIX + date + "."
    case Delivered(date, recipient) => DELIVERED_PREFIX + recipient + " on " + date + "."
    case Canceled(reason) => CANCELED_PREFIX + reason + "."
  }

  /** The character at which the four messages part ways tells the variant. */
  function VariantMark(status: DeliveryStatus): (r: (int, char)) {
    match status
    case Pending(_) => (15, 'p')
    case InTransit(_) => (15, 'i')
    case Delivered(_, _) => (12, 'w')
    case Canceled(_) => (4, 'd')
  }

  lemma PrefixMarks()
    ensures |PENDING_PREFIX| > 15 && PENDING_PREFIX[4] == 'p' && PENDING_PREFIX[12] == 'i' && PENDING_PREFIX[15] == 'p'
    ensures |IN_TRANSIT_PREFIX| > 15 && IN_TRANSIT_PREFIX[4] == 'p' && IN_TRANSIT_PREFIX[12] == 'i' && IN_TRANSIT_PREFIX[15] == 'i'
    ensures |DELIVERED_PREFIX| > 15 && DELIVERED_PREFIX[4] == 'p' && DELIVERED_PREFIX[12] == 'w'
    ensures |CANCELED_PREFIX| > 15 && CANCELED_PREFIX[4] == 'd'
  {
  }

  lemma DeliveryMessageMark(status: DeliveryStatus)
    ensures |DeliveryMessage(status)| > 15
    ensures DeliveryMessage(status)[4] == (if status.Canceled? then 'd' else 'p')
    ensures !status.Canceled? ==> DeliveryMessage(status)[12] == (if status.Delivered? then 'w' else 'i')
    ensures !status.Canceled? && !status.Delivered? ==> DeliveryMessage(status)[15] == (if status.Pending? then 'p' else 'i')
  {
    PrefixMarks();
    var m := DeliveryMessage(status);
    match status
    case Pending(x) =>
      assert m == PENDING_PREFIX + (x + ".");
    case InTransit(x) =>
      assert m == IN_TRANSIT_PREFIX + (x + ".");
    case Delivered(d, r) =>
      assert m == DELIVERED_PREFIX + (r + " on " + d + ".");
    case Canceled(x) =>
      assert m == CANCELED_PREFIX + (x + ".");
  }

  /** Each variant gets its own message: two statuses of different variants
      never print the same line, and a one-field variant's line gives back
      its field. */
  lemma DeliveryMessagesDistinct(a: DeliveryStatus, b: DeliveryStatus)
    requires DeliveryMessage(a) == DeliveryMessage(b)
    ensures VariantMark(a) == VariantMark(b)
    ensures a.Pending? && b.Pending? ==> a == b
    ensures a.InTransit? && b.InTransit? ==> a == b
    ensures a.Canceled? && b.Canceled? ==> a == b
  {
    DeliveryMessageMark(a);
    DeliveryMessageMark(b);
    var m := DeliveryMessage(a);
    match a
    case Pending(s) =>
      if b.Pending? {
        assert s == m[|PENDING_PREFIX|..|m| - 1] == b.sender;
      }
    case InTransit(d) =>
      if b.InTransit? {
        assert d == m[|IN_TRANSIT_PREFIX|..|m| - 1] == b.estimatedDeliveryDate;
      }
    case Canceled(r) =>
      if b.Canceled? {
        assert r == m[|CANCELED_PREFIX|..|m| - 1] == b.reason;
      }
    case Delivered(_, _) =>
  }

  // ---------------------------------------------------------------------------
  // handleStatus
  // ---------------------------------------------------------------------------

  datatype Problem = NETWORK | TIMEOUT | UNKNOWN

  datatype Status =
    | Loading
    | Error(problem: Problem)
    | OK(data: seq<string>)

  /** The line `handleStatus` prints. */
  function HandleStatus(status: Status): (r: string)
    ensures |r| > 0 && (r[|r| - 1] == ']' <==> status.OK?)
  {
    match status
    case Loading => "Loading..."
    case OK(data) => "Data received: " + ListToString(data)
    case Error(problem) =>
      match problem
      case NETWORK => "Network issue"
      case TIMEOUT => "Request timed out"
      case UNKNOWN => "Unknown error occurred"
  }

  /** Loading, OK and each of the three problems print different lines: the
      first character already tells them apart. */
  lemma HandleStatusDistinct(a: Status, b: Status)
    requires HandleStatus(a) == HandleStatus(b)
    ensures a.Loading? <==> b.Loading?
    ensures a.OK? <==> b.OK?
    ensures a.Error? ==> a == b
  {
    assert HandleStatus(a)[0] == HandleStatus(b)[0];
  }

  /** The two statuses of `exercise2`. */
  lemma HandleStatusExamples()
    ensures HandleStatus(Error(NETWORK)) == "Network issue"
    ensures HandleStatus(OK(["Data1", "Data2"])) == "Data received: [Data1, Data2]"
  {
    assert ["Data1", "Data2"][1..] == ["Data2"];
  }
}
