/** Lambda expressions with receivers: `render` on a `Canvas`, the `Menu`
    builder DSL, `fetchData` on a `StringBuilder`, `Button.onEvent`, and
    `List<Int>.incremented`. A receiver lambda that calls the receiver's
    member functions is modelled by the list of calls it makes, in order;
    printed output is returned as the list of printed lines. */
module LambdaWithReceiver {
  import opened KotlinLang
  import opened KotlinCollections

  // ---------------------------------------------------------------------------
  // render
  // ---------------------------------------------------------------------------

  /** A call the `render` block makes on its canvas. */
  datatype Shape = Circle | Square

  /** What `drawCircle()` and `drawSquare()` print. */
  function DrawLine(shape: Shape): string {
    match shape
    case Circle => "\U{1F7E0} Drawing a circle"
    case Square => "\U{1F7E5} Drawing a square"
  }

  /** `class Canvas`: it holds no state; drawing only prints. */
  class Canvas {
    constructor() {
    }
  }

  /** `render(block)`: one fresh canvas, the block run on it once, and that
      canvas returned. */
  method Render(block: seq<Shape>) returns (canvas: Canvas, printed: seq<string>)
    ensures fresh(canvas)
    ensures printed == Map(block, DrawLine)
  {
    canvas := new Canvas();
    printed := [];
    for i := 0 to |block|
      invariant printed == Map(block[..i], DrawLine)
    {
      printed := printed + [DrawLine(block[i])];
      assert block[..i + 1] == block[..i] + [block[i]];
    }
    assert block[..|block|] == block;
  }

  /** `render { drawCircle(); drawSquare() }` prints the circle, then the
      square. */
  method RenderExample() returns (printed: seq<string>)
    ensures printed == ["\U{1F7E0} Drawing a circle", "\U{1F7E5} Drawing a square"]
  {
    var canvas;
    canvas, printed := Render([Circle, Square]);
  }

  // ---------------------------------------------------------------------------
  // The menu builder
  // ---------------------------------------------------------------------------

  datatype MenuItem = MenuItem(name: string)

  /** `class Menu(val name: String) { val items = mutableListOf<MenuItem>() }`. */
  class Menu {
    const name: string
    var items: seq<MenuItem>

    constructor(name: string)
      ensures this.name == name && items == []
    {
      this.name := name;
      items := [];
    }

    /** `item(name)` adds one item with that name at the end. */
    method Item(name: string)
      modifies this
      ensures items == old(items) + [MenuItem(name)]
    {
      items := items + [MenuItem(name)];
    }
  }

  /** The menu a `menu(name) { item(n1); item(n2); ... }` call builds. */
  function ItemsOf(names: seq<string>): (r: seq<MenuItem>)
    ensures |r| == |names|
    ensures forall i :: 0 <= i < |names| ==> r[i].name == names[i]
  {
    Map(names, (n: string) => MenuItem(n))
  }

  /** `menu(name, init)`: a fresh menu with that name on which `init` runs
      once; `init` is modelled by the names it passes to `item`. */
  method MakeMenu(name: string, init: seq<string>) returns (menu: Menu)
    ensures fresh(menu)
    ensures menu.name == name
    ensures menu.items == ItemsOf(init)
  {
    menu := new Menu(name);
    for i := 0 to |init|
      invariant menu.name == name
      invariant menu.items == ItemsOf(init[..i])
    {
      menu.Item(init[i]);
      assert init[..i + 1] == init[..i] + [init[i]];
    }
    assert init[..|init|] == init;
  }

  /** `printMenu(menu)`: the title line, then one indented line per item. */
  function PrintMenu(menu: Menu): (lines: seq<string>)
    reads menu
    ensures |lines| == |menu.items| + 1
    ensures lines[0] == "Menu: " + menu.name
    ensures forall i :: 0 <= i < |menu.items| ==> lines[i + 1] == "  Item: " + menu.items[i].name
  {
    ["Menu: " + menu.name] + Map(menu.items, (item: MenuItem) => "  Item: " + item.name)
  }

  /** The main menu of the notes holds Home, Settings and Exit, in that
      order. */
  method MenuExample() returns (menu: Menu)
    ensures menu.name == "Main Menu"
    ensures menu.items == [MenuItem("Home"), MenuItem("Settings"), MenuItem("Exit")]
  {
    menu := MakeMenu("Main Menu", ["Home", "Settings", "Exit"]);
  }

  // ---------------------------------------------------------------------------
  // fetchData
  // ---------------------------------------------------------------------------

  /** A `StringBuilder` whose `append` adds text at the end. */
  class StringBuilder {
    var content: string

    constructor(initial: string)
      ensures content == initial
    {
      content := initial;
    }

    method Append(text: string)
      modifies this
      ensures content == old(content) + text
    {
      content := content + text;
    }
  }

  const DATA_RECEIVED: string := "Data received"

  /** The inner callback of `exercise1`: append " - " and "Processed" to
      its builder, then print the builder. */
  method ProcessedCallback(builder: StringBuilder) returns (printed: seq<string>)
    modifies builder
    ensures builder.content == old(builder.content) + " - Processed"
    ensures printed == [builder.content]
  {
    builder.Append(" - ");
    builder.Append("Processed");
    assert builder.content == old(builder.content) + " - " + "Processed";
    printed := [builder.content];
  }

  /** `fetchData { ... }` with the inner callback: a fresh builder holding
      "Data received", then the callback run on it. */
  method FetchDataProcessed() returns (printed: seq<string>)
    ensures printed == [DATA_RECEIVED + " - Processed"]
  {
    var builder := new StringBuilder(DATA_RECEIVED);
    printed := ProcessedCallback(builder);
  }

  /** `exercise1`: the outer callback only calls `fetchData` again, and in
      the inner lambda the inner builder is the receiver, so the outer
      builder keeps "Data received" and the output is one line. The model
      never hands the outer builder to a callback, so `outer` records that
      choice of receiver rather than proving it. */
  method Exercise1() returns (outer: string, printed: seq<string>)
    ensures outer == DATA_RECEIVED
    ensures printed == ["Data received - Processed"]
  {
    var builder := new StringBuilder(DATA_RECEIVED);
    printed := FetchDataProcessed();
    assert DATA_RECEIVED + " - Processed" == "Data received - Processed";
    outer := builder.content;
  }

  // ---------------------------------------------------------------------------
  // Button.onEvent
  // ---------------------------------------------------------------------------

  datatype Position = Position(x: int, y: int)
  datatype ButtonEvent = ButtonEvent(isRightClick: bool, amount: int, position: Position)

  /** The event `onEvent` simulates: a left double click at (100, 200). */
  const SIMULATED_EVENT: ButtonEvent := ButtonEvent(false, 2, Position(100, 200))

  /** `onEvent(action)` runs the action on the simulated event. */
  function OnEvent<R>(action: ButtonEvent -> R): R {
    action(SIMULATED_EVENT)
  }

  /** The `when` of the handler the notes pass to `onEvent`. */
  function ClickMessage(event: ButtonEvent): (message: string)
    ensures message == "Double click" <==> !event.isRightClick && event.amount == 2
    ensures message == "Unknown click" <==> event.isRightClick || event.amount != 2
  {
    if !event.isRightClick && event.amount == 2 then "Double click" else "Unknown click"
  }

  /** Whatever the handler, it sees a left click with amount 2, so the
      notes' handler takes the "Double click" branch. */
  lemma OnEventDeliversDoubleClick<R>(action: ButtonEvent -> R)
    ensures exists e: ButtonEvent :: e.amount == 2 && !e.isRightClick && OnEvent(action) == action(e)
    ensures OnEvent(ClickMessage) == "Double click"
  {
    assert OnEvent(action) == action(SIMULATED_EVENT);
  }

  // ---------------------------------------------------------------------------
  // incremented
  // ---------------------------------------------------------------------------

  /** `List<Int>.incremented()`: `buildList { for (i in this) add(i + 1) }`,
      with `Int` addition. */
  method Incremented(list: seq<int>) returns (r: seq<int>)
    ensures |r| == |list|
    ensures forall i :: 0 <= i < |list| ==> r[i] == Add(list[i], 1)
    ensures forall i :: 0 <= i < |list| && INT_MIN <= list[i] < INT_MAX ==> r[i] == list[i] + 1
  {
    r := [];
    for k := 0 to |list|
      invariant |r| == k
      invariant forall i :: 0 <= i < k ==> r[i] == Add(list[i], 1)
    {
      r := r + [Add(list[k], 1)];
    }
  }

  /** `listOf(1, 2, 3).incremented()` is `[2, 3, 4]`. */
  method IncrementedExample() returns (r: seq<int>)
    ensures r == [2, 3, 4]
  {
    r := Incremented([1, 2, 3]);
  }
}
