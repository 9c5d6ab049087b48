/** The action chain: every builder call appends to two parallel action lists, one for the keyboard
    and one for the mouse, which the remote end plays back tick by tick. */
module ActionChain {
  import opened Wrappers

  type ElementId = string

  datatype MouseButton = Left | Middle | Right
  datatype PointerOrigin = Viewport | Pointer | WebElement(id: ElementId)

  datatype KeyAction = KeyPause(duration: nat) | KeyUp(value: char) | KeyDown(value: char)

  datatype PointerAction =
    | PointerPause(duration: nat)
    | PointerDown(button: MouseButton, duration: nat)
    | PointerUp(button: MouseButton, duration: nat)
    | PointerMove(duration: nat, origin: PointerOrigin, x: int, y: int)
    | PointerCancel

  const U64_MAX: nat := 0xFFFF_FFFF_FFFF_FFFF

  /** A delay in milliseconds, clamped to 64 bits. */
  function Millis(delay: Option<nat>, default: nat): nat {
    match delay
    case None => default
    case Some(ms) => if ms <= U64_MAX then ms else U64_MAX
  }

  // ----- playing actions back, after section 17 ("Actions") of the W3C WebDriver Recommendation -----

  datatype Page = Page(width: nat, height: nat, centers: map<ElementId, (int, int)>)
  datatype Event = Pressed(c: char) | Released(c: char) | Moved(x: int, y: int)
                 | ButtonDown(b: MouseButton) | ButtonUp(b: MouseButton) | Cancelled
  datatype World = World(pressed: set<char>, x: int, y: int, buttons: set<MouseButton>, events: seq<Event>)

  /** A playback either ends after `elapsed` milliseconds of ticks or stops at the first failing action. */
  datatype Playback = Played(world: World, elapsed: nat) | Failed(world: World)

  function PerformKey(a: KeyAction, w: World): World {
    match a
    case KeyPause(_) => w
    case KeyDown(c) => w.(pressed := w.pressed + {c}, events := w.events + [Pressed(c)])
    case KeyUp(c) => if c !in w.pressed then w else w.(pressed := w.pressed - {c}, events := w.events + [Released(c)])
  }

  /** Where a move ends, or `None` for an element that is not there. */
  function Target(page: Page, origin: PointerOrigin, x: int, y: int, w: World): Option<(int, int)> {
    match origin
    case Viewport => Some((x, y))
    case Pointer => Some((w.x + x, w.y + y))
    case WebElement(id) =>
      if id in page.centers then Some((page.centers[id].0 + x, page.centers[id].1 + y)) else None
  }

  /** `None` when the target does not exist or lies outside the viewport. */
  function PerformPointer(page: Page, a: PointerAction, w: World): Option<World> {
    match a
    case PointerPause(_) => Some(w)
    case PointerDown(b, _) =>
      if b in w.buttons then Some(w) else Some(w.(buttons := w.buttons + {b}, events := w.events + [ButtonDown(b)]))
    case PointerUp(b, _) =>
      if b !in w.buttons then Some(w) else Some(w.(buttons := w.buttons - {b}, events := w.events + [ButtonUp(b)]))
    case PointerMove(_, origin, x, y) =>
      (match Target(page, origin, x, y, w)
       case None => None
       case Some(to) =>
         if 0 <= to.0 <= page.width && 0 <= to.1 <= page.height
         then Some(w.(x := to.0, y := to.1, events := w.events + [Moved(to.0, to.1)])) else None)
    case PointerCancel => Some(w.(events := w.events + [Cancelled]))
  }

  /** What an action adds to the duration of its tick: pauses and moves only. */
  function KeyTime(a: KeyAction): nat {
    if a.KeyPause? then a.duration else 0
  }

  function PointerTime(a: PointerAction): nat {
    if a.PointerPause? || a.PointerMove? then a.duration else 0
  }

  function Max(a: nat, b: nat): nat { if a >= b then a else b }

  function Later(p: Playback, ms: nat): Playback {
    if p.Played? then p.(elapsed := p.elapsed + ms) else p
  }

  /** One tick: the keyboard's action, then the mouse's; a source that has run out does nothing. */
  function Dispatch(page: Page, keys: seq<KeyAction>, pointers: seq<PointerAction>, w: World): Playback
    decreases |keys| + |pointers|
  {
    if keys == [] && pointers == [] then Played(w, 0)
    else
      var w1 := if keys == [] then w else PerformKey(keys[0], w);
      var w2 := if pointers == [] then Some(w1) else PerformPointer(page, pointers[0], w1);
      var ms := Max(if keys == [] then 0 else KeyTime(keys[0]), if pointers == [] then 0 else PointerTime(pointers[0]));
      if w2.None? then Failed(w1)
      else Later(Dispatch(page, if keys == [] then [] else keys[1..], if pointers == [] then [] else pointers[1..],
                          w2.value), ms)
  }

  // ----- the program a chain stands for -----

  datatype Primitive = OfKey(key: KeyAction) | OfPointer(pointer: PointerAction)

  /** One source does something. */
  predicate IsPrimitive(p: Primitive) {
    match p
    case OfKey(k) => !k.KeyPause?
    case OfPointer(a) => !a.PointerPause?
  }

  /** The primitives one after the other; only moves take time. */
  function RunProgram(page: Page, program: seq<Primitive>, w: World): Playback {
    if program == [] then Played(w, 0)
    else match program[0]
      case OfKey(k) => RunProgram(page, program[1..], PerformKey(k, w))
      case OfPointer(a) =>
        match PerformPointer(page, a, w)
        case None => Failed(w)
        case Some(w1) => Later(RunProgram(page, program[1..], w1), if a.PointerMove? then a.duration else 0)
  }

  function MoveCount(program: seq<Primitive>): nat {
    if program == [] then 0
    else (if program[0].OfPointer? && program[0].pointer.PointerMove? then 1 else 0) + MoveCount(program[1..])
  }

  datatype Call =
    | Click | ClickElement(e: ElementId) | ClickAndHold | ClickAndHoldElement(e: ElementId)
    | ContextClick | ContextClickElement(e: ElementId) | DoubleClick | DoubleClickElement(e: ElementId)
    | DragAndDropElement(e: ElementId, target: ElementId) | DragAndDropByOffset(dx: int, dy: int)
    | DragAndDropElementByOffset(e: ElementId, dx: int, dy: int)
    | CallKeyDown(c: char) | KeyDownOnElement(e: ElementId, c: char) | CallKeyUp(c: char) | KeyUpOnElement(e: ElementId, c: char)
    | MoveTo(dx: int, dy: int) | MoveByOffset(dx: int, dy: int)
    | MoveToElementCenter(e: ElementId) | MoveToElementWithOffset(e: ElementId, dx: int, dy: int)
    | Release | ReleaseOnElement(e: ElementId) | SendKeys(text: seq<char>) | SendKeysToElement(e: ElementId, text: seq<char>)

  function Down(b: MouseButton): Primitive { OfPointer(PointerDown(b, 0)) }
  function Up(b: MouseButton): Primitive { OfPointer(PointerUp(b, 0)) }
  function Move(delay: nat, origin: PointerOrigin, x: int, y: int): Primitive { OfPointer(PointerMove(delay, origin, x, y)) }
  function Center(delay: nat, e: ElementId): Primitive { Move(delay, WebElement(e), 0, 0) }

  function Typed(text: seq<char>): seq<Primitive> {
    if text == [] then [] else [OfKey(KeyDown(text[0])), OfKey(KeyUp(text[0]))] + Typed(text[1..])
  }

  /** The primitive actions a user means by one builder call. */
  function Meaning(call: Call, delay: nat): seq<Primitive> {
    match call
    case Click => [Down(Left), Up(Left)]
    case ClickElement(e) => [Center(delay, e), Down(Left), Up(Left)]
    case ClickAndHold => [Down(Left)]
    case ClickAndHoldElement(e) => [Center(delay, e), Down(Left)]
    case ContextClick => [Down(Right), Up(Right)]
    case ContextClickElement(e) => [Center(delay, e), Down(Right), Up(Right)]
    case DoubleClick => [Down(Left), Up(Left), Down(Left), Up(Left)]
    case DoubleClickElement(e) => [Center(delay, e), Down(Left), Up(Left), Down(Left), Up(Left)]
    case DragAndDropElement(e, t) => [Center(delay, e), Down(Left), Center(delay, t), Up(Left)]
    case DragAndDropByOffset(x, y) => [Down(Left), Move(delay, Pointer, x, y)]
    case DragAndDropElementByOffset(e, x, y) => [Center(delay, e), Down(Left), Move(delay, Pointer, x, y)]
    case CallKeyDown(c) => [OfKey(KeyDown(c))]
    case KeyDownOnElement(e, c) => [Center(delay, e), Down(Left), Up(Left), OfKey(KeyDown(c))]
    case CallKeyUp(c) => [OfKey(KeyUp(c))]
    case KeyUpOnElement(e, c) => [Center(delay, e), Down(Left), Up(Left), OfKey(KeyUp(c))]
    case MoveTo(x, y) => [Move(delay, Viewport, x, y)]
    case MoveByOffset(x, y) => [Move(delay, Pointer, x, y)]
    case MoveToElementCenter(e) => [Center(delay, e)]
    case MoveToElementWithOffset(e, x, y) => [Move(delay, WebElement(e), x, y)]
    case Release => [Up(Left)]
    case ReleaseOnElement(e) => [Center(delay, e), Up(Left)]
    case SendKeys(text) => Typed(text)
    case SendKeysToElement(e, text) => [Center(delay, e), Down(Left), Up(Left)] + Typed(text)
  }

  function KeyOf(p: Primitive): KeyAction {
    match p case OfKey(k) => k case OfPointer(_) => KeyPause(0)
  }

  function PointerOf(p: Primitive): PointerAction {
    match p case OfKey(_) => PointerPause(0) case OfPointer(a) => a
  }

  /** The two tick streams of a program: where one source acts, the other pauses for no time. */
  function KeyTicks(program: seq<Primitive>): (r: seq<KeyAction>)
    ensures |r| == |program|
  {
    seq(|program|, i requires 0 <= i < |program| => KeyOf(program[i]))
  }

  function PointerTicks(program: seq<Primitive>): (r: seq<PointerAction>)
    ensures |r| == |program|
  {
    seq(|program|, i requires 0 <= i < |program| => PointerOf(program[i]))
  }

  ghost predicate WellFormed(program: seq<Primitive>, delay: nat) {
    forall i | 0 <= i < |program| ::
      IsPrimitive(program[i])
      && (program[i].OfPointer? && program[i].pointer.PointerMove? ==> program[i].pointer.duration == delay)
  }

  lemma TicksAppend(a: seq<Primitive>, b: seq<Primitive>)
    ensures KeyTicks(a + b) == KeyTicks(a) + KeyTicks(b)
    ensures PointerTicks(a + b) == PointerTicks(a) + PointerTicks(b)
  {
  }

  lemma {:induction false} TypedAppend(a: seq<char>, b: seq<char>)
    ensures Typed(a + b) == Typed(a) + Typed(b)
  {
    if a == [] {
      assert a + b == b;
    } else {
      assert (a + b)[1..] == a[1..] + b;
      TypedAppend(a[1..], b);
    }
  }

  lemma {:induction false} TypedWellFormed(text: seq<char>, delay: nat)
    ensures WellFormed(Typed(text), delay)
  {
    if text != [] {
      TypedWellFormed(text[1..], delay);
    }
  }

  /** Every tick has exactly one source that is not a zero pause. */
  lemma OneSourcePerTick(program: seq<Primitive>, delay: nat)
    requires WellFormed(program, delay)
    ensures |KeyTicks(program)| == |PointerTicks(program)|
    ensures forall i | 0 <= i < |program| ::
              KeyTicks(program)[i] == KeyPause(0) <==> PointerTicks(program)[i] != PointerPause(0)
  {
    forall i | 0 <= i < |program| ensures KeyTicks(program)[i] == KeyPause(0) <==> PointerTicks(program)[i] != PointerPause(0) {
      assert IsPrimitive(program[i]);
    }
  }

  /** Playing the two streams tick by tick performs the program in order, and takes the pointer
      delay once for each move. */
  lemma DispatchIsProgram(page: Page, program: seq<Primitive>, delay: nat, w: World)
    requires WellFormed(program, delay)
    ensures Dispatch(page, KeyTicks(program), PointerTicks(program), w) == RunProgram(page, program, w)
    ensures RunProgram(page, program, w).Played? ==> RunProgram(page, program, w).elapsed == delay * MoveCount(program)
  {
    DispatchPlays(page, program, delay, w);
    ProgramTime(page, program, delay, w);
  }

  lemma {:induction false} DispatchPlays(page: Page, program: seq<Primitive>, delay: nat, w: World)
    requires WellFormed(program, delay)
    ensures Dispatch(page, KeyTicks(program), PointerTicks(program), w) == RunProgram(page, program, w)
  {
    hide PerformKey, PerformPointer;
    if program != [] {
      var rest := program[1..];
      assert KeyTicks(program)[1..] == KeyTicks(rest) && PointerTicks(program)[1..] == PointerTicks(rest);
      assert IsPrimitive(program[0]);
      match program[0]
      case OfKey(k) =>
        PausesDoNothing(page, PerformKey(k, w));
        DispatchPlays(page, rest, delay, PerformKey(k, w));
      case OfPointer(a) =>
        PausesDoNothing(page, w);
        if PerformPointer(page, a, w).Some? {
          DispatchPlays(page, rest, delay, PerformPointer(page, a, w).value);
        }
    }
  }

  lemma PausesDoNothing(page: Page, w: World)
    ensures PerformKey(KeyPause(0), w) == w && PerformPointer(page, PointerPause(0), w) == Some(w)
  {
  }

  lemma {:induction false} ProgramTime(page: Page, program: seq<Primitive>, delay: nat, w: World)
    requires WellFormed(program, delay)
    ensures RunProgram(page, program, w).Played? ==> RunProgram(page, program, w).elapsed == delay * MoveCount(program)
  {
    hide PerformKey, PerformPointer;
    if program != [] {
      var rest := program[1..];
      assert delay * (1 + MoveCount(rest)) == delay + delay * MoveCount(rest);
      match program[0]
      case OfKey(k) => ProgramTime(page, rest, delay, PerformKey(k, w));
      case OfPointer(a) =>
        if PerformPointer(page, a, w).Some? {
          ProgramTime(page, rest, delay, PerformPointer(page, a, w).value);
        }
    }
  }

  // ----- the builder -----

  /** `ActionSource<KeyAction>`. */
  class KeySource {
    var actions: seq<KeyAction>
    const duration: nat

    constructor (delay: Option<nat>)
      ensures actions == [] && duration == Millis(delay, 0)
    {
      actions, duration := [], Millis(delay, 0);
    }

    method Pause()
      modifies this
      ensures actions == old(actions) + [KeyPause(0)]
    {
      actions := actions + [KeyPause(0)];
    }

    method PressKey(c: char)
      modifies this
      ensures actions == old(actions) + [KeyDown(c)]
    {
      actions := actions + [KeyDown(c)];
    }

    method ReleaseKey(c: char)
      modifies this
      ensures actions == old(actions) + [KeyUp(c)]
    {
      actions := actions + [KeyUp(c)];
    }
  }

  /** `ActionSource<PointerAction>`; the stored duration goes into every move. */
  class PointerSource {
    var actions: seq<PointerAction>
    const duration: nat

    constructor (delay: Option<nat>)
      ensures actions == [] && duration == Millis(delay, 250)
    {
      actions, duration := [], Millis(delay, 250);
    }

    method Pause()
      modifies this
      ensures actions == old(actions) + [PointerPause(0)]
    {
      actions := actions + [PointerPause(0)];
    }

    method AddMove(origin: PointerOrigin, x: int, y: int)
      modifies this
      ensures actions == old(actions) + [PointerMove(duration, origin, x, y)]
    {
      actions := actions + [PointerMove(duration, origin, x, y)];
    }

    method ClickButton(button: MouseButton)
      modifies this
      ensures actions == old(actions) + [PointerDown(button, 0), PointerUp(button, 0)]
    {
      actions := actions + [PointerDown(button, 0)];
      actions := actions + [PointerUp(button, 0)];
    }

    method Hold()
      modifies this
      ensures actions == old(actions) + [PointerDown(Left, 0)]
    {
      actions := actions + [PointerDown(Left, 0)];
    }

    method Release()
      modifies this
      ensures actions == old(actions) + [PointerUp(Left, 0)]
    {
      actions := actions + [PointerUp(Left, 0)];
    }

    method DoubleClick()
      modifies this
      ensures actions == old(actions)
                         + [PointerDown(Left, 0), PointerUp(Left, 0), PointerDown(Left, 0), PointerUp(Left, 0)]
    {
      ClickButton(Left);
      ClickButton(Left);
    }
  }

  class Chain {
    const keys: KeySource
    const pointers: PointerSource
    /** What the calls so far meant. */
    ghost var program: seq<Primitive>

    ghost predicate Valid()
      reads this, keys, pointers
    {
      && keys.actions == KeyTicks(program) && pointers.actions == PointerTicks(program)
      && WellFormed(program, pointers.duration)
    }

    /** Every builder call extends the program by its meaning. */
    twostate predicate Extends(call: Call)
      reads this, keys, pointers
    {
      Valid() && program == old(program) + Meaning(call, pointers.duration)
    }

    constructor (keyDelay: Option<nat>, pointerDelay: Option<nat>)
      ensures Valid() && program == [] && fresh(keys) && fresh(pointers)
      ensures pointers.duration == Millis(pointerDelay, 250) && keys.duration == Millis(keyDelay, 0)
    {
      keys := new KeySource(keyDelay);
      pointers := new PointerSource(pointerDelay);
      program := [];
    }

    /** The two lists sent to the remote end do there what the program says, at the stored delay. */
    lemma Perform(page: Page, w: World)
      requires Valid()
      ensures var r := Dispatch(page, keys.actions, pointers.actions, w);
              && r == RunProgram(page, program, w)
              && (r.Played? ==> r.elapsed == pointers.duration * MoveCount(program))
      ensures |keys.actions| == |pointers.actions|
      ensures forall i | 0 <= i < |keys.actions| ::
                keys.actions[i] == KeyPause(0) <==> pointers.actions[i] != PointerPause(0)
    {
      OneSourcePerTick(program, pointers.duration);
      DispatchIsProgram(page, program, pointers.duration, w);
    }

    /** Playing the two lists tick by tick performs `what` in order, and takes the pointer delay once per move. */
    ghost predicate Plays(page: Page, what: seq<Primitive>, w: World)
      reads this, keys, pointers
    {
      var r := Dispatch(page, keys.actions, pointers.actions, w);
      r == RunProgram(page, what, w) && (r.Played? ==> r.elapsed == pointers.duration * MoveCount(what))
    }

    /** The ghost record of one more primitive call. */
    ghost method Record(more: seq<Primitive>)
      requires keys.actions == KeyTicks(program) + KeyTicks(more)
      requires pointers.actions == PointerTicks(program) + PointerTicks(more)
      requires WellFormed(program, pointers.duration) && WellFormed(more, pointers.duration)
      modifies this`program
      ensures Valid() && program == old(program) + more
    {
      TicksAppend(program, more);
      program := program + more;
    }

    method ClickLeft()
      requires Valid()
      modifies this, keys, pointers
      ensures Extends(Click)
    {
      pointers.ClickButton(Left);
      keys.Pause();
      keys.Pause();
      Record([Down(Left), Up(Left)]);
    }

    method ClickOn(e: ElementId)
      requires Valid()
      modifies this, keys, pointers
      ensures Extends(ClickElement(e))
    {
      MoveToCenter(e);
      ClickLeft();
    }

    method Hold()
      requires Valid()
      modifies this, keys, pointers
      ensures Extends(ClickAndHold)
    {
      pointers.Hold();
      keys.Pause();
      Record([Down(Left)]);
    }

    method HoldOn(e: ElementId)
      requires Valid()
      modifies this, keys, pointers
      ensures Extends(ClickAndHoldElement(e))
    {
      MoveToCenter(e);
      Hold();
    }

    method ClickRight()
      requires Valid()
      modifies this, keys, pointers
      ensures Extends(ContextClick)
    {
      pointers.ClickButton(Right);
      keys.Pause();
      keys.Pause();
      Record([Down(Right), Up(Right)]);
    }

    method ClickRightOn(e: ElementId)
      requires Valid()
      modifies this, keys, pointers
      ensures Extends(ContextClickElement(e))
    {
      MoveToCenter(e);
      ClickRight();
    }

    method ClickTwice()
      requires Valid()
      modifies this, keys, pointers
      ensures Extends(DoubleClick)
    {
      pointers.DoubleClick();
      ghost var before := keys.actions;
      for i := 0 to 4
        invariant keys.actions == before + seq(i, _ => KeyPause(0))
        invariant pointers.actions == PointerTicks(program) + PointerTicks([Down(Left), Up(Left), Down(Left), Up(Left)])
        invariant program == old(program)
      {
        keys.Pause();
      }
      Record([Down(Left), Up(Left), Down(Left), Up(Left)]);
    }

    method ClickTwiceOn(e: ElementId)
      requires Valid()
      modifies this, keys, pointers
      ensures Extends(DoubleClickElement(e))
    {
      MoveToCenter(e);
      ClickTwice();
    }

    method DragOnto(e: ElementId, target: ElementId)
      requires Valid()
      modifies this, keys, pointers
      ensures Extends(DragAndDropElement(e, target))
    {
      HoldOn(e);
      ReleaseOn(target);
    }

    method DragBy(x: int, y: int)
      requires Valid()
      modifies this, keys, pointers
      ensures Extends(DragAndDropByOffset(x, y))
    {
      Hold();
      MoveBy(x, y);
    }

    method DragElementBy(e: ElementId, x: int, y: int)
      requires Valid()
      modifies this, keys, pointers
      ensures Extends(DragAndDropElementByOffset(e, x, y))
    {
      HoldOn(e);
      MoveBy(x, y);
    }

    method PressKey(c: char)
      requires Valid()
      modifies this, keys, pointers
      ensures Extends(CallKeyDown(c))
    {
      keys.PressKey(c);
      pointers.Pause();
      Record([OfKey(KeyDown(c))]);
    }

    method PressKeyOn(e: ElementId, c: char)
      requires Valid()
      modifies this, keys, pointers
      ensures Extends(KeyDownOnElement(e, c))
    {
      ClickOn(e);
      PressKey(c);
    }

    method ReleaseKey(c: char)
      requires Valid()
      modifies this, keys, pointers
      ensures Extends(CallKeyUp(c))
    {
      keys.ReleaseKey(c);
      pointers.Pause();
      Record([OfKey(KeyUp(c))]);
    }

    method ReleaseKeyOn(e: ElementId, c: char)
      requires Valid()
      modifies this, keys, pointers
      ensures Extends(KeyUpOnElement(e, c))
    {
      ClickOn(e);
      ReleaseKey(c);
    }

    method MoveTo(x: int, y: int)
      requires Valid()
      modifies this, keys, pointers
      ensures Extends(Call.MoveTo(x, y))
    {
      pointers.AddMove(Viewport, x, y);
      keys.Pause();
      Record([Move(pointers.duration, Viewport, x, y)]);
    }

    method MoveBy(x: int, y: int)
      requires Valid()
      modifies this, keys, pointers
      ensures Extends(MoveByOffset(x, y))
    {
      pointers.AddMove(Pointer, x, y);
      keys.Pause();
      Record([Move(pointers.duration, Pointer, x, y)]);
    }

    method MoveToCenter(e: ElementId)
      requires Valid()
      modifies this, keys, pointers
      ensures Extends(MoveToElementCenter(e))
    {
      pointers.AddMove(WebElement(e), 0, 0);
      keys.Pause();
      Record([Center(pointers.duration, e)]);
    }

    method MoveToOffset(e: ElementId, x: int, y: int)
      requires Valid()
      modifies this, keys, pointers
      ensures Extends(MoveToElementWithOffset(e, x, y))
    {
      pointers.AddMove(WebElement(e), x, y);
      keys.Pause();
      Record([Move(pointers.duration, WebElement(e), x, y)]);
    }

    method ReleaseLeft()
      requires Valid()
      modifies this, keys, pointers
      ensures Extends(Release)
    {
      pointers.Release();
      keys.Pause();
      Record([Up(Left)]);
    }

    method ReleaseOn(e: ElementId)
      requires Valid()
      modifies this, keys, pointers
      ensures Extends(ReleaseOnElement(e))
    {
      MoveToCenter(e);
      ReleaseLeft();
    }

    method SendText(text: seq<char>)
      requires Valid()
      modifies this, keys, pointers
      ensures Extends(SendKeys(text))
    {
      hide KeyTicks, PointerTicks, WellFormed, Typed;
      TypedNone();
      for i := 0 to |text|
        invariant Valid() && program == old(program) + Typed(text[..i])
      {
        PressKey(text[i]);
        ReleaseKey(text[i]);
        TypedSnoc(text, i);
        Regroup(old(program), Typed(text[..i]), OfKey(KeyDown(text[i])), OfKey(KeyUp(text[i])));
      }
      assert text[..|text|] == text;
    }

    method SendTextTo(e: ElementId, text: seq<char>)
      requires Valid()
      modifies this, keys, pointers
      ensures Extends(SendKeysToElement(e, text))
    {
      hide KeyTicks, PointerTicks, WellFormed, Typed;
      ClickOn(e);
      ghost var clicked := program;
      SendText(text);
      assert program == clicked + Typed(text);
      assert clicked == old(program) + Meaning(ClickElement(e), pointers.duration);
    }

    /** One builder call. */
    method Do(call: Call)
      requires Valid()
      modifies this, keys, pointers
      ensures Extends(call)
    {
      hide KeyTicks, PointerTicks, WellFormed, Meaning;
      match call
      case Click => ClickLeft();
      case ClickElement(e) => ClickOn(e);
      case ClickAndHold => Hold();
      case ClickAndHoldElement(e) => HoldOn(e);
      case ContextClick => ClickRight();
      case ContextClickElement(e) => ClickRightOn(e);
      case DoubleClick => ClickTwice();
      case DoubleClickElement(e) => ClickTwiceOn(e);
      case DragAndDropElement(e, target) => DragOnto(e, target);
      case DragAndDropByOffset(x, y) => DragBy(x, y);
      case DragAndDropElementByOffset(e, x, y) => DragElementBy(e, x, y);
      case CallKeyDown(c) => PressKey(c);
      case KeyDownOnElement(e, c) => PressKeyOn(e, c);
      case CallKeyUp(c) => ReleaseKey(c);
      case KeyUpOnElement(e, c) => ReleaseKeyOn(e, c);
      case MoveTo(x, y) => MoveTo(x, y);
      case MoveByOffset(x, y) => MoveBy(x, y);
      case MoveToElementCenter(e) => MoveToCenter(e);
      case MoveToElementWithOffset(e, x, y) => MoveToOffset(e, x, y);
      case Release => ReleaseLeft();
      case ReleaseOnElement(e) => ReleaseOn(e);
      case SendKeys(text) => SendText(text);
      case SendKeysToElement(e, text) => SendTextTo(e, text);
    }

    /** Any sequence of builder calls: the chain stands for the meanings of the calls, one after the other. */
    method DoAll(calls: seq<Call>)
      requires Valid()
      modifies this, keys, pointers
      ensures Valid() && program == old(program) + Meanings(calls, pointers.duration)
    {
      hide KeyTicks, PointerTicks, WellFormed, Meaning, Meanings;
      NoMeanings(pointers.duration);
      for i := 0 to |calls|
        invariant Valid() && program == old(program) + Meanings(calls[..i], pointers.duration)
      {
        MeaningsSnoc(calls[..i], calls[i], pointers.duration);
        assert calls[..i + 1] == calls[..i] + [calls[i]];
        Do(calls[i]);
      }
      assert calls[..|calls|] == calls;
    }
  }

  /** What a sequence of builder calls means. */
  function Meanings(calls: seq<Call>, delay: nat): seq<Primitive> {
    if calls == [] then [] else Meanings(calls[..|calls| - 1], delay) + Meaning(calls[|calls| - 1], delay)
  }

  lemma NoMeanings(delay: nat)
    ensures Meanings([], delay) == []
  {
  }

  lemma MeaningsSnoc(calls: seq<Call>, call: Call, delay: nat)
    ensures Meanings(calls + [call], delay) == Meanings(calls, delay) + Meaning(call, delay)
  {
    hide Meaning;
    assert (calls + [call])[..|calls|] == calls;
  }

  lemma MeaningWellFormed(call: Call, delay: nat)
    ensures WellFormed(Meaning(call, delay), delay)
  {
    match call
    case SendKeys(text) => TypedWellFormed(text, delay);
    case SendKeysToElement(_, text) => TypedWellFormed(text, delay);
    case _ =>
  }

  lemma {:induction false} MeaningsWellFormed(calls: seq<Call>, delay: nat)
    ensures WellFormed(Meanings(calls, delay), delay)
  {
    hide Meaning;
    if calls != [] {
      MeaningsWellFormed(calls[..|calls| - 1], delay);
      MeaningWellFormed(calls[|calls| - 1], delay);
    }
  }

  /** For every sequence of builder calls, on every page and from every state: the two lists have equal length, each
      tick has one source that is not a zero pause, and playing them tick by tick performs the meanings of the calls
      in order, taking the pointer delay once per move. */
  lemma EveryChainPlaysItsCalls(page: Page, calls: seq<Call>, delay: nat, w: World)
    ensures var program := Meanings(calls, delay);
            var keys, pointers := KeyTicks(program), PointerTicks(program);
            && |keys| == |pointers|
            && (forall i | 0 <= i < |keys| :: keys[i] == KeyPause(0) <==> pointers[i] != PointerPause(0))
            && Dispatch(page, keys, pointers, w) == RunProgram(page, program, w)
            && (RunProgram(page, program, w).Played? ==>
                  RunProgram(page, program, w).elapsed == delay * MoveCount(program))
  {
    hide Meanings, WellFormed, Dispatch, RunProgram;
    MeaningsWellFormed(calls, delay);
    OneSourcePerTick(Meanings(calls, delay), delay);
    DispatchIsProgram(page, Meanings(calls, delay), delay, w);
  }

  // ----- the left button after a playback -----

  function ButtonsNext(p: Primitive, buttons: set<MouseButton>): set<MouseButton> {
    match p
    case OfPointer(PointerDown(b, _)) => buttons + {b}
    case OfPointer(PointerUp(b, _)) => buttons - {b}
    case _ => buttons
  }

  function ButtonsAfter(program: seq<Primitive>, buttons: set<MouseButton>): set<MouseButton> {
    if program == [] then buttons else ButtonsAfter(program[1..], ButtonsNext(program[0], buttons))
  }

  lemma {:induction false} ProgramButtons(page: Page, program: seq<Primitive>, w: World)
    ensures RunProgram(page, program, w).Played? ==>
              RunProgram(page, program, w).world.buttons == ButtonsAfter(program, w.buttons)
  {
    if program != [] {
      match program[0]
      case OfKey(k) => ProgramButtons(page, program[1..], PerformKey(k, w));
      case OfPointer(a) =>
        if PerformPointer(page, a, w).Some? {
          PointerButtons(page, a, w);
          ProgramButtons(page, program[1..], PerformPointer(page, a, w).value);
        }
    }
  }

  lemma PointerButtons(page: Page, a: PointerAction, w: World)
    requires PerformPointer(page, a, w).Some?
    ensures PerformPointer(page, a, w).value.buttons == ButtonsNext(OfPointer(a), w.buttons)
  {
  }

  lemma {:induction false} ButtonsAppend(a: seq<Primitive>, b: seq<Primitive>, buttons: set<MouseButton>)
    ensures ButtonsAfter(a + b, buttons) == ButtonsAfter(b, ButtonsAfter(a, buttons))
  {
    if a == [] {
      assert a + b == b;
    } else {
      assert (a + b)[1..] == a[1..] + b;
      ButtonsAppend(a[1..], b, ButtonsNext(a[0], buttons));
    }
  }

  lemma {:induction false} TypingButtons(text: seq<char>, buttons: set<MouseButton>)
    ensures ButtonsAfter(Typed(text), buttons) == buttons
  {
    if text != [] {
      TypingButtons(text[1..], buttons);
    }
  }

  /** The calls that leave the left button down. */
  predicate Holds(call: Call) {
    call.ClickAndHold? || call.ClickAndHoldElement? || call.DragAndDropByOffset? || call.DragAndDropElementByOffset?
  }

  /** The calls that leave it up. */
  predicate Frees(call: Call) {
    call.Click? || call.ClickElement? || call.DoubleClick? || call.DoubleClickElement? || call.DragAndDropElement?
    || call.KeyDownOnElement? || call.KeyUpOnElement? || call.Release? || call.ReleaseOnElement? || call.SendKeysToElement?
  }

  lemma CallButtons(call: Call, delay: nat, buttons: set<MouseButton>)
    ensures Left in ButtonsAfter(Meaning(call, delay), buttons) <==> Holds(call) || (Left in buttons && !Frees(call))
  {
    match call
    case SendKeys(text) => TypingButtons(text, buttons);
    case SendKeysToElement(e, text) =>
      var click := [Center(delay, e), Down(Left), Up(Left)];
      ButtonsAppend(click, Typed(text), buttons);
      ThreeButtons(click, buttons);
      TypingButtons(text, ButtonsAfter(click, buttons));
    case _ => MouseButtons(call, delay, buttons);
  }

  lemma MouseButtons(call: Call, delay: nat, buttons: set<MouseButton>)
    requires !call.SendKeys? && !call.SendKeysToElement?
    ensures Left in ButtonsAfter(Meaning(call, delay), buttons) <==> Holds(call) || (Left in buttons && !Frees(call))
  {
    hide ButtonsAfter;
    var program := Meaning(call, delay);
    ThreeButtons(program, buttons);
    if |program| > 2 {
      ThreeButtons(program[3..], ThirdButtons(program, buttons));
    }
  }

  function ThirdButtons(program: seq<Primitive>, buttons: set<MouseButton>): set<MouseButton>
    requires |program| > 2
  {
    ButtonsNext(program[2], ButtonsNext(program[1], ButtonsNext(program[0], buttons)))
  }

  lemma ThreeButtons(program: seq<Primitive>, buttons: set<MouseButton>)
    ensures ButtonsAfter(program, buttons) ==
            if |program| == 0 then buttons
            else if |program| == 1 then ButtonsNext(program[0], buttons)
            else if |program| == 2 then ButtonsNext(program[1], ButtonsNext(program[0], buttons))
            else ButtonsAfter(program[3..], ThirdButtons(program, buttons))
  {
    if |program| > 2 {
      assert program[1..][1..] == program[2..] && program[2..][1..] == program[3..];
    }
  }

  /** Call `i` leaves the left button down, and no later one lets it up. */
  predicate HeldSince(calls: seq<Call>, i: nat)
    requires i < |calls|
  {
    Holds(calls[i]) && forall j | i < j < |calls| :: !Frees(calls[j])
  }

  lemma {:induction false} MeaningsButtons(calls: seq<Call>, delay: nat, buttons: set<MouseButton>)
    requires Left !in buttons
    ensures Left in ButtonsAfter(Meanings(calls, delay), buttons) <==> exists i | 0 <= i < |calls| :: HeldSince(calls, i)
  {
    hide Meaning, ButtonsAfter, Holds, Frees;
    if calls == [] {
      ButtonsAfterNone(buttons);
    } else {
      var n := |calls| - 1;
      var init := calls[..n];
      MeaningsButtons(init, delay, buttons);
      ButtonsAppend(Meanings(init, delay), Meaning(calls[n], delay), buttons);
      CallButtons(calls[n], delay, ButtonsAfter(Meanings(init, delay), buttons));
      HeldSnoc(calls);
    }
  }

  lemma ButtonsAfterNone(buttons: set<MouseButton>)
    ensures ButtonsAfter([], buttons) == buttons
  {
  }

  lemma HeldSnoc(calls: seq<Call>)
    requires calls != []
    ensures var n := |calls| - 1;
            (exists i | 0 <= i <= n :: HeldSince(calls, i)) <==>
            Holds(calls[n]) || ((exists i | 0 <= i < n :: HeldSince(calls[..n], i)) && !Frees(calls[n]))
  {
    var n := |calls| - 1;
    var init := calls[..n];
    if Holds(calls[n]) {
      assert HeldSince(calls, n);
    } else {
      forall i | 0 <= i < n ensures HeldSince(calls, i) <==> HeldSince(init, i) && !Frees(calls[n]) {
      }
    }
  }

  /** The left button after any calls, from a state with it up: a chain that plays to its end leaves it down exactly
      when a call that holds it is not followed by one that lets it up. */
  lemma LeftButtonAfter(page: Page, calls: seq<Call>, delay: nat, w: World)
    requires Left !in w.buttons
    ensures var program := Meanings(calls, delay);
            var r := Dispatch(page, KeyTicks(program), PointerTicks(program), w);
            r.Played? ==> (Left in r.world.buttons <==> exists i | 0 <= i < |calls| :: HeldSince(calls, i))
  {
    hide Meanings, WellFormed, Dispatch, RunProgram, ButtonsAfter, HeldSince;
    var program := Meanings(calls, delay);
    MeaningsWellFormed(calls, delay);
    DispatchIsProgram(page, program, delay, w);
    ProgramButtons(page, program, w);
    MeaningsButtons(calls, delay, w.buttons);
  }

  /** Of all the calls, those that hold leave the button down, as they promise, and so do the two drags by an offset,
      which promise a drop. */
  lemma OffsetDragsNeverDrop(page: Page, call: Call, delay: nat, w: World)
    requires Left !in w.buttons
    ensures var program := Meaning(call, delay);
            var r := Dispatch(page, KeyTicks(program), PointerTicks(program), w);
            && r == RunProgram(page, program, w)
            && (r.Played? ==> (Left in r.world.buttons <==>
                  call.ClickAndHold? || call.ClickAndHoldElement?
                  || call.DragAndDropByOffset? || call.DragAndDropElementByOffset?))
  {
    hide Meaning, WellFormed, Dispatch, RunProgram, ButtonsAfter;
    MeaningWellFormed(call, delay);
    DispatchIsProgram(page, Meaning(call, delay), delay, w);
    ProgramButtons(page, Meaning(call, delay), w);
    CallButtons(call, delay, w.buttons);
  }

  lemma TypedNone()
    ensures Typed([]) == []
  {
  }

  lemma TypedSnoc(text: seq<char>, i: nat)
    requires i < |text|
    ensures Typed(text[..i + 1]) == Typed(text[..i]) + [OfKey(KeyDown(text[i])), OfKey(KeyUp(text[i]))]
  {
    assert text[..i + 1] == text[..i] + [text[i]];
    TypedAppend(text[..i], [text[i]]);
    assert Typed([text[i]]) == [OfKey(KeyDown(text[i])), OfKey(KeyUp(text[i]))] + [];
  }

  lemma Regroup(a: seq<Primitive>, b: seq<Primitive>, p: Primitive, q: Primitive)
    ensures a + b + [p] + [q] == a + (b + [p, q])
  {
  }
}
