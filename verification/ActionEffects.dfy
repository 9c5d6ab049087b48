/** What the builder calls do to the page: the events, the pointer, the buttons and the keys, call by call. */
module ActionEffects {
  import opened Wrappers
  import opened ActionChain

  type Point = (int, int)

  predicate InView(page: Page, p: Point) {
    0 <= p.0 <= page.width && 0 <= p.1 <= page.height
  }

  predicate CenterInView(page: Page, e: ElementId) {
    e in page.centers && InView(page, page.centers[e])
  }

  function Plus(p: Point, dx: int, dy: int): Point {
    (p.0 + dx, p.1 + dy)
  }

  /** Every place the call moves to exists and is in the viewport. */
  predicate CanPlay(page: Page, call: Call, w: World) {
    match call
    case MoveTo(x, y) => InView(page, (x, y))
    case MoveByOffset(dx, dy) => InView(page, (w.x + dx, w.y + dy))
    case DragAndDropByOffset(dx, dy) => InView(page, (w.x + dx, w.y + dy))
    case MoveToElementWithOffset(e, dx, dy) => e in page.centers && InView(page, Plus(page.centers[e], dx, dy))
    case DragAndDropElementByOffset(e, dx, dy) => CenterInView(page, e) && InView(page, Plus(page.centers[e], dx, dy))
    case DragAndDropElement(e, target) => CenterInView(page, e) && CenterInView(page, target)
    case ClickElement(e) => CenterInView(page, e)
    case ClickAndHoldElement(e) => CenterInView(page, e)
    case ContextClickElement(e) => CenterInView(page, e)
    case DoubleClickElement(e) => CenterInView(page, e)
    case KeyDownOnElement(e, _) => CenterInView(page, e)
    case KeyUpOnElement(e, _) => CenterInView(page, e)
    case MoveToElementCenter(e) => CenterInView(page, e)
    case ReleaseOnElement(e) => CenterInView(page, e)
    case SendKeysToElement(e, _) => CenterInView(page, e)
    case _ => true
  }

  function MovedTo(p: Point): Event {
    Moved(p.0, p.1)
  }

  /** A button that is down already is not pressed again. */
  function Press(w: World, b: MouseButton): seq<Event> {
    if b in w.buttons then [] else [ButtonDown(b)]
  }

  /** Each character is pressed and released before the next one. */
  function Typing(text: seq<char>): seq<Event> {
    seq(2 * |text|, i requires 0 <= i < 2 * |text| => if i % 2 == 0 then Pressed(text[i / 2]) else Event.Released(text[i / 2]))
  }

  function CharsOf(text: seq<char>): set<char> {
    set c | c in text
  }

  /** `more` happened, after which the pointer, the keys and the buttons are as given. */
  predicate Leaves(w: World, w': World, more: seq<Event>, at: Point, pressed: set<char>, buttons: set<MouseButton>) {
    w' == World(pressed, at.0, at.1, buttons, w.events + more)
  }

  /** What one call does, from any state. */
  predicate Happens(page: Page, call: Call, w: World, w': World)
    requires CanPlay(page, call, w)
  {
    var here, press, up := (w.x, w.y), Press(w, Left), ButtonUp(Left);
    var held, free := w.buttons + {Left}, w.buttons - {Left};
    match call
    case Click => Leaves(w, w', press + [up], here, w.pressed, free)
    case ClickElement(e) =>
      Leaves(w, w', [MovedTo(page.centers[e])] + press + [up], page.centers[e], w.pressed, free)
    case ClickAndHold => Leaves(w, w', press, here, w.pressed, held)
    case ClickAndHoldElement(e) =>
      Leaves(w, w', [MovedTo(page.centers[e])] + press, page.centers[e], w.pressed, held)
    case ContextClick => Leaves(w, w', Press(w, Right) + [ButtonUp(Right)], here, w.pressed, w.buttons - {Right})
    case ContextClickElement(e) =>
      Leaves(w, w', [MovedTo(page.centers[e])] + Press(w, Right) + [ButtonUp(Right)], page.centers[e], w.pressed,
             w.buttons - {Right})
    case DoubleClick => Leaves(w, w', press + [up, ButtonDown(Left), up], here, w.pressed, free)
    case DoubleClickElement(e) =>
      Leaves(w, w', [MovedTo(page.centers[e])] + press + [up, ButtonDown(Left), up], page.centers[e], w.pressed, free)
    case DragAndDropElement(e, target) =>
      Leaves(w, w', [MovedTo(page.centers[e])] + press + [MovedTo(page.centers[target]), up], page.centers[target],
             w.pressed, free)
    case DragAndDropByOffset(dx, dy) =>
      Leaves(w, w', press + [MovedTo(Plus(here, dx, dy))], Plus(here, dx, dy), w.pressed, held)
    case DragAndDropElementByOffset(e, dx, dy) =>
      var to := Plus(page.centers[e], dx, dy);
      Leaves(w, w', [MovedTo(page.centers[e])] + press + [MovedTo(to)], to, w.pressed, held)
    case CallKeyDown(c) => Leaves(w, w', [Pressed(c)], here, w.pressed + {c}, w.buttons)
    case KeyDownOnElement(e, c) =>
      Leaves(w, w', [MovedTo(page.centers[e])] + press + [up, Pressed(c)], page.centers[e], w.pressed + {c}, free)
    case CallKeyUp(c) =>
      Leaves(w, w', if c in w.pressed then [Event.Released(c)] else [], here, w.pressed - {c}, w.buttons)
    case KeyUpOnElement(e, c) =>
      Leaves(w, w', [MovedTo(page.centers[e])] + press + [up] + (if c in w.pressed then [Event.Released(c)] else []),
             page.centers[e], w.pressed - {c}, free)
    case MoveTo(x, y) => Leaves(w, w', [Moved(x, y)], (x, y), w.pressed, w.buttons)
    case MoveByOffset(dx, dy) => Leaves(w, w', [MovedTo(Plus(here, dx, dy))], Plus(here, dx, dy), w.pressed, w.buttons)
    case MoveToElementCenter(e) => Leaves(w, w', [MovedTo(page.centers[e])], page.centers[e], w.pressed, w.buttons)
    case MoveToElementWithOffset(e, dx, dy) =>
      var to := Plus(page.centers[e], dx, dy);
      Leaves(w, w', [MovedTo(to)], to, w.pressed, w.buttons)
    case Release => Leaves(w, w', if Left in w.buttons then [up] else [], here, w.pressed, free)
    case ReleaseOnElement(e) =>
      Leaves(w, w', [MovedTo(page.centers[e])] + (if Left in w.buttons then [up] else []), page.centers[e], w.pressed, free)
    case SendKeys(text) => Leaves(w, w', Typing(text), here, w.pressed - CharsOf(text), w.buttons)
    case SendKeysToElement(e, text) =>
      Leaves(w, w', [MovedTo(page.centers[e])] + press + [up] + Typing(text), page.centers[e],
             w.pressed - CharsOf(text), free)
  }

  // ----- playing the meaning of a call does just that -----

  /** A program plays to the end and leads from `w` to `w'`. */
  predicate Leads(page: Page, program: seq<Primitive>, w: World, w': World) {
    RunProgram(page, program, w).Played? && RunProgram(page, program, w).world == w'
  }

  lemma {:induction false} RunAppend(page: Page, a: seq<Primitive>, b: seq<Primitive>, w: World)
    ensures RunProgram(page, a + b, w).Played? <==>
            RunProgram(page, a, w).Played? && RunProgram(page, b, RunProgram(page, a, w).world).Played?
    ensures RunProgram(page, a + b, w).Played? ==>
              RunProgram(page, a + b, w).world == RunProgram(page, b, RunProgram(page, a, w).world).world
  {
    hide PerformKey, PerformPointer;
    if a == [] {
      assert a + b == b;
    } else {
      assert (a + b)[1..] == a[1..] + b;
      match a[0]
      case OfKey(k) => RunAppend(page, a[1..], b, PerformKey(k, w));
      case OfPointer(p) =>
        if PerformPointer(page, p, w).Some? {
          RunAppend(page, a[1..], b, PerformPointer(page, p, w).value);
        }
    }
  }

  /** What is to be shown of a call. */
  ghost predicate Does(page: Page, call: Call, delay: nat, w: World) {
    && (RunProgram(page, Meaning(call, delay), w).Played? <==> CanPlay(page, call, w))
    && (CanPlay(page, call, w) ==> Happens(page, call, w, RunProgram(page, Meaning(call, delay), w).world))
  }

  function PerformOne(page: Page, p: Primitive, w: World): Playback {
    match p
    case OfKey(k) => Played(PerformKey(k, w), 0)
    case OfPointer(a) =>
      var next := PerformPointer(page, a, w);
      if next == None then Failed(w) else Played(next.value, if a.PointerMove? then a.duration else 0)
  }

  lemma RunOne(page: Page, p: Primitive, w: World)
    ensures RunProgram(page, [p], w) == PerformOne(page, p, w)
  {
    hide PerformKey, PerformPointer;
  }

  lemma MoveDoes(page: Page, call: Call, delay: nat, w: World)
    requires call.MoveTo? || call.MoveByOffset? || call.MoveToElementCenter? || call.MoveToElementWithOffset?
    ensures Does(page, call, delay, w)
  {
    RunOne(page, Meaning(call, delay)[0], w);
    hide RunProgram;
  }

  lemma OneDoes(page: Page, call: Call, delay: nat, w: World)
    requires call.ClickAndHold? || call.Release? || call.CallKeyDown? || call.CallKeyUp?
    ensures Does(page, call, delay, w)
  {
    RunOne(page, Meaning(call, delay)[0], w);
    hide RunProgram;
  }

  lemma ClickDoes(page: Page, b: MouseButton, w: World)
    ensures Leads(page, [Down(b), Up(b)], w, World(w.pressed, w.x, w.y, w.buttons - {b}, w.events + Press(w, b) + [ButtonUp(b)]))
  {
    RunAppend(page, [Down(b)], [Up(b)], w);
    RunOne(page, Down(b), w);
    RunOne(page, Up(b), RunProgram(page, [Down(b)], w).world);
    hide RunProgram;
    assert [Down(b)] + [Up(b)] == [Down(b), Up(b)];
    assert w.buttons + {b} - {b} == w.buttons - {b};
  }

  lemma ClicksDo(page: Page, call: Call, delay: nat, w: World)
    requires call.Click? || call.ContextClick? || call.DoubleClick?
    ensures Does(page, call, delay, w)
  {
    hide RunProgram;
    ClickDoes(page, if call.ContextClick? then Right else Left, w);
    if call.DoubleClick? {
      var click := [Down(Left), Up(Left)];
      RunAppend(page, click, click, w);
      ClickDoes(page, Left, RunProgram(page, click, w).world);
      assert click + click == Meaning(call, delay);
    }
  }

  lemma {:induction false} TypingDoes(page: Page, text: seq<char>, w: World)
    ensures Leads(page, Typed(text), w, World(w.pressed - CharsOf(text), w.x, w.y, w.buttons, w.events + Typing(text)))
  {
    if text == [] {
      assert Typing(text) == [];
    } else {
      var c, rest := text[0], text[1..];
      var stroke := [OfKey(KeyDown(c)), OfKey(KeyUp(c))];
      StrokeDoes(page, c, w);
      RunAppend(page, stroke, Typed(rest), w);
      TypingDoes(page, rest, RunProgram(page, stroke, w).world);
      TypingCons(text);
      hide RunProgram, Typing, CharsOf;
      assert w.pressed - {c} - CharsOf(rest) == w.pressed - CharsOf(text);
      assert w.events + [Pressed(c), Event.Released(c)] + Typing(rest) == w.events + Typing(text);
    }
  }

  lemma StrokeDoes(page: Page, c: char, w: World)
    ensures Leads(page, [OfKey(KeyDown(c)), OfKey(KeyUp(c))], w,
                  w.(pressed := w.pressed - {c}, events := w.events + [Pressed(c), Event.Released(c)]))
  {
    RunAppend(page, [OfKey(KeyDown(c))], [OfKey(KeyUp(c))], w);
    RunOne(page, OfKey(KeyDown(c)), w);
    RunOne(page, OfKey(KeyUp(c)), PerformKey(KeyDown(c), w));
    hide RunProgram;
    assert [OfKey(KeyDown(c))] + [OfKey(KeyUp(c))] == [OfKey(KeyDown(c)), OfKey(KeyUp(c))];
    assert w.pressed + {c} - {c} == w.pressed - {c};
    assert w.events + [Pressed(c)] + [Event.Released(c)] == w.events + [Pressed(c), Event.Released(c)];
  }

  lemma TypingCons(text: seq<char>)
    requires text != []
    ensures Typing(text) == [Pressed(text[0]), Event.Released(text[0])] + Typing(text[1..])
    ensures CharsOf(text) == {text[0]} + CharsOf(text[1..])
  {
    assert text == [text[0]] + text[1..];
  }

  /** The calls that are a single gesture where the pointer is. */
  predicate Plain(call: Call) {
    call.Click? || call.ClickAndHold? || call.ContextClick? || call.DoubleClick? || call.CallKeyDown? || call.CallKeyUp?
    || call.MoveTo? || call.MoveByOffset? || call.MoveToElementCenter? || call.MoveToElementWithOffset?
    || call.Release? || call.SendKeys?
  }

  lemma PlainDoes(page: Page, call: Call, delay: nat, w: World)
    requires Plain(call)
    ensures Does(page, call, delay, w)
  {
    hide Does, Meaning, RunProgram, Happens;
    if call.MoveTo? || call.MoveByOffset? || call.MoveToElementCenter? || call.MoveToElementWithOffset? {
      MoveDoes(page, call, delay, w);
    } else if call.Click? || call.ContextClick? || call.DoubleClick? {
      ClicksDo(page, call, delay, w);
    } else if call.SendKeys? {
      SendingDoes(page, call.text, delay, w);
    } else {
      OneDoes(page, call, delay, w);
    }
  }

  lemma SendingDoes(page: Page, text: seq<char>, delay: nat, w: World)
    ensures Does(page, SendKeys(text), delay, w)
  {
    TypingDoes(page, text, w);
    hide RunProgram, Typing, CharsOf, Typed;
  }

  /** The calls every other call is made of, in order. */
  function Parts(call: Call): seq<Call> {
    match call
    case ClickElement(e) => [MoveToElementCenter(e), Click]
    case ClickAndHoldElement(e) => [MoveToElementCenter(e), ClickAndHold]
    case ContextClickElement(e) => [MoveToElementCenter(e), ContextClick]
    case DoubleClickElement(e) => [MoveToElementCenter(e), DoubleClick]
    case DragAndDropElement(e, target) => [ClickAndHoldElement(e), ReleaseOnElement(target)]
    case DragAndDropByOffset(dx, dy) => [ClickAndHold, MoveByOffset(dx, dy)]
    case DragAndDropElementByOffset(e, dx, dy) => [ClickAndHoldElement(e), MoveByOffset(dx, dy)]
    case KeyDownOnElement(e, c) => [ClickElement(e), CallKeyDown(c)]
    case KeyUpOnElement(e, c) => [ClickElement(e), CallKeyUp(c)]
    case ReleaseOnElement(e) => [MoveToElementCenter(e), Release]
    case SendKeysToElement(e, text) => [ClickElement(e), SendKeys(text)]
    case _ => []
  }

  predicate TwoParts(call: Call, delay: nat) {
    |Parts(call)| == 2 && Meaning(call, delay) == Meaning(Parts(call)[0], delay) + Meaning(Parts(call)[1], delay)
  }

  lemma PartsMean(call: Call, delay: nat)
    requires !Plain(call)
    ensures TwoParts(call, delay)
  {
    hide Typed;
  }

  /** Doing the parts one after the other is doing the call. */
  ghost predicate PartsMake(page: Page, call: Call, w: World, w1: World)
    requires |Parts(call)| == 2
  {
    (CanPlay(page, Parts(call)[0], w) ==> Happens(page, Parts(call)[0], w, w1)) ==>
      && (CanPlay(page, call, w) <==> CanPlay(page, Parts(call)[0], w) && CanPlay(page, Parts(call)[1], w1))
      && (CanPlay(page, call, w) ==> forall w' :: Happens(page, Parts(call)[1], w1, w') ==> Happens(page, call, w, w'))
  }

  lemma PartsHappen(page: Page, call: Call, w: World, w1: World)
    requires |Parts(call)| == 2
    ensures PartsMake(page, call, w, w1)
  {
    hide Typing, CharsOf, PartsMake;
    if call.ClickElement? || call.ClickAndHoldElement? || call.ContextClickElement? {
      PressingMakes(page, call, w, w1);
    } else if call.DoubleClickElement? || call.ReleaseOnElement? {
      MovingMakes(page, call, w, w1);
    } else if call.DragAndDropElement? || call.DragAndDropByOffset? || call.DragAndDropElementByOffset? {
      DraggingMakes(page, call, w, w1);
    } else {
      KeyingMakes(page, call, w, w1);
    }
  }

  lemma PressingMakes(page: Page, call: Call, w: World, w1: World)
    requires call.ClickElement? || call.ClickAndHoldElement? || call.ContextClickElement?
    ensures PartsMake(page, call, w, w1)
  {
  }

  lemma MovingMakes(page: Page, call: Call, w: World, w1: World)
    requires call.DoubleClickElement? || call.ReleaseOnElement?
    ensures PartsMake(page, call, w, w1)
  {
  }

  lemma DraggingMakes(page: Page, call: Call, w: World, w1: World)
    requires call.DragAndDropElement? || call.DragAndDropByOffset? || call.DragAndDropElementByOffset?
    ensures PartsMake(page, call, w, w1)
  {
  }

  lemma KeyingMakes(page: Page, call: Call, w: World, w1: World)
    requires call.KeyDownOnElement? || call.KeyUpOnElement? || call.SendKeysToElement?
    ensures PartsMake(page, call, w, w1)
  {
    hide Typing, CharsOf;
  }

  lemma PartsDo(page: Page, call: Call, delay: nat, w: World)
    requires !Plain(call) && Does(page, Parts(call)[0], delay, w)
    requires Does(page, Parts(call)[1], delay, RunProgram(page, Meaning(Parts(call)[0], delay), w).world)
    ensures Does(page, call, delay, w)
  {
    hide RunProgram, Meaning, Parts, Happens, CanPlay;
    PartsMean(call, delay);
    var first, second := Parts(call)[0], Parts(call)[1];
    RunAppend(page, Meaning(first, delay), Meaning(second, delay), w);
    PartsHappen(page, call, w, RunProgram(page, Meaning(first, delay), w).world);
  }

  /** Every call plays to its end exactly if the places it moves to are in view, and then does what `Happens` says. */
  lemma {:induction false} CallDoes(page: Page, call: Call, delay: nat, w: World)
    ensures Does(page, call, delay, w)
    decreases Depth(call)
  {
    hide Does, Meaning, RunProgram, Happens, CanPlay;
    if Plain(call) {
      PlainDoes(page, call, delay, w);
    } else {
      PartsSmaller(call);
      CallDoes(page, Parts(call)[0], delay, w);
      CallDoes(page, Parts(call)[1], delay, RunProgram(page, Meaning(Parts(call)[0], delay), w).world);
      PartsDo(page, call, delay, w);
    }
  }

  function Depth(call: Call): nat {
    if Plain(call) then 0
    else if Plain(Parts(call)[0]) && Plain(Parts(call)[1]) then 1 else 2
  }

  lemma PartsSmaller(call: Call)
    requires !Plain(call)
    ensures |Parts(call)| == 2 && Depth(Parts(call)[0]) < Depth(call) && Depth(Parts(call)[1]) < Depth(call)
  {
  }

  // ----- a chain of calls -----

  /** One call after the other happens, from `w` to `w'`. */
  ghost predicate Unfolds(page: Page, calls: seq<Call>, w: World, w': World) {
    if calls == [] then w' == w
    else
      var n := |calls| - 1;
      exists w1 :: Unfolds(page, calls[..n], w, w1) && CanPlay(page, calls[n], w1) && Happens(page, calls[n], w1, w')
  }

  lemma HappensOnce(page: Page, call: Call, w: World, a: World, b: World)
    requires CanPlay(page, call, w) && Happens(page, call, w, a) && Happens(page, call, w, b)
    ensures a == b
  {
    hide Typing, CharsOf, Press, Plus;
  }

  /** The program of the calls leads exactly where the calls, one after the other, lead. */
  lemma {:induction false} CallsLead(page: Page, calls: seq<Call>, delay: nat, w: World, w': World)
    ensures Leads(page, Meanings(calls, delay), w, w') <==> Unfolds(page, calls, w, w')
  {
    hide Meaning, Happens, CanPlay, RunProgram;
    if calls == [] {
      NothingRuns(page, w);
    } else {
      var n := |calls| - 1;
      var init, call := calls[..n], calls[n];
      var before := RunProgram(page, Meanings(init, delay), w);
      RunAppend(page, Meanings(init, delay), Meaning(call, delay), w);
      if before.Played? {
        CallsLead(page, init, delay, w, before.world);
        CallDoes(page, call, delay, before.world);
      }
      if Unfolds(page, calls, w, w') {
        var w1 :| Unfolds(page, init, w, w1) && CanPlay(page, call, w1) && Happens(page, call, w1, w');
        CallsLead(page, init, delay, w, w1);
        HappensOnce(page, call, w1, w', RunProgram(page, Meaning(call, delay), w1).world);
      }
    }
  }

  lemma NothingRuns(page: Page, w: World)
    ensures RunProgram(page, [], w) == Played(w, 0)
  {
  }

  /** A new chain after any builder calls: on every page and from every state, what it sends to the remote end does the
      calls one after the other, if all the places they move to are in view, and otherwise stops; each tick has one
      source that is not a zero pause, and a move takes the pointer delay. */
  method Build(keyDelay: Option<nat>, pointerDelay: Option<nat>, calls: seq<Call>) returns (chain: Chain)
    ensures fresh(chain) && fresh(chain.keys) && fresh(chain.pointers)
    ensures forall page, w, w' ::
              (var r := Dispatch(page, chain.keys.actions, chain.pointers.actions, w); r.Played? && r.world == w')
              <==> Unfolds(page, calls, w, w')
    ensures forall page, w :: chain.Plays(page, Meanings(calls, Millis(pointerDelay, 250)), w)
    ensures |chain.keys.actions| == |chain.pointers.actions|
    ensures forall i | 0 <= i < |chain.keys.actions| ::
              chain.keys.actions[i] == KeyPause(0) <==> chain.pointers.actions[i] != PointerPause(0)
  {
    hide KeyTicks, PointerTicks, WellFormed, Meaning, Meanings, Dispatch, RunProgram, Unfolds;
    chain := new Chain(keyDelay, pointerDelay);
    chain.DoAll(calls);
    assert chain.program == Meanings(calls, chain.pointers.duration);
    forall page, w ensures chain.Plays(page, chain.program, w) {
      chain.Perform(page, w);
    }
    forall page, w, w'
      ensures (var r := Dispatch(page, chain.keys.actions, chain.pointers.actions, w); r.Played? && r.world == w')
              <==> Unfolds(page, calls, w, w')
    {
      chain.Perform(page, w);
      CallsLead(page, calls, chain.pointers.duration, w, w');
    }
    ghost var page, w: World :| true;
    chain.Perform(page, w);
  }
}
