/** The on-screen D-pad and action button (src/ui/VirtualControls.js). */
module UI {
  import opened Optional
  import opened Controls
  import Edge

  const DefaultButtonSize := 48
  const DefaultMargin := 20

  /** The options object; every option may be left out. */
  datatype Config = Config(visible: Option<bool>, buttonSize: Option<int>, margin: Option<int>)

  /** A button sprite as far as the controls use it: its centre, its texture key, whether
      it is shown, whether it takes pointer events, and whether it was destroyed. */
  datatype Sprite = Sprite(x: real, y: real, texture: string, visible: bool, interactive: bool, destroyed: bool)

  datatype Point = Point(x: real, y: real)

  /** The texture key of a button in its normal or pressed look. */
  function TextureKey(c: Control, pressed: bool): string {
    match c
    case Up => if pressed then "button-up-pressed" else "button-up"
    case Down => if pressed then "button-down-pressed" else "button-down"
    case Left => if pressed then "button-left-pressed" else "button-left"
    case Right => if pressed then "button-right-pressed" else "button-right"
    case Action => if pressed then "button-action-pressed" else "button-action"
  }

  /** The ten texture variants are pairwise distinct, so a texture key names one button in one look. */
  lemma TextureKeysDistinct(c: Control, p: bool, d: Control, q: bool)
    requires TextureKey(c, p) == TextureKey(d, q)
    ensures c == d && p == q
  {
  }

  /** The centre `create` gives the button of control `c` on a game of the given size.
      The D-pad is a cross around (margin + size, height - margin - size); the action
      button sits half a button in from the margin at the bottom-right corner. */
  function Layout(c: Control, width: int, height: int, size: int, margin: int): Point {
    var cx := (margin + size) as real;
    var cy := (height - margin - size) as real;
    var s := size as real;
    match c
    case Up => Point(cx, cy - s)
    case Down => Point(cx, cy + s)
    case Left => Point(cx - s, cy)
    case Right => Point(cx + s, cy)
    case Action => Point(width as real - margin as real - s / 2.0, height as real - margin as real - s / 2.0)
  }

  /** The four direction buttons form a cross: up and down share a column, left and right
      share a row, each pair is two buttons apart, and the pairs cross at their midpoints. */
  lemma DpadIsCross(width: int, height: int, size: int, margin: int)
    ensures var up, down, left, right := Layout(Up, width, height, size, margin), Layout(Down, width, height, size, margin),
                                         Layout(Left, width, height, size, margin), Layout(Right, width, height, size, margin);
            && up.x == down.x && left.y == right.y
            && down.y - up.y == 2.0 * size as real && right.x - left.x == 2.0 * size as real
            && (up.y + down.y) / 2.0 == left.y && (left.x + right.x) / 2.0 == up.x
  {
  }

  /** Square buttons of side `size` centred on the D-pad positions never overlap. */
  lemma DpadButtonsDisjoint(c: Control, d: Control, width: int, height: int, size: int, margin: int)
    requires size >= 0 && c != d && c != Action && d != Action
    ensures var p, q := Layout(c, width, height, size, margin), Layout(d, width, height, size, margin);
            p.x - q.x >= size as real || q.x - p.x >= size as real ||
            p.y - q.y >= size as real || q.y - p.y >= size as real
  {
  }

  /** The action button's right and bottom edges lie exactly `margin` inside the game's edges. */
  lemma ActionButtonInset(width: int, height: int, size: int, margin: int)
    ensures var p := Layout(Action, width, height, size, margin);
            p.x + size as real / 2.0 + margin as real == width as real &&
            p.y + size as real / 2.0 + margin as real == height as real
  {
  }

  /** The D-pad's left and bottom edges lie `margin - size / 2` inside the game's edges,
      so with the default size and margin the left and down buttons reach 4 pixels past them. */
  lemma DpadEdges(width: int, height: int, size: int, margin: int)
    ensures Layout(Left, width, height, size, margin).x - size as real / 2.0 == margin as real - size as real / 2.0
    ensures height as real - (Layout(Down, width, height, size, margin).y + size as real / 2.0)
            == margin as real - size as real / 2.0
    ensures Layout(Left, 800, 600, DefaultButtonSize, DefaultMargin).x - DefaultButtonSize as real / 2.0 == -4.0
  {
  }

  /** A pointer event on one button, as Phaser delivers it to the button's handlers. */
  datatype PointerEvent = PointerDownOn(c: Control) | PointerUpOn(c: Control) | PointerOutOf(c: Control)

  /** What one event does to the pressed flags: down sets the button's flag, up and out clear it. */
  function ApplyPointer(s: ButtonStates, e: PointerEvent): (r: ButtonStates)
    ensures r.Get(e.c) == e.PointerDownOn?
    ensures forall d :: d != e.c ==> r.Get(d) == s.Get(d)
  {
    match e
    case PointerDownOn(c) => s.With(c, true)
    case PointerUpOn(c) => s.With(c, false)
    case PointerOutOf(c) => s.With(c, false)
  }

  /** The pressed flags after a run of events between two frames, oldest first. */
  function ApplyPointers(s: ButtonStates, events: seq<PointerEvent>): (r: ButtonStates)
    ensures forall c :: Untouched(events, c, 0) ==> r.Get(c) == s.Get(c)
    decreases |events|
  {
    if events == [] then s
    else
      var prefix := events[..|events| - 1];
      assert forall j :: 0 <= j < |prefix| ==> prefix[j] == events[j];
      ApplyPointer(ApplyPointers(s, prefix), events[|events| - 1])
  }

  /** No event at index `from` or later concerns control `c`. */
  ghost predicate Untouched(events: seq<PointerEvent>, c: Control, from: nat) {
    forall j :: from <= j < |events| ==> events[j].c != c
  }

  /** Event `i` is a pointer-down on `c` and no later event concerns `c`. */
  ghost predicate LastDownAt(events: seq<PointerEvent>, c: Control, i: nat) {
    i < |events| && events[i] == PointerDownOn(c) && Untouched(events, c, i + 1)
  }

  /** Appending an event on another control does not change what is untouched. */
  lemma UntouchedExtend(events: seq<PointerEvent>, c: Control, from: nat)
    requires events != [] && events[|events| - 1].c != c && from < |events|
    ensures Untouched(events, c, from) <==> Untouched(events[..|events| - 1], c, from)
  {
    var prefix := events[..|events| - 1];
    assert forall j :: from <= j < |prefix| ==> prefix[j] == events[j];
  }

  /** Last write wins: after any run of events a button is pressed exactly when the latest
      event on it was a pointer-down, or no event touched it and it was pressed before.
      How many pointers went down on it does not matter. */
  lemma {:induction false} PressedIffLastEventDown(s: ButtonStates, events: seq<PointerEvent>, c: Control)
    ensures ApplyPointers(s, events).Get(c) <==>
              (exists i :: LastDownAt(events, c, i)) || (s.Get(c) && Untouched(events, c, 0))
    decreases |events|
  {
    if events != [] {
      var n := |events| - 1;
      var prefix := events[..n];
      if events[n].c == c {
        if events[n] == PointerDownOn(c) {
          assert LastDownAt(events, c, n);
        } else {
          assert !ApplyPointers(s, events).Get(c);
          assert !Untouched(events, c, 0);
          forall i: nat | i < n ensures !LastDownAt(events, c, i) {
            assert events[n].c == c;
          }
        }
      } else {
        PressedIffLastEventDown(s, prefix, c);
        assert ApplyPointers(s, events).Get(c) == ApplyPointers(s, prefix).Get(c);
        forall i: nat | i < n ensures LastDownAt(events, c, i) <==> LastDownAt(prefix, c, i) {
          UntouchedExtend(events, c, i + 1);
        }
        assert !LastDownAt(events, c, n);
        UntouchedExtend(events, c, 0);
      }
    }
  }

  /** A button held by two pointers is released when only one of them leaves it. */
  lemma SecondPointerDoesNotHold(s: ButtonStates, c: Control)
    ensures !ApplyPointers(s, [PointerDownOn(c), PointerDownOn(c), PointerOutOf(c)]).Get(c)
  {
  }

  class VirtualControls {
    var visible: bool
    var buttonSize: int
    var margin: int

    /** The sprites `upButton` ... `actionButton`; a control without an entry has no sprite
        yet (the source's `null`). */
    var buttons: map<Control, Sprite>

    /** The flags `upPressed` ... `actionPressed`. */
    var pressed: ButtonStates

    var actionJustPressed: bool
    var lastActionPressed: bool

    /** The handlers of button `c` are live: its sprite exists, takes pointer events and
        has not been destroyed. */
    predicate Wired(c: Control)
      reads this
    {
      c in buttons && buttons[c].interactive && !buttons[c].destroyed
    }

    /** A button is never pressed before its sprite exists, and every sprite shows the
        texture that matches its button's pressed flag. */
    ghost predicate Valid()
      reads this
    {
      forall c :: (c !in buttons ==> !pressed.Get(c)) &&
                  (c in buttons ==> buttons[c].texture == TextureKey(c, pressed.Get(c)))
    }

    constructor (config: Config)
      ensures Valid()
      ensures visible == config.visible.GetOr(true)
      ensures buttonSize == NumberOr(config.buttonSize, DefaultButtonSize)
      ensures margin == NumberOr(config.margin, DefaultMargin)
      ensures buttons == map[] && pressed == AllReleased
      ensures !actionJustPressed && !lastActionPressed
    {
      visible := config.visible.GetOr(true);
      buttonSize := NumberOr(config.buttonSize, DefaultButtonSize);
      margin := NumberOr(config.margin, DefaultMargin);
      buttons := map[];
      pressed := AllReleased;
      actionJustPressed, lastActionPressed := false, false;
    }

    /** A freshly added sprite: at its layout position, in its normal look, shown, not yet interactive. */
    function NewSprite(c: Control, gameWidth: int, gameHeight: int): Sprite
      reads this
    {
      var p := Layout(c, gameWidth, gameHeight, buttonSize, margin);
      Sprite(p.x, p.y, TextureKey(c, false), true, false, false)
    }

    /** Creates the five sprites at their layout positions in their normal look, applies the
        configured visibility, and wires the pointer handlers. */
    method Create(gameWidth: int, gameHeight: int)
      modifies this`buttons
      ensures forall c :: c in buttons
      ensures forall c :: buttons[c] == NewSprite(c, gameWidth, gameHeight).(visible := visible, interactive := true)
      ensures (forall c :: !pressed.Get(c)) ==> Valid()
    {
      buttons := map[Up := NewSprite(Up, gameWidth, gameHeight),
                     Down := NewSprite(Down, gameWidth, gameHeight),
                     Left := NewSprite(Left, gameWidth, gameHeight),
                     Right := NewSprite(Right, gameWidth, gameHeight),
                     Action := NewSprite(Action, gameWidth, gameHeight)];
      forall c ensures c in buttons && buttons[c] == NewSprite(c, gameWidth, gameHeight) {
        match c
        case Up =>
        case Down =>
        case Left =>
        case Right =>
        case Action =>
      }
      SetVisible(visible);
      SetupTouchHandlers();
    }

    /** Makes every sprite take pointer events; this is where the handlers are attached. */
    method SetupTouchHandlers()
      requires forall c :: c in buttons
      modifies this`buttons
      ensures forall c :: c in buttons
      ensures forall c :: buttons[c] == old(buttons[c]).(interactive := true)
    {
      buttons := map c | c in buttons :: buttons[c].(interactive := true);
    }

    /** Sets the pressed flag of one button and gives its sprite the matching texture. */
    method SetPressed(c: Control, v: bool)
      requires c in buttons
      modifies this`pressed, this`buttons
      ensures pressed == old(pressed).With(c, v)
      ensures buttons == old(buttons)[c := old(buttons[c]).(texture := TextureKey(c, v))]
      ensures old(Valid()) ==> Valid()
    {
      pressed := pressed.With(c, v);
      buttons := buttons[c := buttons[c].(texture := TextureKey(c, v))];
    }

    /** The `pointerdown` handler of button `c`. */
    method PointerDown(c: Control)
      requires Wired(c)
      modifies this`pressed, this`buttons
      ensures pressed == ApplyPointer(old(pressed), PointerDownOn(c))
      ensures buttons == old(buttons)[c := old(buttons[c]).(texture := TextureKey(c, true))]
      ensures old(Valid()) ==> Valid()
    {
      SetPressed(c, true);
    }

    /** The `pointerup` handler of button `c`. */
    method PointerUp(c: Control)
      requires Wired(c)
      modifies this`pressed, this`buttons
      ensures pressed == ApplyPointer(old(pressed), PointerUpOn(c))
      ensures buttons == old(buttons)[c := old(buttons[c]).(texture := TextureKey(c, false))]
      ensures old(Valid()) ==> Valid()
    {
      SetPressed(c, false);
    }

    /** The `pointerout` handler of button `c`: the same as `pointerup`, whatever other
        pointers are still on the button. */
    method PointerOut(c: Control)
      requires Wired(c)
      modifies this`pressed, this`buttons
      ensures pressed == ApplyPointer(old(pressed), PointerOutOf(c))
      ensures buttons == old(buttons)[c := old(buttons[c]).(texture := TextureKey(c, false))]
      ensures old(Valid()) ==> Valid()
    {
      SetPressed(c, false);
    }

    /** Once per frame: raise the action button's one-frame pulse on a release-to-press change. */
    method Update()
      modifies this`actionJustPressed, this`lastActionPressed
      ensures actionJustPressed == Edge.Pulse(pressed.action, old(lastActionPressed))
      ensures lastActionPressed == pressed.action
    {
      var actionNowPressed := pressed.action;
      actionJustPressed := actionNowPressed && !lastActionPressed;
      lastActionPressed := actionNowPressed;
    }

    /** The five current pressed flags. */
    method GetButtonStates() returns (states: ButtonStates)
      ensures states == pressed
    {
      states := ButtonStates(pressed.up, pressed.down, pressed.left, pressed.right, pressed.action);
    }

    method IsActionJustPressed() returns (r: bool)
      ensures r == actionJustPressed
    {
      r := actionJustPressed;
    }

    /** Shows or hides every sprite that exists; a button never created is skipped, and
        pressed flags and textures stay as they are. */
    method SetVisible(v: bool)
      modifies this`buttons
      ensures buttons.Keys == old(buttons.Keys)
      ensures forall c :: c in buttons ==> buttons[c] == old(buttons[c]).(visible := v)
      ensures old(Valid()) ==> Valid()
    {
      buttons := map c | c in buttons :: buttons[c].(visible := v);
    }

    /** Destroys every sprite that exists; a button never created is skipped, so this is safe
        before `Create`. */
    method Destroy()
      modifies this`buttons
      ensures buttons.Keys == old(buttons.Keys)
      ensures forall c :: c in buttons ==> buttons[c] == old(buttons[c]).(destroyed := true)
      ensures old(Valid()) ==> Valid()
    {
      buttons := map c | c in buttons :: buttons[c].(destroyed := true);
    }
  }
}
