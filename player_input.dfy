/** The input aggregator (src/input/PlayerInput.js): keyboard and on-screen buttons merged
    into one per-frame snapshot. */
module Input {
  import opened Controls
  import opened Keyboard
  import Edge
  import UI

  /** A movement direction. `x` and `y` are the raw axis sums; when `diagonal` holds, the
      direction actually reported is (x, y) divided by its length, the square root of 2. */
  datatype MoveVector = MoveVector(x: int, y: int, diagonal: bool)

  /** The squared length of the direction reported. */
  function NormSquared(v: MoveVector): real {
    (v.x * v.x + v.y * v.y) as real * (if v.diagonal then 0.5 else 1.0)
  }

  /** The merged action held on each frame of a run, when the on-screen controls report `onScreen`. */
  function MergedActions(frames: seq<set<Key>>, onScreen: ButtonStates): (r: seq<bool>)
    ensures |r| == |frames|
    ensures forall i :: 0 <= i < |frames| ==> r[i] == (KeyboardStates(frames[i]).action || onScreen.action)
  {
    seq(|frames|, i requires 0 <= i < |frames| => Merge(KeyboardStates(frames[i]), onScreen).action)
  }

  /** A run of frames with no pointer events in between: `update` once per frame with that
      frame's held keys, then `isActionJustPressed`. The reported pulses are exactly the
      rising edges of the merged action, so by `Edge.NoConsecutivePulses` no two frames
      in a row report a press. */
  method RunFrames(input: PlayerInput, frames: seq<set<Key>>) returns (pulses: seq<bool>)
    modifies input, input.virtualControls
    ensures pulses == Edge.Pulses(MergedActions(frames, old(input.OnScreenStates())), old(input.lastActionState))
  {
    ghost var onScreen := input.OnScreenStates();
    ghost var actions := MergedActions(frames, onScreen);
    ghost var last := input.lastActionState;
    pulses := [];
    var i := 0;
    while i < |frames|
      invariant 0 <= i <= |frames|
      invariant |pulses| == i
      invariant input.OnScreenStates() == onScreen
      invariant forall j :: 0 <= j < i ==> pulses[j] == Edge.Pulses(actions, last)[j]
      invariant i < |frames| ==> input.lastActionState == Edge.Previous(actions, last, i)
    {
      input.Update(frames[i]);
      var pulse := input.IsActionJustPressed();
      Edge.PulsesAt(actions, last, i);
      pulses := pulses + [pulse];
      i := i + 1;
    }
  }

  class PlayerInput {
    const virtualControls: UI.VirtualControls?

    var up: bool
    var down: bool
    var left: bool
    var right: bool
    var action: bool
    var actionJustPressed: bool
    var lastActionState: bool

    /** The five merged control fields as one record. */
    ghost function Merged(): ButtonStates
      reads this`up, this`down, this`left, this`right, this`action
    {
      ButtonStates(up, down, left, right, action)
    }

    /** What the on-screen controls report: all released when none are attached. */
    ghost function OnScreenStates(): ButtonStates
      reads this, virtualControls
    {
      if virtualControls == null then AllReleased else virtualControls.pressed
    }

    constructor (virtualControls: UI.VirtualControls?)
      ensures this.virtualControls == virtualControls
      ensures Merged() == AllReleased
      ensures !actionJustPressed && !lastActionState
    {
      this.virtualControls := virtualControls;
      up, down, left, right, action := false, false, false, false, false;
      actionJustPressed, lastActionState := false, false;
    }

    /** Once per frame, given the keys held. The on-screen controls, when attached, first
        advance their own action pulse and then report their pressed flags; each control is
        the OR of the keyboard and the on-screen button, and the action pulse is recomputed
        from the merged action. */
    method Update(held: set<Key>)
      modifies this, virtualControls
      ensures Merged() == Merge(KeyboardStates(held), OnScreenStates())
      ensures actionJustPressed == Edge.Pulse(action, old(lastActionState)) && lastActionState == action
      ensures virtualControls != null ==>
                && virtualControls.actionJustPressed
                     == Edge.Pulse(virtualControls.pressed.action, old(virtualControls.lastActionPressed))
                && virtualControls.lastActionPressed == virtualControls.pressed.action
                && unchanged(virtualControls`pressed, virtualControls`buttons,
                             virtualControls`visible, virtualControls`buttonSize, virtualControls`margin)
    {
      var keyboard := KeyboardStates(held);
      var onScreen := AllReleased;
      if virtualControls != null {
        virtualControls.Update();
        onScreen := virtualControls.GetButtonStates();
      }
      assert onScreen == OnScreenStates();
      var merged := Merge(keyboard, onScreen);
      up, down, left, right, action := merged.up, merged.down, merged.left, merged.right, merged.action;

      assert Merged() == merged;
      var actionNowPressed := action;
      actionJustPressed := actionNowPressed && !lastActionState;
      lastActionState := actionNowPressed;
    }

    /** The movement direction of the held controls. Opposite controls cancel on their
        axis; the direction has length 0 or exactly 1. */
    method GetMovementVector() returns (v: MoveVector)
      ensures -1 <= v.x <= 1 && -1 <= v.y <= 1
      ensures v.x < 0 <==> left && !right
      ensures v.x > 0 <==> right && !left
      ensures v.y < 0 <==> up && !down
      ensures v.y > 0 <==> down && !up
      ensures v.diagonal <==> v.x != 0 && v.y != 0
      ensures NormSquared(v) == if v.x == 0 && v.y == 0 then 0.0 else 1.0
    {
      var x := 0;
      var y := 0;
      if left { x := x - 1; }
      if right { x := x + 1; }
      if up { y := y - 1; }
      if down { y := y + 1; }
      v := MoveVector(x, y, x != 0 && y != 0);
    }

    method IsActionPressed() returns (r: bool)
      ensures r == action
    {
      r := action;
    }

    method IsActionJustPressed() returns (r: bool)
      ensures r == actionJustPressed
    {
      r := actionJustPressed;
    }
  }
}
