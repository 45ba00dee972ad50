/** The main scene's interaction state machine (src/scenes/MainScene.js): NPC dialog,
    one-shot chest, and keyboard movement. Proximity tests are passed in as booleans;
    Phaser's per-key "just down" test for E and SPACE is passed in as one boolean. */
module Scenes {
  import opened Optional
  import opened Controls
  import opened Keyboard

  const NpcDialogText := "Hello, traveler! Welcome to this demo world."
  const ChestDialogText := "You found a thing!"
  const PlayerSpeed := 160
  const DefaultInteractionRadius := 60

  /** What the player can interact with this frame (`null` in the scene is NoInteractable). */
  datatype Interactable = NoInteractable | Npc | Chest

  /** A proximity target as `checkProximity` sees it; the scene may hold no target at all. */
  datatype Target = Target(x: int, y: int, active: bool, interactionRadius: Option<int>)

  function SquaredDistance(px: int, py: int, t: Target): int {
    (t.x - px) * (t.x - px) + (t.y - py) * (t.y - py)
  }

  /** The radius in use: the target's own, or 60 when it has none (or 0). */
  function Radius(t: Target): int {
    NumberOr(t.interactionRadius, DefaultInteractionRadius)
  }

  /** Whether the player at (px, py) is within the target's interaction radius. A missing or
      inactive target is never near. The Euclidean distance is below a radius `r` exactly when
      `r` is positive and the squared distance is below `r * r`. */
  function CheckProximity(px: int, py: int, target: Option<Target>): (near: bool)
    ensures target.None? || !target.value.active ==> !near
    ensures target.Some? && target.value.active ==>
              (near <==> 0 < Radius(target.value) && SquaredDistance(px, py, target.value) < Radius(target.value) * Radius(target.value))
  {
    match target
    case None => false
    case Some(t) =>
      if !t.active then false
      else
        var r := Radius(t);
        0 < r && SquaredDistance(px, py, t) < r * r
  }

  /** The integer comparison above is exact: for a distance `d >= 0` whose square is `sq`,
      `d < r` holds exactly when `r` is positive and `sq < r * r`. */
  lemma SquaredComparison(d: real, sq: int, r: int)
    requires 0.0 <= d && d * d == sq as real
    ensures d < r as real <==> 0 < r && sq < r * r
  {
    var rr := r as real;
    if d < rr {
      assert d * d <= d * rr < rr * rr;
      assert (r * r) as real == rr * rr;
    } else if 0 < r {
      assert rr * rr <= d * rr <= d * d;
      assert (r * r) as real == rr * rr;
    }
  }

  /** With the default radius, a target 59 pixels away is near and one 60 pixels away is not. */
  lemma DefaultRadiusBoundary()
    ensures CheckProximity(0, 0, Some(Target(59, 0, true, None)))
    ensures !CheckProximity(0, 0, Some(Target(60, 0, true, None)))
  {
  }

  /** A larger radius keeps every near target near. */
  lemma {:induction false} LargerRadiusStaysNear(px: int, py: int, t: Target, r: int)
    requires CheckProximity(px, py, Some(t))
    requires Radius(t) <= r
    ensures CheckProximity(px, py, Some(t.(interactionRadius := Some(r))))
  {
    var d := Radius(t);
    assert 0 < d;
    assert d * d <= d * r <= r * r;
  }

  /** The NPC wins when near; otherwise the chest when near and not yet collected; otherwise nothing. */
  function SelectInteractable(nearNpc: bool, nearChest: bool, chestCollected: bool): (r: Interactable)
    ensures r == Npc <==> nearNpc
    ensures r == Chest <==> !nearNpc && nearChest && !chestCollected
    ensures r == NoInteractable <==> !nearNpc && (!nearChest || chestCollected)
  {
    var nearUncollectedChest := nearChest && !chestCollected;
    if nearNpc then Npc else if nearUncollectedChest then Chest else NoInteractable
  }

  /** A collected chest is never selected again. */
  lemma CollectedChestNeverSelected(nearNpc: bool, nearChest: bool)
    ensures SelectInteractable(nearNpc, nearChest, true) != Chest
  {
  }

  /** Velocity along one axis: the negative direction wins over the positive one. */
  function AxisVelocity(negative: bool, positive: bool): int {
    if negative then -PlayerSpeed else if positive then PlayerSpeed else 0
  }

  /** The velocity the scene gives the player for the held keys: left/A beats right/D, and
      up/W beats down/S, at 160 pixels per second on each axis. */
  function SceneVelocity(held: set<Key>): (v: (int, int))
    ensures v.0 == -PlayerSpeed <==> KeyboardStates(held).left
    ensures v.0 == PlayerSpeed <==> !KeyboardStates(held).left && KeyboardStates(held).right
    ensures v.0 == 0 <==> !KeyboardStates(held).left && !KeyboardStates(held).right
    ensures v.1 == -PlayerSpeed <==> KeyboardStates(held).up
    ensures v.1 == PlayerSpeed <==> !KeyboardStates(held).up && KeyboardStates(held).down
    ensures v.1 == 0 <==> !KeyboardStates(held).up && !KeyboardStates(held).down
  {
    var keys := KeyboardStates(held);
    (AxisVelocity(keys.left, keys.right), AxisVelocity(keys.up, keys.down))
  }

  /** Whether any of the eight movement keys is held: some direction control is held. */
  function IsMoving(held: set<Key>): (moving: bool)
    ensures moving <==> exists c :: c != Action && KeyboardStates(held).Get(c)
  {
    var keys := KeyboardStates(held);
    assert keys.left == keys.Get(Left) && keys.right == keys.Get(Right);
    assert keys.up == keys.Get(Up) && keys.down == keys.Get(Down);
    keys.left || keys.right || keys.up || keys.down
  }

  /** The player is given a non-zero velocity exactly when a movement key is held: unlike the
      input aggregator, opposite keys do not cancel here. */
  lemma MovingIffVelocity(held: set<Key>)
    ensures IsMoving(held) <==> SceneVelocity(held) != (0, 0)
  {
    var keys := KeyboardStates(held);
    if IsMoving(held) {
      var c :| c != Action && keys.Get(c);
    }
  }

  /** The part of the scene an interaction changes: whether the dialog is open, the text it
      shows, and whether the chest has been collected. */
  datatype Dialog = Dialog(open: bool, text: string, chestCollected: bool)

  /** The effect of an E/SPACE press on the dialog, given what the player can interact with. */
  function Interact(d: Dialog, target: Interactable): (r: Dialog)
    ensures d.open ==> r == d.(open := false)
    ensures !d.open && target == Npc ==> r == d.(open := true, text := NpcDialogText)
    ensures !d.open && target == Chest && !d.chestCollected ==> r == Dialog(true, ChestDialogText, true)
    ensures !d.open && (target == NoInteractable || (target == Chest && d.chestCollected)) ==> r == d
  {
    if d.open then d.(open := false)
    else if target == Npc then d.(open := true, text := NpcDialogText)
    else if target == Chest && !d.chestCollected then Dialog(true, ChestDialogText, true)
    else d
  }

  /** A collected chest stays collected, and collecting happens only from a closed dialog
      with an uncollected chest selected. */
  lemma InteractCollectsOnce(d: Dialog, target: Interactable)
    ensures d.chestCollected ==> Interact(d, target).chestCollected
    ensures !d.chestCollected && Interact(d, target).chestCollected <==>
              !d.open && target == Chest && !d.chestCollected
  {
  }

  /** Pressing twice with the NPC selected opens its dialog and then closes it again. */
  lemma InteractTogglesNpcDialog(d: Dialog)
    requires !d.open
    ensures Interact(d, Npc).open
    ensures Interact(Interact(d, Npc), Npc) == d.(open := false, text := NpcDialogText)
  {
  }

  class MainScene {
    var dialogOpen: bool
    var currentInteractable: Interactable
    var wasMoving: bool
    var chestCollected: bool
    var chestTinted: bool
    var dialogVisible: bool
    var dialogText: string
    var velocityX: int
    var velocityY: int
    var idleTweenPlaying: bool

    /** The dialog box is shown exactly while the dialog is open, and the player stands still
        while it is; the chest is greyed out exactly when collected; the idle bob plays
        exactly when the player was not moving on the last frame that moved it. */
    ghost predicate Valid()
      reads this
    {
      && dialogVisible == dialogOpen
      && chestTinted == chestCollected
      && (dialogOpen ==> velocityX == 0 && velocityY == 0)
      && idleTweenPlaying == !wasMoving
    }

    ghost function DialogState(): Dialog
      reads this`dialogOpen, this`dialogText, this`chestCollected
    {
      Dialog(dialogOpen, dialogText, chestCollected)
    }

    /** Phaser starts a scene by calling `init` and then `create`. */
    constructor ()
      ensures Valid()
      ensures !dialogOpen && currentInteractable == NoInteractable && !wasMoving
      ensures !chestCollected && dialogText == "" && velocityX == 0 && velocityY == 0
    {
      dialogOpen, currentInteractable, wasMoving := false, NoInteractable, false;
      chestCollected, chestTinted, dialogVisible, dialogText := false, false, false, "";
      velocityX, velocityY, idleTweenPlaying := 0, 0, false;
      new;
      Init();
      Create();
    }

    method Init()
      modifies this`dialogOpen, this`currentInteractable, this`wasMoving
      ensures !dialogOpen && currentInteractable == NoInteractable && !wasMoving
    {
      dialogOpen := false;
      currentInteractable := NoInteractable;
      wasMoving := false;
    }

    /** The state `create` sets up: a still player with its idle bob playing, a dialog box
        that is hidden and empty, and an uncollected chest. */
    method Create()
      modifies this`chestCollected, this`chestTinted, this`dialogVisible, this`dialogText,
               this`velocityX, this`velocityY, this`idleTweenPlaying
      ensures !chestCollected && !chestTinted && !dialogVisible && dialogText == ""
      ensures velocityX == 0 && velocityY == 0 && idleTweenPlaying
      ensures !dialogOpen && !wasMoving ==> Valid()
    {
      velocityX, velocityY := 0, 0;
      idleTweenPlaying := true;
      dialogVisible := false;
      dialogText := "";
      chestCollected := false;
      chestTinted := false;
    }

    method ShowDialog(message: string)
      modifies this`dialogText, this`dialogVisible, this`dialogOpen, this`velocityX, this`velocityY
      ensures dialogText == message && dialogVisible && dialogOpen
      ensures velocityX == 0 && velocityY == 0
    {
      dialogText := message;
      dialogVisible := true;
      dialogOpen := true;
      velocityX, velocityY := 0, 0;
    }

    method HideDialog()
      modifies this`dialogVisible, this`dialogOpen
      ensures !dialogVisible && !dialogOpen
    {
      dialogVisible := false;
      dialogOpen := false;
    }

    method CollectChest()
      modifies this`chestCollected, this`chestTinted, this`dialogText, this`dialogVisible, this`dialogOpen,
               this`velocityX, this`velocityY
      ensures chestCollected && chestTinted
      ensures dialogText == ChestDialogText && dialogVisible && dialogOpen
      ensures velocityX == 0 && velocityY == 0
    {
      chestCollected := true;
      chestTinted := true;
      ShowDialog(ChestDialogText);
    }

    /** The E/SPACE press: an open dialog is closed and nothing else happens; otherwise the
        NPC opens its dialog, or an uncollected chest is collected and announces itself. */
    method HandleInteraction()
      requires Valid()
      modifies this`chestCollected, this`chestTinted, this`dialogText, this`dialogVisible, this`dialogOpen,
               this`velocityX, this`velocityY
      ensures Valid()
      ensures DialogState() == Interact(old(DialogState()), currentInteractable)
      ensures !dialogOpen ==> unchanged(this`velocityX, this`velocityY)
    {
      if dialogOpen {
        HideDialog();
        return;
      }
      if currentInteractable == Npc {
        ShowDialog(NpcDialogText);
        return;
      }
      if currentInteractable == Chest && !chestCollected {
        CollectChest();
        return;
      }
    }

    /** One frame. The interactable is chosen first; an E/SPACE press is handled next; while the
        dialog is then open nothing else happens, and otherwise the player's velocity follows the
        held keys and the idle bob is stopped or restarted when movement starts or stops. */
    method Update(held: set<Key>, nearNpc: bool, nearChest: bool, interactJustDown: bool)
      requires Valid()
      modifies this
      ensures Valid()
      ensures currentInteractable == SelectInteractable(nearNpc, nearChest, old(chestCollected))
      ensures DialogState() ==
                if interactJustDown then Interact(old(DialogState()), currentInteractable) else old(DialogState())
      ensures dialogOpen ==> unchanged(this`wasMoving, this`idleTweenPlaying)
      ensures !dialogOpen ==> wasMoving == IsMoving(held) && (velocityX, velocityY) == SceneVelocity(held)
    {
      currentInteractable := SelectInteractable(nearNpc, nearChest, chestCollected);

      if interactJustDown {
        HandleInteraction();
      }

      if dialogOpen {
        return;
      }

      Move(held);
    }

    /** The movement half of a frame with the dialog closed: the player stops, the idle bob is
        stopped when movement starts and restarted when it stops, and the velocity follows the keys. */
    method Move(held: set<Key>)
      requires Valid() && !dialogOpen
      modifies this`velocityX, this`velocityY, this`wasMoving, this`idleTweenPlaying
      ensures Valid()
      ensures wasMoving == IsMoving(held)
      ensures idleTweenPlaying <==> !IsMoving(held)
      ensures (velocityX, velocityY) == SceneVelocity(held)
    {
      velocityX, velocityY := 0, 0;
      var isMoving := IsMoving(held);
      if isMoving && !wasMoving {
        idleTweenPlaying := false;
      } else if !isMoving && wasMoving {
        idleTweenPlaying := true;
      }
      wasMoving := isMoving;

      var keys := KeyboardStates(held);
      if keys.left {
        velocityX := -PlayerSpeed;
      } else if keys.right {
        velocityX := PlayerSpeed;
      }
      if keys.up {
        velocityY := -PlayerSpeed;
      } else if keys.down {
        velocityY := PlayerSpeed;
      }
    }
  }
}
