/** The keyboard as the game reads it: the set of keys held down this frame. */
module Keyboard {
  import opened Controls

  /** The keys the game binds: the cursor keys, W A S D, SPACE and E. */
  datatype Key = ArrowUp | ArrowDown | ArrowLeft | ArrowRight | W | A | S | D | Space | E

  /** The two keys bound to each control. */
  function Bindings(c: Control): set<Key> {
    match c
    case Up => {ArrowUp, W}
    case Down => {ArrowDown, S}
    case Left => {ArrowLeft, A}
    case Right => {ArrowRight, D}
    case Action => {Space, E}
  }

  /** The keyboard's state per control: the OR of the control's two bound keys. */
  function KeyboardStates(held: set<Key>): (r: ButtonStates)
    ensures forall c :: r.Get(c) <==> exists k :: k in Bindings(c) && k in held
  {
    ButtonStates(ArrowUp in held || W in held,
                 ArrowDown in held || S in held,
                 ArrowLeft in held || A in held,
                 ArrowRight in held || D in held,
                 Space in held || E in held)
  }
}
