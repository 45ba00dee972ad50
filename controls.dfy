/** The logical controls shared by the keyboard and the on-screen buttons. */
module Controls {

  /** One of the five logical controls. */
  datatype Control = Up | Down | Left | Right | Action

  /** One boolean per control: the shape of the record `getButtonStates` returns
      and of the five merged fields of the input aggregator. */
  datatype ButtonStates = ButtonStates(up: bool, down: bool, left: bool, right: bool, action: bool)
  {
    function Get(c: Control): bool {
      match c
      case Up => up
      case Down => down
      case Left => left
      case Right => right
      case Action => action
    }

    /** These states with control `c` set to `v` and every other control as it was. */
    function With(c: Control, v: bool): (r: ButtonStates)
      ensures r.Get(c) == v
      ensures forall d :: d != c ==> r.Get(d) == Get(d)
    {
      match c
      case Up => this.(up := v)
      case Down => this.(down := v)
      case Left => this.(left := v)
      case Right => this.(right := v)
      case Action => this.(action := v)
    }
  }

  /** What an absent source reports: nothing held. */
  const AllReleased := ButtonStates(false, false, false, false, false)

  /** Control-by-control logical OR of two sources. */
  function Merge(a: ButtonStates, b: ButtonStates): (r: ButtonStates)
    ensures forall c :: r.Get(c) == (a.Get(c) || b.Get(c))
  {
    ButtonStates(a.up || b.up, a.down || b.down, a.left || b.left, a.right || b.right, a.action || b.action)
  }

  /** Merging with an absent source leaves the other source's states as they are. */
  lemma MergeWithReleased(a: ButtonStates)
    ensures Merge(a, AllReleased) == a
  {
  }
}
