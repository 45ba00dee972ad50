/** Edge detection: a one-frame pulse on the frame a held control goes from released to held. */
module Edge {

  /** The pulse of one frame, given the held value now and on the previous frame. */
  function Pulse(now: bool, last: bool): bool {
    now && !last
  }

  /** The pulses produced frame by frame for a run of held values, starting from the
      remembered value `last`; each frame remembers its own held value for the next. */
  function Pulses(held: seq<bool>, last: bool): (r: seq<bool>)
    ensures |r| == |held|
    decreases |held|
  {
    if held == [] then [] else [Pulse(held[0], last)] + Pulses(held[1..], held[0])
  }

  /** The held value one frame before frame `i`. */
  function Previous(held: seq<bool>, last: bool, i: nat): bool
    requires i < |held|
  {
    if i == 0 then last else held[i - 1]
  }

  /** A pulse is raised on exactly the frames where the held value rises from false to true. */
  lemma {:induction false} PulsesAt(held: seq<bool>, last: bool, i: nat)
    requires i < |held|
    ensures Pulses(held, last)[i] <==> held[i] && !Previous(held, last, i)
  {
    if i > 0 {
      PulsesAt(held[1..], held[0], i - 1);
    }
  }

  /** A pulse never lasts two consecutive frames. */
  lemma {:induction false} NoConsecutivePulses(held: seq<bool>, last: bool, i: nat)
    requires i + 1 < |held|
    ensures !(Pulses(held, last)[i] && Pulses(held, last)[i + 1])
  {
    PulsesAt(held, last, i);
    PulsesAt(held, last, i + 1);
  }

  /** Held F,F,T,T,F,T over six frames pulses F,F,T,F,F,T. */
  lemma PulsesExample()
    ensures Pulses([false, false, true, true, false, true], false)
         == [false, false, true, false, false, true]
  {
  }
}
