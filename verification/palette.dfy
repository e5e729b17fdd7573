/** Colour identities shared by the pages, and the override rule both
    `Badge` components follow: start from a default style and let every
    flag that is set, taken in declaration order, overwrite it. */
module Palette {

  /** A colour by its role, not its CSS string. `Neutral` is the Badge
      default (faint border, light-grey text); `Gray` is the deck's muted
      variant (same border, darker text). */
  datatype Tone = Neutral | Accent | Green | Amber | Red | Gray

  /** One `if (flag) { border = ...; color = ... }` step of a Badge. */
  type Override = (bool, Tone)

  predicate NoneSet(fs: seq<Override>)
  {
    forall i :: 0 <= i < |fs| ==> !fs[i].0
  }

  /** `fs[i]` is set and no later override is. */
  predicate LastSetAt(fs: seq<Override>, i: int)
  {
    0 <= i < |fs| && fs[i].0 && forall j :: i < j < |fs| ==> !fs[j].0
  }

  /** Applies the overrides left to right to `current`: the style a
      sequence of independent `if` statements leaves behind. */
  function Paint(fs: seq<Override>, current: Tone): (t: Tone)
    ensures NoneSet(fs) ==> t == current
    ensures forall i :: LastSetAt(fs, i) ==> t == fs[i].1
    decreases |fs|
  {
    if |fs| == 0 then current
    else
      var next := if fs[0].0 then fs[0].1 else current;
      var t := Paint(fs[1..], next);
      assert forall i :: 0 < i < |fs| && LastSetAt(fs, i) ==> LastSetAt(fs[1..], i - 1);
      assert LastSetAt(fs, 0) ==> NoneSet(fs[1..]);
      t
  }

  /** When the final override is set it decides, whatever comes before it. */
  lemma {:induction false} LaterFlagWins(fs: seq<Override>, gs: seq<Override>, current: Tone)
    requires |gs| > 0
    ensures gs[|gs| - 1].0 ==> Paint(fs + gs, current) == gs[|gs| - 1].1
  {
    if gs[|gs| - 1].0 {
      assert LastSetAt(fs + gs, |fs + gs| - 1);
    }
  }
}
