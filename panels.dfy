/** Panel numbers, the views a click can come from, and what a well-formed
    round target looks like. */
module Panels {

  /** A possibly absent value; `onClick` receives a nullable view. */
  datatype Option<+T> = None | Some(value: T)

  /** Bounds of the round length drawn with `(3..5).random()`. */
  const MinRoundLength: nat := 3
  const MaxRoundLength: nat := 5

  /** Panels are numbered 1 to PanelCount, the range of `(1..4).random()`. */
  const PanelCount: nat := 4

  predicate IsPanel(p: int) {
    1 <= p <= PanelCount
  }

  predicate AllPanels(s: seq<int>) {
    forall i :: 0 <= i < |s| ==> IsPanel(s[i])
  }

  /** A target the generator can produce: 3 to 5 panel numbers. */
  predicate ValidTarget(t: seq<int>) {
    MinRoundLength <= |t| <= MaxRoundLength && AllPanels(t)
  }

  /** The view a click arrives from: one of the four panels or any other view. */
  datatype View = Panel1 | Panel2 | Panel3 | Panel4 | OtherView

  /** The digit a click appends to the answer. A view that is not one of the
      first three panels counts as panel 4. */
  function DigitOf(v: View): (d: int)
    ensures IsPanel(d)
    ensures v.OtherView? ==> d == PanelCount
  {
    match v
    case Panel1 => 1
    case Panel2 => 2
    case Panel3 => 3
    case Panel4 => 4
    case OtherView => 4
  }

  /** The panel that flashes for a drawn number: panels 1 to 3 for 1 to 3,
      panel 4 for anything else. */
  function PanelView(p: int): (v: View)
    ensures !v.OtherView?
    ensures IsPanel(p) ==> DigitOf(v) == p
  {
    if p == 1 then Panel1 else if p == 2 then Panel2 else if p == 3 then Panel3 else Panel4
  }

  /** Clicking the panel that flashed for number `p` enters `p`, and a panel
      view flashes for exactly its own digit. */
  lemma EveryPanelHasAView(p: int, v: View)
    requires IsPanel(p)
    ensures DigitOf(PanelView(p)) == p
    ensures !v.OtherView? ==> (PanelView(p) == v <==> DigitOf(v) == p)
  {
  }

  /** Clicking, in order, the panels that flashed for a target enters exactly
      that target. */
  lemma {:induction false} FlashedPanelsEnterTarget(t: seq<int>)
    requires AllPanels(t)
    ensures Digits(Flashed(t)) == t
  {
    if t != [] {
      FlashedPanelsEnterTarget(t[1..]);
      assert DigitOf(PanelView(t[0])) == t[0];
    }
  }

  /** The panels that flash, in order, for target `t`. */
  function Flashed(t: seq<int>): (vs: seq<View>) {
    if t == [] then [] else [PanelView(t[0])] + Flashed(t[1..])
  }

  /** The digits clicks on views `vs` enter, in order. */
  function Digits(vs: seq<View>): (ds: seq<int>) {
    if vs == [] then [] else [DigitOf(vs[0])] + Digits(vs[1..])
  }

  /** Two different panel views never enter the same digit. */
  lemma PanelViewsAreDistinguished(v: View, w: View)
    requires !v.OtherView? && !w.OtherView?
    ensures DigitOf(v) == DigitOf(w) <==> v == w
  {
  }
}
