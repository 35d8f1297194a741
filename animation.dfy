/**
 * The three overlay offsets and one search tab's slide animation.
 *
 * A tab's position is its CSS `margin-bottom` (with `margin-top` its negation). Starting a
 * shift cancels whatever step was pending and schedules a new animation from the current
 * position (read back through `parseInt(...) || 0`) to the target; each timer step moves the
 * tab to `from + (target - from) * step` for an easing value `step` in [0, 1], and the step
 * with `step == 1` lands on the target and clears the pending step.
 */
module Animation {
  import opened Wrappers

  /** `OFFSETS.hidden`: tabs and their shadow are out of sight. */
  const Hidden: int := -100
  /** `OFFSETS.partial`: the tabs peek out. */
  const Partial: int := -64
  /** `OFFSETS.shown`: the tabs are fully visible. */
  const Shown: int := 0

  /** `o` is one of the three `OFFSETS`. */
  predicate IsOffset(o: int) {
    o == Hidden || o == Partial || o == Shown
  }

  /** The three offsets are ordered hidden < partial < shown, so every offset lies between the outer two. */
  lemma OffsetsOrdered(o: int)
    ensures Hidden < Partial < Shown
    ensures IsOffset(o) ==> Hidden <= o <= Shown
  {
  }

  /** A scheduled animation (`tab.shifter`): the position it started from and its target. */
  datatype Shifter = Shifter(from: int, target: int)

  /** One search tab: its two margins and its pending animation step, if any. */
  datatype Tab = Tab(marginBottom: real, marginTop: real, shifter: Option<Shifter>)
  {
    /** Margins stay between hidden and shown and mirror each other; an animation heads for an offset. */
    predicate Valid() {
      Hidden as real <= marginBottom <= Shown as real && marginTop == -marginBottom &&
      (shifter.Some? ==> Hidden <= shifter.value.from <= Shown && IsOffset(shifter.value.target))
    }
  }

  /** A freshly created tab: no margin set yet, nothing pending. */
  const InitialTab: Tab := Tab(0.0, 0.0, None)

  /**
   * `parseInt(tab.style.marginBottom) || 0`: the margin written as `x + "px"` read back as an
   * integer, truncating toward zero (an unset margin reads as 0, as does `-0`).
   */
  function TruncateToInt(x: real): (n: int)
    ensures 0.0 <= x ==> n as real <= x < n as real + 1.0
    ensures x < 0.0 ==> n as real - 1.0 < x <= n as real
  {
    if x >= 0.0 then x.Floor else -((-x).Floor)
  }

  /** `tab.offset(offset)`: move the tab by setting both margins. */
  function Place(t: Tab, offset: real): (r: Tab)
    ensures r.marginBottom == offset && r.marginTop == -offset && r.shifter == t.shifter
    ensures t.Valid() && Hidden as real <= offset <= Shown as real ==> r.Valid()
    ensures r.Valid() ==> Hidden as real <= offset <= Shown as real
  {
    t.(marginBottom := offset, marginTop := -offset)
  }

  /** `tab.shift(target)`: cancel any pending step and start animating from where the tab is now. */
  function Shift(t: Tab, target: int): (r: Tab)
    ensures r.marginBottom == t.marginBottom && r.marginTop == t.marginTop
    ensures r.shifter.Some? && r.shifter.value.target == target
    ensures 0.0 <= t.marginBottom ==> r.shifter.value.from as real <= t.marginBottom < r.shifter.value.from as real + 1.0
    ensures t.marginBottom < 0.0 ==> r.shifter.value.from as real - 1.0 < t.marginBottom <= r.shifter.value.from as real
    ensures t.Valid() && IsOffset(target) ==> r.Valid()
  {
    t.(shifter := Some(Shifter(TruncateToInt(t.marginBottom), target)))
  }

  /** The interpolated position `from + (target - from) * step`. */
  function Interpolate(from: int, target: int, step: real): (x: real)
    requires 0.0 <= step <= 1.0
    ensures from <= target ==> from as real <= x <= target as real
    ensures target <= from ==> target as real <= x <= from as real
    ensures step == 0.0 ==> x == from as real
    ensures step == 1.0 ==> x == target as real
  {
    var d := (target - from) as real;
    ScaleBounds(d, step);
    from as real + d * step
  }

  /** Scaling by a factor in [0, 1] keeps a distance between zero and itself. */
  lemma ScaleBounds(d: real, step: real)
    requires 0.0 <= step <= 1.0
    ensures 0.0 <= d ==> 0.0 <= d * step <= d
    ensures d <= 0.0 ==> d <= d * step <= 0.0
  {
  }

  /**
   * One timer step of the pending animation with easing value `step`: the tab moves to the
   * interpolated position, and the animation stays pending unless `step` has reached 1.
   */
  function Advance(t: Tab, step: real): (r: Tab)
    requires t.shifter.Some?
    requires 0.0 <= step <= 1.0
    ensures r.marginTop == -r.marginBottom
    ensures r.marginBottom == Interpolate(t.shifter.value.from, t.shifter.value.target, step)
    ensures step < 1.0 ==> r.shifter == t.shifter
    ensures step == 1.0 ==> r.shifter == None && r.marginBottom == t.shifter.value.target as real
    ensures t.Valid() ==> r.Valid()
  {
    var s := t.shifter.value;
    var moved := Place(t, Interpolate(s.from, s.target, step));
    if step < 1.0 then moved else moved.(shifter := None)
  }

  /** `Array.forEach(tabs.childNodes, tab => tab.shift(offset))`, tab by tab in order. */
  function ShiftEach(ts: seq<Tab>, offset: int): (r: seq<Tab>)
    ensures |r| == |ts|
    ensures forall i :: 0 <= i < |ts| ==> r[i] == Shift(ts[i], offset)
  {
    if ts == [] then [] else [Shift(ts[0], offset)] + ShiftEach(ts[1..], offset)
  }

  /**
   * Starting a shift cancels the pending step: the new state does not depend on whatever
   * animation was pending before.
   */
  lemma ShiftCancelsPending(t: Tab, pending: Option<Shifter>, target: int)
    ensures Shift(t.(shifter := pending), target) == Shift(t, target)
  {
  }

  /**
   * A shift that runs to completion leaves margin-bottom on the target, margin-top on its
   * negation and nothing pending, whatever was pending before and wherever the tab was.
   */
  lemma ShiftCompletes(t: Tab, target: int)
    ensures Advance(Shift(t, target), 1.0) == Tab(target as real, -(target as real), None)
  {
  }

  /** A tab that was not moving and sits on an offset stays there when re-shifted to that offset. */
  lemma ShiftInPlaceStays(o: int, step: real)
    requires IsOffset(o)
    requires 0.0 <= step <= 1.0
    ensures Advance(Shift(Tab(o as real, -(o as real), None), o), step).marginBottom == o as real
  {
  }

  /** A run of steps that reaches 1 ends on the target, whatever intermediate steps came before. */
  lemma {:induction false} StepsEndOnTarget(t: Tab, steps: seq<real>)
    requires t.shifter.Some?
    requires steps != [] && steps[|steps| - 1] == 1.0
    requires forall i :: 0 <= i < |steps| - 1 ==> 0.0 <= steps[i] < 1.0
    decreases steps
    ensures RunSteps(t, steps).shifter == None
    ensures RunSteps(t, steps).marginBottom == t.shifter.value.target as real
    ensures RunSteps(t, steps).marginTop == -(t.shifter.value.target as real)
  {
    if |steps| > 1 {
      StepsEndOnTarget(Advance(t, steps[0]), steps[1..]);
    }
  }

  /**
   * Apply timer steps in order while the animation is still pending: steps never change the
   * animation itself, they only run it out, and the tab stays valid throughout.
   */
  function RunSteps(t: Tab, steps: seq<real>): (r: Tab)
    requires forall i :: 0 <= i < |steps| ==> 0.0 <= steps[i] <= 1.0
    decreases steps
    ensures r.shifter == None || r.shifter == t.shifter
    ensures t.Valid() ==> r.Valid()
  {
    if steps == [] || t.shifter.None? then t else RunSteps(Advance(t, steps[0]), steps[1..])
  }
}
