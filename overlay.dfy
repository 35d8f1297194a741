/**
 * One browser window's box of search tabs (`tabs` in the add-on) and the event handlers that
 * drive it. Timers are not scheduled here: a timer firing is an explicit method call
 * (`StartupHide`, `RunCheck`, `Tick`), made only while that timer is pending.
 */
module Overlay {
  import opened Wrappers
  import opened Animation
  import opened Checker

  /** What a click on a tab does: nothing, or a search with the engine of that tab for the recorded value. */
  datatype ClickOutcome = Ignored | Search(engine: nat, query: Option<string>)

  class SearchTabs {
    /** `tabs.offset`: where the group as a whole was last sent. */
    var offset: int
    /** The tabs, one per installed search engine, in engine order. */
    var tabs: seq<Tab>
    /** `checker.timer != null`: a check is scheduled and has not run yet. */
    var timerPending: bool
    /** `checker.value`: the last text recorded for searching (None while still undefined). */
    var value: Option<string>
    /** The one-shot startup hide has not fired yet. */
    var startupPending: bool

    /** The group offset is always one of the three offsets, and every tab is valid. */
    ghost predicate Valid()
      reads this`offset, this`tabs
      ensures Valid() ==> Hidden <= offset <= Shown
      ensures Valid() ==> forall i :: 0 <= i < |tabs| ==>
        Hidden as real <= tabs[i].marginBottom <= Shown as real && tabs[i].marginTop == -tabs[i].marginBottom
    {
      IsOffset(offset) && forall i :: 0 <= i < |tabs| ==> tabs[i].Valid()
    }

    /** Set up the box for `engines` search engines: everything shown, nothing recorded, the startup hide pending. */
    constructor (engines: nat)
      ensures Valid()
      ensures offset == Shown
      ensures |tabs| == engines && forall i :: 0 <= i < engines ==> tabs[i] == InitialTab
      ensures !timerPending && value == None && startupPending
    {
      offset := Shown;
      tabs := seq(engines, _ => InitialTab);
      timerPending := false;
      value := None;
      startupPending := true;
    }

    /** `tabs.shiftAll(o)`: record the group offset and shift every tab toward it, in order. */
    method ShiftAll(o: int)
      requires Valid() && IsOffset(o)
      modifies this`offset, this`tabs
      ensures Valid()
      ensures offset == o
      ensures tabs == ShiftEach(old(tabs), o)
    {
      offset := o;
      var i := 0;
      while i < |tabs|
        invariant offset == o
        invariant 0 <= i <= |tabs| == |old(tabs)|
        invariant forall k :: 0 <= k < i ==> tabs[k] == Shift(old(tabs)[k], o)
        invariant forall k :: i <= k < |tabs| ==> tabs[k] == old(tabs)[k]
      {
        tabs := tabs[i := Shift(tabs[i], o)];
        i := i + 1;
      }
    }

    /**
     * Click on tab `i`. While the group is hidden nothing happens and no search starts;
     * otherwise the group is hidden and the tab's engine searches for the recorded value.
     */
    method Click(i: nat) returns (outcome: ClickOutcome)
      requires Valid() && i < |tabs|
      modifies this`offset, this`tabs
      ensures Valid()
      ensures old(offset) == Hidden ==> outcome == Ignored && offset == old(offset) && tabs == old(tabs)
      ensures old(offset) != Hidden ==>
        outcome == Search(i, value) && offset == Hidden && tabs == ShiftEach(old(tabs), Hidden)
    {
      if offset == Hidden {
        return Ignored;
      }
      ShiftAll(Hidden);
      outcome := Search(i, value);
    }

    /** Mouse over tab `i`: it sticks out fully unless the group is hidden; nothing else moves. */
    method MouseOver(i: nat)
      requires Valid() && i < |tabs|
      modifies this`tabs
      ensures Valid()
      ensures offset != Hidden ==> tabs == old(tabs)[i := Shift(old(tabs)[i], Shown)]
      ensures offset == Hidden ==> tabs == old(tabs)
    {
      if offset != Hidden {
        tabs := tabs[i := Shift(tabs[i], Shown)];
      }
    }

    /** Mouse out of tab `i`: it goes back to where the group is; nothing else moves. */
    method MouseOut(i: nat)
      requires Valid() && i < |tabs|
      modifies this`tabs
      ensures Valid()
      ensures tabs == old(tabs)[i := Shift(old(tabs)[i], offset)]
    {
      tabs := tabs[i := Shift(tabs[i], offset)];
    }

    /** The startup timer fires (once): hide everything, but only if the group is still fully shown. */
    method StartupHide()
      requires Valid() && startupPending
      modifies this`offset, this`tabs, this`startupPending
      ensures Valid() && !startupPending
      ensures old(offset) == Shown ==> offset == Hidden && tabs == ShiftEach(old(tabs), Hidden)
      ensures old(offset) != Shown ==> offset == old(offset) && tabs == old(tabs)
    {
      startupPending := false;
      if offset == Shown {
        ShiftAll(Hidden);
      }
    }

    /**
     * A focus, keyup or mouseup event reaches the checker: a check is scheduled unless one
     * already is, in which case the event is merged into it. Reports whether it scheduled one.
     */
    method Schedule() returns (scheduled: bool)
      modifies this`timerPending
      ensures timerPending
      ensures scheduled == !old(timerPending)
    {
      if timerPending {
        return false;
      }
      timerPending := true;
      scheduled := true;
    }

    /**
     * The check timer fires with the window's selection text and the focused element (if any):
     * the pending flag is cleared, every tab is shifted to the decided offset and the
     * decided text, if any, becomes the search value.
     */
    method RunCheck(selection: string, focused: Option<Element>)
      requires Valid() && timerPending
      modifies this`offset, this`tabs, this`timerPending, this`value
      ensures Valid() && !timerPending
      ensures offset == Decide(selection, focused).offset
      ensures tabs == ShiftEach(old(tabs), offset)
      ensures value == if Decide(selection, focused).record.Some? then Decide(selection, focused).record else old(value)
    {
      var d := Decide(selection, focused);
      Apply(d);
      timerPending := false;
    }

    /** Carry out a decision: shift every tab to its offset and record its text, if any. */
    method Apply(d: Decision)
      requires Valid() && IsOffset(d.offset)
      modifies this`offset, this`tabs, this`value
      ensures Valid()
      ensures offset == d.offset
      ensures tabs == ShiftEach(old(tabs), d.offset)
      ensures value == if d.record.Some? then d.record else old(value)
    {
      ShiftAll(d.offset);
      if d.record.Some? {
        value := d.record;
      }
    }

    /** Tab `i`'s animation timer fires with easing value `step`; no other tab moves. */
    method Tick(i: nat, step: real)
      requires Valid() && i < |tabs| && tabs[i].shifter.Some?
      requires 0.0 <= step <= 1.0
      modifies this`tabs
      ensures Valid()
      ensures tabs == old(tabs)[i := Advance(old(tabs)[i], step)]
      ensures step == 1.0 ==> tabs[i].shifter == None && tabs[i].marginBottom == old(tabs)[i].shifter.value.target as real
    {
      tabs := tabs[i := Advance(tabs[i], step)];
    }
  }
}
