/**
 * The decision the debounced checker makes when its timer fires: which offset the overlay
 * should take, and which text (if any) becomes the search value.
 */
module Checker {
  import opened Wrappers
  import opened JsText
  import opened Animation

  /** The focused element's `nodeName`, `type` and `value`. */
  datatype Element = Element(nodeName: string, inputType: string, value: string)

  /** The offset to shift every tab to, and the text to record as `checker.value` (None: keep it). */
  datatype Decision = Decision(offset: int, record: Option<string>)

  /**
   * The focused element exists, is an `input` (or `html:input`) and has type `text`, each
   * name compared without regard to ASCII case.
   */
  predicate IsTextField(focused: Option<Element>): (b: bool)
    ensures b <==> (focused.Some? &&
      (LowerAll(focused.value.nodeName) == "input" || LowerAll(focused.value.nodeName) == "html:input") &&
      LowerAll(focused.value.inputType) == "text")
  {
    match focused
    case None => false
    case Some(e) =>
      RegexTestsFold(e.nodeName, e.inputType);
      IsInputNodeName(e.nodeName) && IsTextType(e.inputType)
  }

  /**
   * The checker's rule. A selection with something other than white space wins: the tabs
   * peek out and the trimmed selection is recorded. Otherwise, anything but a focused text
   * field hides the tabs and records nothing; a text field hides them when empty and shows
   * them partially when not, recording its value either way.
   */
  function Decide(selection: string, focused: Option<Element>): (d: Decision)
    ensures d.offset == Hidden || d.offset == Partial
    ensures d.offset == Partial <==> d.record.Some? && d.record.value != ""
    ensures d.record.Some? <==> !AllTrimmable(selection) || IsTextField(focused)
    ensures !AllTrimmable(selection) ==> d.record == Some(Trim(selection))
    ensures AllTrimmable(selection) && IsTextField(focused) ==> d.record == Some(focused.value.value)
  {
    var trimmed := Trim(selection);
    if trimmed != "" then
      Decision(Partial, Some(trimmed))
    else if focused.None? || !IsInputNodeName(focused.value.nodeName) || !IsTextType(focused.value.inputType) then
      Decision(Hidden, None)
    else
      Decision(if focused.value.value == "" then Hidden else Partial, Some(focused.value.value))
  }

  /** The checker never asks for the fully shown offset: only the startup state shows everything. */
  lemma DecideNeverShows(selection: string, focused: Option<Element>)
    ensures Decide(selection, focused).offset != Shown
  {
  }

  /** White space around a selection changes nothing about the decision. */
  lemma DecideIgnoresSurroundingSpace(pre: string, selection: string, post: string, focused: Option<Element>)
    requires AllTrimmable(pre) && AllTrimmable(post)
    ensures Decide(pre + selection + post, focused) == Decide(selection, focused)
  {
    TrimIgnoresPadding(pre, selection, post);
  }
}
