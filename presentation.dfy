/**
 * The presentation mapper: what the widget renders, as a pure function of the
 * host's props and the open flag.
 */
module Presentation {
  import opened Opt

  /** The props the host passes in; `value` and `error` default to "". */
  datatype Config = Config(labelText: string, name: string, value: string, options: seq<string>, error: string)

  /** Text on the trigger when nothing is selected. */
  const Placeholder: string := "-- Select an option --"

  /** The trigger names its label by the field name followed by this suffix. */
  const LabelSuffix: string := "-label"

  /** `<label>`: its own id (none is given as written), the element it is `for`, its text. */
  datatype LabelView = LabelView(id: Option<string>, htmlFor: string, text: string)

  /** The combobox trigger `<div>` with its ARIA attributes, state flags and visible text. */
  datatype TriggerView = TriggerView(
    id: string,
    role: string,
    ariaExpanded: bool,
    ariaHasPopup: string,
    ariaLabelledBy: string,
    invalid: bool,
    text: string,
    arrowOpen: bool)

  /** One `<li>` of the listbox. */
  datatype OptionView = OptionView(role: string, ariaSelected: bool, active: bool, text: string)

  /** The `<ul>` listbox. */
  datatype ListboxView = ListboxView(role: string, entries: seq<OptionView>)

  /** The whole widget; `listbox` and `errorText` are absent from the output when `None`. */
  datatype View = View(labelNode: LabelView, trigger: TriggerView, listbox: Option<ListboxView>, errorText: Option<string>)

  /** The id the trigger's `aria-labelledby` refers to. */
  function LabelId(name: string): string
  {
    name + LabelSuffix
  }

  /** JavaScript's `value || placeholder` on a string. */
  function TriggerText(value: string): (t: string)
    ensures t != ""
    ensures value != "" ==> t == value
  {
    if value != "" then value else Placeholder
  }

  /** The entry for one option. */
  function Entry(option: string, value: string): OptionView
  {
    var selected := value == option;
    OptionView("option", selected, selected, option)
  }

  /** `options.map(...)`: one entry per option, in order. */
  function Entries(options: seq<string>, value: string): (r: seq<OptionView>)
    ensures |r| == |options|
  {
    if options == [] then [] else [Entry(options[0], value)] + Entries(options[1..], value)
  }

  /** Entry `i` is the entry of option `i`. */
  lemma {:induction false} EntriesAt(options: seq<string>, value: string, i: nat)
    requires i < |options|
    ensures Entries(options, value)[i] == Entry(options[i], value)
    decreases |options|
  {
    if i > 0 {
      EntriesAt(options[1..], value, i - 1);
    }
  }

  /** The render as the component's markup writes it: the `<label>` carries no id. */
  function RenderAsWritten(c: Config, isOpen: bool): View
  {
    View(
      LabelView(None, c.name, c.labelText),
      TriggerView(c.name, "combobox", isOpen, "listbox", LabelId(c.name), c.error != "", TriggerText(c.value), isOpen),
      if isOpen then Some(ListboxView("listbox", Entries(c.options, c.value))) else None,
      if c.error != "" then Some(c.error) else None)
  }

  /** The ids that elements of a view carry. */
  function Ids(v: View): set<string>
  {
    {v.trigger.id} + (if v.labelNode.id.Some? then {v.labelNode.id.value} else {})
  }

  /** As written, `aria-labelledby` refers to an id that no element of the widget carries. */
  lemma LabelledByDanglesAsWritten(c: Config, isOpen: bool)
    ensures RenderAsWritten(c, isOpen).trigger.ariaLabelledBy !in Ids(RenderAsWritten(c, isOpen))
  {
    assert |LabelId(c.name)| != |c.name|;
  }

  /** The render with the label given the id the trigger refers to; the rest of the model uses this one. */
  function Render(c: Config, isOpen: bool): (v: View)
    ensures v.trigger.ariaExpanded == isOpen && v.trigger.arrowOpen == isOpen && (v.listbox.Some? <==> isOpen)
    ensures v.labelNode.id == Some(v.trigger.ariaLabelledBy) && v.trigger.id != v.trigger.ariaLabelledBy
    ensures v.labelNode.htmlFor == v.trigger.id && v.labelNode.text == c.labelText
    ensures v.trigger.invalid <==> c.error != ""
  {
    assert |LabelId(c.name)| != |c.name|;
    var w := RenderAsWritten(c, isOpen);
    w.(labelNode := w.labelNode.(id := Some(LabelId(c.name))))
  }

  /** With the label's id in place, `aria-labelledby` names the label and not the trigger. */
  lemma LabelledByResolves(c: Config, isOpen: bool)
    ensures Render(c, isOpen).trigger.ariaLabelledBy in Ids(Render(c, isOpen))
    ensures Render(c, isOpen).labelNode.id == Some(Render(c, isOpen).trigger.ariaLabelledBy)
    ensures Render(c, isOpen).trigger.id != Render(c, isOpen).trigger.ariaLabelledBy
  {
    assert |LabelId(c.name)| != |c.name|;
  }

  /**
   * The corrected render and the render as written differ in the label's id
   * alone: the trigger, the listbox and the error text are the same, so every
   * fact below about them holds for the markup as written too.
   */
  lemma AsWrittenAgreesOutsideLabelId(c: Config, isOpen: bool)
    ensures var v, w := Render(c, isOpen), RenderAsWritten(c, isOpen);
      v.trigger == w.trigger && v.listbox == w.listbox && v.errorText == w.errorText &&
      v.labelNode.htmlFor == w.labelNode.htmlFor && v.labelNode.text == w.labelNode.text &&
      w.labelNode.id == None && v.labelNode.id == Some(c.name + "-label")
  {
  }

  /** The trigger: a combobox with a listbox popup, id and label from the field name, expanded exactly when open. */
  lemma TriggerSemantics(c: Config, isOpen: bool)
    ensures var t := Render(c, isOpen).trigger;
      t.role == "combobox" && t.ariaHasPopup == "listbox" && t.id == c.name &&
      t.ariaExpanded == isOpen && t.arrowOpen == isOpen &&
      t.ariaLabelledBy == c.name + "-label"
  {
  }

  /** The trigger shows the value, or the placeholder when the value is empty; it is never blank. */
  lemma TriggerShowsValueOrPlaceholder(c: Config, isOpen: bool)
    ensures c.value != "" ==> Render(c, isOpen).trigger.text == c.value
    ensures c.value == "" ==> Render(c, isOpen).trigger.text == "-- Select an option --"
    ensures Render(c, isOpen).trigger.text != ""
  {
  }

  /** The listbox is in the output exactly when the widget is open, and then always says it is expanded. */
  lemma ListboxIffOpen(c: Config, isOpen: bool)
    ensures Render(c, isOpen).listbox.Some? <==> isOpen
    ensures Render(c, isOpen).listbox.Some? <==> Render(c, isOpen).trigger.ariaExpanded
  {
  }

  /**
   * When open: a "listbox" with one "option" entry per option in the given
   * order, each showing its option, selected and highlighted exactly when it
   * equals the value.
   */
  lemma ListboxEntries(c: Config, i: nat)
    requires i < |c.options|
    ensures Render(c, true).listbox.Some?
    ensures var l := Render(c, true).listbox.value;
      l.role == "listbox" && |l.entries| == |c.options| &&
      l.entries[i].role == "option" && l.entries[i].text == c.options[i] &&
      (l.entries[i].ariaSelected <==> c.options[i] == c.value) &&
      l.entries[i].active == l.entries[i].ariaSelected
  {
    EntriesAt(c.options, c.value, i);
  }

  /** A value that is not one of the options marks no entry. */
  lemma {:induction false} UnmatchedValueSelectsNothing(c: Config)
    requires c.value !in c.options
    ensures forall e :: e in Render(c, true).listbox.value.entries ==> !e.ariaSelected && !e.active
  {
    var es := Entries(c.options, c.value);
    forall e | e in es ensures !e.ariaSelected && !e.active {
      var i :| 0 <= i < |es| && es[i] == e;
      EntriesAt(c.options, c.value, i);
    }
  }

  /** The invalid flag and the error text depend on `error` alone, whatever the open state. */
  lemma ErrorIndependentOfOpen(c: Config, isOpen: bool)
    ensures Render(c, isOpen).trigger.invalid <==> c.error != ""
    ensures Render(c, isOpen).errorText.Some? <==> c.error != ""
    ensures Render(c, isOpen).errorText.Some? ==> Render(c, isOpen).errorText.value == c.error
    ensures Render(c, isOpen).errorText == Render(c, !isOpen).errorText
    ensures Render(c, isOpen).trigger.invalid == Render(c, !isOpen).trigger.invalid
  {
  }

  /** The worked case: with "Option 2" of three selected, the open list marks the second entry only. */
  lemma {:induction false} SecondOfThreeSelected()
    ensures var c := Config("Choose an option", "choice", "Option 2", ["Option 1", "Option 2", "Option 3"], "");
      var es := Render(c, true).listbox.value.entries;
      |es| == 3 && !es[0].ariaSelected && es[1].ariaSelected && !es[2].ariaSelected
  {
    var c := Config("Choose an option", "choice", "Option 2", ["Option 1", "Option 2", "Option 3"], "");
    EntriesAt(c.options, c.value, 0);
    EntriesAt(c.options, c.value, 1);
    EntriesAt(c.options, c.value, 2);
  }
}
