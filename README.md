# Dropdown widget, modelled in Dafny

This is a model of the `Dropdown` React component in `src/Dropdown.jsx`: a single-select combobox. It opens and closes a list of string options, reports the chosen option to the host through `onChange`, and shows a validation error. The model has four modules:

- `Dom` (dom.dfy): the part of the document tree that outside-click detection needs. It is a parent map. `Contains(parent, root, t)` is `root.contains(t)`: `t` is `root`, or `root` is an ancestor of `t`. It is proved equivalent to the existence of a path up the tree from `t` to `root`. The file also holds the `Opt` module, with an `Option` datatype.
- `Presentation` (presentation.dfy): the JSX as a pure function `Render(config, isOpen)`. It gives the label, the trigger's ARIA attributes, the invalid and arrow flags, the trigger text, the listbox entries and the error text.
- `Interaction` (interaction.dfy): the handlers as pure transitions on `State(isOpen, emitted)`. `emitted` is the log of change events passed to `onChange`. The module also defines user gestures and runs of gestures, with lemmas about the log and the open flag. A run may hold any gesture in any state, so it can click or key an option while the widget is closed, which the markup does not allow: options exist only while open. Every lemma about runs holds for all gestures, so it holds for the runs the markup allows as well.
- `Widget` (widget.dfy): the class `Dropdown`. Its fields are the props, the `isOpen` state cell, the root ref and the event log. Its handler methods update those fields in place. Each method's `ensures` ties the new state to the matching `Interaction` transition of the old state.

The host's `onChange` callback is modelled as appending a `ChangeEvent(fieldName, selectedValue)` to the log. The event shape `{ target: { name, value } }` is reduced to those two fields. The mousedown event's target and the document it belongs to are parameters of `MouseDown`.

## Model

| member | source | states |
|---|---|---|
| Dom.PathContains | src/Dropdown.jsx:27 | a parent path without repetition from `t` up to `r` makes `r.contains(t)` true |
| Dom.PathToRoot | src/Dropdown.jsx:27 | when `r.contains(t)`, there is a parent path without repetition from `t` to `r`, and every step but the last leaves a node that has a parent |
| Dom.ContainsIffPath | src/Dropdown.jsx:27 | `r.contains(t)` holds if and only if some parent path leads from `t` up to `r` |
| Dom.WidgetPartsInside | src/Dropdown.jsx:53-110 | the root, a child of the root (the trigger) and an option under the listbox all count as contained in the root |
| Dom.ParentlessIsOutside | src/Dropdown.jsx:27 | a node with no parent that is not the root is not contained in it |
| Presentation.TriggerText | src/Dropdown.jsx:74 | the trigger text is never empty, and it is `value` whenever `value` is non-empty |
| Presentation.Entries | src/Dropdown.jsx:89-108 | `options.map` gives exactly one entry per option |
| Presentation.EntriesAt | src/Dropdown.jsx:89-108 | entry `i` is the entry built from option `i`, so the order is kept |
| Presentation.LabelledByDanglesAsWritten | src/Dropdown.jsx:54-63 | as written, `aria-labelledby` names `name + "-label"`, which is the id of no element in the widget |
| Presentation.Render | src/Dropdown.jsx:52-113 | the corrected render: `aria-expanded` and the arrow flag equal `isOpen` and the listbox exists exactly when open; the label's id is what `aria-labelledby` names, and it differs from the trigger's id; the label is `for` the trigger and shows the label text; the invalid flag is set exactly when `error` is non-empty |
| Presentation.LabelledByResolves | src/Dropdown.jsx:54-63 | in the corrected render, `aria-labelledby` is the label's id, and that id differs from the trigger's own id |
| Presentation.AsWrittenAgreesOutsideLabelId | src/Dropdown.jsx:52-113 | the corrected render and the render as written have the same trigger, listbox and error text; the label has the same `for` and text; only the label's id differs (none as written, `name + "-label"` corrected) |
| Presentation.TriggerSemantics | src/Dropdown.jsx:57-64 | the trigger has role `combobox` and `aria-haspopup="listbox"` always; its id is `name`; `aria-expanded` and the arrow's open flag both equal `isOpen` |
| Presentation.TriggerShowsValueOrPlaceholder | src/Dropdown.jsx:73-75 | the trigger shows `value` if it is non-empty and `"-- Select an option --"` otherwise; it is never blank |
| Presentation.ListboxIffOpen | src/Dropdown.jsx:87-110 | the listbox exists if and only if `isOpen`, and if and only if `aria-expanded` is true |
| Presentation.ListboxEntries | src/Dropdown.jsx:87-108 | when open, the listbox has role `listbox` and one entry per option; entry `i` has role `option` and text `options[i]`; it is selected and highlighted exactly when `options[i] == value` |
| Presentation.UnmatchedValueSelectsNothing | src/Dropdown.jsx:93-96 | if `value` is not among the options, no entry is selected or highlighted |
| Presentation.ErrorIndependentOfOpen | src/Dropdown.jsx:64 | the invalid flag is set if and only if `error` is non-empty; the error node exists if and only if `error` is non-empty and then holds exactly `error`; neither depends on `isOpen` (error node at line 111) |
| Presentation.SecondOfThreeSelected | src/Dropdown.jsx:93 | with value "Option 2" and options "Option 1", "Option 2", "Option 3", only the second entry is selected |
| Interaction.ToggleInvolution | src/Dropdown.jsx:39-41 | toggling negates `isOpen`, keeps the log, and toggling twice restores the state |
| Interaction.TriggerKeyParity | src/Dropdown.jsx:66-71 | Enter or Space on the trigger gives exactly the state a click does; any other key changes nothing |
| Interaction.SelectCommitsAndCloses | src/Dropdown.jsx:47-50 | selecting closes the widget and appends exactly one event `(name, option)` after the old log, for any option and any prior state |
| Interaction.OptionKeyParity | src/Dropdown.jsx:98-103 | Enter or Space on an option gives exactly the state a click on it does; any other key changes nothing |
| Interaction.DismissOutsideOnly | src/Dropdown.jsx:26-29 | an outside target closes the widget; an inside target, the root included, changes nothing; dismissal never emits and is idempotent |
| Interaction.DismissNoOps | src/Dropdown.jsx:27 | dismissing a closed widget, or any mousedown while the ref is unset, changes nothing |
| Interaction.PressOnWidgetKeepsState | src/Dropdown.jsx:26-29 | a mousedown on the trigger or on an option never closes the widget |
| Interaction.StepEffect | src/Dropdown.jsx:65-103 | a gesture appends one event for this field and closes the widget exactly when it commits, and otherwise leaves the log alone; only a trigger toggle opens a closed widget |
| Interaction.CommittedEvents | src/Dropdown.jsx:47-48 | one event per committing gesture, each naming this field |
| Interaction.RunEmits | src/Dropdown.jsx:47-50 | the log after any sequence of gestures is the old log followed by `{name, option}` for each committing gesture, in order |
| Interaction.RunLog | src/Dropdown.jsx:47-50 | over any sequence of gestures the log keeps the old log as a prefix, grows by exactly one event per committing gesture, and every new event names this field |
| Interaction.RunFromMount | src/Dropdown.jsx:18-50 | from a fresh mount, the log is exactly `{name, option}` for each committing gesture, in order |
| Interaction.RunEndsClosedAfterCommit | src/Dropdown.jsx:47-50 | a run whose last gesture commits ends closed |
| Widget.Dropdown.constructor | src/Dropdown.jsx:18-19 | a newly mounted widget is closed, has emitted nothing and has an unset ref |
| Widget.Dropdown.AttachRoot | src/Dropdown.jsx:53 | attaching the root element sets the ref and nothing else |
| Widget.Dropdown.Rerender | src/Dropdown.jsx:17 | a new render with new props keeps `isOpen`, the ref and the log |
| Widget.Dropdown.View | src/Dropdown.jsx:52-113 | the current render has `aria-expanded == isOpen` and a listbox exactly when open |
| Widget.Dropdown.Toggle | src/Dropdown.jsx:39-41 | the new state is `Toggled` of the old one; the ref and props are unchanged |
| Widget.Dropdown.KeyOnTrigger | src/Dropdown.jsx:66-71 | the new state is `AfterTriggerKey` of the old one |
| Widget.Dropdown.Select | src/Dropdown.jsx:47-50 | the new state is `Selected` of the old one with the current `name` |
| Widget.Dropdown.KeyOnOption | src/Dropdown.jsx:98-103 | the new state is `AfterOptionKey` of the old one with the current `name` |
| Widget.Dropdown.MouseDown | src/Dropdown.jsx:26-29 | the new state is `Dismissed` of the old one for the current ref, document and target |
| Widget.Dropdown.Handle | src/Dropdown.jsx:65-103 | routing a gesture to its handler gives `Step` of the old state |
| Widget.FreshWidgetRendersClosed | src/Dropdown.jsx:18-87 | a freshly mounted widget renders with `aria-expanded` false and no listbox, and it renders the same way again after a toggle and a selection |

## Findings

| source | as written | input that shows it | evidently intended | confidence | as-written member | corrected member |
|---|---|---|---|---|---|---|
| src/Dropdown.jsx:54-63 | the trigger's `aria-labelledby` is the name followed by `-label`, but the `<label>` has only `htmlFor` and no `id`; no element carries the referenced id | `name = "fruit"`: the trigger refers to `"fruit-label"`, and the only id in the widget is `"fruit"` | the label carries the id the name followed by `-label`, so the combobox takes its accessible name from the visible label | high (not executed) | Presentation.LabelledByDanglesAsWritten | Presentation.LabelledByResolves |

`Presentation.RenderAsWritten` is the render as written. `Presentation.Render` is the corrected render, and it is the one the class and the other lemmas use. The two differ only in the label's id.

## Left out

- Registering and removing the document `mousedown` listener (src/Dropdown.jsx:32-33) is not modelled. `MouseDown` is a method the caller invokes for each document mousedown while the widget is mounted, so teardown after unmount has no counterpart.
- React machinery is not modelled: hooks, re-rendering, batching of `setIsOpen` and StrictMode double effects. `setIsOpen` is a direct field assignment.
- `e.preventDefault()`, focus, `tabIndex`, CSS class strings and the SVG arrow markup are left out. They are browser side effects and styling. Only the boolean flags behind the classes are modelled (invalid, active option, arrow open).
- `htmlFor={name}` is modelled as plain data. It targets a `<div>`, which is not a labelable element, and that browser semantics is not modelled.
- `PropTypes` and `defaultProps` (src/Dropdown.jsx:116-128) are runtime type checks. `value` and `error` are strings, and their defaults are `""`.
- Widget.Dropdown.Select: the host's `onChange` is taken to return normally. If it throws (src/Dropdown.jsx:48), `setIsOpen(false)` on line 49 never runs and the widget stays open, while `Selected` always closes.
- Widget.Dropdown.View: it returns the corrected render, whose label carries the id `name + "-label"`; the markup as written gives the label no id (src/Dropdown.jsx:54). Presentation.AsWrittenAgreesOutsideLabelId proves that everything else rendered is the same, so the presentation lemmas hold for the markup as written too.
- Dom.Contains: each step up the tree removes the node it leaves from the parent map, so the walk also ends on a cyclic map. A real document has no cycles, and on a tree the result is that of the plain ancestor walk.
- React's `key={option}` handling of duplicate options is left out. Duplicates are rendered as separate entries.
- src/main.jsx is a demo mounting with a fixed option list and console output. It has no logic and is not modelled.
