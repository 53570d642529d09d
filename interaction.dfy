/**
 * The interaction controller as pure transitions on the widget's state: the
 * open flag and the change events it has emitted to the host so far. The
 * class in module Widget is specified by these functions.
 */
module Interaction {
  import opened Opt
  import opened Dom

  /** What `onChange` receives: `{ target: { name, value } }`. */
  datatype ChangeEvent = ChangeEvent(fieldName: string, selectedValue: string)

  /** `isOpen`, and every event handed to `onChange` so far, oldest first. */
  datatype State = State(isOpen: bool, emitted: seq<ChangeEvent>)

  /** A freshly mounted widget: closed, nothing emitted. */
  const Initial: State := State(false, [])

  /** The keys that activate the trigger or an option. */
  predicate IsActivationKey(key: string)
  {
    key == "Enter" || key == " "
  }

  /** `handleToggle`. */
  function Toggled(s: State): State
  {
    s.(isOpen := !s.isOpen)
  }

  /** `handleSelect(option)`: emit `{name, option}`, then close. */
  function Selected(s: State, name: string, option: string): State
  {
    State(false, s.emitted + [ChangeEvent(name, option)])
  }

  /** `handleClickOutside`: close unless the ref is unset or the target is inside the root. */
  function Dismissed(s: State, root: Option<Node>, dom: ParentMap, target: Node): State
  {
    if root.Some? && !Contains(dom, root.value, target) then s.(isOpen := false) else s
  }

  /** The trigger's `onKeyDown`. */
  function AfterTriggerKey(s: State, key: string): State
  {
    if IsActivationKey(key) then Toggled(s) else s
  }

  /** An option's `onKeyDown`. */
  function AfterOptionKey(s: State, name: string, key: string, option: string): State
  {
    if IsActivationKey(key) then Selected(s, name, option) else s
  }

  /** Toggling flips the open flag, touches nothing else, and twice is the identity. */
  lemma ToggleInvolution(s: State)
    ensures Toggled(s).isOpen == !s.isOpen && Toggled(s).emitted == s.emitted
    ensures Toggled(Toggled(s)) == s
  {
  }

  /** Enter and Space on the trigger act exactly as a click; every other key changes nothing. */
  lemma TriggerKeyParity(s: State, key: string)
    ensures key == "Enter" || key == " " ==> AfterTriggerKey(s, key) == Toggled(s)
    ensures key != "Enter" && key != " " ==> AfterTriggerKey(s, key) == s
  {
  }

  /**
   * Selecting closes the widget and appends exactly one event carrying the
   * field name and the option verbatim, whatever the prior state and whether
   * or not the option is listed or already the value.
   */
  lemma SelectCommitsAndCloses(s: State, name: string, option: string)
    ensures !Selected(s, name, option).isOpen
    ensures |Selected(s, name, option).emitted| == |s.emitted| + 1
    ensures Selected(s, name, option).emitted[..|s.emitted|] == s.emitted
    ensures Selected(s, name, option).emitted[|s.emitted|] == ChangeEvent(name, option)
  {
  }

  /** Enter and Space on an option act exactly as a click on it; every other key changes nothing. */
  lemma OptionKeyParity(s: State, name: string, key: string, option: string)
    ensures key == "Enter" || key == " " ==> AfterOptionKey(s, name, key, option) == Selected(s, name, option)
    ensures key != "Enter" && key != " " ==> AfterOptionKey(s, name, key, option) == s
  {
  }

  /**
   * Outside dismissal: a target outside the root closes the widget, a target
   * inside it (the root included) changes nothing, no event is emitted, and
   * dismissing twice is dismissing once.
   */
  lemma DismissOutsideOnly(s: State, root: Node, dom: ParentMap, target: Node)
    ensures !Contains(dom, root, target) ==> Dismissed(s, Some(root), dom, target) == s.(isOpen := false)
    ensures Contains(dom, root, target) ==> Dismissed(s, Some(root), dom, target) == s
    ensures Dismissed(s, Some(root), dom, root) == s
    ensures Dismissed(s, Some(root), dom, target).emitted == s.emitted
    ensures Dismissed(Dismissed(s, Some(root), dom, target), Some(root), dom, target) == Dismissed(s, Some(root), dom, target)
  {
  }

  /** Dismissing a closed widget is a no-op, and before the ref is set a pointer-down does nothing. */
  lemma DismissNoOps(s: State, root: Option<Node>, dom: ParentMap, target: Node)
    ensures !s.isOpen ==> Dismissed(s, root, dom, target) == s
    ensures root == None ==> Dismissed(s, root, dom, target) == s
  {
  }

  /** A pointer-down on the trigger or on an option never dismisses: it finds them inside the root. */
  lemma PressOnWidgetKeepsState(s: State, root: Node, dom: ParentMap, trigger: Node, list: Node, option: Node)
    requires trigger != root && trigger in dom && dom[trigger] == root
    requires list != root && list in dom && dom[list] == root
    requires option != root && option != list && option in dom && dom[option] == list
    ensures Dismissed(s, Some(root), dom, trigger) == s
    ensures Dismissed(s, Some(root), dom, option) == s
  {
    WidgetPartsInside(dom, root, trigger, list, option);
  }

  /** One user gesture, routed to the handler the markup attaches it to. */
  datatype Gesture =
    | ClickTrigger
    | KeyOnTrigger(key: string)
    | ClickOption(option: string)
    | KeyOnOption(key: string, option: string)
    | PointerDown(dom: ParentMap, target: Node)

  /** Whether a gesture commits a selection. */
  predicate Commits(g: Gesture)
  {
    g.ClickOption? || (g.KeyOnOption? && IsActivationKey(g.key))
  }

  /** The state after one gesture, for a widget with field name `name` and root ref `root`. */
  function Step(s: State, name: string, root: Option<Node>, g: Gesture): State
  {
    match g
    case ClickTrigger => Toggled(s)
    case KeyOnTrigger(key) => AfterTriggerKey(s, key)
    case ClickOption(option) => Selected(s, name, option)
    case KeyOnOption(key, option) => AfterOptionKey(s, name, key, option)
    case PointerDown(dom, target) => Dismissed(s, root, dom, target)
  }

  /** The state after a sequence of gestures, handled one after the other. */
  function Run(s: State, name: string, root: Option<Node>, gs: seq<Gesture>): State
    decreases |gs|
  {
    if gs == [] then s else Run(Step(s, name, root, gs[0]), name, root, gs[1..])
  }

  /** The number of gestures in `gs` that commit a selection. */
  function CommitCount(gs: seq<Gesture>): nat
  {
    if gs == [] then 0 else (if Commits(gs[0]) then 1 else 0) + CommitCount(gs[1..])
  }

  /**
   * One gesture either leaves the log alone or, exactly when it commits,
   * appends one event for this field; a committing gesture always closes,
   * and only a toggle of the trigger can open a closed widget.
   */
  lemma StepEffect(s: State, name: string, root: Option<Node>, g: Gesture)
    ensures Commits(g) ==> Step(s, name, root, g).emitted == s.emitted + [ChangeEvent(name, g.option)]
    ensures Commits(g) ==> !Step(s, name, root, g).isOpen
    ensures !Commits(g) ==> Step(s, name, root, g).emitted == s.emitted
    ensures !s.isOpen && Step(s, name, root, g).isOpen ==>
              g.ClickTrigger? || (g.KeyOnTrigger? && IsActivationKey(g.key))
  {
  }

  /**
   * The events a sequence of gestures hands to `onChange`, in order: one
   * `{name, option}` for each committing gesture, with that gesture's option.
   */
  function CommittedEvents(name: string, gs: seq<Gesture>): (es: seq<ChangeEvent>)
    ensures |es| == CommitCount(gs)
    ensures forall e :: e in es ==> e.fieldName == name
    decreases |gs|
  {
    if gs == [] then []
    else (if Commits(gs[0]) then [ChangeEvent(name, gs[0].option)] else []) + CommittedEvents(name, gs[1..])
  }

  /** A log extended by events that all name `name` keeps its prefix, and every added event names `name`. */
  lemma AppendedNamed(old_: seq<ChangeEvent>, added: seq<ChangeEvent>, name: string)
    requires forall e :: e in added ==> e.fieldName == name
    ensures (old_ + added)[..|old_|] == old_
    ensures forall i :: |old_| <= i < |old_ + added| ==> (old_ + added)[i].fieldName == name
  {
    forall i | |old_| <= i < |old_ + added| ensures (old_ + added)[i].fieldName == name {
      assert (old_ + added)[i] == added[i - |old_|];
    }
  }

  /** The log after a run is the old log followed by the run's committed events. */
  lemma {:induction false} RunEmits(s: State, name: string, root: Option<Node>, gs: seq<Gesture>)
    ensures Run(s, name, root, gs).emitted == s.emitted + CommittedEvents(name, gs)
    decreases |gs|
  {
    if gs != [] {
      StepEffect(s, name, root, gs[0]);
      RunEmits(Step(s, name, root, gs[0]), name, root, gs[1..]);
    }
  }

  /**
   * Over any sequence of gestures the log only grows: it keeps the old log as
   * a prefix, gains one event per committing gesture, and every event it
   * gains names this field.
   */
  lemma {:induction false} RunLog(s: State, name: string, root: Option<Node>, gs: seq<Gesture>)
    ensures var r := Run(s, name, root, gs);
      |r.emitted| == |s.emitted| + CommitCount(gs) &&
      r.emitted[..|s.emitted|] == s.emitted &&
      forall i :: |s.emitted| <= i < |r.emitted| ==> r.emitted[i].fieldName == name
  {
    RunEmits(s, name, root, gs);
    AppendedNamed(s.emitted, CommittedEvents(name, gs), name);
  }

  /** From a fresh mount, the log is exactly the events of the committing gestures, in order. */
  lemma {:induction false} RunFromMount(name: string, root: Option<Node>, gs: seq<Gesture>)
    ensures Run(Initial, name, root, gs).emitted == CommittedEvents(name, gs)
    ensures |Run(Initial, name, root, gs).emitted| == CommitCount(gs)
    ensures forall e :: e in Run(Initial, name, root, gs).emitted ==> e.fieldName == name
  {
    RunEmits(Initial, name, root, gs);
    RunLog(Initial, name, root, gs);
    assert [] + CommittedEvents(name, gs) == CommittedEvents(name, gs);
  }

  /** A run whose last gesture commits ends closed. */
  lemma {:induction false} RunEndsClosedAfterCommit(s: State, name: string, root: Option<Node>, gs: seq<Gesture>)
    requires gs != [] && Commits(gs[|gs| - 1])
    ensures !Run(s, name, root, gs).isOpen
    decreases |gs|
  {
    if |gs| == 1 {
      StepEffect(s, name, root, gs[0]);
    } else {
      RunEndsClosedAfterCommit(Step(s, name, root, gs[0]), name, root, gs[1..]);
    }
  }
}
