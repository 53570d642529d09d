/**
 * A mounted Dropdown instance: the props it was last rendered with, its
 * `isOpen` state cell, its root element ref and the events it has passed to
 * `onChange`. Each handler updates the fields in place as the component's
 * handlers do, and is specified by the matching transition of Interaction.
 */
module Widget {
  import opened Opt
  import opened Dom
  import opened Presentation
  import opened Interaction

  class Dropdown {
    /** The props of the latest render. */
    var props: Config
    /** The `isOpen` state cell. */
    var isOpen: bool
    /** `dropdownRef.current`: unset until the root element is attached. */
    var root: Option<Node>
    /** Every event handed to `onChange`, oldest first. */
    var emitted: seq<ChangeEvent>

    /** The interaction state the handlers act on. */
    function State(): Interaction.State
      reads this
    {
      Interaction.State(isOpen, emitted)
    }

    /** What the widget currently renders. */
    function View(): (v: Presentation.View)
      reads this
      ensures v.trigger.ariaExpanded == isOpen && (v.listbox.Some? <==> isOpen)
    {
      Render(props, isOpen)
    }

    /** Mounting: the state cell starts closed and the ref starts unset. */
    constructor (props: Config)
      ensures this.props == props && root == None
      ensures State() == Initial
    {
      this.props := props;
      isOpen := false;
      root := None;
      emitted := [];
    }

    /** The framework attaches the root `<div>` to the ref. */
    method AttachRoot(node: Node)
      modifies this`root
      ensures root == Some(node)
    {
      root := Some(node);
    }

    /** The host renders the widget again with new props; the state cell survives. */
    method Rerender(props: Config)
      modifies this`props
      ensures this.props == props
    {
      this.props := props;
    }

    /** `handleToggle`, run by a click on the trigger. */
    method Toggle()
      modifies this`isOpen
      ensures State() == Toggled(old(State()))
    {
      isOpen := !isOpen;
    }

    /** The trigger's `onKeyDown`: Enter or Space toggles, any other key is ignored. */
    method KeyOnTrigger(key: string)
      modifies this`isOpen
      ensures State() == AfterTriggerKey(old(State()), key)
    {
      if key == "Enter" || key == " " {
        Toggle();
      }
    }

    /** `handleSelect(option)`, run by a click on an option: report the option, then close. */
    method Select(option: string)
      modifies this`isOpen, this`emitted
      ensures State() == Selected(old(State()), props.name, option)
    {
      emitted := emitted + [ChangeEvent(props.name, option)];
      isOpen := false;
    }

    /** An option's `onKeyDown`: Enter or Space selects it, any other key is ignored. */
    method KeyOnOption(key: string, option: string)
      modifies this`isOpen, this`emitted
      ensures State() == AfterOptionKey(old(State()), props.name, key, option)
    {
      if key == "Enter" || key == " " {
        Select(option);
      }
    }

    /** `handleClickOutside`, run on every document mousedown while mounted. */
    method MouseDown(dom: ParentMap, target: Node)
      modifies this`isOpen
      ensures State() == Dismissed(old(State()), root, dom, target)
    {
      if root.Some? && !Contains(dom, root.value, target) {
        isOpen := false;
      }
    }

    /** Route one gesture to the handler the markup attaches it to. */
    method Handle(g: Gesture)
      modifies this`isOpen, this`emitted
      ensures State() == Step(old(State()), props.name, root, g)
    {
      match g
      case ClickTrigger => Toggle();
      case KeyOnTrigger(key) => KeyOnTrigger(key);
      case ClickOption(option) => Select(option);
      case KeyOnOption(key, option) => KeyOnOption(key, option);
      case PointerDown(dom, target) => MouseDown(dom, target);
    }
  }

  /**
   * A fresh widget renders closed: not expanded and no listbox, whatever its
   * props; after a selection it renders closed again.
   */
  method FreshWidgetRendersClosed(props: Config, option: string) returns (first: Presentation.View, afterSelect: Presentation.View)
    ensures !first.trigger.ariaExpanded && first.listbox == None
    ensures !afterSelect.trigger.ariaExpanded && afterSelect.listbox == None
    ensures first == afterSelect
  {
    var w := new Dropdown(props);
    first := w.View();
    w.Toggle();
    w.Select(option);
    afterSelect := w.View();
  }
}
