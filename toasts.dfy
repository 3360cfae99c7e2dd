/** The records the group item receives from the toast container and the events it
    sends back. */
module Toasts {
  import opened Strings
  import opened Css

  /** What a toast shows: a string, an Angular template, a component, or no value. */
  datatype Message = NoMessage | PlainText(text: string) | Template | Component

  /** JavaScript truthiness of the message value: only a missing value and the empty
      string are falsy; templates and components are objects. */
  predicate Truthy(m: Message) {
    match m
    case NoMessage => false
    case PlainText(text) => text != ""
    case Template => true
    case Component => true
  }

  /** One toast. `position` is one of the container's position names such as
      `top-left` or `bottom-center`; `duration` is in milliseconds; `style` holds the
      caller's style overrides and `attributes` the attributes to put on the bar;
      `height` is the last measured pixel height and `visible` says whether the toast
      still counts in its group. */
  datatype Toast = Toast(
    id: string,
    message: Message,
    position: string,
    duration: int,
    autoClose: bool,
    style: Style,
    attributes: map<string, string>,
    height: int,
    visible: bool)

  /** The `stacking` mode of the default configuration: `vertical`, or any other
      value, which stacks toasts in depth. */
  datatype Stacking = Vertical | Depth

  /** The library constants the component imports: `HOT_TOAST_DEPTH_SCALE`,
      `ENTER_ANIMATION_DURATION` and `EXIT_ANIMATION_DURATION` (milliseconds). */
  datatype Constants = Constants(depthScale: real, enterMs: nat, exitMs: nat)

  /** The handle a toast's owner shares with its group item: the current toast, the
      handles of its group's children (for a group root) and whether the group is expanded. */
  class ToastRef {
    var toast: Toast
    var groupRefs: seq<ToastRef>
    var groupExpanded: bool

    constructor (toast: Toast, groupRefs: seq<ToastRef>)
      ensures this.toast == toast && this.groupRefs == groupRefs && !groupExpanded
    {
      this.toast := toast;
      this.groupRefs := groupRefs;
      groupExpanded := false;
    }
  }

  /** One emission of an output of the group item, in the order it happened:
      `height`, `beforeClosed`, `afterClosed` and `showAllToasts`. */
  datatype Output =
    | Height(px: int)
    | BeforeClosed
    | AfterClosed(dismissedByAction: bool, id: string)
    | ShowAllToasts(show: bool)
}
