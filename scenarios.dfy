/** Runs of a group item through its lifecycle, as the container and the browser drive
    it. Each states the complete sequence of outputs the item emits. */
module Scenarios {
  import opened Strings
  import opened Css
  import opened Toasts
  import opened VisualState
  import opened GroupItem

  /** A self-closing toast: the enter animation passes unnoticed, the deferred exit
      animation emits `beforeClosed` and then `afterClosed`, not dismissed by an action. */
  method AutoCloseRun(toast: Toast, ref: ToastRef, constants: Constants, measuredHeight: int)
    returns (emitted: seq<Output>, manual: bool)
    requires toast.autoClose
    ensures emitted == [Height(measuredHeight), BeforeClosed, AfterClosed(false, toast.id)]
    ensures !manual
  {
    var item := new HotToastGroupItemComponent(toast, 0, Depth, ref, 0, false, constants);
    item.AfterViewInit();
    item.OnAnimationFrame(measuredHeight);
    assert item.events == [Height(measuredHeight)];
    // The bar plays the animations of its base style: the enter animation, then the
    // deferred exit animation.
    var animation := ToastBarBaseStyles(toast, constants)["animation"];
    var enter, exit := animation.enter, animation.exit.value;
    var enterName, exitName := KeyframeName(enter.family, enter.variant), KeyframeName(exit.family, exit.variant);
    EnterNameIsNotExit(enter.variant);
    ExitNameIsExit(exit.variant);
    item.DispatchAnimationStart(enterName);
    item.DispatchAnimationEnd(enterName);
    assert item.events == [Height(measuredHeight)];
    item.DispatchAnimationStart(exitName);
    assert item.events == [Height(measuredHeight), BeforeClosed];
    item.DispatchAnimationEnd(exitName);
    emitted, manual := item.events, item.isManualClose;
  }

  /** `close` followed by the end of the exit animation it plays: `afterClosed` says the
      toast was dismissed by an action. */
  method ManualCloseRun(toast: Toast, ref: ToastRef, constants: Constants)
    returns (emitted: seq<Output>)
    ensures emitted == [BeforeClosed, AfterClosed(true, toast.id)]
  {
    var item := new HotToastGroupItemComponent(toast, 0, Depth, ref, 0, false, constants);
    item.AfterViewInit();
    item.Close();
    var exitAnimation := CloseAnimation(toast.position, constants);
    item.DispatchAnimationStart(KeyframeName(exitAnimation.family, exitAnimation.variant));
    item.DispatchAnimationEnd(KeyframeName(exitAnimation.family, exitAnimation.variant));
    emitted := item.events;
  }

  /** Collapsing and expanding a group plays soft animations only: the item emits
      nothing, and neither soft animation counts as a manual close. */
  method SoftCollapseRun(toast: Toast, ref: ToastRef, constants: Constants, globalTop: bool)
    returns (emitted: seq<Output>, manual: bool, softClosed: bool)
    ensures emitted == [] && !manual && !softClosed
  {
    var item := new HotToastGroupItemComponent(toast, 0, Depth, ref, 0, false, constants);
    item.AfterViewInit();
    item.SoftClose();
    var variant := VariantFor(Top(toast.position));
    ExitSoftNameIsNotExit(variant);
    item.DispatchAnimationStart(KeyframeName(ExitSoft, variant));
    item.DispatchAnimationEnd(KeyframeName(ExitSoft, variant));
    item.SoftOpen(globalTop);
    EnterSoftNameIsNotExit(VariantFor(globalTop));
    item.DispatchAnimationStart(KeyframeName(EnterSoft, VariantFor(globalTop)));
    item.DispatchAnimationEnd(KeyframeName(EnterSoft, VariantFor(globalTop)));
    emitted, manual, softClosed := item.events, item.isManualClose, item.softClosed;
  }

  /** Teardown closes the toast and removes both listeners, end listener first, before
      the exit animation it started can end: that animation's events reach no listener,
      so teardown emits no `afterClosed`. */
  method TeardownRun(toast: Toast, ref: ToastRef, constants: Constants)
    returns (emitted: seq<Output>, released: seq<Listener>, manual: bool)
    ensures emitted == [] && manual
    ensures released == [AnimationEndListener, AnimationStartListener]
  {
    var item := new HotToastGroupItemComponent(toast, 0, Depth, ref, 0, false, constants);
    item.AfterViewInit();
    item.OnDestroy();
    ReversedPair(AnimationStartListener, AnimationEndListener);
    var exitAnimation := CloseAnimation(toast.position, constants);
    item.DispatchAnimationStart(KeyframeName(exitAnimation.family, exitAnimation.variant));
    item.DispatchAnimationEnd(KeyframeName(exitAnimation.family, exitAnimation.variant));
    emitted, released, manual := item.events, item.released, item.isManualClose;
  }

  /** `close` is not idempotent: a second call replays the exit animation, and its end
      emits a second `afterClosed`. */
  method RepeatedCloseRun(toast: Toast, ref: ToastRef, constants: Constants)
    returns (emitted: seq<Output>)
    ensures emitted == [AfterClosed(true, toast.id), AfterClosed(true, toast.id)]
  {
    var item := new HotToastGroupItemComponent(toast, 0, Depth, ref, 0, false, constants);
    item.AfterViewInit();
    var exitAnimation := CloseAnimation(toast.position, constants);
    var name := KeyframeName(exitAnimation.family, exitAnimation.variant);
    item.Close();
    item.DispatchAnimationEnd(name);
    item.Close();
    item.DispatchAnimationEnd(name);
    emitted := item.events;
  }

  /** Heights are reported only from frame callbacks: the first height after the view
      is attached, then one more for a later change of the message, and none for the
      first change of the input or a change to an empty message. */
  method HeightReportRun(toast: Toast, ref: ToastRef, constants: Constants, changed: Toast,
                         first: int, second: int, third: int)
    returns (emitted: seq<Output>, current: Toast)
    requires Truthy(changed.message)
    ensures emitted == [Height(first), Height(second)]
    ensures current == changed
  {
    var item := new HotToastGroupItemComponent(toast, 0, Depth, ref, 0, false, constants);
    item.OnChanges(Some(ToastChange(true, Some(toast))));
    item.AfterViewInit();
    item.OnAnimationFrame(first);
    item.OnChanges(Some(ToastChange(false, Some(changed.(message := PlainText(""))))));
    item.OnChanges(None);
    item.OnChanges(Some(ToastChange(false, Some(changed))));
    item.OnAnimationFrame(second);
    item.OnAnimationFrame(third);
    emitted, current := item.events, item.toast;
  }
}
