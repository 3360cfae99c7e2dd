/** The group item component: its lifecycle flags, the unlistener stack, the
    animation-event correlation that turns exit animations into `beforeClosed` and
    `afterClosed`, and the height reports. Effects on the element (animations played,
    attributes set, listeners removed) and emissions on the outputs are recorded
    in append-only logs. */
module GroupItem {
  import opened Strings
  import opened Css
  import opened Toasts
  import opened VisualState
  import opened Group

  /** `isExitAnimation`: the animation name contains the exit family's keyframe prefix
      at some offset. */
  predicate IsExitAnimation(name: string): (r: bool)
    ensures r <==> exists i :: OccursAt(name, "hotToastExitAnimation", i)
  {
    IncludesAtOffset(name, "hotToastExitAnimation");
    Includes(name, "hotToastExitAnimation")
  }

  lemma ExitNameIsExit(v: Variant)
    ensures IsExitAnimation(KeyframeName(Exit, v))
  {
    // The exit names start with the searched word.
    assert "hotToast" + "Exit" + "Animation" == "hotToastExitAnimation";
    assert KeyframeName(Exit, v) == "hotToastExitAnimation" + VariantText(v);
    PrefixIncludes("hotToastExitAnimation", VariantText(v));
  }

  lemma EnterNameIsNotExit(v: Variant)
    ensures !IsExitAnimation(KeyframeName(Enter, v))
  {
    // No enter name has an 'x'.
    AbsentCharRulesOut(KeyframeName(Enter, v), "hotToastExitAnimation", 9);
  }

  lemma EnterSoftNameIsNotExit(v: Variant)
    ensures !IsExitAnimation(KeyframeName(EnterSoft, v))
  {
    AbsentCharRulesOut(KeyframeName(EnterSoft, v), "hotToastExitAnimation", 9);
  }

  lemma ExitSoftNameIsNotExit(v: Variant)
    ensures !IsExitAnimation(KeyframeName(ExitSoft, v))
  {
    // The only 'E' of the name is the one after "hotToast", and there the name
    // continues with "Soft", not with "Animation".
    var t := "hotToastExitAnimation";
    var rest := "xitSoft" + "Animation" + VariantText(v);
    assert FamilyText(ExitSoft) == [t[8]] + "xitSoft";
    assert KeyframeName(ExitSoft, v) == "hotToast" + [t[8]] + rest;
    assert ("hotToast" + [t[8]] + rest)[12] != t[12];
    SingleAnchorRulesOut("hotToast", rest, t, 8);
  }

  /** Of the keyframes the toast bar plays, exactly the exit family counts as an exit
      animation: soft and enter animations never close the toast. */
  lemma ExitFamilyOnly(f: Family, v: Variant)
    ensures IsExitAnimation(KeyframeName(f, v)) <==> f == Exit
  {
    match f
    case Exit => ExitNameIsExit(v);
    case Enter => EnterNameIsNotExit(v);
    case EnterSoft => EnterSoftNameIsNotExit(v);
    case ExitSoft => ExitSoftNameIsNotExit(v);
  }

  /** The two element listeners `ngAfterViewInit` registers; an entry of the
      unlistener stack removes the listener it names. */
  datatype Listener = AnimationStartListener | AnimationEndListener

  /** `changes.toast` in `ngOnChanges`: absent when the toast input did not change. */
  datatype ToastChange = ToastChange(firstChange: bool, currentValue: Option<Toast>)

  /** The guard of `ngOnChanges`: a later change of the toast input to one with a
      truthy message. */
  predicate HeightReportWanted(change: Option<ToastChange>) {
    && change.Some?
    && !change.value.firstChange
    && change.value.currentValue.Some?
    && Truthy(change.value.currentValue.value.message)
  }

  function Reversed<T>(s: seq<T>): seq<T> {
    if s == [] then [] else Reversed(s[1..]) + [s[0]]
  }

  /** Popping entry `n - 1` of a stack extends the reversed suffix by that entry. */
  lemma ReversedPopStep<T>(s: seq<T>, n: int)
    requires 0 < n <= |s|
    ensures Reversed(s[n - 1..]) == Reversed(s[n..]) + [s[n - 1]]
  {
    assert s[n - 1..][1..] == s[n..];
  }

  lemma ReversedPair<T>(a: T, b: T)
    ensures Reversed([a, b]) == [b, a]
  {
    assert [a, b][1..] == [b];
    assert Reversed([b]) == [b] by {
      assert [b][1..] == [];
    }
  }

  /** Draining a stack calls its entries in last-in first-out order, each exactly once. */
  lemma {:induction false} ReversedIsLastInFirstOut<T>(s: seq<T>)
    ensures |Reversed(s)| == |s|
    ensures forall k :: 0 <= k < |s| ==> Reversed(s)[k] == s[|s| - 1 - k]
    ensures multiset(Reversed(s)) == multiset(s)
  {
    if s != [] {
      ReversedIsLastInFirstOut(s[1..]);
      assert s == [s[0]] + s[1..];
    }
  }

  /** The exit animation `close` plays: no delay variables, so it starts at once. */
  function CloseAnimation(position: string, constants: Constants): (a: Animation)
    ensures a.family == Exit && !a.deferred && IsExitAnimation(KeyframeName(a.family, a.variant))
    ensures a.durationMs == constants.exitMs && a.easing == ExitEasing
    ensures a.variant == Negative <==> Top(position)
  {
    ExitNameIsExit(VariantFor(Top(position)));
    Animation(Exit, VariantFor(Top(position)), constants.exitMs, ExitEasing, false)
  }

  class HotToastGroupItemComponent {
    // Inputs set by the container.
    var toast: Toast
    var offset: int
    var stacking: Stacking
    var toastRef: ToastRef
    var toastsAfter: int
    var isShowingAllToasts: bool
    const constants: Constants

    // Component state.
    var isManualClose: bool
    var softClosed: bool
    var unlisteners: seq<Listener>
    /** Height reads requested with `requestAnimationFrame` and not yet run. */
    var pendingHeightReports: nat

    // Logs of what the component did to the outside world, oldest first.
    var events: seq<Output>
    var played: seq<Animation>
    var released: seq<Listener>
    var elementAttributes: map<string, string>

    /** How many times `close` has run. */
    ghost var closeCalls: nat
    ghost var viewInitialized: bool

    ghost predicate Valid()
      reads this
    {
      && isManualClose == (closeCalls > 0)
      && (!viewInitialized ==> unlisteners == [])
    }

    constructor (toast: Toast, offset: int, stacking: Stacking, toastRef: ToastRef,
                 toastsAfter: int, isShowingAllToasts: bool, constants: Constants)
      ensures Valid() && !viewInitialized && closeCalls == 0
      ensures this.toast == toast && this.offset == offset && this.stacking == stacking
      ensures this.toastRef == toastRef && this.toastsAfter == toastsAfter
      ensures this.isShowingAllToasts == isShowingAllToasts && this.constants == constants
      ensures !isManualClose && !softClosed && unlisteners == [] && pendingHeightReports == 0
      ensures events == [] && played == [] && released == [] && elementAttributes == map[]
    {
      this.toast := toast;
      this.offset := offset;
      this.stacking := stacking;
      this.toastRef := toastRef;
      this.toastsAfter := toastsAfter;
      this.isShowingAllToasts := isShowingAllToasts;
      this.constants := constants;
      isManualClose := false;
      softClosed := false;
      unlisteners := [];
      pendingHeightReports := 0;
      events := [];
      played := [];
      released := [];
      elementAttributes := map[];
      closeCalls := 0;
      viewInitialized := false;
    }

    /** A change of the `toast` input followed by `ngOnChanges`: Angular first stores the
        new value in the input, then a later change of the toast to one with a message
        schedules one height report for the next frame; nothing else happens. */
    method OnChanges(change: Option<ToastChange>)
      modifies this`toast, this`pendingHeightReports
      ensures toast == (if change.Some? && change.value.currentValue.Some? then change.value.currentValue.value else old(toast))
      ensures pendingHeightReports == old(pendingHeightReports) + (if HeightReportWanted(change) then 1 else 0)
    {
      if change.Some? && change.value.currentValue.Some? {
        toast := change.value.currentValue.value;
      }
      if change.Some? && !change.value.firstChange && change.value.currentValue.Some?
         && Truthy(toast.message) {
        pendingHeightReports := pendingHeightReports + 1;
      }
    }

    /** A frame callback scheduled by `requestAnimationFrame`: reports the bar's
        height, measured by the browser after layout. */
    method OnAnimationFrame(measuredHeight: int)
      modifies this`pendingHeightReports, this`events
      ensures old(pendingHeightReports) > 0 ==>
        pendingHeightReports == old(pendingHeightReports) - 1 && events == old(events) + [Height(measuredHeight)]
      ensures old(pendingHeightReports) == 0 ==> pendingHeightReports == 0 && events == old(events)
    {
      if pendingHeightReports > 0 {
        pendingHeightReports := pendingHeightReports - 1;
        events := events + [Height(measuredHeight)];
      }
    }

    /** `groupHeight` as the component computes it: the children's toasts, read through
        the handles of this toast's group. */
    function GroupHeight(): (r: int)
      reads this, toastRef, toastRef.groupRefs
      ensures r == TotalContribution(ChildrenToasts(toastRef.groupRefs))
    {
      Group.GroupHeight(ChildrenToasts(toastRef.groupRefs))
    }

    /** `ngAfterViewInit`: schedules the first height report, registers the
        animation-start and animation-end listeners and copies the toast's attributes
        onto the bar. */
    method AfterViewInit()
      requires Valid() && !viewInitialized
      modifies this`pendingHeightReports, this`unlisteners, this`viewInitialized, this`elementAttributes
      ensures Valid() && viewInitialized
      ensures pendingHeightReports == old(pendingHeightReports) + 1
      ensures unlisteners == [AnimationStartListener, AnimationEndListener]
      ensures elementAttributes == old(elementAttributes) + toast.attributes
    {
      pendingHeightReports := pendingHeightReports + 1;
      unlisteners := unlisteners + [AnimationStartListener, AnimationEndListener];
      viewInitialized := true;
      SetToastAttributes();
    }

    /** `setToastAttributes`: sets every attribute of the toast on the bar. */
    method SetToastAttributes()
      modifies this`elementAttributes
      ensures elementAttributes == old(elementAttributes) + toast.attributes
    {
      var attributes := toast.attributes;
      var todo := attributes.Keys;
      while todo != {}
        invariant todo <= attributes.Keys
        invariant elementAttributes == old(elementAttributes) + map k | k in attributes.Keys - todo :: attributes[k]
        decreases todo
      {
        var key :| key in todo;
        elementAttributes := elementAttributes[key := attributes[key]];
        todo := todo - {key};
      }
      assert attributes.Keys - todo == attributes.Keys;
      assert (map k | k in attributes.Keys :: attributes[k]) == attributes;
    }

    /** `softClose`: plays the soft exit animation and marks the toast soft-closed. */
    method SoftClose()
      modifies this`played, this`softClosed
      ensures softClosed
      ensures played == old(played) + [Animation(ExitSoft, VariantFor(Top(toast.position)), constants.exitMs, ExitEasing, false)]
    {
      var exitAnimation := Animation(ExitSoft, VariantFor(Top(toast.position)), constants.exitMs, ExitEasing, false);
      played := played + [exitAnimation];
      softClosed := true;
    }

    /** `softOpen`: plays the soft enter animation and clears the soft-closed mark. The
        variant is chosen by the global binding `top`, not by this toast's position;
        that binding is a parameter here. */
    method SoftOpen(globalTop: bool)
      modifies this`played, this`softClosed
      ensures !softClosed
      ensures played == old(played) + [Animation(EnterSoft, VariantFor(globalTop), constants.enterMs, EnterEasing, false)]
    {
      var softEnterAnimation := Animation(EnterSoft, VariantFor(globalTop), constants.enterMs, EnterEasing, false);
      played := played + [softEnterAnimation];
      softClosed := false;
    }

    /** `close`: records that the toast was closed by an action and plays the exit
        animation at once. It may run any number of times. */
    method Close()
      requires Valid()
      modifies this`isManualClose, this`played, this`closeCalls
      ensures Valid() && closeCalls == old(closeCalls) + 1
      ensures isManualClose
      ensures played == old(played) + [CloseAnimation(toast.position, constants)]
    {
      isManualClose := true;
      closeCalls := closeCalls + 1;
      var exitAnimation := CloseAnimation(toast.position, constants);
      played := played + [exitAnimation];
    }

    method HandleMouseEnter()
      modifies this`events
      ensures events == old(events) + [ShowAllToasts(true)]
    {
      events := events + [ShowAllToasts(true)];
    }

    method HandleMouseLeave()
      modifies this`events
      ensures events == old(events) + [ShowAllToasts(false)]
    {
      events := events + [ShowAllToasts(false)];
    }

    /** `ngOnDestroy`: closes the toast, then calls and drops every unlistener, the
        most recently registered first. */
    method OnDestroy()
      requires Valid()
      modifies this`isManualClose, this`played, this`closeCalls, this`unlisteners, this`released
      ensures Valid() && closeCalls == old(closeCalls) + 1
      ensures isManualClose && unlisteners == []
      ensures released == old(released) + Reversed(old(unlisteners))
      ensures played == old(played) + [CloseAnimation(toast.position, constants)]
    {
      Close();
      ghost var registered := unlisteners;
      ghost var releasedBefore := released;
      while |unlisteners| > 0
        invariant unlisteners == registered[..|unlisteners|]
        invariant released == releasedBefore + Reversed(registered[|unlisteners|..])
        modifies this`unlisteners, this`released
        decreases |unlisteners|
      {
        var n := |unlisteners|;
        var unlisten := unlisteners[n - 1];
        unlisteners := unlisteners[..n - 1];
        ReversedPopStep(registered, n);
        released := released + [unlisten];
      }
    }

    /** The element's `animationstart` event: as long as the listener is registered,
        an exit animation emits `beforeClosed`. */
    method DispatchAnimationStart(animationName: string)
      modifies this`events
      ensures events == old(events) +
        (if AnimationStartListener in unlisteners && IsExitAnimation(animationName) then [BeforeClosed] else [])
    {
      if AnimationStartListener in unlisteners && IsExitAnimation(animationName) {
        events := events + [BeforeClosed];
      }
    }

    /** The element's `animationend` event: as long as the listener is registered, an
        exit animation emits `afterClosed`, dismissed by an action exactly when `close`
        has run. */
    method DispatchAnimationEnd(animationName: string)
      requires Valid()
      modifies this`events
      ensures events == old(events) +
        (if AnimationEndListener in unlisteners && IsExitAnimation(animationName)
         then [AfterClosed(closeCalls > 0, toast.id)] else [])
    {
      if AnimationEndListener in unlisteners && IsExitAnimation(animationName) {
        events := events + [AfterClosed(isManualClose, toast.id)];
      }
    }
  }
}
