# hot-toast group item, modelled in Dafny

This project models `HotToastGroupItemComponent`, the Angular component that renders
one toast of a hot-toast group. The model covers four parts of it:

- **Derived visual state.** The getters `top`, `scale`, `translateY`,
  `exitAnimationDelay`, `containerPositionStyle` and `toastBarBaseStyles` are pure
  functions of the toast and the stacking inputs (module `VisualState`).
  - The position test is JavaScript's `includes` (module `Strings`).
  - Lengths such as `12px` are the decimal text of an integer plus a unit. Each comes
    with a parser that reads the number back (modules `Strings`, `Css`).
- **CSS animations.** Each `animation` entry is a structured descriptor: keyframe
  family, `Negative`/`Positive` variant, duration, easing, and whether it waits on the
  exit-delay CSS variables (module `Css`). Keyframe names are the text the browser
  reports in `animationName`. `isExitAnimation` is a test on that text.
- **Group aggregation.** `groupChildrenToasts` maps the child handles to toasts,
  `visibleToasts` filters them, and `groupHeight` is the left-to-right `reduce` of the
  visible heights (module `Group`).
- **Lifecycle.** The component is a class with the source's fields `isManualClose`,
  `softClosed` and `unlisteners` (module `GroupItem`). It also has append-only logs
  for what it does to the outside world:
  - `events`: emissions on `height`, `beforeClosed`, `afterClosed` and `showAllToasts`;
  - `played`: animations started with `animate`;
  - `released`: unlisteners called;
  - `elementAttributes`: attributes set on the bar.

  The browser's `animationstart`/`animationend` events are methods that take the
  animation name. They reach the callbacks only while the listener is still on the
  unlistener stack.

Module `Scenarios` drives one item through whole runs and states every output it emits.

The library constants `HOT_TOAST_DEPTH_SCALE`, `ENTER_ANIMATION_DURATION` and
`EXIT_ANIMATION_DURATION` are not fixed. They are the fields of a `Constants` value the
component receives. Where a lemma needs it, the depth scale is required to be positive.

Behaviour worth knowing, which the model follows as the code is written:

- `afterClosed` is not emitted exactly once. The `animationend` handler has no guard,
  so every exit `animationend` that reaches it emits, and every `close()` calls
  `animate` with the exit animation again (`Scenarios.RepeatedCloseRun`).
- Teardown does not produce an `afterClosed`. `ngOnDestroy` calls `close()` and then
  removes both listeners straight away. The exit animation it started ends after that
  and reaches no listener (`Scenarios.TeardownRun`).
- `softOpen` picks its variant from the global binding `top`, not from `this.top`.
  The model takes that global's truthiness as the parameter `globalTop` and does not
  guess its value.

## Model

| member | source | states |
|---|---|---|
| `VisualState.TopMeansOccurs` | projects/ngxpert/hot-toast/src/lib/components/hot-toast-group-item/hot-toast-group-item.component.ts:88-90 | `top` holds exactly when the position name contains `top` at some offset |
| `Strings.IncludesAtOffset` | projects/ngxpert/hot-toast/src/lib/components/hot-toast-group-item/hot-toast-group-item.component.ts:88-90 | `includes` holds exactly when the pattern occurs at some offset of the text |
| `Strings.IntToStringRoundTrip` | projects/ngxpert/hot-toast/src/lib/components/hot-toast-group-item/hot-toast-group-item.component.ts:80-86 | the decimal text of any integer, sign included, parses back to that integer |
| `Css.LengthRoundTrip` | projects/ngxpert/hot-toast/src/lib/components/hot-toast-group-item/hot-toast-group-item.component.ts:80-86 | a number written with a `px` or `ms` suffix reads back as that number |
| `Css.KeyframeNameInjective` | projects/ngxpert/hot-toast/src/lib/components/hot-toast-group-item/hot-toast-group-item.component.ts:117-123 | two keyframe names are equal only if their family and variant are equal |
| `VisualState.Scale` | projects/ngxpert/hot-toast/src/lib/components/hot-toast-group-item/hot-toast-group-item.component.ts:74-78 | the scale is exactly 1 under vertical stacking or while all toasts show, and `1 - toastsAfter * depthScale` otherwise |
| `VisualState.ScaleStrictlyDecreasing` | projects/ngxpert/hot-toast/src/lib/components/hot-toast-group-item/hot-toast-group-item.component.ts:74-78 | with a positive depth scale, the front toast has scale 1 and a toast further back is strictly smaller |
| `VisualState.ScaleInUnitInterval` | projects/ngxpert/hot-toast/src/lib/components/hot-toast-group-item/hot-toast-group-item.component.ts:74-78 | while `toastsAfter * depthScale < 1`, the scale lies in (0, 1] in every mode |
| `VisualState.TranslateY` | projects/ngxpert/hot-toast/src/lib/components/hot-toast-group-item/hot-toast-group-item.component.ts:80-82 | the text reads back as `+offset` px for a top position and `-offset` px otherwise |
| `VisualState.ExitAnimationDelay` | projects/ngxpert/hot-toast/src/lib/components/hot-toast-group-item/hot-toast-group-item.component.ts:84-86 | the text reads back as the toast's duration in ms |
| `VisualState.ContainerPositionStyle` | projects/ngxpert/hot-toast/src/lib/components/hot-toast-group-item/hot-toast-group-item.component.ts:92-114 | the style always has `transform`; it has exactly one of `top` (when top) or `bottom` (otherwise); `left` wins over `right`; with neither it has `left`, `right` and `justifyContent: center`; every anchor is 0 and no other key appears |
| `VisualState.ToastBarBaseStyles` | projects/ngxpert/hot-toast/src/lib/components/hot-toast-group-item/hot-toast-group-item.component.ts:116-128 | every key of the toast's style but `animation` is kept; `animation` always holds the enter animation and holds the deferred exit animation exactly when `autoClose`; both use `Negative` exactly when top |
| `VisualState.PositionAnchoring` | projects/ngxpert/hot-toast/src/lib/components/hot-toast-group-item/hot-toast-group-item.component.ts:88-108 | of the six position names, exactly the `top-…` ones are top, only the `…-left` ones contain `left`, and only the `…-right` ones contain `right` |
| `VisualState.TopRightScenario` | projects/ngxpert/hot-toast/src/lib/components/hot-toast-group-item/hot-toast-group-item.component.ts:74-128 | a self-closing top-right toast of 4000 ms with two toasts behind it has scale `1 - 2 * depthScale`, moves down by its offset, uses `Negative` enter and exit animations and an exit delay of 4000 ms |
| `Group.ChildrenToasts` | projects/ngxpert/hot-toast/src/lib/components/hot-toast-group-item/hot-toast-group-item.component.ts:134-143 | one toast per child handle, same length and order, each the handle's current toast |
| `Group.VisibleToasts` | projects/ngxpert/hot-toast/src/lib/components/hot-toast-group-item/hot-toast-group-item.component.ts:267-269 | a toast is kept exactly when it is a child and is visible; the result is no longer than the input |
| `Group.VisibleToastsAppend` | projects/ngxpert/hot-toast/src/lib/components/hot-toast-group-item/hot-toast-group-item.component.ts:267-269 | the filter keeps order: filtering a concatenation concatenates the filtered parts |
| `Group.GroupHeight` | projects/ngxpert/hot-toast/src/lib/components/hot-toast-group-item/hot-toast-group-item.component.ts:145-147 | the left-to-right `reduce` of the visible children's heights equals the total of every child's contribution, its height when visible and 0 otherwise |
| `Group.GroupHeightIsVisibleSum` | projects/ngxpert/hot-toast/src/lib/components/hot-toast-group-item/hot-toast-group-item.component.ts:145-147 | the left-to-right reduce equals the sum of `height` over exactly the visible children |
| `GroupItem.HotToastGroupItemComponent.GroupHeight` | projects/ngxpert/hot-toast/src/lib/components/hot-toast-group-item/hot-toast-group-item.component.ts:134-147 | the component's `groupHeight`, over the toasts read through its group's child handles, is the total contribution of those children |
| `Group.GroupHeightAppend` | projects/ngxpert/hot-toast/src/lib/components/hot-toast-group-item/hot-toast-group-item.component.ts:145-147 | an empty group has height 0, and the height of a concatenation is the sum of the parts' heights |
| `Group.InvisibleChildAddsNothing` | projects/ngxpert/hot-toast/src/lib/components/hot-toast-group-item/hot-toast-group-item.component.ts:145-147 | inserting an invisible child anywhere leaves the group height unchanged, whatever its height |
| `Group.GroupHeightBounds` | projects/ngxpert/hot-toast/src/lib/components/hot-toast-group-item/hot-toast-group-item.component.ts:145-147 | with non-negative heights, the group height is non-negative and at least the height of each visible child |
| `GroupItem.IsExitAnimation` | projects/ngxpert/hot-toast/src/lib/components/hot-toast-group-item/hot-toast-group-item.component.ts:256-258 | a name is an exit animation exactly when it contains `hotToastExitAnimation` at some offset |
| `GroupItem.ExitFamilyOnly` | projects/ngxpert/hot-toast/src/lib/components/hot-toast-group-item/hot-toast-group-item.component.ts:256-258 | a keyframe name passes `isExitAnimation` exactly when its family is the exit family; soft and enter names never pass |
| `GroupItem.CloseAnimation` | projects/ngxpert/hot-toast/src/lib/components/hot-toast-group-item/hot-toast-group-item.component.ts:233-235 | the animation `close` plays is an undeferred exit animation of the exit duration and exit easing, whose name passes `isExitAnimation`, `Negative` exactly when top |
| `GroupItem.ReversedIsLastInFirstOut` | projects/ngxpert/hot-toast/src/lib/components/hot-toast-group-item/hot-toast-group-item.component.ts:251-253 | draining the stack visits entry `k` from the end at step `k`, and visits every entry exactly once |
| `GroupItem.HotToastGroupItemComponent.constructor` | projects/ngxpert/hot-toast/src/lib/components/hot-toast-group-item/hot-toast-group-item.component.ts:32-68 | the inputs are stored; `isManualClose` and `softClosed` start false; no listener is registered and nothing has been emitted |
| `GroupItem.HotToastGroupItemComponent.OnChanges` | projects/ngxpert/hot-toast/src/lib/components/hot-toast-group-item/hot-toast-group-item.component.ts:153-159 | stores the new `toast` value when there is one; schedules one height report exactly when `toast` changed, not for the first time, to a toast with a truthy message; changes nothing else |
| `GroupItem.HotToastGroupItemComponent.OnAnimationFrame` | projects/ngxpert/hot-toast/src/lib/components/hot-toast-group-item/hot-toast-group-item.component.ts:155-157 | a scheduled frame emits the height measured then; with nothing scheduled, nothing is emitted |
| `GroupItem.HotToastGroupItemComponent.AfterViewInit` | projects/ngxpert/hot-toast/src/lib/components/hot-toast-group-item/hot-toast-group-item.component.ts:178-207 | schedules the first height report, pushes the start and end unlisteners in that order, and sets the toast's attributes; nothing else changes |
| `GroupItem.HotToastGroupItemComponent.SetToastAttributes` | projects/ngxpert/hot-toast/src/lib/components/hot-toast-group-item/hot-toast-group-item.component.ts:260-265 | afterwards the bar carries every attribute of the toast, and keeps its other attributes |
| `GroupItem.HotToastGroupItemComponent.SoftClose` | projects/ngxpert/hot-toast/src/lib/components/hot-toast-group-item/hot-toast-group-item.component.ts:209-218 | plays the soft exit animation in the toast's variant and sets `softClosed`; `isManualClose` is untouched |
| `GroupItem.HotToastGroupItemComponent.SoftOpen` | projects/ngxpert/hot-toast/src/lib/components/hot-toast-group-item/hot-toast-group-item.component.ts:219-228 | plays the soft enter animation in the variant of the global `top` and clears `softClosed`; `isManualClose` is untouched |
| `GroupItem.HotToastGroupItemComponent.Close` | projects/ngxpert/hot-toast/src/lib/components/hot-toast-group-item/hot-toast-group-item.component.ts:230-240 | sets `isManualClose`, which stays set on every later call, and plays the exit animation at once |
| `GroupItem.HotToastGroupItemComponent.HandleMouseEnter` | projects/ngxpert/hot-toast/src/lib/components/hot-toast-group-item/hot-toast-group-item.component.ts:242-244 | emits `showAllToasts(true)` |
| `GroupItem.HotToastGroupItemComponent.HandleMouseLeave` | projects/ngxpert/hot-toast/src/lib/components/hot-toast-group-item/hot-toast-group-item.component.ts:245-247 | emits `showAllToasts(false)` |
| `GroupItem.HotToastGroupItemComponent.OnDestroy` | projects/ngxpert/hot-toast/src/lib/components/hot-toast-group-item/hot-toast-group-item.component.ts:249-254 | closes first (so `isManualClose` is set), then calls the unlisteners in reverse order of registration, each once, and leaves the stack empty; emits nothing |
| `GroupItem.HotToastGroupItemComponent.DispatchAnimationStart` | projects/ngxpert/hot-toast/src/lib/components/hot-toast-group-item/hot-toast-group-item.component.ts:193-197 | emits `beforeClosed` exactly when the start listener is registered and the animation is an exit animation |
| `GroupItem.HotToastGroupItemComponent.DispatchAnimationEnd` | projects/ngxpert/hot-toast/src/lib/components/hot-toast-group-item/hot-toast-group-item.component.ts:198-202 | emits `afterClosed` with the toast's id exactly when the end listener is registered and the animation is an exit animation; `dismissedByAction` is true exactly when `close` has run |
| `Scenarios.AutoCloseRun` | projects/ngxpert/hot-toast/src/lib/components/hot-toast-group-item/hot-toast-group-item.component.ts:178-202 | a self-closing toast, whose bar plays the enter and exit animations of its base style, emits its height, then `beforeClosed`, then `afterClosed` not dismissed by an action; its enter animation emits nothing |
| `Scenarios.ManualCloseRun` | projects/ngxpert/hot-toast/src/lib/components/hot-toast-group-item/hot-toast-group-item.component.ts:230-240 | after `close`, the exit animation emits `beforeClosed` and then `afterClosed` dismissed by an action |
| `Scenarios.SoftCollapseRun` | projects/ngxpert/hot-toast/src/lib/components/hot-toast-group-item/hot-toast-group-item.component.ts:209-228 | soft close and soft open with their animations emit nothing and leave `isManualClose` false |
| `Scenarios.TeardownRun` | projects/ngxpert/hot-toast/src/lib/components/hot-toast-group-item/hot-toast-group-item.component.ts:249-254 | teardown releases the end listener and then the start listener, so the exit animation it starts emits nothing |
| `Scenarios.RepeatedCloseRun` | projects/ngxpert/hot-toast/src/lib/components/hot-toast-group-item/hot-toast-group-item.component.ts:230-240 | two closes, each followed by the end of its exit animation, emit two `afterClosed` |
| `Scenarios.HeightReportRun` | projects/ngxpert/hot-toast/src/lib/components/hot-toast-group-item/hot-toast-group-item.component.ts:153-159 | heights are emitted only from frames: one after view init, one for a later change to a truthy message, none for a first change, an empty message or no toast change; the item ends up holding the last toast it was given |

## Left out

- Angular dependency injection and `ngOnInit`'s template context and injector for
  component messages: framework wiring with no observable logic here.
- `requestAnimationFrame`, `NgZone.run` and `runOutsideAngular`. A scheduled frame is
  a counter of pending height reports. `OnAnimationFrame` receives the browser's
  measurement of `offsetHeight` as a parameter. Zones do not change what is emitted.
- `Renderer2.listen` and `setAttribute` are not modelled as DOM calls. A listener
  registration is an entry of the unlistener stack. Setting attributes updates an
  attribute map.
- The `animate` helper is not modelled. Each call appends the animation it is given
  to `played`.
- The CSS text of the animations, including the cubic-bezier curves and CSS variable
  names, is modelled as structured descriptors and not as strings.
- `scale` uses mathematical reals, not IEEE doubles. `offset`, `duration` and heights
  are integers, since non-integral, infinite or missing numbers would render
  differently.
- `Strings.IntToString`: matches JavaScript's rendering only for integers that a
  double holds exactly and whose magnitude is below 10^21. Larger numbers print in
  exponent notation, and integers above 2^53 are rounded first.
- `ref.getToast()` belongs to the toast handle, whose class is not part of this model.
  `Group.ChildrenToasts` reads it as the handle's `toast` field.
- `GroupItem.HotToastGroupItemComponent.OnChanges`: a change that sets the `toast`
  input to `undefined` is not modelled. The item keeps its previous toast, since a
  toast here always has a value.
- `GroupItem.HotToastGroupItemComponent.AfterViewInit`: requires that it has not run
  before, as Angular guarantees. Registering the listeners twice would make the
  browser call each callback twice, and the dispatch methods would emit only once.
- `GroupItem.HotToastGroupItemComponent.SetToastAttributes`: the order in which
  `Object.entries` visits the keys is not modelled. Every key is distinct, so the
  resulting attributes do not depend on it.
- The getters `toastBarBaseHeight` (a DOM read), `isIconString` (a type test on the
  icon), `isExpanded` (a read of the handle's `groupExpanded`) and the
  `groupChildrenToastRefs` setter: each is a single read or write through to another
  object and has no logic of its own.
- The icon field of the toast: it is read only by `isIconString`.
- `Close` before the view exists would fail on the missing view child. The model
  assumes the view child is present.
