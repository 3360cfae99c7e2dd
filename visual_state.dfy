/** The derived visual state of a group item: the getters `top`, `scale`,
    `translateY`, `exitAnimationDelay`, `containerPositionStyle` and
    `toastBarBaseStyles` of the component, as functions of the toast and the
    stacking inputs. */
module VisualState {
  import opened Strings
  import opened Css
  import opened Toasts

  /** `top`: the toast is anchored at the top edge. */
  predicate Top(position: string) {
    Includes(position, "top")
  }

  /** A position is a top position exactly when `top` occurs somewhere in its name. */
  lemma TopMeansOccurs(position: string)
    ensures Top(position) <==> exists i :: OccursAt(position, "top", i)
  {
    IncludesAtOffset(position, "top");
  }

  /** `scale`: toasts stacked in depth shrink by `depthScale` per toast behind them,
      unless the group shows all its toasts. */
  function Scale(stacking: Stacking, isShowingAllToasts: bool, toastsAfter: int, depthScale: real): (r: real)
    ensures stacking == Vertical || isShowingAllToasts ==> r == 1.0
    ensures stacking != Vertical && !isShowingAllToasts ==> r == 1.0 - toastsAfter as real * depthScale
  {
    if stacking != Vertical && !isShowingAllToasts then toastsAfter as real * -depthScale + 1.0 else 1.0
  }

  /** In depth stacking, the front toast keeps its size and every further toast is
      strictly smaller than the one in front of it. */
  lemma ScaleStrictlyDecreasing(toastsAfter: int, further: int, depthScale: real)
    requires depthScale > 0.0 && toastsAfter < further
    ensures Scale(Depth, false, 0, depthScale) == 1.0
    ensures Scale(Depth, false, further, depthScale) < Scale(Depth, false, toastsAfter, depthScale)
  {
    var gap := further as real - toastsAfter as real;
    assert gap * depthScale > 0.0;
    assert further as real * depthScale == toastsAfter as real * depthScale + gap * depthScale;
  }

  /** As long as the stack is shallow enough for the shrinking not to reach zero,
      the scale stays in (0, 1]. */
  lemma ScaleInUnitInterval(stacking: Stacking, isShowingAllToasts: bool, toastsAfter: int, depthScale: real)
    requires depthScale > 0.0 && 0 <= toastsAfter && toastsAfter as real * depthScale < 1.0
    ensures 0.0 < Scale(stacking, isShowingAllToasts, toastsAfter, depthScale) <= 1.0
  {
    assert toastsAfter as real * depthScale >= 0.0;
  }

  /** `translateY`: the offset in pixels, downwards for top-anchored toasts and
      upwards otherwise. The text reads back as that signed offset. */
  function TranslateY(offset: int, position: string): (r: string)
    ensures ParseLength(r, Px) == Some(if Top(position) then offset else -offset)
  {
    var y := offset * (if Top(position) then 1 else -1);
    LengthRoundTrip(y, Px);
    Length(y, Px)
  }

  /** `exitAnimationDelay`: the toast's duration in milliseconds. */
  function ExitAnimationDelay(duration: int): (r: string)
    ensures ParseLength(r, Ms) == Some(duration)
  {
    LengthRoundTrip(duration, Ms);
    Length(duration, Ms)
  }

  const TransformText := "translateY(var(--hot-toast-translate-y)) scale(var(--hot-toast-scale))"

  /** `containerPositionStyle`: the transform, a vertical anchor and a horizontal
      anchor, merged in that order as object spreads are. */
  function ContainerPositionStyle(position: string): (r: Style)
    ensures "transform" in r && r["transform"] == Text(TransformText)
    ensures ("top" in r <==> Top(position)) && ("bottom" in r <==> !Top(position))
    ensures "left" in r <==> Includes(position, "left") || !Includes(position, "right")
    ensures "right" in r <==> !Includes(position, "left")
    ensures "justifyContent" in r <==> !Includes(position, "left") && !Includes(position, "right")
    ensures "justifyContent" in r ==> r["justifyContent"] == Text("center")
    ensures forall k :: k in r && k != "transform" && k != "justifyContent" ==> r[k] == Number(0)
    ensures r.Keys <= {"transform", "top", "bottom", "left", "right", "justifyContent"}
  {
    var verticalStyle := if Top(position) then map["top" := Number(0)] else map["bottom" := Number(0)];
    var horizontalStyle :=
      if Includes(position, "left") then map["left" := Number(0)]
      else if Includes(position, "right") then map["right" := Number(0)]
      else map["left" := Number(0), "right" := Number(0), "justifyContent" := Text("center")];
    map["transform" := Text(TransformText)] + verticalStyle + horizontalStyle
  }

  /** `toastBarBaseStyles`: the caller's style with `animation` replaced by the enter
      animation, followed by the deferred exit animation when the toast closes itself. */
  function ToastBarBaseStyles(toast: Toast, constants: Constants): (r: Style)
    ensures r.Keys == toast.style.Keys + {"animation"}
    ensures forall k :: k in toast.style && k != "animation" ==> r[k] == toast.style[k]
    ensures r["animation"].AnimationList?
    ensures r["animation"].enter == Animation(Enter, r["animation"].enter.variant, constants.enterMs, EnterEasing, false)
    ensures r["animation"].enter.variant == Negative <==> Top(toast.position)
    ensures r["animation"].exit.Some? <==> toast.autoClose
    ensures toast.autoClose ==>
      r["animation"].exit.value == Animation(Exit, r["animation"].enter.variant, constants.exitMs, ExitEasing, true)
  {
    var variant := VariantFor(Top(toast.position));
    var enterAnimation := Animation(Enter, variant, constants.enterMs, EnterEasing, false);
    var exitAnimation := Animation(Exit, variant, constants.exitMs, ExitEasing, true);
    var animation := AnimationList(enterAnimation, if toast.autoClose then Some(exitAnimation) else None);
    toast.style["animation" := animation]
  }

  /** The six position names the container uses. */
  datatype ToastPosition = TopLeft | TopCenter | TopRight | BottomLeft | BottomCenter | BottomRight

  function PositionName(p: ToastPosition): string {
    match p
    case TopLeft => "top-left"
    case TopCenter => "top-center"
    case TopRight => "top-right"
    case BottomLeft => "bottom-left"
    case BottomCenter => "bottom-center"
    case BottomRight => "bottom-right"
  }

  /** Each position name anchors the toast at the edges its name says: `top` for the
      three `top-…` names, `left` only for the two `…-left` names, `right` only for
      the two `…-right` names, and centred for the two `…-center` names. */
  lemma PositionAnchoring(p: ToastPosition)
    ensures Top(PositionName(p)) <==> p in {TopLeft, TopCenter, TopRight}
    ensures Includes(PositionName(p), "left") <==> p in {TopLeft, BottomLeft}
    ensures Includes(PositionName(p), "right") <==> p in {TopRight, BottomRight}
  {
    var s := PositionName(p);
    match p
    case TopLeft => TopLeftAnchoring(s);
    case TopCenter => TopCenterAnchoring(s);
    case TopRight => TopRightAnchoring(s);
    case BottomLeft => BottomLeftAnchoring(s);
    case BottomCenter => BottomCenterAnchoring(s);
    case BottomRight => BottomRightAnchoring(s);
  }

  // Each name either holds the searched word at a known offset, or lacks one of the
  // word's letters: 'p' of "top", 'l' of "left", 'g' of "right".

  lemma TopLeftAnchoring(s: string)
    requires s == "top-left"
    ensures Top(s) && Includes(s, "left") && !Includes(s, "right")
  {
    OccursAtIncludes(s, "top", 0);
    OccursAtIncludes(s, "left", 4);
    AbsentCharRulesOut(s, "right", 2);
  }

  lemma TopCenterAnchoring(s: string)
    requires s == "top-center"
    ensures Top(s) && !Includes(s, "left") && !Includes(s, "right")
  {
    OccursAtIncludes(s, "top", 0);
    AbsentCharRulesOut(s, "left", 0);
    AbsentCharRulesOut(s, "right", 2);
  }

  lemma TopRightAnchoring(s: string)
    requires s == "top-right"
    ensures Top(s) && !Includes(s, "left") && Includes(s, "right")
  {
    OccursAtIncludes(s, "top", 0);
    AbsentCharRulesOut(s, "left", 0);
    OccursAtIncludes(s, "right", 4);
  }

  lemma BottomLeftAnchoring(s: string)
    requires s == "bottom-left"
    ensures !Top(s) && Includes(s, "left") && !Includes(s, "right")
  {
    AbsentCharRulesOut(s, "top", 2);
    OccursAtIncludes(s, "left", 7);
    AbsentCharRulesOut(s, "right", 2);
  }

  lemma BottomCenterAnchoring(s: string)
    requires s == "bottom-center"
    ensures !Top(s) && !Includes(s, "left") && !Includes(s, "right")
  {
    AbsentCharRulesOut(s, "top", 2);
    AbsentCharRulesOut(s, "left", 0);
    AbsentCharRulesOut(s, "right", 2);
  }

  lemma BottomRightAnchoring(s: string)
    requires s == "bottom-right"
    ensures !Top(s) && !Includes(s, "left") && Includes(s, "right")
  {
    AbsentCharRulesOut(s, "top", 2);
    AbsentCharRulesOut(s, "left", 0);
    OccursAtIncludes(s, "right", 7);
  }

  /** A top-right toast of 4000 ms that closes itself, stacked in depth with two toasts
      behind it: it shrinks by two depth steps, moves down by its offset, uses the
      `Negative` animations and delays its exit by 4000 ms. */
  lemma TopRightScenario(toast: Toast, offset: int, constants: Constants)
    requires toast.position == "top-right" && toast.duration == 4000 && toast.autoClose
    ensures Scale(Depth, false, 2, constants.depthScale) == 1.0 - 2.0 * constants.depthScale
    ensures ParseLength(TranslateY(offset, toast.position), Px) == Some(offset)
    ensures ToastBarBaseStyles(toast, constants)["animation"].enter.variant == Negative
    ensures ToastBarBaseStyles(toast, constants)["animation"].exit.value.variant == Negative
    ensures ParseLength(ExitAnimationDelay(toast.duration), Ms) == Some(4000)
  {
    TopRightAnchoring(toast.position);
  }
}
