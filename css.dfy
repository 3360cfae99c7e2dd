/** CSS values as the component produces them: lengths written as text with a unit
    suffix, keyframe animations as structured descriptors, and style objects as maps
    from property names to values. */
module Css {
  import opened Strings

  /** The units the component writes after a number. */
  datatype Unit = Px | Ms

  function UnitText(u: Unit): string {
    match u
    case Px => "px"
    case Ms => "ms"
  }

  /** `n + 'px'` or `n + 'ms'` for an integral number `n`. */
  function Length(n: int, u: Unit): string {
    IntToString(n) + UnitText(u)
  }

  /** Reads a length in unit `u` back into its number. */
  function ParseLength(s: string, u: Unit): Option<int> {
    var k := |UnitText(u)|;
    if |s| < k || s[|s| - k..] != UnitText(u) then None
    else ParseInt(s[..|s| - k])
  }

  /** A length written by `Length` reads back as the number it was written from. */
  lemma LengthRoundTrip(n: int, u: Unit)
    ensures ParseLength(Length(n, u), u) == Some(n)
  {
    var s := Length(n, u);
    var k := |UnitText(u)|;
    assert s[|s| - k..] == UnitText(u);
    assert s[..|s| - k] == IntToString(n);
    IntToStringRoundTrip(n);
  }

  /** The four keyframe families of the toast bar: the opening and closing animations,
      and the reversible "soft" ones used when a group collapses or expands. */
  datatype Family = Enter | Exit | EnterSoft | ExitSoft

  /** `Negative` slides along the negative y axis (toasts anchored at the top),
      `Positive` along the positive one. */
  datatype Variant = Negative | Positive

  /** The two timing functions, `cubic-bezier(0.21, 1.02, 0.73, 1)` for entering and
      `cubic-bezier(0.06, 0.71, 0.55, 1)` for leaving. */
  datatype Easing = EnterEasing | ExitEasing

  /** One entry of a CSS `animation` list. Every animation the component writes has
      fill mode `forwards`. `deferred` marks the exit animation of the bar's base style,
      whose delay and play state come from the CSS variables
      `--hot-toast-exit-animation-delay` and `--hot-toast-exit-animation-state`. */
  datatype Animation = Animation(family: Family, variant: Variant, durationMs: nat, easing: Easing, deferred: bool)

  /** A value of a style object: a number, free text, or the bar's animation list,
      which always opens with an enter animation and may carry an exit animation. */
  datatype StyleValue =
    | Number(n: int)
    | Text(s: string)
    | AnimationList(enter: Animation, exit: Option<Animation>)

  type Style = map<string, StyleValue>

  function FamilyText(f: Family): string {
    match f
    case Enter => "Enter"
    case Exit => "Exit"
    case EnterSoft => "EnterSoft"
    case ExitSoft => "ExitSoft"
  }

  function VariantText(v: Variant): string {
    match v
    case Negative => "Negative"
    case Positive => "Positive"
  }

  /** The keyframe name a browser reports in `AnimationEvent.animationName`,
      e.g. `hotToastExitAnimationNegative`. */
  function KeyframeName(f: Family, v: Variant): string {
    "hotToast" + FamilyText(f) + "Animation" + VariantText(v)
  }

  /** Distinct descriptors have distinct keyframe names. */
  lemma KeyframeNameInjective(f1: Family, v1: Variant, f2: Family, v2: Variant)
    requires KeyframeName(f1, v1) == KeyframeName(f2, v2)
    ensures f1 == f2 && v1 == v2
  {
    var n1, n2 := KeyframeName(f1, v1), KeyframeName(f2, v2);
    // The four family texts have four different lengths, and the variant texts
    // have the same length but different first letters.
    assert |n1| == |n2| && n1[|n1| - 8] == n2[|n2| - 8];
    assert |FamilyText(f1)| == |FamilyText(f2)|;
    assert VariantText(v1)[0] == VariantText(v2)[0];
  }

  /** The variant for a toast anchored at the top edge (`true`) or the bottom edge. */
  function VariantFor(top: bool): (v: Variant)
    ensures v == Negative <==> top
  {
    if top then Negative else Positive
  }
}
