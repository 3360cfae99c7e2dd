/** Group aggregation for a group root: `groupChildrenToasts` maps the child handles to
    their current toasts, `visibleToasts` keeps the visible ones and `groupHeight` adds
    up their heights. */
module Group {
  import opened Toasts

  /** `groupChildrenToasts`: the current toast of every child handle, in handle order. */
  function ChildrenToasts(refs: seq<ToastRef>): (r: seq<Toast>)
    reads refs
    ensures |r| == |refs|
    ensures forall i :: 0 <= i < |refs| ==> r[i] == refs[i].toast
  {
    if refs == [] then [] else [refs[0].toast] + ChildrenToasts(refs[1..])
  }

  /** `visibleToasts`: the children whose `visible` flag is set, in their order. */
  function VisibleToasts(toasts: seq<Toast>): (r: seq<Toast>)
    ensures |r| <= |toasts|
    ensures forall t :: t in r <==> t in toasts && t.visible
  {
    if toasts == [] then []
    else if toasts[0].visible then [toasts[0]] + VisibleToasts(toasts[1..])
    else VisibleToasts(toasts[1..])
  }

  /** Filtering a concatenation filters each part. */
  lemma {:induction false} VisibleToastsAppend(a: seq<Toast>, b: seq<Toast>)
    ensures VisibleToasts(a + b) == VisibleToasts(a) + VisibleToasts(b)
  {
    if a == [] {
      assert a + b == b;
    } else {
      assert (a + b)[0] == a[0] && (a + b)[1..] == a[1..] + b;
      VisibleToastsAppend(a[1..], b);
    }
  }

  /** `.map((t) => t.height)`. */
  function Heights(toasts: seq<Toast>): (r: seq<int>)
    ensures |r| == |toasts| && forall i :: 0 <= i < |toasts| ==> r[i] == toasts[i].height
  {
    if toasts == [] then [] else [toasts[0].height] + Heights(toasts[1..])
  }

  /** `.reduce((prev, curr) => prev + curr, acc)`: a sum from left to right. */
  function SumFrom(acc: int, xs: seq<int>): int
    decreases |xs|
  {
    if xs == [] then acc else SumFrom(acc + xs[0], xs[1..])
  }

  /** `groupHeight`: the left-to-right sum of the visible children's heights, which is
      the total of every child's contribution. */
  function GroupHeight(toasts: seq<Toast>): (r: int)
    ensures r == TotalContribution(toasts)
  {
    GroupHeightIsVisibleSum(toasts);
    SumFrom(0, Heights(VisibleToasts(toasts)))
  }

  /** What a single child adds to the group's height. */
  function Contribution(t: Toast): int {
    if t.visible then t.height else 0
  }

  /** The reference definition: every child's contribution, visible or not. */
  function TotalContribution(toasts: seq<Toast>): int {
    if toasts == [] then 0 else Contribution(toasts[0]) + TotalContribution(toasts[1..])
  }

  lemma {:induction false} SumFromShifts(acc: int, xs: seq<int>)
    ensures SumFrom(acc, xs) == acc + SumFrom(0, xs)
    decreases |xs|
  {
    if xs != [] {
      SumFromShifts(acc + xs[0], xs[1..]);
      SumFromShifts(xs[0], xs[1..]);
    }
  }

  /** The `reduce` over the visible heights is the sum of `height` over exactly the
      visible children: an invisible child contributes nothing, whatever its height. */
  lemma {:induction false} GroupHeightIsVisibleSum(toasts: seq<Toast>)
    ensures SumFrom(0, Heights(VisibleToasts(toasts))) == TotalContribution(toasts)
  {
    if toasts != [] {
      GroupHeightIsVisibleSum(toasts[1..]);
      var rest := Heights(VisibleToasts(toasts[1..]));
      if toasts[0].visible {
        assert Heights(VisibleToasts(toasts)) == [toasts[0].height] + rest;
        assert ([toasts[0].height] + rest)[1..] == rest;
        SumFromShifts(toasts[0].height, rest);
      }
    }
  }

  lemma {:induction false} TotalContributionAppend(a: seq<Toast>, b: seq<Toast>)
    ensures TotalContribution(a + b) == TotalContribution(a) + TotalContribution(b)
  {
    if a == [] {
      assert a + b == b;
    } else {
      assert (a + b)[0] == a[0] && (a + b)[1..] == a[1..] + b;
      TotalContributionAppend(a[1..], b);
    }
  }

  /** The height of a group is the height of its parts; an empty group has height 0. */
  lemma GroupHeightAppend(a: seq<Toast>, b: seq<Toast>)
    ensures GroupHeight([]) == 0
    ensures GroupHeight(a + b) == GroupHeight(a) + GroupHeight(b)
  {
    TotalContributionAppend(a, b);
  }

  /** Inserting an invisible child anywhere leaves the group's height unchanged. */
  lemma InvisibleChildAddsNothing(a: seq<Toast>, t: Toast, b: seq<Toast>)
    requires !t.visible
    ensures GroupHeight(a + [t] + b) == GroupHeight(a + b)
  {
    GroupHeightAppend(a + [t], b);
    GroupHeightAppend(a, [t]);
    GroupHeightAppend(a, b);
    assert TotalContribution([t]) == 0;
  }

  /** With measured (non-negative) heights, the visible children alone fill the group. */
  lemma GroupHeightBounds(toasts: seq<Toast>)
    requires forall i :: 0 <= i < |toasts| ==> toasts[i].height >= 0
    ensures 0 <= GroupHeight(toasts)
    ensures forall i :: 0 <= i < |toasts| && toasts[i].visible ==> toasts[i].height <= GroupHeight(toasts)
  {
    NonNegativeTotal(toasts);
  }

  lemma {:induction false} NonNegativeTotal(toasts: seq<Toast>)
    requires forall i :: 0 <= i < |toasts| ==> toasts[i].height >= 0
    ensures 0 <= TotalContribution(toasts)
    ensures forall i :: 0 <= i < |toasts| ==> Contribution(toasts[i]) <= TotalContribution(toasts)
  {
    if toasts != [] {
      NonNegativeTotal(toasts[1..]);
      forall i | 1 <= i < |toasts|
        ensures Contribution(toasts[i]) <= TotalContribution(toasts)
      {
        assert toasts[i] == toasts[1..][i - 1];
      }
    }
  }
}
