/**
 * The listing component: which announcements it renders, given the fetched list,
 * the loading flag, an optional display limit and an optional list of excluded ids.
 */
module AnnouncementList {
  import opened Wrappers
  import opened Entities

  /** The component's props. `limit` and `exceptions` are optional (undefined = `None`). */
  datatype Props = Props(
    title: string,
    announcements: seq<Announcement>,
    isLoading: bool,
    limit: Option<int>,
    exceptions: Option<seq<Id>>)

  /** The CSS class of the container: "announcements-grid" or "announcements-line". */
  datatype Layout = Grid | Line

  /** What the component renders: the loader alone, or a heading over the items. */
  datatype View = Loading | Listing(heading: string, layout: Layout, items: seq<Announcement>)

  /** `a` can be obtained from `b` by deleting elements, the rest keeping their order. */
  ghost predicate IsSubsequence<T>(a: seq<T>, b: seq<T>)
    decreases |b|
  {
    if a == [] then true
    else if b == [] then false
    else (a[0] == b[0] && IsSubsequence(a[1..], b[1..])) || IsSubsequence(a, b[1..])
  }

  /** The exception filter: drops every announcement whose id is listed, keeping the others in order. */
  function Exclude(xs: seq<Announcement>, exceptions: seq<Id>): (r: seq<Announcement>)
    ensures forall i :: 0 <= i < |r| ==> r[i].id !in exceptions
    ensures forall a :: multiset(r)[a] == if a.id in exceptions then 0 else multiset(xs)[a]
    ensures IsSubsequence(r, xs)
    decreases |xs|
  {
    if xs == [] then []
    else
      var rest := Exclude(xs[1..], exceptions);
      assert xs == [xs[0]] + xs[1..];
      if xs[0].id in exceptions then
        assert rest == [] || IsSubsequence(rest, xs[1..]);
        rest
      else
        var r := [xs[0]] + rest;
        assert r[1..] == rest;
        r
  }

  /** The list left after the exception filter; with no exception list, the whole input. */
  function Survivors(xs: seq<Announcement>, exceptions: Option<seq<Id>>): (r: seq<Announcement>)
    ensures exceptions.None? ==> r == xs
    ensures exceptions.Some? ==> r == Exclude(xs, exceptions.value)
  {
    match exceptions
    case None => xs
    case Some(ids) => Exclude(xs, ids)
  }

  /** `Array.prototype.slice(0, end)`: a negative end counts back from the end of the list. */
  function SliceTo(xs: seq<Announcement>, end: int): (r: seq<Announcement>)
    ensures r <= xs
    ensures end >= 0 ==> |r| == if end < |xs| then end else |xs|
    ensures end < 0 ==> |r| == if |xs| + end < 0 then 0 else |xs| + end
  {
    if end >= |xs| then xs
    else if end >= 0 then xs[..end]
    else if |xs| + end <= 0 then []
    else xs[..|xs| + end]
  }

  /** A number prop is truthy unless it is undefined or zero. */
  predicate Truthy(limit: Option<int>) {
    limit.Some? && limit.value != 0
  }

  /** The items rendered: exception filter first, then the limit slice when the limit is truthy. */
  function Shown(xs: seq<Announcement>, limit: Option<int>, exceptions: Option<seq<Id>>): (r: seq<Announcement>)
    ensures r <= Survivors(xs, exceptions)
    ensures exceptions.Some? ==> forall i :: 0 <= i < |r| ==> r[i].id !in exceptions.value
    ensures !Truthy(limit) ==> r == Survivors(xs, exceptions)
    ensures Truthy(limit) && limit.value > 0 ==>
      |r| == if limit.value < |Survivors(xs, exceptions)| then limit.value else |Survivors(xs, exceptions)|
    ensures Truthy(limit) && limit.value < 0 ==>
      |r| == if |Survivors(xs, exceptions)| + limit.value < 0 then 0 else |Survivors(xs, exceptions)| + limit.value
  {
    var survivors := Survivors(xs, exceptions);
    if Truthy(limit) then SliceTo(survivors, limit.value) else survivors
  }

  /** The container class for the view mode. */
  function LayoutOf(isGridView: bool): Layout {
    if isGridView then Grid else Line
  }

  /** The component with the view mode as a parameter. */
  function RenderIn(props: Props, isGridView: bool): (v: View)
    ensures props.isLoading <==> v.Loading?
    ensures v.Listing? ==> v.heading == props.title && v.layout == LayoutOf(isGridView)
    ensures v.Listing? ==> v.items == Shown(props.announcements, props.limit, props.exceptions)
  {
    if props.isLoading then Loading
    else Listing(props.title, LayoutOf(isGridView), Shown(props.announcements, props.limit, props.exceptions))
  }

  /** The component as written: the view mode is fixed to the grid. */
  function Render(props: Props): (v: View)
    ensures props.isLoading ==> v == Loading
    ensures !props.isLoading ==> v.Listing? && v.layout == Grid
    ensures !props.isLoading ==>
      v.heading == props.title && v.items == Shown(props.announcements, props.limit, props.exceptions)
  {
    RenderIn(props, true)
  }

  /** The filter splits over concatenation. */
  lemma {:induction false} ExcludeAppend(xs: seq<Announcement>, ys: seq<Announcement>, exceptions: seq<Id>)
    ensures Exclude(xs + ys, exceptions) == Exclude(xs, exceptions) + Exclude(ys, exceptions)
    decreases |xs|
  {
    if xs == [] {
      assert xs + ys == ys;
    } else {
      assert (xs + ys)[1..] == xs[1..] + ys;
      ExcludeAppend(xs[1..], ys, exceptions);
    }
  }

  /** An empty exception list (truthy in JavaScript) filters nothing. */
  lemma {:induction false} ExcludeNothing(xs: seq<Announcement>)
    ensures Exclude(xs, []) == xs
    decreases |xs|
  {
    if xs != [] {
      ExcludeNothing(xs[1..]);
    }
  }

  /** Inserting an excluded announcement anywhere leaves the filter's output unchanged. */
  lemma ExcludeInsertExcluded(xs: seq<Announcement>, i: nat, a: Announcement, exceptions: seq<Id>)
    requires i <= |xs|
    requires a.id in exceptions
    ensures Exclude(xs[..i] + [a] + xs[i..], exceptions) == Exclude(xs, exceptions)
  {
    var before, after := xs[..i], xs[i..];
    var e := exceptions;
    assert Exclude([a], e) == [] by {
      assert [a][1..] == [];
    }
    ExcludeAppend(before, [a], e);
    var eb := Exclude(before, e);
    assert Exclude(before + [a], e) == eb;
    ExcludeAppend(before + [a], after, e);
    var ea := Exclude(after, e);
    assert Exclude(before + [a] + after, e) == eb + ea;
    ExcludeAppend(before, after, e);
    assert before + after == xs;
  }

  /**
   * Exclusion comes before the limit: inserting an excluded announcement anywhere in
   * the input changes nothing that is shown, so the limit counts surviving items only.
   */
  lemma ExcludedItemsDoNotConsumeLimit(xs: seq<Announcement>, i: nat, a: Announcement,
                                       limit: Option<int>, exceptions: seq<Id>)
    requires i <= |xs|
    requires a.id in exceptions
    ensures Shown(xs[..i] + [a] + xs[i..], limit, Some(exceptions)) == Shown(xs, limit, Some(exceptions))
  {
    ExcludeInsertExcluded(xs, i, a, exceptions);
  }

  /** With a positive limit and at least that many survivors, exactly `limit` items are shown. */
  lemma LimitFilledBySurvivors(xs: seq<Announcement>, n: int, exceptions: Option<seq<Id>>)
    requires 0 < n <= |Survivors(xs, exceptions)|
    ensures Shown(xs, Some(n), exceptions) == Survivors(xs, exceptions)[..n]
  {
  }

  /** The view mode changes only the container class, never the items or their order. */
  lemma LayoutDoesNotChangeItems(props: Props)
    ensures RenderIn(props, true).Listing? <==> RenderIn(props, false).Listing?
    ensures RenderIn(props, true).Listing? ==> RenderIn(props, true).items == RenderIn(props, false).items
  {
  }
}
