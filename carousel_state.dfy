/**
 * The bookkeeping of the UWP carousel renderer as values: the element's
 * ItemsSource and Position, the native views (`_Source`), the indicator dots
 * (`_Dots`), the FlipView's selected index and the three feedback flags.
 * Each operation of the renderer is specified by a function from the state
 * before to the state after, together with the exception it throws, if any.
 */
module CarouselState {
  import opened Wrappers

  /** An opaque element of the carousel's ItemsSource. */
  datatype Item = Item(token: int)

  /** The native view `CreateView` builds for an item. */
  datatype NativeView = NativeView(item: Item)

  function CreateView(item: Item): NativeView {
    NativeView(item)
  }

  /** `CreateDot(i, position)`: a dot is drawn in the selected colour exactly when its two arguments agree. */
  function CreateDot(i: int, position: int): bool {
    i == position
  }

  /** The exceptions the renderer's operations can throw. */
  datatype Fault =
    | InsertPositionTooBig   // CarouselViewException from InsertItem
    | RemovePositionTooBig   // CarouselViewException from RemoveItem
    | CurrentPositionTooBig  // CarouselViewException from SetCurrentItem
    | IndexOutOfRange        // ArgumentOutOfRangeException from a list index
    | NullReference          // `_Source` used before the first reload

  datatype State = State(
    hasElement: bool,            // Element != null
    hasFlipView: bool,           // _flipView != null
    items: Option<seq<Item>>,    // Element.ItemsSource; None is null
    elementPosition: int,        // Element.Position
    loaded: bool,                // _Source and _Dots have been created
    views: seq<NativeView>,      // _Source
    dots: seq<bool>,             // _Dots; true is the selected colour
    selectedIndex: int,          // _flipView.SelectedIndex
    isSwiping: bool,
    isLoading: bool,
    isRemoving: bool,
    positionSelectedRaised: nat) // how often PositionSelected was invoked

  datatype Outcome = Outcome(state: State, fault: Option<Fault>)

  function ItemsOf(s: State): seq<Item> {
    s.items.GetOr([])
  }

  function Attached(s: State): bool {
    s.hasElement && s.hasFlipView
  }

  /** One view per item, in item order. */
  function ViewsOf(items: seq<Item>): seq<NativeView> {
    seq(|items|, i requires 0 <= i < |items| => CreateView(items[i]))
  }

  /** Dot `i` of `n` is selected exactly when `i == p`. */
  function Indicators(n: nat, p: int): seq<bool> {
    seq(n, i => i == p)
  }

  /** The number of dots drawn in the selected colour. */
  function CountSelected(dots: seq<bool>): nat {
    if dots == [] then 0
    else CountSelected(dots[..|dots| - 1]) + (if dots[|dots| - 1] then 1 else 0)
  }

  /** `list.Insert(i, x)`. */
  function InsertAt<T>(s: seq<T>, i: nat, x: T): (r: seq<T>)
    requires i <= |s|
    ensures |r| == |s| + 1 && r[i] == x
    ensures forall j :: 0 <= j < i ==> r[j] == s[j]
    ensures forall j :: i < j < |r| ==> r[j] == s[j - 1]
  {
    s[..i] + [x] + s[i..]
  }

  /** `list.RemoveAt(i)`. */
  function RemoveAt<T>(s: seq<T>, i: nat): (r: seq<T>)
    requires i < |s|
    ensures |r| == |s| - 1
    ensures forall j :: 0 <= j < i ==> r[j] == s[j]
    ensures forall j :: i <= j < |r| ==> r[j] == s[j + 1]
  {
    s[..i] + s[i + 1..]
  }

  /**
   * The three lists in step: before the first reload there are no views and
   * no dots; afterwards there is one dot per item and the views are the
   * items' views in item order.
   */
  predicate Consistent(s: State) {
    if s.loaded then s.views == ViewsOf(ItemsOf(s)) && |s.dots| == |ItemsOf(s)|
    else s.views == [] && s.dots == []
  }

  /** The position clamp of `ItemsSourceChanged`: too large becomes the last index, -1 becomes 0. */
  function ClampPosition(position: int, count: nat): (p: int)
    requires count > 0
    ensures position >= -1 ==> 0 <= p < count
    ensures 0 <= position < count ==> p == position
    ensures position >= count ==> p == count - 1
    ensures position == -1 ==> p == 0
    ensures position < -1 ==> p == position
  {
    var p := if position > count - 1 then count - 1 else position;
    if p == -1 then 0 else p
  }

  /** `SetCurrentItem(position)`. */
  function AfterSetCurrentItem(s: State, position: int): Outcome {
    if Attached(s) && s.items.Some? && |s.items.value| > 0 then
      if position > |s.items.value| - 1 then Outcome(s, Some(CurrentPositionTooBig))
      else Outcome(s.(selectedIndex := position), None)
    else Outcome(s, None)
  }

  /** The Position branch of `OnElementPropertyChanged`. */
  function AfterPositionChanged(s: State): Outcome {
    if s.elementPosition != -1 && !s.isSwiping then AfterSetCurrentItem(s, s.elementPosition)
    else Outcome(s, None)
  }

  /** `Element.Position = value`: the property notifies the renderer only when the value changes. */
  function AfterPositionWrite(s: State, value: int): Outcome {
    if value == s.elementPosition then Outcome(s, None)
    else AfterPositionChanged(s.(elementPosition := value))
  }

  /** `ItemsSourceChanged`. */
  function AfterReload(s: State): Outcome {
    if !Attached(s) then Outcome(s, None)
    else if s.items.Some? && |s.items.value| > 0 then AfterLoad(s)
    else Outcome(s.(elementPosition := 0, isSwiping := false, loaded := true, views := [], dots := []), None)
  }

  /** `ItemsSourceChanged` for a non-empty source. */
  function AfterLoad(s: State): Outcome
    requires s.items.Some? && |s.items.value| > 0
  {
    var src := s.items.value;
    var p := ClampPosition(s.elementPosition, |src|);
    var loading := s.(elementPosition := p, isSwiping := false, isLoading := true, loaded := true,
                      dots := Indicators(|src|, p), selectedIndex := p);
    if p < 0 then
      // the first loop builds no view; the second one reads ItemsSource[p + 1]
      Outcome(loading.(views := []), Some(IndexOutOfRange))
    else
      Outcome(loading.(views := ViewsOf(src), isLoading := false), None)
  }

  /** `InsertItem(item, position)`; -1 appends. */
  function AfterInsert(s: State, item: Item, position: int): Outcome
    requires Consistent(s)
  {
    if !(Attached(s) && s.items.Some?) then Outcome(s, None)
    else
      var src := s.items.value;
      if position > |src| + 1 then Outcome(s, Some(InsertPositionTooBig))
      else if position == -1 then
        var added := s.(items := Some(src + [item]));
        if !s.loaded then Outcome(added, Some(NullReference))
        else Outcome(added.(views := s.views + [CreateView(item)], dots := s.dots + [CreateDot(-1, position)]), None)
      else if position < 0 || position > |src| then Outcome(s, Some(IndexOutOfRange))
      else
        var added := s.(items := Some(InsertAt(src, position, item)));
        if !s.loaded then Outcome(added, Some(NullReference))
        else Outcome(added.(views := InsertAt(s.views, position, CreateView(item)),
                            dots := InsertAt(s.dots, position, CreateDot(position, position))), None)
  }

  /** `UpdateIndicators`. */
  function AfterUpdateIndicators(s: State): State {
    s.(dots := Indicators(|s.dots|, s.elementPosition))
  }

  /** `RemoveItem(position)`. */
  function AfterRemove(s: State, position: int): Outcome
    requires Consistent(s)
  {
    if !(Attached(s) && s.items.Some? && |s.items.value| > 0) then Outcome(s, None)
    else
      var src := s.items.value;
      if position > |src| - 1 then Outcome(s, Some(RemovePositionTooBig))
      else if |src| == 1 then
        if position < 0 then Outcome(s, Some(IndexOutOfRange))
        else AfterReload(s.(items := Some(RemoveAt(src, position))))
      else AfterRemoveOneOfSeveral(s, position)
  }

  /** The branch of `RemoveItem` for a source of two or more items. */
  function AfterRemoveOneOfSeveral(s: State, position: int): Outcome
    requires Consistent(s) && s.items.Some? && position <= |s.items.value| - 1
  {
    var removing := s.(isRemoving := true);
    var moved :=
      if position == s.elementPosition && position > 0 then
        var newPos := position - 1;
        removing.(selectedIndex := if newPos == -1 then 0 else newPos)
      else removing;
    if position < 0 then Outcome(moved, Some(IndexOutOfRange))
    else
      var removed := moved.(items := Some(RemoveAt(s.items.value, position)));
      if !s.loaded then Outcome(removed, Some(NullReference))
      else Outcome(AfterCompleteRemoval(removed, position), None)
  }

  /** The end of `RemoveItem`: the view and dot go, Position takes the selected index, indicators are redrawn. */
  function AfterCompleteRemoval(s: State, position: nat): State
    requires position < |s.views| && position < |s.dots|
  {
    var done := s.(views := RemoveAt(s.views, position), isRemoving := false, isSwiping := false,
                   elementPosition := s.selectedIndex, dots := RemoveAt(s.dots, position));
    AfterUpdateIndicators(done).(positionSelectedRaised := s.positionSelectedRaised + 1)
  }

  /** `FlipView_SelectionChanged`: ignored while loading or removing. */
  function AfterSelectionChanged(s: State): State {
    if !s.isLoading && !s.isRemoving then
      var synced := s.(elementPosition := s.selectedIndex, isSwiping := false);
      AfterUpdateIndicators(synced).(positionSelectedRaised := s.positionSelectedRaised + 1)
    else s
  }

  // ---------------------------------------------------------------------
  // Properties

  /** Indicators for position `p` select exactly one dot when `p` is an index, none otherwise. */
  lemma {:induction false} IndicatorsSelectAtMostOne(n: nat, p: int)
    ensures CountSelected(Indicators(n, p)) == if 0 <= p < n then 1 else 0
  {
    if n > 0 {
      IndicatorsSelectAtMostOne(n - 1, p);
      assert Indicators(n, p)[..n - 1] == Indicators(n - 1, p);
    }
  }

  /** Inserting a selected dot adds one to the number of selected dots. */
  lemma {:induction false} InsertSelectedDot(dots: seq<bool>, i: nat)
    requires i <= |dots|
    ensures CountSelected(InsertAt(dots, i, true)) == CountSelected(dots) + 1
  {
    var r := InsertAt(dots, i, true);
    if i == |dots| {
      assert r[..|r| - 1] == dots;
    } else {
      InsertSelectedDot(dots[..|dots| - 1], i);
      assert r[..|r| - 1] == InsertAt(dots[..|dots| - 1], i, true);
    }
  }

  /** A renderer write to Position while `isSwiping` is set only changes Position. */
  lemma SilentPositionWrite(s: State, value: int)
    requires s.isSwiping
    ensures AfterPositionWrite(s, value) == Outcome(s.(elementPosition := value), None)
  {
  }

  /**
   * A Position change reaches `SetCurrentItem` only when Position is not -1
   * and the renderer is not swiping; it then throws exactly when Position is
   * past the last item, and otherwise selects Position in the FlipView.
   */
  lemma PositionChangeSelects(s: State)
    ensures var r := AfterPositionChanged(s);
      && r.state.(selectedIndex := s.selectedIndex) == s
      && (r.state != s || r.fault.Some? ==> s.elementPosition != -1 && !s.isSwiping)
      && (r.fault.Some? <==>
            s.elementPosition != -1 && !s.isSwiping && Attached(s) && s.items.Some? &&
            0 < |s.items.value| <= s.elementPosition)
      && (r.fault.Some? ==> r.fault == Some(CurrentPositionTooBig) && r.state == s)
      && ((s.elementPosition != -1 && !s.isSwiping && Attached(s) && s.items.Some? &&
           0 < |s.items.value| && s.elementPosition < |s.items.value|)
          ==> r.state.selectedIndex == s.elementPosition)
  {
  }

  /**
   * A reload of a non-empty source whose Position is at least -1 clamps
   * Position into range, shows one view per item in order, selects exactly
   * the dot at Position and selects Position in the FlipView.
   */
  lemma ReloadNonEmpty(s: State)
    requires Attached(s) && s.items.Some? && |s.items.value| > 0 && s.elementPosition >= -1
    ensures var r := AfterReload(s);
      && r.fault == None && Consistent(r.state)
      && 0 <= r.state.elementPosition < |s.items.value|
      && r.state.elementPosition == ClampPosition(s.elementPosition, |s.items.value|)
      && r.state.views == ViewsOf(s.items.value)
      && (forall i :: 0 <= i < |r.state.dots| ==> (r.state.dots[i] <==> i == r.state.elementPosition))
      && CountSelected(r.state.dots) == 1
      && r.state.selectedIndex == r.state.elementPosition
      && !r.state.isLoading && !r.state.isSwiping
  {
    var p := ClampPosition(s.elementPosition, |s.items.value|);
    IndicatorsSelectAtMostOne(|s.items.value|, p);
  }

  /** A reload of a missing or empty source resets Position to 0 and empties views and dots. */
  lemma ReloadEmpty(s: State)
    requires Attached(s) && (s.items.None? || s.items.value == [])
    ensures var r := AfterReload(s);
      r.fault == None && Consistent(r.state) && r.state.elementPosition == 0 &&
      r.state.views == [] && r.state.dots == [] && r.state.items == s.items
  {
  }

  /**
   * Position below -1 is not clamped: the reload then fails on a negative
   * index, leaving no views, no selected dot and `isLoading` set.
   */
  lemma ReloadBelowMinusOne(s: State)
    requires Attached(s) && s.items.Some? && |s.items.value| > 0 && s.elementPosition < -1
    ensures var r := AfterReload(s);
      && r.fault == Some(IndexOutOfRange)
      && r.state.elementPosition == s.elementPosition && r.state.selectedIndex == s.elementPosition
      && r.state.views == [] && |r.state.dots| == |s.items.value| && CountSelected(r.state.dots) == 0
      && r.state.isLoading
  {
    IndicatorsSelectAtMostOne(|s.items.value|, s.elementPosition);
  }

  /**
   * `InsertItem` keeps items, views and dots in step: it throws the carousel
   * exception only past Count + 1, and with a position from -1 to Count on a
   * loaded renderer it inserts the item (appends for -1) at the same index in
   * all three lists, with the new dot selected, leaving Position alone.
   */
  lemma InsertKeepsListsInStep(s: State, item: Item, position: int)
    requires Consistent(s)
    ensures var r := AfterInsert(s, item, position);
      && (r.fault.None? ==> Consistent(r.state))
      && (r.fault == Some(InsertPositionTooBig) <==> Attached(s) && s.items.Some? && position > |s.items.value| + 1)
      && (r.state.elementPosition == s.elementPosition && r.state.selectedIndex == s.selectedIndex)
      && (!(Attached(s) && s.items.Some?) ==> r == Outcome(s, None))
      && (Attached(s) && s.items.Some? && s.loaded && -1 <= position <= |s.items.value| ==>
            var at := if position == -1 then |s.items.value| else position;
            && r.fault == None
            && r.state.items == Some(InsertAt(s.items.value, at, item))
            && r.state.dots == InsertAt(s.dots, at, true))
  {
    var r := AfterInsert(s, item, position);
    if Attached(s) && s.items.Some? && s.loaded && -1 <= position <= |s.items.value| {
      var src := s.items.value;
      var at := if position == -1 then |src| else position;
      assert src + [item] == InsertAt(src, |src|, item);
      assert s.dots + [true] == InsertAt(s.dots, |s.dots|, true);
      assert r.state.views == ViewsOf(InsertAt(src, at, item));
    }
  }

  /**
   * The dot `InsertItem` adds is always selected, so inserting into a
   * renderer whose indicators show a Position in range leaves two selected
   * dots until the indicators are next updated.
   */
  lemma InsertSelectsSecondDot(s: State, item: Item, position: int)
    requires Consistent(s) && Attached(s) && s.items.Some? && s.loaded
    requires -1 <= position <= |s.items.value|
    requires 0 <= s.elementPosition < |s.dots| && s.dots == Indicators(|s.dots|, s.elementPosition)
    ensures CountSelected(AfterInsert(s, item, position).state.dots) == 2
  {
    InsertKeepsListsInStep(s, item, position);
    IndicatorsSelectAtMostOne(|s.dots|, s.elementPosition);
    InsertSelectedDot(s.dots, if position == -1 then |s.items.value| else position);
  }

  /**
   * `RemoveItem` on a loaded renderer with at least two items and a valid
   * index removes that index from items, views and dots; when the current
   * nonzero position is removed the selection first moves one back; Position
   * then takes the selected index, the indicators show it, `isRemoving` is
   * cleared and PositionSelected is raised once.
   */
  lemma RemoveKeepsListsInStep(s: State, position: int)
    requires Consistent(s) && Attached(s) && s.items.Some? && |s.items.value| >= 2 && s.loaded
    requires 0 <= position < |s.items.value|
    ensures var r := AfterRemove(s, position);
      && r.fault == None && Consistent(r.state)
      && r.state.items == Some(RemoveAt(s.items.value, position))
      && r.state.selectedIndex == (if position == s.elementPosition && position > 0 then position - 1 else s.selectedIndex)
      && r.state.elementPosition == r.state.selectedIndex
      && r.state.dots == Indicators(|s.items.value| - 1, r.state.elementPosition)
      && CountSelected(r.state.dots) <= 1
      && !r.state.isRemoving
      && r.state.positionSelectedRaised == s.positionSelectedRaised + 1
  {
    var r := AfterRemove(s, position);
    var src := s.items.value;
    assert r.state.views == RemoveAt(ViewsOf(src), position);
    assert RemoveAt(ViewsOf(src), position) == ViewsOf(RemoveAt(src, position));
    IndicatorsSelectAtMostOne(|src| - 1, r.state.elementPosition);
  }

  /**
   * `RemoveItem` does nothing without an element, a FlipView and a non-empty
   * source, throws the carousel exception exactly for an index past the last
   * item, and keeps the lists in step whenever it completes.
   */
  lemma RemoveGuarded(s: State, position: int)
    requires Consistent(s)
    ensures var r := AfterRemove(s, position);
      && (r.fault == Some(RemovePositionTooBig) <==>
            Attached(s) && s.items.Some? && 0 < |s.items.value| <= position)
      && (!(Attached(s) && s.items.Some? && |s.items.value| > 0) ==> r == Outcome(s, None))
      && (r.fault.None? ==> Consistent(r.state))
  {
    if Attached(s) && s.items.Some? && |s.items.value| >= 2 && s.loaded && 0 <= position < |s.items.value| {
      RemoveKeepsListsInStep(s, position);
    }
  }

  /** Removing the only item falls through to the reload of an empty source. */
  lemma RemoveOnlyItem(s: State)
    requires Consistent(s) && Attached(s) && s.items.Some? && |s.items.value| == 1
    ensures var r := AfterRemove(s, 0);
      r.fault == None && Consistent(r.state) && r.state.items == Some([]) &&
      r.state.elementPosition == 0 && r.state.views == [] && r.state.dots == []
  {
  }

  /** `UpdateIndicators` selects at most the dot at Position and changes nothing else. */
  lemma UpdateIndicatorsSelectsPosition(s: State)
    ensures var t := AfterUpdateIndicators(s);
      && t.(dots := s.dots) == s && |t.dots| == |s.dots|
      && (forall i :: 0 <= i < |t.dots| ==> (t.dots[i] <==> i == s.elementPosition))
      && CountSelected(t.dots) == (if 0 <= s.elementPosition < |s.dots| then 1 else 0)
  {
    IndicatorsSelectAtMostOne(|s.dots|, s.elementPosition);
  }

  /**
   * A selection change outside loading and removing makes Position the
   * selected index and redraws the indicators for it; while loading or
   * removing it changes nothing.
   */
  lemma SelectionChangedSyncsPosition(s: State)
    ensures var t := AfterSelectionChanged(s);
      && (s.isLoading || s.isRemoving ==> t == s)
      && (!s.isLoading && !s.isRemoving ==>
            && t.elementPosition == s.selectedIndex
            && |t.dots| == |s.dots|
            && (forall i :: 0 <= i < |t.dots| ==> (t.dots[i] <==> i == s.selectedIndex))
            && CountSelected(t.dots) == (if 0 <= s.selectedIndex < |s.dots| then 1 else 0)
            && t.(dots := s.dots, elementPosition := s.elementPosition, isSwiping := s.isSwiping,
                  positionSelectedRaised := s.positionSelectedRaised) == s
            && t.positionSelectedRaised == s.positionSelectedRaised + 1)
      && (Consistent(s) ==> Consistent(t))
  {
    IndicatorsSelectAtMostOne(|s.dots|, s.selectedIndex);
  }
}
