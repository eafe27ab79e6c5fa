/**
 * The UWP carousel renderer as an object: its fields are updated step by
 * step as in the renderer, and every operation is proved to produce exactly
 * the state (and exception) its specification function in CarouselState
 * gives for the state before.
 */
module CarouselRenderer {
  import opened Wrappers
  import opened CarouselState

  class CarouselViewRenderer {
    /** Whether the renderer has an Element and a FlipView; they stay for the renderer's lifetime. */
    const hasElement: bool
    const hasFlipView: bool
    /** `Element.ItemsSource` and `Element.Position`. */
    var items: Option<seq<Item>>
    var elementPosition: int
    /** Whether `_Source` and `_Dots` exist yet. */
    var loaded: bool
    /** `_Source` and `_Dots`. */
    var views: seq<NativeView>
    var dots: seq<bool>
    /** `_flipView.SelectedIndex`. */
    var selectedIndex: int
    var isSwiping: bool
    var isLoading: bool
    var isRemoving: bool
    /** How often `Element.PositionSelected` was invoked. */
    var positionSelectedRaised: nat

    function Snapshot(): State
      reads this
    {
      State(hasElement, hasFlipView, items, elementPosition, loaded, views, dots, selectedIndex,
            isSwiping, isLoading, isRemoving, positionSelectedRaised)
    }

    ghost predicate Valid()
      reads this
    {
      Consistent(Snapshot())
    }

    /** A renderer attached to its element, before the first reload: no views and no dots yet. */
    constructor (hasElement: bool, hasFlipView: bool, items: Option<seq<Item>>, position: int)
      ensures Valid()
      ensures Snapshot() == State(hasElement, hasFlipView, items, position, false, [], [], -1, false, false, false, 0)
    {
      this.hasElement := hasElement;
      this.hasFlipView := hasFlipView;
      this.items := items;
      elementPosition := position;
      loaded := false;
      views := [];
      dots := [];
      selectedIndex := -1;
      isSwiping := false;
      isLoading := false;
      isRemoving := false;
      positionSelectedRaised := 0;
    }

    /** `SetCurrentItem`: selects `position` in the FlipView, throwing when it is past the last item. */
    method SetCurrentItem(position: int) returns (fault: Option<Fault>)
      modifies this
      ensures Outcome(Snapshot(), fault) == AfterSetCurrentItem(old(Snapshot()), position)
    {
      fault := None;
      if hasElement && hasFlipView && items.Some? && |items.value| > 0 {
        if position > |items.value| - 1 {
          return Some(CurrentPositionTooBig);
        }
        selectedIndex := position;
      }
    }

    /** The Position branch of `OnElementPropertyChanged`. */
    method OnPositionPropertyChanged() returns (fault: Option<Fault>)
      modifies this
      ensures Outcome(Snapshot(), fault) == AfterPositionChanged(old(Snapshot()))
    {
      fault := None;
      if elementPosition != -1 && !isSwiping {
        fault := SetCurrentItem(elementPosition);
      }
    }

    /** `Element.Position = value`, which notifies the renderer when the value changes. */
    method WritePosition(value: int) returns (fault: Option<Fault>)
      modifies this
      ensures Outcome(Snapshot(), fault) == AfterPositionWrite(old(Snapshot()), value)
    {
      if value == elementPosition {
        return None;
      }
      elementPosition := value;
      fault := OnPositionPropertyChanged();
    }

    /** `ItemsSourceChanged`: rebuilds views and dots from the source and clamps Position. */
    method ItemsSourceChanged() returns (fault: Option<Fault>)
      modifies this
      ensures Outcome(Snapshot(), fault) == AfterReload(old(Snapshot()))
    {
      fault := None;
      if hasElement && hasFlipView {
        if items.Some? && |items.value| > 0 {
          fault := Load();
          if fault.Some? {
            return;
          }
        } else {
          isSwiping := true;
          var _ := WritePosition(0);
          isSwiping := false;
          views := [];
          loaded := true;
          dots := [];
        }
        isSwiping := false;
      }
    }

    /** The non-empty branch of `ItemsSourceChanged`. */
    method Load() returns (fault: Option<Fault>)
      requires items.Some? && |items.value| > 0
      modifies this
      ensures Outcome(Snapshot(), fault) == AfterLoad(old(Snapshot()))
    {
      var src := items.value;
      ClampPositionForLoad();
      var p := elementPosition;

      var source: seq<NativeView> := [];
      var j := 0;
      while j <= p
        invariant 0 <= j && (p < 0 ==> j == 0) && (p >= 0 ==> j <= p + 1)
        invariant source == ViewsOf(src[..j])
      {
        source := source + [CreateView(src[j])];
        j := j + 1;
        assert ViewsOf(src[..j]) == ViewsOf(src[..j - 1]) + [CreateView(src[j - 1])];
      }
      views := source;
      loaded := true;

      var newDots: seq<bool> := [];
      var i := 0;
      while i < |src|
        invariant 0 <= i <= |src|
        invariant newDots == Indicators(i, p)
      {
        newDots := newDots + [CreateDot(i, p)];
        i := i + 1;
      }
      dots := newDots;
      selectedIndex := p;

      // the renderer awaits a short delay here
      var rest := source;
      j := p + 1;
      while j <= |src| - 1
        invariant p < 0 ==> j == p + 1 && rest == []
        invariant p >= 0 ==> p + 1 <= j <= |src| && rest == ViewsOf(src[..j])
      {
        if j < 0 {
          return Some(IndexOutOfRange);
        }
        rest := rest + [CreateView(src[j])];
        j := j + 1;
        assert ViewsOf(src[..j]) == ViewsOf(src[..j - 1]) + [CreateView(src[j - 1])];
      }
      assert src[..j] == src;
      views := rest;
      isLoading := false;
      fault := None;
    }

    /** The start of a load: Position is clamped into the source while the renderer marks itself swiping. */
    method ClampPositionForLoad()
      requires items.Some? && |items.value| > 0
      modifies this
      ensures Snapshot() == old(Snapshot()).(isLoading := true, isSwiping := false,
                                             elementPosition := ClampPosition(old(elementPosition), |old(items).value|))
    {
      var count := |items.value|;
      isLoading := true;
      isSwiping := true;
      if elementPosition > count - 1 {
        var _ := WritePosition(count - 1);
      }
      if elementPosition == -1 {
        var _ := WritePosition(0);
      }
      isSwiping := false;
    }

    /** `InsertItem`: inserts (or, for -1, appends) the item, its view and a new dot. */
    method InsertItem(item: Item, position: int) returns (fault: Option<Fault>)
      requires Valid()
      modifies this
      ensures Outcome(Snapshot(), fault) == AfterInsert(old(Snapshot()), item, position)
      ensures fault.None? ==> Valid()
    {
      ghost var before := Snapshot();
      fault := None;
      if hasElement && hasFlipView && items.Some? {
        var src := items.value;
        if position > |src| + 1 {
          return Some(InsertPositionTooBig);
        }
        if position == -1 {
          items := Some(src + [item]);
          if !loaded {
            return Some(NullReference);
          }
          views := views + [CreateView(item)];
          dots := dots + [CreateDot(-1, position)];
        } else {
          if position < 0 || position > |src| {
            return Some(IndexOutOfRange);
          }
          items := Some(InsertAt(src, position, item));
          if !loaded {
            return Some(NullReference);
          }
          views := InsertAt(views, position, CreateView(item));
          dots := InsertAt(dots, position, CreateDot(position, position));
        }
      }
      InsertKeepsListsInStep(before, item, position);
    }

    /** `UpdateIndicators`: recolours every dot, selected exactly at Position. */
    method UpdateIndicators()
      requires hasElement
      modifies this
      ensures Snapshot() == AfterUpdateIndicators(old(Snapshot()))
    {
      var i := 0;
      while i < |dots|
        invariant 0 <= i <= |dots| == |old(dots)|
        invariant forall k :: 0 <= k < i ==> dots[k] == (k == elementPosition)
        invariant Snapshot() == old(Snapshot()).(dots := dots)
      {
        dots := dots[i := i == elementPosition];
        i := i + 1;
      }
    }

    /** `RemoveItem`: removes the item at `position` from the source, the views and the dots. */
    method RemoveItem(position: int) returns (fault: Option<Fault>)
      requires Valid()
      modifies this
      ensures Outcome(Snapshot(), fault) == AfterRemove(old(Snapshot()), position)
      ensures fault.None? ==> Valid()
    {
      ghost var before := Snapshot();
      fault := None;
      if hasElement && hasFlipView && items.Some? && |items.value| > 0 {
        var src := items.value;
        if position > |src| - 1 {
          return Some(RemovePositionTooBig);
        }
        if |src| == 1 {
          if position < 0 {
            return Some(IndexOutOfRange);
          }
          items := Some(RemoveAt(src, position));
          fault := ItemsSourceChanged();
        } else {
          fault := RemoveOneOfSeveral(position);
        }
        assert Outcome(Snapshot(), fault) == AfterRemove(before, position);
      }
      RemoveGuarded(before, position);
    }

    /** The branch of `RemoveItem` for a source of two or more items. */
    method RemoveOneOfSeveral(position: int) returns (fault: Option<Fault>)
      requires Valid() && hasElement && hasFlipView && items.Some?
      requires 2 <= |items.value| && position <= |items.value| - 1
      modifies this
      ensures Outcome(Snapshot(), fault) == AfterRemoveOneOfSeveral(old(Snapshot()), position)
    {
      var src := items.value;
      isRemoving := true;
      if position == elementPosition {
        if position > 0 {
          var newPos := position - 1;
          if newPos == -1 {
            newPos := 0;
          }
          selectedIndex := newPos;
        }
        // the renderer awaits a short delay here
      }
      if position < 0 {
        return Some(IndexOutOfRange);
      }
      items := Some(RemoveAt(src, position));
      if !loaded {
        return Some(NullReference);
      }
      CompleteRemoval(position);
      fault := None;
    }

    /** The end of `RemoveItem`, once the item itself is gone from the source. */
    method CompleteRemoval(position: nat)
      requires hasElement && position < |views| && position < |dots|
      modifies this
      ensures Snapshot() == AfterCompleteRemoval(old(Snapshot()), position)
    {
      views := RemoveAt(views, position);
      isRemoving := false;
      isSwiping := true;
      var _ := WritePosition(selectedIndex);
      isSwiping := false;
      dots := RemoveAt(dots, position);
      UpdateIndicators();
      positionSelectedRaised := positionSelectedRaised + 1;
    }

    /** `FlipView_SelectionChanged`: outside loading and removing, Position follows the FlipView. */
    method FlipViewSelectionChanged()
      requires hasElement
      modifies this
      ensures Snapshot() == AfterSelectionChanged(old(Snapshot()))
    {
      if !isLoading && !isRemoving {
        isSwiping := true;
        var _ := WritePosition(selectedIndex);
        isSwiping := false;
        UpdateIndicators();
        positionSelectedRaised := positionSelectedRaised + 1;
      }
    }
  }
}
