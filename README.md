# Flyout list and carousel bookkeeping of Xamarin.Forms, in Dafny

This project models two pieces of index and list bookkeeping from the
Xamarin.Forms platform renderers. Host objects are replaced by opaque tokens.

**Shell flyout adapter (Android).** `ShellFlyoutRecyclerAdapter` flattens the
Shell into one list of rows `(element, drawTopLine)`:
- a ShellItem shown `AsMultipleItems` contributes one row per ShellSection;
- any other ShellItem contributes one row;
- the menu items follow, in order.

The separator flag follows position rules:
- a section row draws a line only at section 0, and only after an earlier shell item;
- a singly shown item draws a line exactly when the shell item before it is `AsMultipleItems`, even one with no sections;
- exactly the first menu row draws a line.

`FlyoutList` states the list as a pure function (`ItemList`) and proves:
- a positional description of every row (`ShellEntryAt`, `Locate`, `ItemListAt`);
- the length;
- that rows keep the order of their shell items (`OffsetsOrdered`).

`FlyoutAdapter` is the adapter as a class. Its `GenerateItemList` loop is
proved to build `ItemList`. `GetItemViewType` caches the chosen template under
the id it returns, so the later `OnCreateViewHolder` lookup of that id succeeds.
The `ElementViewHolder` setter ignores re-assignment of the same element, and a
click without an element invokes no callback.

**Carousel renderer (UWP).** `CarouselViewRenderer` keeps three lists in step:
- the element's ItemsSource;
- the native views (`_Source`);
- the indicator dots (`_Dots`; a dot is `true` when drawn in the selected colour).

It also keeps `Element.Position`, the FlipView's selected index and three flags.
`CarouselState` gives each operation a specification function from the state
before to the state after, plus the exception thrown, if any. Its lemmas state
what the renderer promises. `CarouselRenderer` is the renderer as a class: its
fields are updated step by step as in the C# renderer, and each method is proved to
produce exactly its specification's outcome.

Exceptions are modelled as a `Fault` result. The model records the state at the
moment of the throw, including partial updates, e.g. the item already added to
ItemsSource when `_Source` does not yet exist.

Behaviour the model makes explicit:
- `Element.Position = v` notifies the renderer only when the value changes. The notification runs the Position branch of `OnElementPropertyChanged`. `_isSwiping`, set around every write the renderer itself makes, turns that write into a plain assignment (`SilentPositionWrite`).
- On reload, Position above the last index becomes the last index and -1 becomes 0. Lower negative values are left alone. For those, the first loop builds no view and the second loop reads `ItemsSource[Position + 1]` at a negative index, which throws. `_IsLoading` then stays set (`ReloadBelowMinusOne`).
- `InsertItem` always creates its new dot in the selected colour, because `CreateDot` receives equal arguments. After an insert into a carousel whose indicators show a valid Position, two dots are selected (`InsertSelectsSecondDot`).
- `InsertItem` passes the carousel guard at position `Count + 1` and at positions below -1. For those, the `ItemsSource.Insert` call fails with an index error before anything changes.

## Model

| member | source | states |
|---|---|---|
| `FlyoutList.ShellEntries` | Xamarin.Forms.Platform.Android/Renderers/ShellFlyoutRecyclerAdapter.cs:99-116 | the shell part of the list has one row per section of each `AsMultipleItems` item and one row per other item |
| `FlyoutList.ItemList` | Xamarin.Forms.Platform.Android/Renderers/ShellFlyoutRecyclerAdapter.cs:95-126 | the generated list's length is the shell rows plus the number of menu items |
| `FlyoutList.Locate` | Xamarin.Forms.Platform.Android/Renderers/ShellFlyoutRecyclerAdapter.cs:100-116 | every shell row belongs to some shell item and one of its rows, at that item's offset |
| `FlyoutList.ShellEntryAt` | Xamarin.Forms.Platform.Android/Renderers/ShellFlyoutRecyclerAdapter.cs:99-116 | the row at offset of item k plus j is section j of item k (drawing a line iff j is 0 and k is not the first) or item k itself (drawing a line iff item k-1 is `AsMultipleItems`) |
| `FlyoutList.OffsetsOrdered` | Xamarin.Forms.Platform.Android/Renderers/ShellFlyoutRecyclerAdapter.cs:100-116 | all rows of an earlier shell item come before the rows of a later one |
| `FlyoutList.ItemListAt` | Xamarin.Forms.Platform.Android/Renderers/ShellFlyoutRecyclerAdapter.cs:100-123 | each row of the whole list is its shell item's expected row, or menu item m in `MenuItems` order after every shell row, with exactly m = 0 drawing a line |
| `FlyoutList.FirstShellItemDrawsNoLine` | Xamarin.Forms.Platform.Android/Renderers/ShellFlyoutRecyclerAdapter.cs:99-112 | no row from the first shell item draws a line, since `previous` starts as null |
| `FlyoutAdapter.ShellFlyoutRecyclerAdapter.constructor` | Xamarin.Forms.Platform.Android/Renderers/ShellFlyoutRecyclerAdapter.cs:26-34 | the adapter starts with the list generated from the Shell and an empty template cache |
| `FlyoutAdapter.ShellFlyoutRecyclerAdapter.ItemCount` | Xamarin.Forms.Platform.Android/Renderers/ShellFlyoutRecyclerAdapter.cs:36 | the count is the number of rows the Shell the list was generated from yields |
| `FlyoutAdapter.ShellFlyoutRecyclerAdapter.GenerateItemList` | Xamarin.Forms.Platform.Android/Renderers/ShellFlyoutRecyclerAdapter.cs:95-126 | the nested loops with the `previous` variable build exactly `ItemList` |
| `FlyoutAdapter.ShellFlyoutRecyclerAdapter.AddShellItem` | Xamarin.Forms.Platform.Android/Renderers/ShellFlyoutRecyclerAdapter.cs:102-113 | one pass of the shell-item loop appends exactly that item's rows |
| `FlyoutAdapter.ShellFlyoutRecyclerAdapter.OnShellStructureChanged` | Xamarin.Forms.Platform.Android/Renderers/ShellFlyoutRecyclerAdapter.cs:128-132 | a structure change replaces the list with the one generated from the changed Shell and keeps the template cache |
| `FlyoutAdapter.ShellFlyoutRecyclerAdapter.GetItemViewType` | Xamarin.Forms.Platform.Android/Renderers/ShellFlyoutRecyclerAdapter.cs:46-61 | menu rows use the menu item template (or its default), other rows the item template (or its default); the selected template is cached under the id returned, so that id is then in the cache |
| `FlyoutAdapter.ShellFlyoutRecyclerAdapter.OnCreateViewHolder` | Xamarin.Forms.Platform.Android/Renderers/ShellFlyoutRecyclerAdapter.cs:72-76 | the lookup succeeds exactly for a cached view type and yields the template with that id |
| `FlyoutAdapter.ShellFlyoutRecyclerAdapter.OnBindViewHolder` | Xamarin.Forms.Platform.Android/Renderers/ShellFlyoutRecyclerAdapter.cs:63-70 | the holder's bar is visible iff the row draws a top line, and the holder shows the row's element |
| `FlyoutAdapter.ElementViewHolder.constructor` | Xamarin.Forms.Platform.Android/Renderers/ShellFlyoutRecyclerAdapter.cs:198-204 | a new holder has no element |
| `FlyoutAdapter.ElementViewHolder.SetElement` | Xamarin.Forms.Platform.Android/Renderers/ShellFlyoutRecyclerAdapter.cs:216-236 | assigning the current element changes nothing; otherwise element and binding context become the new value |
| `FlyoutAdapter.ElementViewHolder.OnClicked` | Xamarin.Forms.Platform.Android/Renderers/ShellFlyoutRecyclerAdapter.cs:206-212 | with no element the callback is not invoked; otherwise it receives the holder's element |
| `CarouselState.ClampPosition` | Xamarin.Forms.Platform.WinRT/CarouselViewRenderer.cs:81-88 | -1 becomes 0, in-range positions are unchanged, too large ones become Count-1, so every position from -1 on ends up in range; values below -1 are not adjusted |
| `CarouselState.IndicatorsSelectAtMostOne` | Xamarin.Forms.Platform.WinRT/CarouselViewRenderer.cs:461-470 | colouring dots by "index equals Position" selects exactly one dot when Position is an index and none otherwise |
| `CarouselState.InsertSelectedDot` | Xamarin.Forms.Platform.WinRT/CarouselViewRenderer.cs:55-66 | inserting a selected dot adds one selected dot |
| `CarouselState.SilentPositionWrite` | Xamarin.Forms.Platform.WinRT/CarouselViewRenderer.cs:308-312 | while swiping, a Position write reaches no `SetCurrentItem` and changes only Position |
| `CarouselState.PositionChangeSelects` | Xamarin.Forms.Platform.WinRT/CarouselViewRenderer.cs:308-312 | a Position change calls `SetCurrentItem` only when Position is not -1 and not swiping; that throws iff Position is past the last item, else selects Position; nothing but the selected index changes |
| `CarouselState.ReloadNonEmpty` | Xamarin.Forms.Platform.WinRT/CarouselViewRenderer.cs:76-130 | a reload of a non-empty source with Position at least -1 clamps Position into range, makes the views the items' views in order, one dot per item with only the dot at Position selected, selects Position natively and clears `_IsLoading` and `_isSwiping` |
| `CarouselState.ReloadEmpty` | Xamarin.Forms.Platform.WinRT/CarouselViewRenderer.cs:131-147 | a reload of a null or empty source sets Position to 0 and empties views and dots |
| `CarouselState.ReloadBelowMinusOne` | Xamarin.Forms.Platform.WinRT/CarouselViewRenderer.cs:83-127 | with Position below -1 the reload throws an index error, leaving no views, no selected dot and `_IsLoading` set |
| `CarouselState.InsertKeepsListsInStep` | Xamarin.Forms.Platform.WinRT/CarouselViewRenderer.cs:48-70 | insert does nothing without element, FlipView and source; throws the carousel exception iff position > Count+1; otherwise inserts (or appends for -1) item, view and a selected dot at the same index, keeping lengths equal and Position unchanged |
| `CarouselState.InsertSelectsSecondDot` | Xamarin.Forms.Platform.WinRT/CarouselViewRenderer.cs:55-66 | inserting into a carousel whose indicators show a valid Position leaves two selected dots |
| `CarouselState.RemoveKeepsListsInStep` | Xamarin.Forms.Platform.WinRT/CarouselViewRenderer.cs:165-196 | removing from two or more items moves the selection back when the current nonzero position goes, removes that index from items, views and dots, makes Position the selected index, shows it in the indicators, clears `_IsRemoving` and raises PositionSelected once |
| `CarouselState.RemoveGuarded` | Xamarin.Forms.Platform.WinRT/CarouselViewRenderer.cs:153-158 | remove does nothing without element, FlipView and a non-empty source, throws the carousel exception iff position > Count-1, and keeps the lists in step whenever it completes |
| `CarouselState.RemoveOnlyItem` | Xamarin.Forms.Platform.WinRT/CarouselViewRenderer.cs:160-164 | removing the only item leaves an empty source and falls through to the empty reload |
| `CarouselState.UpdateIndicatorsSelectsPosition` | Xamarin.Forms.Platform.WinRT/CarouselViewRenderer.cs:461-470 | exactly the dot at Position is selected afterwards, at most one, and nothing else changes |
| `CarouselState.SelectionChangedSyncsPosition` | Xamarin.Forms.Platform.WinRT/CarouselViewRenderer.cs:409-421 | while loading or removing a selection change does nothing; otherwise Position becomes the selected index, exactly the dot at that index is selected, the dot count and every other field stay as they were, and PositionSelected is raised |
| `CarouselRenderer.CarouselViewRenderer.constructor` | Xamarin.Forms.Platform.WinRT/CarouselViewRenderer.cs:32-46 | the renderer starts with no views or dots, no native selection and all flags clear |
| `CarouselRenderer.CarouselViewRenderer.SetCurrentItem` | Xamarin.Forms.Platform.WinRT/CarouselViewRenderer.cs:450-459 | with an element, a FlipView and a non-empty source: throws iff position > Count-1, else selects position natively; nothing else changes |
| `CarouselRenderer.CarouselViewRenderer.OnPositionPropertyChanged` | Xamarin.Forms.Platform.WinRT/CarouselViewRenderer.cs:308-312 | runs `SetCurrentItem(Position)` exactly when Position is not -1 and the renderer is not swiping, and otherwise changes nothing |
| `CarouselRenderer.CarouselViewRenderer.WritePosition` | Xamarin.Forms.Platform.WinRT/CarouselViewRenderer.cs:84-91 | a write notifies the Position branch only when the value changes |
| `CarouselRenderer.CarouselViewRenderer.ItemsSourceChanged` | Xamarin.Forms.Platform.WinRT/CarouselViewRenderer.cs:72-151 | does nothing without an element and a FlipView; a null or empty source resets Position to 0 and empties views and dots; otherwise it loads as `Load` does |
| `CarouselRenderer.CarouselViewRenderer.Load` | Xamarin.Forms.Platform.WinRT/CarouselViewRenderer.cs:76-130 | the three loops build the views in order, one dot per item and the native selection, or stop on the negative index |
| `CarouselRenderer.CarouselViewRenderer.ClampPositionForLoad` | Xamarin.Forms.Platform.WinRT/CarouselViewRenderer.cs:78-93 | sets loading, and the writes under `_isSwiping` only clamp Position |
| `CarouselRenderer.CarouselViewRenderer.InsertItem` | Xamarin.Forms.Platform.WinRT/CarouselViewRenderer.cs:48-70 | the state after is the specified insert (item, view and a selected dot at the same index, or the exception) and the three lists stay in step when it completes |
| `CarouselRenderer.CarouselViewRenderer.UpdateIndicators` | Xamarin.Forms.Platform.WinRT/CarouselViewRenderer.cs:461-470 | the loop recolours every dot by "index equals Position" and changes nothing else |
| `CarouselRenderer.CarouselViewRenderer.RemoveItem` | Xamarin.Forms.Platform.WinRT/CarouselViewRenderer.cs:153-198 | the state after is the specified remove (guard, exception, the one-item reload or the several-items branch) and the three lists stay in step when it completes |
| `CarouselRenderer.CarouselViewRenderer.RemoveOneOfSeveral` | Xamarin.Forms.Platform.WinRT/CarouselViewRenderer.cs:165-196 | marks removing, moves the native selection back when the current nonzero position goes, then fails on a negative index or on a missing `_Source`, or completes the removal |
| `CarouselRenderer.CarouselViewRenderer.CompleteRemoval` | Xamarin.Forms.Platform.WinRT/CarouselViewRenderer.cs:183-195 | the view and dot go, Position takes the selected index silently, indicators are redrawn, PositionSelected is raised |
| `CarouselRenderer.CarouselViewRenderer.FlipViewSelectionChanged` | Xamarin.Forms.Platform.WinRT/CarouselViewRenderer.cs:409-421 | while loading or removing nothing changes; otherwise Position silently takes the selected index, the indicators are redrawn for it and PositionSelected is raised |

## Left out

- The `Timer` class, `FlipView_SizeChanged`, `OnTick` and `Device.BeginInvokeOnMainThread`: timing and thread hand-off.
- The `await Task.Delay(100)` points: each operation runs to completion, so no other event interleaves at an await.
- State after an escaping exception: an exception out of an `async void` method ends the application. The model gives the state at the throw. Later operations require the lists to be in step, which the failed reload breaks.
- `CreateView`, `AddView`, `DataTemplate.CreateContent`, `SelectTemplate` and `Platform.CreateRenderer`: framework calls. A native view is the token `NativeView(item)`. The template selection of `GetItemViewType` is the parameter `select`.
- `FindVisualChild`, `ButtonHide`, `FlipView_Loaded`, `OnElementChanged` and `Dispose`: visual-tree search and event (un)subscription. Whether the renderer has an Element and a FlipView is fixed when it is created.
- The Width, Height and ShowIndicators branches of `OnElementPropertyChanged`, and the first reload started once both sizes are known: floating-point sizes. `ItemsSourceChanged` is an operation of its own.
- Brushes, colours, dot shapes and sizes: a dot is a boolean.
- Native FlipView behaviour: the selected index changes only when the renderer writes it. It does not shift when `_Source` changes. Renderer writes to it do not raise `SelectionChanged`, which the host raises by calling `FlipViewSelectionChanged`.
- Changes to ItemsSource made by code other than the renderer, and replacing ItemsSource.
- `PositionSelected` subscribers: the model counts the invocations.
- `GenerateDefaultCell` and the layout built in `OnCreateViewHolder`: UI construction. `OnCreateViewHolder` is modelled by its template lookup.
- Lazy creation of `DefaultItemTemplate` and `DefaultMenuItemTemplate`: the two templates are given when the adapter is created. Both are created once and then reused, so they behave the same.
- `NotifyDataSetChanged`: a host call.
- `ElementViewHolder.UpdateVisualState` and the `PropertyChanged` subscription of the `Element` setter: visual-state manager wiring.
- Xamarin.Forms.Core/IShellItemController.cs: an interface declaration without behaviour.
