/**
 * The RecyclerView adapter behind the Android Shell flyout: it keeps the
 * generated list, answers the item count, caches the template chosen for
 * each view type, and binds rows to view holders.
 */
module FlyoutAdapter {
  import opened Wrappers
  import opened FlyoutList

  class ShellFlyoutRecyclerAdapter {
    /** `_listItems`. */
    var listItems: seq<AdapterListItem>
    /** `_templateMap`: template by `Id`, filled by `GetItemViewType`. */
    var templateMap: map<int, DataTemplate>
    /** `DefaultItemTemplate` and `DefaultMenuItemTemplate`. */
    const defaultItemTemplate: DataTemplate
    const defaultMenuItemTemplate: DataTemplate
    /** The Shell the current list was generated from. */
    ghost var generatedFrom: Shell

    ghost predicate Valid()
      reads this
    {
      && listItems == ItemList(generatedFrom)
      && forall id :: id in templateMap ==> templateMap[id].id == id
    }

    constructor (shell: Shell, defaultItem: DataTemplate, defaultMenuItem: DataTemplate)
      ensures Valid() && generatedFrom == shell
      ensures listItems == ItemList(shell) && templateMap == map[]
      ensures defaultItemTemplate == defaultItem && defaultMenuItemTemplate == defaultMenuItem
    {
      defaultItemTemplate := defaultItem;
      defaultMenuItemTemplate := defaultMenuItem;
      templateMap := map[];
      generatedFrom := shell;
      var generated := GenerateItemList(shell);
      listItems := generated;
    }

    /** `ItemCount`: one row per section of an `AsMultipleItems` item, one per other item, one per menu item. */
    function ItemCount(): (n: nat)
      reads this
      requires Valid()
      ensures n == TotalWidth(generatedFrom.items) + |generatedFrom.menuItems|
    {
      |listItems|
    }

    /** `GenerateItemList`: walks the shell items, then the menu items, remembering the previous shell item. */
    static method GenerateItemList(shell: Shell) returns (result: seq<AdapterListItem>)
      ensures result == ItemList(shell)
    {
      result := [];
      var previous: Option<ShellItem> := None;
      var k := 0;
      while k < |shell.items|
        invariant 0 <= k <= |shell.items|
        invariant result == ShellEntries(shell.items[..k])
        invariant previous == if k > 0 then Some(shell.items[k - 1]) else None
      {
        var item := shell.items[k];
        result := AddShellItem(result, item, previous);
        assert shell.items[..k + 1][..k] == shell.items[..k];
        previous := Some(item);
        k := k + 1;
      }
      assert shell.items[..k] == shell.items;
      var menuItems := shell.menuItems;
      var i := 0;
      while i < |menuItems|
        invariant 0 <= i <= |menuItems|
        invariant result == ShellEntries(shell.items) + MenuEntries(menuItems)[..i]
      {
        result := result + [AdapterListItem(MenuItemElement(menuItems[i]), i == 0)];
        i := i + 1;
        assert MenuEntries(menuItems)[..i] == MenuEntries(menuItems)[..i - 1] + [MenuEntries(menuItems)[i - 1]];
      }
      assert MenuEntries(menuItems)[..i] == MenuEntries(menuItems);
    }

    /** The body of the shell-item loop of `GenerateItemList`: the rows of one shell item are appended. */
    static method AddShellItem(result: seq<AdapterListItem>, item: ShellItem, previous: Option<ShellItem>)
      returns (extended: seq<AdapterListItem>)
      ensures extended == result + EntriesOf(item, previous)
    {
      extended := result;
      if item.display == AsMultipleItems {
        var i := 0;
        while i < |item.sections|
          invariant 0 <= i <= |item.sections|
          invariant extended == result + EntriesOf(item, previous)[..i]
        {
          extended := extended + [AdapterListItem(ShellSectionElement(item.sections[i]), previous.Some? && i == 0)];
          i := i + 1;
          assert EntriesOf(item, previous)[..i] == EntriesOf(item, previous)[..i - 1] + [EntriesOf(item, previous)[i - 1]];
        }
        assert EntriesOf(item, previous)[..i] == EntriesOf(item, previous);
      } else {
        extended := extended + [AdapterListItem(ShellItemElement(item.token),
                                                previous.Some? && previous.value.display == AsMultipleItems)];
      }
    }

    /** `OnShellStructureChanged`: the list is replaced by one generated from the changed Shell. */
    method OnShellStructureChanged(shell: Shell)
      requires Valid()
      modifies this
      ensures Valid() && generatedFrom == shell
      ensures listItems == ItemList(shell) && templateMap == old(templateMap)
    {
      listItems := GenerateItemList(shell);
      generatedFrom := shell;
    }

    /**
     * `GetItemViewType`: menu items use the Shell's menu item template (or the
     * default one), everything else the item template (or the default one);
     * the host's `SelectDataTemplate` (`select`) picks the concrete template,
     * which is cached under the id that is returned.
     */
    method GetItemViewType(shell: Shell, position: nat, select: (DataTemplate, Element) -> DataTemplate)
      returns (id: int)
      requires Valid() && position < |listItems|
      modifies this
      ensures Valid() && listItems == old(listItems) && generatedFrom == old(generatedFrom)
      ensures var element := listItems[position].element;
              var chosen := if element.MenuItemElement? then shell.menuItemTemplate.GetOr(defaultMenuItemTemplate)
                            else shell.itemTemplate.GetOr(defaultItemTemplate);
              var template := select(chosen, element);
              id == template.id && templateMap == old(templateMap)[id := template]
      ensures id in templateMap && templateMap[id].id == id
    {
      var item := listItems[position];
      var dataTemplate := shell.itemTemplate.GetOr(defaultItemTemplate);
      if item.element.MenuItemElement? {
        dataTemplate := shell.menuItemTemplate.GetOr(defaultMenuItemTemplate);
      }
      var template := select(dataTemplate, item.element);
      id := template.id;
      templateMap := templateMap[id := template];
    }

    /**
     * The template lookup of `OnCreateViewHolder`: the template cached for
     * `viewType`, or `None` where the dictionary lookup would throw.
     */
    method OnCreateViewHolder(viewType: int) returns (template: Option<DataTemplate>)
      requires Valid()
      ensures viewType in templateMap <==> template.Some?
      ensures template.Some? ==> template.value == templateMap[viewType] && template.value.id == viewType
    {
      if viewType in templateMap {
        template := Some(templateMap[viewType]);
      } else {
        template := None;
      }
    }

    /** `OnBindViewHolder`: the bar shows the row's separator flag and the holder gets the row's element. */
    method OnBindViewHolder(holder: ElementViewHolder, position: nat)
      requires Valid() && holder.Valid() && position < |listItems|
      modifies holder
      ensures holder.Valid()
      ensures holder.barVisible == listItems[position].drawTopLine
      ensures holder.element == Some(listItems[position].element)
    {
      var item := listItems[position];
      holder.barVisible := item.drawTopLine;
      holder.SetElement(Some(item.element));
    }
  }

  /** A row's view holder: the element it shows, its content's binding context and its separator bar. */
  class ElementViewHolder {
    /** `_element`; `None` is null. */
    var element: Option<Element>
    /** `View.BindingContext`. */
    var bindingContext: Option<Element>
    /** Whether `Bar` is visible. */
    var barVisible: bool

    ghost predicate Valid()
      reads this
    {
      bindingContext == element
    }

    constructor ()
      ensures Valid() && element == None && barVisible
    {
      element := None;
      bindingContext := None;
      barVisible := true;
    }

    /** The `Element` setter: assigning the current element changes nothing; otherwise the content is rebound. */
    method SetElement(value: Option<Element>)
      requires Valid()
      modifies this
      ensures Valid() && element == value && barVisible == old(barVisible)
      ensures old(element) == value ==> bindingContext == old(bindingContext)
    {
      if element == value {
        return;
      }
      element := value;
      bindingContext := value;
    }

    /** `OnClicked`: the element handed to the selection callback, `None` when the callback is not invoked. */
    method OnClicked() returns (invoked: Option<Element>)
      ensures element.None? ==> invoked.None?
      ensures element.Some? ==> invoked == element
    {
      if element.None? {
        return None;
      }
      invoked := element;
    }
  }
}
