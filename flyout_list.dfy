/**
 * The flat list that the Android Shell flyout shows: every ShellItem of the
 * Shell, expanded into its sections when it is shown `AsMultipleItems`,
 * followed by the Shell's menu items. Each entry carries a flag that says
 * whether a separator line is drawn above it.
 *
 * Host objects (ShellItem, ShellSection, MenuItem, DataTemplate) are opaque
 * tokens; only the structure the adapter reads is kept.
 */
module FlyoutList {
  import opened Wrappers

  /** An opaque host object. */
  type Token = int

  datatype FlyoutDisplayOptions = AsSingleItem | AsMultipleItems

  /** A ShellItem: its identity, how the flyout displays it, and its ShellSections (`item.Items`). */
  datatype ShellItem = ShellItem(token: Token, display: FlyoutDisplayOptions, sections: seq<Token>)

  /** What an entry of the flyout list refers to. */
  datatype Element =
    | ShellItemElement(item: Token)
    | ShellSectionElement(section: Token)
    | MenuItemElement(menuItem: Token)

  /** A template; `id` is its `IDataTemplateController.Id`, `content` stands for what `CreateContent` builds. */
  datatype DataTemplate = DataTemplate(id: int, content: Token)

  /** The parts of the Shell that the adapter reads. */
  datatype Shell = Shell(
    items: seq<ShellItem>,
    menuItems: seq<Token>,
    itemTemplate: Option<DataTemplate>,
    menuItemTemplate: Option<DataTemplate>)

  /** One row of the flyout: the element and whether a separator is drawn above it. */
  datatype AdapterListItem = AdapterListItem(element: Element, drawTopLine: bool)

  /** How many rows a shell item contributes. */
  function Width(item: ShellItem): nat {
    if item.display == AsMultipleItems then |item.sections| else 1
  }

  /** Rows contributed by all of `items`. */
  function TotalWidth(items: seq<ShellItem>): nat {
    if items == [] then 0 else TotalWidth(items[..|items| - 1]) + Width(items[|items| - 1])
  }

  /** Index of the first row of `items[k]`. */
  function Offset(items: seq<ShellItem>, k: nat): nat
    requires k <= |items|
  {
    TotalWidth(items[..k])
  }

  /** The rows one shell item adds, given the shell item handled before it (if any). */
  function EntriesOf(item: ShellItem, previous: Option<ShellItem>): seq<AdapterListItem> {
    if item.display == AsMultipleItems then
      seq(|item.sections|, i requires 0 <= i < |item.sections| =>
        AdapterListItem(ShellSectionElement(item.sections[i]), previous.Some? && i == 0))
    else
      [AdapterListItem(ShellItemElement(item.token),
                       previous.Some? && previous.value.display == AsMultipleItems)]
  }

  /** The rows of all shell items, in order; the one before each item is its `previous`. */
  function ShellEntries(items: seq<ShellItem>): (r: seq<AdapterListItem>)
    ensures |r| == TotalWidth(items)
  {
    if items == [] then []
    else
      var n := |items| - 1;
      ShellEntries(items[..n]) + EntriesOf(items[n], if n > 0 then Some(items[n - 1]) else None)
  }

  /** The rows of the menu items; the first one draws a separator. */
  function MenuEntries(menuItems: seq<Token>): seq<AdapterListItem> {
    seq(|menuItems|, i requires 0 <= i < |menuItems| => AdapterListItem(MenuItemElement(menuItems[i]), i == 0))
  }

  /** The list `GenerateItemList` builds for `shell`. */
  function ItemList(shell: Shell): (r: seq<AdapterListItem>)
    ensures |r| == TotalWidth(shell.items) + |shell.menuItems|
  {
    ShellEntries(shell.items) + MenuEntries(shell.menuItems)
  }

  /**
   * The row that section `j` of shell item `k` must produce, stated by
   * position alone: sections of an `AsMultipleItems` item draw a line only at
   * section 0 and only when some shell item came before; a singly shown item
   * draws a line exactly when the shell item just before it is `AsMultipleItems`.
   */
  function ExpectedEntry(items: seq<ShellItem>, k: nat, j: nat): AdapterListItem
    requires k < |items| && j < Width(items[k])
  {
    if items[k].display == AsMultipleItems then
      AdapterListItem(ShellSectionElement(items[k].sections[j]), k > 0 && j == 0)
    else
      AdapterListItem(ShellItemElement(items[k].token), k > 0 && items[k - 1].display == AsMultipleItems)
  }

  /** Which shell item, and which of its rows, row `p` comes from. */
  function Locate(items: seq<ShellItem>, p: nat): (kj: (nat, nat))
    requires p < TotalWidth(items)
    ensures kj.0 < |items| && kj.1 < Width(items[kj.0])
    ensures Offset(items, kj.0) + kj.1 == p
  {
    var n := |items| - 1;
    if p >= TotalWidth(items[..n]) then
      assert items[..n] == items[..|items| - 1];
      (n, p - TotalWidth(items[..n]))
    else
      var kj := Locate(items[..n], p);
      assert items[..n][..kj.0] == items[..kj.0];
      kj
  }

  /** Every row of the shell part is the expected row of the item and section it belongs to. */
  lemma {:induction false} ShellEntryAt(items: seq<ShellItem>, k: nat, j: nat)
    requires k < |items| && j < Width(items[k])
    ensures Offset(items, k) + j < TotalWidth(items)
    ensures ShellEntries(items)[Offset(items, k) + j] == ExpectedEntry(items, k, j)
  {
    var n := |items| - 1;
    var init := items[..n];
    var previous := if n > 0 then Some(items[n - 1]) else None;
    assert ShellEntries(items) == ShellEntries(init) + EntriesOf(items[n], previous);
    if k == n {
      assert items[..k] == init;
    } else {
      ShellEntryAt(init, k, j);
      assert init[..k] == items[..k];
      assert init[k] == items[k];
      assert k > 0 ==> init[k - 1] == items[k - 1];
    }
  }

  /** Rows of earlier shell items come strictly before rows of later ones. */
  lemma {:induction false} OffsetsOrdered(items: seq<ShellItem>, k1: nat, k2: nat)
    requires k1 < k2 <= |items|
    ensures Offset(items, k1) + Width(items[k1]) <= Offset(items, k2)
  {
    if k2 == k1 + 1 {
      assert items[..k2][..k1] == items[..k1];
    } else {
      OffsetsOrdered(items, k1, k2 - 1);
      assert items[..k2][..k2 - 1] == items[..k2 - 1];
    }
  }

  /**
   * The whole list, position by position: a shell row is the expected row of
   * the shell item it comes from; the menu rows follow all shell rows in
   * `MenuItems` order, and exactly the first of them draws a line.
   */
  lemma ItemListAt(shell: Shell, p: nat)
    requires p < |ItemList(shell)|
    ensures p < TotalWidth(shell.items) ==>
      var kj := Locate(shell.items, p);
      ItemList(shell)[p] == ExpectedEntry(shell.items, kj.0, kj.1)
    ensures p >= TotalWidth(shell.items) ==>
      var m := p - TotalWidth(shell.items);
      ItemList(shell)[p] == AdapterListItem(MenuItemElement(shell.menuItems[m]), m == 0)
  {
    if p < TotalWidth(shell.items) {
      var kj := Locate(shell.items, p);
      ShellEntryAt(shell.items, kj.0, kj.1);
    }
  }

  /** No row produced by the first shell item draws a line. */
  lemma FirstShellItemDrawsNoLine(shell: Shell, j: nat)
    requires |shell.items| > 0 && j < Width(shell.items[0])
    ensures j < |ItemList(shell)| && !ItemList(shell)[j].drawTopLine
  {
    ShellEntryAt(shell.items, 0, j);
    assert shell.items[..0] == [];
  }
}
