/** The lore panel (game.rs `LoreContents` and the lore half of
    `GameHandle`): what the side panel shows, how the keys toggle it, the
    countdown of custom content, and which lines a redraw produces. Text
    formatting and colours are left out; a view is a list of abstract lines. */
module Lore {
  import opened Ui
  import opened Things
  import opened Players
  import Bread

  datatype LoreContents =
    | Nothing
    | Inventory
    | Items(page: u8)       // an items page, numbered from 0
    | CustomEndless
    | Custom(ticks: u8)     // custom content that stays for `ticks` more redraws

  /** `toggle_inventory`: the inventory view opens from any state and
      closes when it is already open. */
  function ToggleInventory(l: LoreContents): (r: LoreContents)
    ensures r == Nothing <==> l == Inventory
    ensures r == Inventory <==> l != Inventory
  {
    match l
    case Inventory => Nothing
    case _ => Inventory
  }

  /** `toggle_items`: the first items page from any other state, otherwise
      the next page, saturating at page 255. */
  function ToggleItems(l: LoreContents): (r: LoreContents)
    ensures r.Items?
    ensures !l.Items? ==> r.page == 0
    ensures l.Items? && l.page < 255 ==> r.page == l.page + 1
    ensures l.Items? && l.page == 255 ==> r == l
  {
    match l
    case Items(v) => Items(if v == 255 then 255 else v + 1)
    case _ => Items(0)
  }

  /** The state change a redraw of the panel makes: custom content with
      ticks left loses one; every other state is kept. */
  function DrawLore(l: LoreContents): (r: LoreContents)
    ensures l.Custom? && l.ticks > 0 ==> r == Custom(l.ticks - 1)
    ensures !(l.Custom? && l.ticks > 0) ==> r == l
  {
    match l
    case Custom(v) => if v == 0 then l else Custom(v - 1)
    case _ => l
  }

  function ToggleItemsN(l: LoreContents, n: nat): LoreContents
    decreases n
  {
    if n == 0 then l else ToggleItemsN(ToggleItems(l), n - 1)
  }

  function DrawLoreN(l: LoreContents, n: nat): LoreContents
    decreases n
  {
    if n == 0 then l else DrawLoreN(DrawLore(l), n - 1)
  }

  /** Pressing the items key `n` more times from page `p` shows page
      `p + n`, or the last page 255 once that is passed. */
  lemma {:induction false} ItemsPaging(p: u8, n: nat)
    ensures ToggleItemsN(Items(p), n) == Items(if p + n <= 255 then p + n else 255)
    decreases n
  {
    if n > 0 {
      ItemsPaging(if p == 255 then 255 else p + 1, n - 1);
    }
  }

  /** Custom content with `v` ticks shows `v - n` ticks after `n` redraws
      and then stays at 0. */
  lemma {:induction false} CustomCountdown(v: u8, n: nat)
    ensures DrawLoreN(Custom(v), n) == Custom(if n <= v then v - n else 0)
    decreases n
  {
    if n > 0 {
      CustomCountdown(if v == 0 then 0 else v - 1, n - 1);
    }
  }

  /** Items shown per page. */
  const PageSize: nat := 9

  /** An entry of a page, numbered from 1 across the whole inventory. */
  datatype Numbered<T> = Numbered(no: nat, value: T)

  /** `enumerate().skip(page * 9).take(9)` over a list. */
  function Page<T>(xs: seq<T>, page: u8): (r: seq<Numbered<T>>)
    ensures |r| <= PageSize
    ensures |r| == if |xs| <= page * PageSize then 0 else Min(PageSize, |xs| - page * PageSize)
    ensures forall k :: 0 <= k < |r| ==> r[k] == Numbered(page * PageSize + k + 1, xs[page * PageSize + k])
  {
    var start := page * PageSize;
    var rest := xs[Min(start, |xs|)..];
    var shown := rest[..Min(PageSize, |rest|)];
    seq(|shown|, k requires 0 <= k < |shown| => Numbered(start + k + 1, shown[k]))
  }

  function Min(a: int, b: int): int {
    if a <= b then a else b
  }

  /** Every item of an inventory that fits in 256 pages is listed exactly on
      page `i / 9`, at row `i % 9`, under number `i + 1`, and on no other page. */
  lemma ItemOnItsPage<T>(xs: seq<T>, i: nat, page: u8)
    requires i < |xs| && i / PageSize <= 255
    ensures Page(xs, (i / PageSize) as u8)[i % PageSize] == Numbered(i + 1, xs[i])
    ensures page != i / PageSize ==> forall k :: 0 <= k < |Page(xs, page)| ==> Page(xs, page)[k].no != i + 1
  {
    var p := (i / PageSize) as u8;
    assert p * PageSize + i % PageSize == i;
  }

  /** One line of the items view: number, name, and the tier suffix, which
      is shown only for tiers above `Common`. */
  datatype ItemLine = ItemLine(no: nat, name: string, tier: Option<ItemTier>)

  /** The items view of the panel: a heading with the page number counted
      from 1, then one line per item on the page. */
  datatype ItemsPageView = ItemsPageView(pageNo: nat, lines: seq<ItemLine>)

  /** The items view of the panel. */
  function ItemsView(inventory: PlayerInventory, page: u8): (r: ItemsPageView)
    ensures r.pageNo == page + 1
    ensures |r.lines| == |Page(inventory.items, page)|
    ensures forall k :: 0 <= k < |r.lines| ==>
              var d := inventory.items[page * PageSize + k];
              && r.lines[k].no == page * PageSize + k + 1
              && r.lines[k].name == Bread.Name(d.item)
              && (r.lines[k].tier.Some? <==> d.state.tier != Common)
              && (r.lines[k].tier.Some? ==> r.lines[k].tier.value == d.state.tier)
  {
    var entries := Page(inventory.items, page);
    ItemsPageView(page + 1, seq(|entries|, k requires 0 <= k < |entries| =>
      var d := entries[k].value;
      ItemLine(entries[k].no, Bread.Name(d.item), if d.state.tier != Common then Some(d.state.tier) else None)))
  }

  /** One line of the inventory view. */
  datatype InventoryLine =
    | Heading
    | WheatLine(amount: nat)
    | WaterLine(count: Option<nat>)  // the count is printed only above one bucket

  /** The inventory view of the panel: the heading, then a wheat line if
      the player has wheat, then a water line if the player has water. */
  function InventoryView(p: Player): (r: seq<InventoryLine>)
    ensures |r| >= 1 && r[0] == Heading
    ensures WheatLine(p.wheat) in r <==> p.wheat != 0
    ensures WaterLine(None) in r <==> p.water == 1
    ensures WaterLine(Some(p.water)) in r <==> p.water > 1
    ensures |r| == 1 + (if p.wheat != 0 then 1 else 0) + (if p.water != 0 then 1 else 0)
  {
    [Heading]
    + (if p.wheat != 0 then [WheatLine(p.wheat)] else [])
    + (if p.water != 0 then [WaterLine(if p.water > 1 then Some(p.water) else None)] else [])
  }
}
