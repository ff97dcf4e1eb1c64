/** The server's storage layer: the category, menu item, banner and settings tables held as
    maps from id to row (settings as its list of rows), with the reads, inserts, partial
    updates, deletes, toggles, the renumbering loops and the settings upsert. */
module Store {
  import opened Seqs
  import opened Schema
  import opened Sorting

  /** Partial updates (`Partial<Insert…>`): a field left out (None) keeps its stored value. */
  datatype CategoryPatch = CategoryPatch(name: Option<string>, order: Option<int>)

  /** `imageUrl` is nullable, so a patch may set it to a value or to null. */
  datatype MenuItemPatch = MenuItemPatch(
    categoryId: Option<Id>,
    name: Option<string>,
    description: Option<string>,
    price: Option<int>,
    imageUrl: Option<Option<string>>,
    isAvailable: Option<bool>,
    isHidden: Option<bool>)

  datatype BannerPatch = BannerPatch(imageUrl: Option<string>, order: Option<int>, isActive: Option<bool>)

  datatype SettingsPatch = SettingsPatch(
    whatsappNumber: Option<string>,
    restaurantName: Option<string>,
    currency: Option<string>)

  /** `.set(patch)` on a category row. */
  function PatchCategory(c: Category, p: CategoryPatch): (r: Category)
    ensures r.id == c.id
    ensures p.name.None? ==> r.name == c.name
    ensures p.name.Some? ==> r.name == p.name.value
    ensures p.order.None? ==> r.order == c.order
    ensures p.order.Some? ==> r.order == p.order.value
  {
    Category(c.id, p.name.GetOr(c.name), p.order.GetOr(c.order))
  }

  /** `.set(patch)` on a menu item row. */
  function PatchMenuItem(m: MenuItem, p: MenuItemPatch): (r: MenuItem)
    ensures r.id == m.id
    ensures p.categoryId.None? ==> r.categoryId == m.categoryId
    ensures p.categoryId.Some? ==> r.categoryId == p.categoryId.value
    ensures p.name.None? ==> r.name == m.name
    ensures p.name.Some? ==> r.name == p.name.value
    ensures p.description.None? ==> r.description == m.description
    ensures p.description.Some? ==> r.description == p.description.value
    ensures p.price.None? ==> r.price == m.price
    ensures p.price.Some? ==> r.price == p.price.value
    ensures p.imageUrl.None? ==> r.imageUrl == m.imageUrl
    ensures p.imageUrl.Some? ==> r.imageUrl == p.imageUrl.value
    ensures p.isAvailable.None? ==> r.isAvailable == m.isAvailable
    ensures p.isAvailable.Some? ==> r.isAvailable == p.isAvailable.value
    ensures p.isHidden.None? ==> r.isHidden == m.isHidden
    ensures p.isHidden.Some? ==> r.isHidden == p.isHidden.value
  {
    MenuItem(m.id, p.categoryId.GetOr(m.categoryId), p.name.GetOr(m.name),
             p.description.GetOr(m.description), p.price.GetOr(m.price),
             p.imageUrl.GetOr(m.imageUrl), p.isAvailable.GetOr(m.isAvailable),
             p.isHidden.GetOr(m.isHidden))
  }

  /** `.set(patch)` on a banner row. */
  function PatchBanner(b: Banner, p: BannerPatch): (r: Banner)
    ensures r.id == b.id
    ensures p.imageUrl.None? ==> r.imageUrl == b.imageUrl
    ensures p.imageUrl.Some? ==> r.imageUrl == p.imageUrl.value
    ensures p.order.None? ==> r.order == b.order
    ensures p.order.Some? ==> r.order == p.order.value
    ensures p.isActive.None? ==> r.isActive == b.isActive
    ensures p.isActive.Some? ==> r.isActive == p.isActive.value
  {
    Banner(b.id, p.imageUrl.GetOr(b.imageUrl), p.order.GetOr(b.order), p.isActive.GetOr(b.isActive))
  }

  /** `.set(patch)` on the settings row. */
  function PatchSettings(s: Settings, p: SettingsPatch): (r: Settings)
    ensures r.id == s.id
    ensures p.whatsappNumber.None? ==> r.whatsappNumber == s.whatsappNumber
    ensures p.whatsappNumber.Some? ==> r.whatsappNumber == p.whatsappNumber.value
    ensures p.restaurantName.None? ==> r.restaurantName == s.restaurantName
    ensures p.restaurantName.Some? ==> r.restaurantName == p.restaurantName.value
    ensures p.currency.None? ==> r.currency == s.currency
    ensures p.currency.Some? ==> r.currency == p.currency.value
  {
    Settings(s.id, p.whatsappNumber.GetOr(s.whatsappNumber), p.restaurantName.GetOr(s.restaurantName),
             p.currency.GetOr(s.currency))
  }

  /** Applying the same patch twice is applying it once. */
  lemma PatchesAreIdempotent(c: Category, pc: CategoryPatch, m: MenuItem, pm: MenuItemPatch,
                             b: Banner, pb: BannerPatch, s: Settings, ps: SettingsPatch)
    ensures PatchCategory(PatchCategory(c, pc), pc) == PatchCategory(c, pc)
    ensures PatchMenuItem(PatchMenuItem(m, pm), pm) == PatchMenuItem(m, pm)
    ensures PatchBanner(PatchBanner(b, pb), pb) == PatchBanner(b, pb)
    ensures PatchSettings(PatchSettings(s, ps), ps) == PatchSettings(s, ps)
  {
  }

  /** The insert a partial settings object makes when no row exists (`settingsData as
      InsertSettings`): both required columns must be present, else the insert fails. */
  function SettingsInsert(p: SettingsPatch): (r: Option<InsertSettings>)
    ensures r.Some? <==> p.whatsappNumber.Some? && p.restaurantName.Some?
    ensures r.Some? ==> r.value.whatsappNumber == p.whatsappNumber.value
                        && r.value.restaurantName == p.restaurantName.value
                        && r.value.currency == p.currency
  {
    if p.whatsappNumber.Some? && p.restaurantName.Some? then
      Some(InsertSettings(p.whatsappNumber.value, p.restaurantName.value, p.currency))
    else None
  }

  /** The order a row ends with after the renumbering loop over `ids`: the position of its
      id's last occurrence, or its old order when its id is not listed. */
  function NewOrder(before: int, ids: seq<Id>, id: Id): (r: int)
    ensures id !in ids ==> r == before
    ensures id in ids ==> 0 <= r < |ids| && ids[r] == id && forall j :: r < j < |ids| ==> ids[j] != id
  {
    if id in ids then LastIndexOf(ids, id) else before
  }

  /** One more turn of the loop: the order for `ids[..i + 1]` is `i` for the id written at
      step `i`, and the order for `ids[..i]` for every other id. */
  lemma NewOrderStep(ids: seq<Id>, i: nat)
    requires i < |ids|
    ensures forall b, id :: NewOrder(b, ids[..i + 1], id) == if id == ids[i] then i else NewOrder(b, ids[..i], id)
  {
    assert ids[..i + 1][..i] == ids[..i];
    assert ids[..i + 1][i] == ids[i];
    forall b, id
      ensures NewOrder(b, ids[..i + 1], id) == if id == ids[i] then i else NewOrder(b, ids[..i], id)
    {
      if id != ids[i] {
        assert id in ids[..i + 1] <==> id in ids[..i];
      }
    }
  }

  /** The order column of a table. */
  function Orders<T>(table: map<Id, T>, order: T -> int): (r: map<Id, int>)
    ensures r.Keys == table.Keys
  {
    map id | id in table :: order(table[id])
  }

  /** The order column after renumbering by `ids`. */
  function Renumbered(orders: map<Id, int>, ids: seq<Id>): (r: map<Id, int>)
    ensures r.Keys == orders.Keys
  {
    map id | id in orders :: NewOrder(orders[id], ids, id)
  }

  /** When the submitted ids list every row exactly once, the orders become exactly 0..n-1:
      each within range, position k held by the k-th id, and no two rows sharing one. */
  lemma RenumberedIsContiguous(orders: map<Id, int>, ids: seq<Id>)
    requires Distinct(ids)
    requires forall id :: id in orders <==> id in ids
    ensures var after := Renumbered(orders, ids);
            && (forall id :: id in after ==> 0 <= after[id] < |ids|)
            && (forall k :: 0 <= k < |ids| ==> ids[k] in after && after[ids[k]] == k)
            && (forall a, b :: a in after && b in after && a != b ==> after[a] != after[b])
  {
    var after := Renumbered(orders, ids);
    forall k | 0 <= k < |ids|
      ensures ids[k] in after && after[ids[k]] == k
    {
      LastIndexOfDistinct(ids, k);
    }
  }

  /** The rows of `table` whose ids are in `keys`, in some order, each once. */
  ghost function TableRows<T>(table: map<Id, T>, keys: set<Id>, idOf: T -> Id): (r: seq<T>)
    requires keys <= table.Keys && Keyed(table, idOf)
    ensures |r| == |keys|
    ensures forall id :: id in keys ==> table[id] in r
    ensures forall i :: 0 <= i < |r| ==> idOf(r[i]) in keys && table[idOf(r[i])] == r[i]
    ensures UniqueBy(r, idOf)
    decreases keys
  {
    if keys == {} then []
    else
      var k :| k in keys;
      var rest := TableRows(table, keys - {k}, idOf);
      TableRowsCons(table, keys, k, rest, idOf);
      [table[k]] + rest
  }

  /** The row under `k` in front of the rows of the other keys: still each key's row once. */
  lemma TableRowsCons<T>(table: map<Id, T>, keys: set<Id>, k: Id, rest: seq<T>, idOf: T -> Id)
    requires keys <= table.Keys && Keyed(table, idOf) && k in keys
    requires forall id :: id in keys - {k} ==> table[id] in rest
    requires forall i :: 0 <= i < |rest| ==> idOf(rest[i]) in keys - {k} && table[idOf(rest[i])] == rest[i]
    requires UniqueBy(rest, idOf)
    ensures forall id :: id in keys ==> table[id] in [table[k]] + rest
    ensures forall i :: 0 <= i < |rest| + 1 ==>
      idOf(([table[k]] + rest)[i]) in keys && table[idOf(([table[k]] + rest)[i])] == ([table[k]] + rest)[i]
    ensures UniqueBy([table[k]] + rest, idOf)
  {
    var r := [table[k]] + rest;
    assert idOf(r[0]) == k;
    forall id | id in keys
      ensures table[id] in r
    {
      if id != k {
        var i :| 0 <= i < |rest| && rest[i] == table[id];
        assert r[i + 1] == table[id];
      }
    }
    forall i | 0 < i < |r|
      ensures idOf(r[i]) in keys && table[idOf(r[i])] == r[i]
    {
      assert r[i] == rest[i - 1];
    }
    forall i, j | 0 <= i < j < |r|
      ensures idOf(r[i]) != idOf(r[j])
    {
      assert r[j] == rest[j - 1];
      if i > 0 {
        assert r[i] == rest[i - 1];
      }
    }
  }

  /** Every row stored under its own id. */
  ghost predicate Keyed<T>(table: map<Id, T>, idOf: T -> Id) {
    forall id :: id in table ==> idOf(table[id]) == id
  }

  /** The database: one map per table, and the settings rows. */
  class Store {
    var categories: map<Id, Category>
    var menuItems: map<Id, MenuItem>
    var banners: map<Id, Banner>
    var settingsRows: seq<Settings>

    /** Each row is stored under its own primary key. */
    ghost predicate Valid()
      reads this
    {
      && Keyed(categories, (c: Category) => c.id)
      && Keyed(menuItems, (m: MenuItem) => m.id)
      && Keyed(banners, (b: Banner) => b.id)
    }

    constructor ()
      ensures Valid()
      ensures categories == map[] && menuItems == map[] && banners == map[] && settingsRows == []
    {
      categories := map[];
      menuItems := map[];
      banners := map[];
      settingsRows := [];
    }

    /** `getAllCategories`: every category, by ascending `order`, each once. */
    ghost function AllCategories(): (r: seq<Category>)
      requires Valid()
      reads this
      ensures SortedBy(r, (c: Category) => c.order)
      ensures forall c :: c in r <==> c.id in categories && categories[c.id] == c
      ensures |r| == |categories.Keys|
      ensures forall i, j :: 0 <= i < j < |r| ==> r[i].id != r[j].id
    {
      var rows := TableRows(categories, categories.Keys, (c: Category) => c.id);
      var r := SortBy(rows, (c: Category) => c.order);
      assert forall c :: c in r <==> c in multiset(rows);
      UniqueByPermutation(rows, r, (c: Category) => c.id);
      r
    }

    /** `getAllMenuItems`: every menu item, in no particular order, each once. */
    ghost function AllMenuItems(): (r: seq<MenuItem>)
      requires Valid()
      reads this
      ensures forall m :: m in r <==> m.id in menuItems && menuItems[m.id] == m
      ensures |r| == |menuItems.Keys|
      ensures forall i, j :: 0 <= i < j < |r| ==> r[i].id != r[j].id
    {
      TableRows(menuItems, menuItems.Keys, (m: MenuItem) => m.id)
    }

    /** `getMenuItemsByCategory`: the items of one category, each once. */
    ghost function MenuItemsByCategory(categoryId: Id): (r: seq<MenuItem>)
      requires Valid()
      reads this
      ensures forall m :: m in r <==> m.id in menuItems && menuItems[m.id] == m && m.categoryId == categoryId
      ensures forall i, j :: 0 <= i < j < |r| ==> r[i].id != r[j].id
    {
      var rows := AllMenuItems();
      assert UniqueBy(rows, (m: MenuItem) => m.id);
      FilterUniqueBy(rows, (m: MenuItem) => m.categoryId == categoryId, (m: MenuItem) => m.id);
      Filter(rows, (m: MenuItem) => m.categoryId == categoryId)
    }

    /** `getAllBanners`: every banner, by ascending `order`, each once. */
    ghost function AllBanners(): (r: seq<Banner>)
      requires Valid()
      reads this
      ensures SortedBy(r, (b: Banner) => b.order)
      ensures forall b :: b in r <==> b.id in banners && banners[b.id] == b
      ensures |r| == |banners.Keys|
      ensures forall i, j :: 0 <= i < j < |r| ==> r[i].id != r[j].id
    {
      var rows := TableRows(banners, banners.Keys, (b: Banner) => b.id);
      var r := SortBy(rows, (b: Banner) => b.order);
      assert forall b :: b in r <==> b in multiset(rows);
      UniqueByPermutation(rows, r, (b: Banner) => b.id);
      r
    }

    /** `getActiveBanners`: exactly the active banners, by ascending `order`, each once (the
        sorted listing with the inactive rows dropped). */
    ghost function ActiveBanners(): (r: seq<Banner>)
      requires Valid()
      reads this
      ensures SortedBy(r, (b: Banner) => b.order)
      ensures forall b :: b in r <==> b.id in banners && banners[b.id] == b && b.isActive
      ensures forall i, j :: 0 <= i < j < |r| ==> r[i].id != r[j].id
    {
      var all := AllBanners();
      assert UniqueBy(all, (b: Banner) => b.id);
      FilterUniqueBy(all, (b: Banner) => b.isActive, (b: Banner) => b.id);
      FilterSorted(all, (b: Banner) => b.isActive, (b: Banner) => b.order);
      assert forall b :: b in Filter(all, (b: Banner) => b.isActive) <==> b in all && b.isActive by {
        forall b
          ensures b in Filter(all, (b: Banner) => b.isActive) <==> b in all && b.isActive
        {
          FilterMembers(all, (b: Banner) => b.isActive, b);
        }
      }
      Filter(all, (b: Banner) => b.isActive)
    }

    /** `getMenuItem`: the row with this id, if any. */
    function MenuItemById(id: Id): (r: Option<MenuItem>)
      requires Valid()
      reads this
      ensures r.None? <==> id !in menuItems
      ensures r.Some? ==> r.value == menuItems[id] && r.value.id == id
    {
      if id in menuItems then Some(menuItems[id]) else None
    }

    /** `getBanner`: the row with this id, if any. */
    function BannerById(id: Id): (r: Option<Banner>)
      requires Valid()
      reads this
      ensures r.None? <==> id !in banners
      ensures r.Some? ==> r.value == banners[id] && r.value.id == id
    {
      if id in banners then Some(banners[id]) else None
    }

    /** `getSettings`: the first settings row, if any. */
    function CurrentSettings(): (r: Option<Settings>)
      reads this
      ensures r.None? <==> |settingsRows| == 0
      ensures r.Some? ==> r.value == settingsRows[0]
    {
      if |settingsRows| == 0 then None else Some(settingsRows[0])
    }

    /** `createCategory`: the row with its defaults under a newly generated id. An id already
        in use violates the primary key and the insert fails. */
    method CreateCategory(ins: InsertCategory, freshId: Id) returns (r: Option<Category>)
      requires Valid()
      modifies this`categories
      ensures Valid()
      ensures freshId in old(categories) ==> r.None? && categories == old(categories)
      ensures freshId !in old(categories) ==>
        r == Some(CategoryRow(freshId, ins)) && categories == old(categories)[freshId := r.value]
    {
      if freshId in categories {
        return None;
      }
      var row := CategoryRow(freshId, ins);
      categories := categories[freshId := row];
      r := Some(row);
    }

    /** `createMenuItem`. */
    method CreateMenuItem(ins: InsertMenuItem, freshId: Id) returns (r: Option<MenuItem>)
      requires Valid()
      modifies this`menuItems
      ensures Valid()
      ensures freshId in old(menuItems) ==> r.None? && menuItems == old(menuItems)
      ensures freshId !in old(menuItems) ==>
        r == Some(MenuItemRow(freshId, ins)) && menuItems == old(menuItems)[freshId := r.value]
    {
      if freshId in menuItems {
        return None;
      }
      var row := MenuItemRow(freshId, ins);
      menuItems := menuItems[freshId := row];
      r := Some(row);
    }

    /** `createBanner`. */
    method CreateBanner(ins: InsertBanner, freshId: Id) returns (r: Option<Banner>)
      requires Valid()
      modifies this`banners
      ensures Valid()
      ensures freshId in old(banners) ==> r.None? && banners == old(banners)
      ensures freshId !in old(banners) ==>
        r == Some(BannerRow(freshId, ins)) && banners == old(banners)[freshId := r.value]
    {
      if freshId in banners {
        return None;
      }
      var row := BannerRow(freshId, ins);
      banners := banners[freshId := row];
      r := Some(row);
    }

    /** `updateCategory`: the patched row, or None when no row has this id. */
    method UpdateCategory(id: Id, patch: CategoryPatch) returns (r: Option<Category>)
      requires Valid()
      modifies this`categories
      ensures Valid()
      ensures id !in old(categories) ==> r.None? && categories == old(categories)
      ensures id in old(categories) ==>
        r == Some(PatchCategory(old(categories)[id], patch)) && categories == old(categories)[id := r.value]
    {
      if id !in categories {
        return None;
      }
      var row := PatchCategory(categories[id], patch);
      categories := categories[id := row];
      r := Some(row);
    }

    /** `updateMenuItem`. */
    method UpdateMenuItem(id: Id, patch: MenuItemPatch) returns (r: Option<MenuItem>)
      requires Valid()
      modifies this`menuItems
      ensures Valid()
      ensures id !in old(menuItems) ==> r.None? && menuItems == old(menuItems)
      ensures id in old(menuItems) ==>
        r == Some(PatchMenuItem(old(menuItems)[id], patch)) && menuItems == old(menuItems)[id := r.value]
    {
      if id !in menuItems {
        return None;
      }
      var row := PatchMenuItem(menuItems[id], patch);
      menuItems := menuItems[id := row];
      r := Some(row);
    }

    /** `updateBanner`. */
    method UpdateBanner(id: Id, patch: BannerPatch) returns (r: Option<Banner>)
      requires Valid()
      modifies this`banners
      ensures Valid()
      ensures id !in old(banners) ==> r.None? && banners == old(banners)
      ensures id in old(banners) ==>
        r == Some(PatchBanner(old(banners)[id], patch)) && banners == old(banners)[id := r.value]
    {
      if id !in banners {
        return None;
      }
      var row := PatchBanner(banners[id], patch);
      banners := banners[id := row];
      r := Some(row);
    }

    /** `deleteCategory`: true exactly when a row was removed. Menu items are not touched. */
    method DeleteCategory(id: Id) returns (deleted: bool)
      requires Valid()
      modifies this`categories
      ensures Valid()
      ensures deleted <==> id in old(categories)
      ensures categories == old(categories) - {id}
    {
      deleted := id in categories;
      categories := categories - {id};
    }

    /** `deleteMenuItem`. */
    method DeleteMenuItem(id: Id) returns (deleted: bool)
      requires Valid()
      modifies this`menuItems
      ensures Valid()
      ensures deleted <==> id in old(menuItems)
      ensures menuItems == old(menuItems) - {id}
    {
      deleted := id in menuItems;
      menuItems := menuItems - {id};
    }

    /** `deleteBanner`. */
    method DeleteBanner(id: Id) returns (deleted: bool)
      requires Valid()
      modifies this`banners
      ensures Valid()
      ensures deleted <==> id in old(banners)
      ensures banners == old(banners) - {id}
    {
      deleted := id in banners;
      banners := banners - {id};
    }

    /** `toggleItemAvailability`: despite its name it sets the given value; only that one field
        of the matching row changes. */
    method SetItemAvailability(id: Id, isAvailable: bool) returns (r: Option<MenuItem>)
      requires Valid()
      modifies this`menuItems
      ensures Valid()
      ensures id !in old(menuItems) ==> r.None? && menuItems == old(menuItems)
      ensures id in old(menuItems) ==>
        r == Some(old(menuItems)[id].(isAvailable := isAvailable)) && menuItems == old(menuItems)[id := r.value]
    {
      if id !in menuItems {
        return None;
      }
      var row := menuItems[id].(isAvailable := isAvailable);
      menuItems := menuItems[id := row];
      r := Some(row);
    }

    /** `toggleItemVisibility`: sets `isHidden` of the matching row. */
    method SetItemVisibility(id: Id, isHidden: bool) returns (r: Option<MenuItem>)
      requires Valid()
      modifies this`menuItems
      ensures Valid()
      ensures id !in old(menuItems) ==> r.None? && menuItems == old(menuItems)
      ensures id in old(menuItems) ==>
        r == Some(old(menuItems)[id].(isHidden := isHidden)) && menuItems == old(menuItems)[id := r.value]
    {
      if id !in menuItems {
        return None;
      }
      var row := menuItems[id].(isHidden := isHidden);
      menuItems := menuItems[id := row];
      r := Some(row);
    }

    /** `toggleBannerActive`: sets `isActive` of the matching row. */
    method SetBannerActive(id: Id, isActive: bool) returns (r: Option<Banner>)
      requires Valid()
      modifies this`banners
      ensures Valid()
      ensures id !in old(banners) ==> r.None? && banners == old(banners)
      ensures id in old(banners) ==>
        r == Some(old(banners)[id].(isActive := isActive)) && banners == old(banners)[id := r.value]
    {
      if id !in banners {
        return None;
      }
      var row := banners[id].(isActive := isActive);
      banners := banners[id := row];
      r := Some(row);
    }

    /** `reorderCategories`: for i from 0, the row whose id is `ids[i]` gets order i. Rows not
        listed keep their order, ids matching no row add nothing, and an id listed twice keeps
        the last position. */
    method ReorderCategories(ids: seq<Id>)
      requires Valid()
      modifies this`categories
      ensures Valid()
      ensures categories.Keys == old(categories).Keys
      ensures forall id :: id in categories ==>
        categories[id] == old(categories)[id].(order := NewOrder(old(categories)[id].order, ids, id))
      ensures Orders(categories, (c: Category) => c.order)
              == Renumbered(Orders(old(categories), (c: Category) => c.order), ids)
    {
      ghost var before := categories;
      for i := 0 to |ids|
        invariant Valid()
        invariant categories.Keys == before.Keys
        invariant forall id :: id in categories ==>
          categories[id] == before[id].(order := NewOrder(before[id].order, ids[..i], id))
      {
        NewOrderStep(ids, i);
        var id := ids[i];
        if id in categories {
          categories := categories[id := categories[id].(order := i)];
        }
      }
      assert ids[..|ids|] == ids;
    }

    /** `reorderBanners`: the same loop over the banners table. */
    method ReorderBanners(ids: seq<Id>)
      requires Valid()
      modifies this`banners
      ensures Valid()
      ensures banners.Keys == old(banners).Keys
      ensures forall id :: id in banners ==>
        banners[id] == old(banners)[id].(order := NewOrder(old(banners)[id].order, ids, id))
      ensures Orders(banners, (b: Banner) => b.order)
              == Renumbered(Orders(old(banners), (b: Banner) => b.order), ids)
    {
      ghost var before := banners;
      for i := 0 to |ids|
        invariant Valid()
        invariant banners.Keys == before.Keys
        invariant forall id :: id in banners ==>
          banners[id] == before[id].(order := NewOrder(before[id].order, ids[..i], id))
      {
        NewOrderStep(ids, i);
        var id := ids[i];
        if id in banners {
          banners := banners[id := banners[id].(order := i)];
        }
      }
      assert ids[..|ids|] == ids;
    }

    /** `updateSettings`: patch the first row when there is one; otherwise insert, which needs
        both required columns (the currency defaults to "$"). It never adds a second row. */
    method UpdateSettings(patch: SettingsPatch, freshId: Id) returns (r: Option<Settings>)
      modifies this`settingsRows
      ensures |old(settingsRows)| > 0 ==>
        r == Some(PatchSettings(old(settingsRows)[0], patch))
        && settingsRows == old(settingsRows)[0 := r.value]
      ensures |old(settingsRows)| == 0 && SettingsInsert(patch).Some? ==>
        r == Some(SettingsRow(freshId, SettingsInsert(patch).value)) && settingsRows == [r.value]
      ensures |old(settingsRows)| == 0 && SettingsInsert(patch).None? ==>
        r.None? && settingsRows == []
      ensures |old(settingsRows)| <= 1 ==> |settingsRows| <= 1
    {
      var existing := CurrentSettings();
      if existing.Some? {
        var row := PatchSettings(existing.value, patch);
        settingsRows := settingsRows[0 := row];
        r := Some(row);
      } else {
        var ins := SettingsInsert(patch);
        if ins.None? {
          return None;
        }
        var row := SettingsRow(freshId, ins.value);
        settingsRows := [row];
        r := Some(row);
      }
    }
  }
}
