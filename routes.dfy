/** The HTTP handlers' decisions, over the store: the customer listings without hidden items,
    the settings default, the read-modify-write toggles, and which failure becomes 400, 404 or
    500. */
module Routes {
  import opened Seqs
  import opened Schema
  import opened Store

  /** What a handler answers: a JSON body, or an error status. */
  datatype Response<T> = Ok(body: T) | Failure(status: int)

  const BadRequest: int := 400
  const NotFound: int := 404
  const ServerError: int := 500

  /** The outcome of a body's schema validation. */
  datatype Parsed<T> = Parsed(value: T) | Invalid

  /** What an admin dialog's submit sends: a POST of a new row, or a PUT of a patch to the row
      being edited. */
  datatype Submission<C, U> = Create(payload: C) | Update(id: Id, patch: U)

  /** Why a handler's `try` block threw. */
  datatype Error = ValidationError | StoreError

  /** The `catch` blocks: a validation error answers 400, anything else 500. */
  function StatusOf(e: Error): (status: int)
    ensures status == 400 <==> e == ValidationError
    ensures status == 500 <==> e == StoreError
  {
    match e
    case ValidationError => BadRequest
    case StoreError => ServerError
  }

  /** A user as sent by the auth endpoints: every field except the password. */
  datatype PublicUser = PublicUser(id: Id, username: string)

  function WithoutPassword(u: User): (r: PublicUser)
    ensures r.id == u.id && r.username == u.username
  {
    PublicUser(u.id, u.username)
  }

  /** Two users differing only in their password look the same to the client. */
  lemma PasswordIsNotSent(u: User, password: string)
    ensures WithoutPassword(u.(password := password)) == WithoutPassword(u)
  {
  }

  /** GET /api/menu-items: the stored items that are not hidden, each once. */
  ghost function VisibleMenuItems(store: Store): (r: seq<MenuItem>)
    requires store.Valid()
    reads store
    ensures forall m :: m in r <==> m.id in store.menuItems && store.menuItems[m.id] == m && !m.isHidden
    ensures forall i, j :: 0 <= i < j < |r| ==> r[i].id != r[j].id
  {
    var rows := store.AllMenuItems();
    assert UniqueBy(rows, (m: MenuItem) => m.id);
    FilterUniqueBy(rows, (m: MenuItem) => !m.isHidden, (m: MenuItem) => m.id);
    Filter(rows, (m: MenuItem) => !m.isHidden)
  }

  /** GET /api/menu-items/category/:categoryId: that category's items minus the hidden ones,
      each once. */
  ghost function VisibleMenuItemsOf(store: Store, categoryId: Id): (r: seq<MenuItem>)
    requires store.Valid()
    reads store
    ensures forall m :: m in r <==>
      m.id in store.menuItems && store.menuItems[m.id] == m && m.categoryId == categoryId && !m.isHidden
    ensures forall i, j :: 0 <= i < j < |r| ==> r[i].id != r[j].id
  {
    var rows := store.MenuItemsByCategory(categoryId);
    assert UniqueBy(rows, (m: MenuItem) => m.id);
    FilterUniqueBy(rows, (m: MenuItem) => !m.isHidden, (m: MenuItem) => m.id);
    Filter(rows, (m: MenuItem) => !m.isHidden)
  }

  /** The per-category listing holds exactly the items of the full customer listing that belong
      to the category. */
  lemma CategoryListingIsPartOfListing(store: Store, categoryId: Id)
    requires store.Valid()
    ensures forall m :: m in VisibleMenuItemsOf(store, categoryId) <==>
      m in VisibleMenuItems(store) && m.categoryId == categoryId
  {
  }

  /** The settings body: the stored row, or the built-in default when there is none. */
  datatype SettingsBody = SettingsBody(id: Option<Id>, whatsappNumber: string, restaurantName: string, currency: string)

  function SettingsResponse(stored: Option<Settings>): (r: SettingsBody)
    ensures stored.None? ==> r == SettingsBody(None, "", "Mini's & Twennies", "$")
    ensures stored.Some? ==>
      r == SettingsBody(Some(stored.value.id), stored.value.whatsappNumber,
                        stored.value.restaurantName, stored.value.currency)
  {
    if stored.None? then SettingsBody(None, "", "Mini's & Twennies", "$")
    else SettingsBody(Some(stored.value.id), stored.value.whatsappNumber,
                      stored.value.restaurantName, stored.value.currency)
  }

  /** Whatever is stored, the settings answer always names a currency: "$" by default. */
  lemma SettingsAlwaysHaveCurrency(stored: Option<Settings>, p: SettingsPatch)
    ensures SettingsResponse(None).currency == "$"
    ensures stored.Some? ==>
      SettingsResponse(Some(PatchSettings(stored.value, p))).currency == p.currency.GetOr(stored.value.currency)
  {
  }

  /** The menu items with one row's availability negated. */
  function FlipAvailability(items: map<Id, MenuItem>, id: Id): (r: map<Id, MenuItem>)
    requires id in items
    ensures r.Keys == items.Keys
    ensures r[id].isAvailable == !items[id].isAvailable && r[id] == items[id].(isAvailable := r[id].isAvailable)
    ensures forall k :: k in items && k != id ==> r[k] == items[k]
  {
    items[id := items[id].(isAvailable := !items[id].isAvailable)]
  }

  /** The menu items with one row's hidden flag negated. */
  function FlipVisibility(items: map<Id, MenuItem>, id: Id): (r: map<Id, MenuItem>)
    requires id in items
    ensures r.Keys == items.Keys
    ensures r[id].isHidden == !items[id].isHidden && r[id] == items[id].(isHidden := r[id].isHidden)
    ensures forall k :: k in items && k != id ==> r[k] == items[k]
  {
    items[id := items[id].(isHidden := !items[id].isHidden)]
  }

  /** The banners with one row's active flag negated. */
  function FlipActive(banners: map<Id, Banner>, id: Id): (r: map<Id, Banner>)
    requires id in banners
    ensures r.Keys == banners.Keys
    ensures r[id].isActive == !banners[id].isActive && r[id] == banners[id].(isActive := r[id].isActive)
    ensures forall k :: k in banners && k != id ==> r[k] == banners[k]
  {
    banners[id := banners[id].(isActive := !banners[id].isActive)]
  }

  /** Toggling twice restores the table. */
  lemma FlipTwice(items: map<Id, MenuItem>, banners: map<Id, Banner>, id: Id)
    ensures id in items ==> FlipAvailability(FlipAvailability(items, id), id) == items
    ensures id in items ==> FlipVisibility(FlipVisibility(items, id), id) == items
    ensures id in banners ==> FlipActive(FlipActive(banners, id), id) == banners
  {
    if id in items {
      assert FlipAvailability(FlipAvailability(items, id), id)[id] == items[id];
      assert FlipVisibility(FlipVisibility(items, id), id)[id] == items[id];
    }
    if id in banners {
      assert FlipActive(FlipActive(banners, id), id)[id] == banners[id];
    }
  }

  /** POST /api/admin/menu-items/:id/toggle-availability: 404 for a missing item, otherwise
      the stored availability is negated and the updated row answered. */
  method ToggleAvailability(store: Store, id: Id) returns (resp: Response<MenuItem>)
    requires store.Valid()
    modifies store`menuItems
    ensures store.Valid()
    ensures id !in old(store.menuItems) ==> resp == Failure(NotFound) && store.menuItems == old(store.menuItems)
    ensures id in old(store.menuItems) ==>
      store.menuItems == FlipAvailability(old(store.menuItems), id) && resp == Ok(store.menuItems[id])
  {
    var current := store.MenuItemById(id);
    if current.None? {
      return Failure(NotFound);
    }
    var updated := store.SetItemAvailability(id, !current.value.isAvailable);
    resp := Ok(updated.value);
  }

  /** POST /api/admin/menu-items/:id/toggle-visibility. */
  method ToggleVisibility(store: Store, id: Id) returns (resp: Response<MenuItem>)
    requires store.Valid()
    modifies store`menuItems
    ensures store.Valid()
    ensures id !in old(store.menuItems) ==> resp == Failure(NotFound) && store.menuItems == old(store.menuItems)
    ensures id in old(store.menuItems) ==>
      store.menuItems == FlipVisibility(old(store.menuItems), id) && resp == Ok(store.menuItems[id])
  {
    var current := store.MenuItemById(id);
    if current.None? {
      return Failure(NotFound);
    }
    var updated := store.SetItemVisibility(id, !current.value.isHidden);
    resp := Ok(updated.value);
  }

  /** POST /api/admin/banners/:id/toggle-active. */
  method ToggleActive(store: Store, id: Id) returns (resp: Response<Banner>)
    requires store.Valid()
    modifies store`banners
    ensures store.Valid()
    ensures id !in old(store.banners) ==> resp == Failure(NotFound) && store.banners == old(store.banners)
    ensures id in old(store.banners) ==>
      store.banners == FlipActive(old(store.banners), id) && resp == Ok(store.banners[id])
  {
    var current := store.BannerById(id);
    if current.None? {
      return Failure(NotFound);
    }
    var updated := store.SetBannerActive(id, !current.value.isActive);
    resp := Ok(updated.value);
  }

  /** POST /api/admin/categories: 400 for an invalid body, 500 when the insert fails. */
  method CreateCategory(store: Store, body: Parsed<InsertCategory>, freshId: Id) returns (resp: Response<Category>)
    requires store.Valid()
    modifies store`categories
    ensures store.Valid()
    ensures body.Invalid? ==> resp == Failure(BadRequest) && store.categories == old(store.categories)
    ensures body.Parsed? && freshId in old(store.categories) ==>
      resp == Failure(ServerError) && store.categories == old(store.categories)
    ensures body.Parsed? && freshId !in old(store.categories) ==>
      resp == Ok(CategoryRow(freshId, body.value)) && store.categories == old(store.categories)[freshId := resp.body]
  {
    if body.Invalid? {
      return Failure(StatusOf(ValidationError));
    }
    var created := store.CreateCategory(body.value, freshId);
    if created.None? {
      return Failure(StatusOf(StoreError));
    }
    resp := Ok(created.value);
  }

  /** POST /api/admin/menu-items. */
  method CreateMenuItem(store: Store, body: Parsed<InsertMenuItem>, freshId: Id) returns (resp: Response<MenuItem>)
    requires store.Valid()
    modifies store`menuItems
    ensures store.Valid()
    ensures body.Invalid? ==> resp == Failure(BadRequest) && store.menuItems == old(store.menuItems)
    ensures body.Parsed? && freshId in old(store.menuItems) ==>
      resp == Failure(ServerError) && store.menuItems == old(store.menuItems)
    ensures body.Parsed? && freshId !in old(store.menuItems) ==>
      resp == Ok(MenuItemRow(freshId, body.value)) && store.menuItems == old(store.menuItems)[freshId := resp.body]
  {
    if body.Invalid? {
      return Failure(StatusOf(ValidationError));
    }
    var created := store.CreateMenuItem(body.value, freshId);
    if created.None? {
      return Failure(StatusOf(StoreError));
    }
    resp := Ok(created.value);
  }

  /** POST /api/admin/banners. */
  method CreateBanner(store: Store, body: Parsed<InsertBanner>, freshId: Id) returns (resp: Response<Banner>)
    requires store.Valid()
    modifies store`banners
    ensures store.Valid()
    ensures body.Invalid? ==> resp == Failure(BadRequest) && store.banners == old(store.banners)
    ensures body.Parsed? && freshId in old(store.banners) ==>
      resp == Failure(ServerError) && store.banners == old(store.banners)
    ensures body.Parsed? && freshId !in old(store.banners) ==>
      resp == Ok(BannerRow(freshId, body.value)) && store.banners == old(store.banners)[freshId := resp.body]
  {
    if body.Invalid? {
      return Failure(StatusOf(ValidationError));
    }
    var created := store.CreateBanner(body.value, freshId);
    if created.None? {
      return Failure(StatusOf(StoreError));
    }
    resp := Ok(created.value);
  }

  /** PUT /api/admin/categories/:id: 400 for an invalid body, 404 when no row has the id. */
  method UpdateCategory(store: Store, id: Id, body: Parsed<CategoryPatch>) returns (resp: Response<Category>)
    requires store.Valid()
    modifies store`categories
    ensures store.Valid()
    ensures body.Invalid? ==> resp == Failure(BadRequest) && store.categories == old(store.categories)
    ensures body.Parsed? && id !in old(store.categories) ==>
      resp == Failure(NotFound) && store.categories == old(store.categories)
    ensures body.Parsed? && id in old(store.categories) ==>
      resp == Ok(PatchCategory(old(store.categories)[id], body.value))
      && store.categories == old(store.categories)[id := resp.body]
  {
    if body.Invalid? {
      return Failure(StatusOf(ValidationError));
    }
    var updated := store.UpdateCategory(id, body.value);
    if updated.None? {
      return Failure(NotFound);
    }
    resp := Ok(updated.value);
  }

  /** PUT /api/admin/menu-items/:id. */
  method UpdateMenuItem(store: Store, id: Id, body: Parsed<MenuItemPatch>) returns (resp: Response<MenuItem>)
    requires store.Valid()
    modifies store`menuItems
    ensures store.Valid()
    ensures body.Invalid? ==> resp == Failure(BadRequest) && store.menuItems == old(store.menuItems)
    ensures body.Parsed? && id !in old(store.menuItems) ==>
      resp == Failure(NotFound) && store.menuItems == old(store.menuItems)
    ensures body.Parsed? && id in old(store.menuItems) ==>
      resp == Ok(PatchMenuItem(old(store.menuItems)[id], body.value))
      && store.menuItems == old(store.menuItems)[id := resp.body]
  {
    if body.Invalid? {
      return Failure(StatusOf(ValidationError));
    }
    var updated := store.UpdateMenuItem(id, body.value);
    if updated.None? {
      return Failure(NotFound);
    }
    resp := Ok(updated.value);
  }

  /** PUT /api/admin/banners/:id. */
  method UpdateBanner(store: Store, id: Id, body: Parsed<BannerPatch>) returns (resp: Response<Banner>)
    requires store.Valid()
    modifies store`banners
    ensures store.Valid()
    ensures body.Invalid? ==> resp == Failure(BadRequest) && store.banners == old(store.banners)
    ensures body.Parsed? && id !in old(store.banners) ==>
      resp == Failure(NotFound) && store.banners == old(store.banners)
    ensures body.Parsed? && id in old(store.banners) ==>
      resp == Ok(PatchBanner(old(store.banners)[id], body.value))
      && store.banners == old(store.banners)[id := resp.body]
  {
    if body.Invalid? {
      return Failure(StatusOf(ValidationError));
    }
    var updated := store.UpdateBanner(id, body.value);
    if updated.None? {
      return Failure(NotFound);
    }
    resp := Ok(updated.value);
  }

  /** DELETE /api/admin/categories/:id: answers success whether or not a row existed. */
  method DeleteCategory(store: Store, id: Id) returns (resp: Response<bool>)
    requires store.Valid()
    modifies store`categories
    ensures store.Valid()
    ensures resp == Ok(true) && store.categories == old(store.categories) - {id}
  {
    var _ := store.DeleteCategory(id);
    resp := Ok(true);
  }

  /** DELETE /api/admin/menu-items/:id. */
  method DeleteMenuItem(store: Store, id: Id) returns (resp: Response<bool>)
    requires store.Valid()
    modifies store`menuItems
    ensures store.Valid()
    ensures resp == Ok(true) && store.menuItems == old(store.menuItems) - {id}
  {
    var _ := store.DeleteMenuItem(id);
    resp := Ok(true);
  }

  /** DELETE /api/admin/banners/:id. */
  method DeleteBanner(store: Store, id: Id) returns (resp: Response<bool>)
    requires store.Valid()
    modifies store`banners
    ensures store.Valid()
    ensures resp == Ok(true) && store.banners == old(store.banners) - {id}
  {
    var _ := store.DeleteBanner(id);
    resp := Ok(true);
  }

  /** POST /api/admin/categories/reorder: 400 for an invalid body, else the renumbering. */
  method ReorderCategories(store: Store, body: Parsed<seq<Id>>) returns (resp: Response<bool>)
    requires store.Valid()
    modifies store`categories
    ensures store.Valid()
    ensures body.Invalid? ==> resp == Failure(BadRequest) && store.categories == old(store.categories)
    ensures body.Parsed? ==>
      resp == Ok(true)
      && Orders(store.categories, (c: Category) => c.order)
         == Renumbered(Orders(old(store.categories), (c: Category) => c.order), body.value)
      && forall id :: id in store.categories ==> store.categories[id].(order := 0) == old(store.categories)[id].(order := 0)
  {
    if body.Invalid? {
      return Failure(StatusOf(ValidationError));
    }
    store.ReorderCategories(body.value);
    resp := Ok(true);
  }

  /** POST /api/admin/banners/reorder. */
  method ReorderBanners(store: Store, body: Parsed<seq<Id>>) returns (resp: Response<bool>)
    requires store.Valid()
    modifies store`banners
    ensures store.Valid()
    ensures body.Invalid? ==> resp == Failure(BadRequest) && store.banners == old(store.banners)
    ensures body.Parsed? ==>
      resp == Ok(true)
      && Orders(store.banners, (b: Banner) => b.order)
         == Renumbered(Orders(old(store.banners), (b: Banner) => b.order), body.value)
      && forall id :: id in store.banners ==> store.banners[id].(order := 0) == old(store.banners)[id].(order := 0)
  {
    if body.Invalid? {
      return Failure(StatusOf(ValidationError));
    }
    store.ReorderBanners(body.value);
    resp := Ok(true);
  }

  /** PUT /api/admin/settings: 400 for an invalid body; 500 when there is no row yet and the
      body lacks a required column. */
  method PutSettings(store: Store, body: Parsed<SettingsPatch>, freshId: Id) returns (resp: Response<Settings>)
    modifies store`settingsRows
    ensures body.Invalid? ==> resp == Failure(BadRequest) && store.settingsRows == old(store.settingsRows)
    ensures body.Parsed? && |old(store.settingsRows)| > 0 ==>
      resp == Ok(PatchSettings(old(store.settingsRows)[0], body.value))
      && store.settingsRows == old(store.settingsRows)[0 := resp.body]
    ensures body.Parsed? && |old(store.settingsRows)| == 0 && SettingsInsert(body.value).Some? ==>
      resp == Ok(SettingsRow(freshId, SettingsInsert(body.value).value))
      && store.settingsRows == [resp.body]
    ensures body.Parsed? && |old(store.settingsRows)| == 0 && SettingsInsert(body.value).None? ==>
      resp == Failure(ServerError) && store.settingsRows == []
    ensures |old(store.settingsRows)| <= 1 ==> |store.settingsRows| <= 1
  {
    if body.Invalid? {
      return Failure(StatusOf(ValidationError));
    }
    var saved := store.UpdateSettings(body.value, freshId);
    if saved.None? {
      return Failure(StatusOf(StoreError));
    }
    resp := Ok(saved.value);
  }

  /** GET /api/settings: the first stored row's columns, or the built-in defaults while the
      table is empty; never an error. */
  method GetSettings(store: Store) returns (resp: Response<SettingsBody>)
    ensures |store.settingsRows| == 0 ==> resp == Ok(SettingsBody(None, "", "Mini's & Twennies", "$"))
    ensures |store.settingsRows| > 0 ==>
      var row := store.settingsRows[0];
      resp == Ok(SettingsBody(Some(row.id), row.whatsappNumber, row.restaurantName, row.currency))
  {
    var stored := store.CurrentSettings();
    resp := Ok(SettingsResponse(stored));
  }
}
