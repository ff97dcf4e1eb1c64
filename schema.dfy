/** Record shapes of the store and the cart, their insert shapes (a row without `id`) and the
    column defaults the database fills in. */
module Schema {
  import opened Seqs

  /** Row identifiers (`varchar` keys generated by the database). */
  type Id = string

  datatype User = User(id: Id, username: string, password: string)

  datatype Category = Category(id: Id, name: string, order: int)

  /** `price` is a required integer amount in cents. */
  datatype MenuItem = MenuItem(
    id: Id,
    categoryId: Id,
    name: string,
    description: string,
    price: int,
    imageUrl: Option<string>,
    isAvailable: bool,
    isHidden: bool)

  datatype Banner = Banner(id: Id, imageUrl: string, order: int, isActive: bool)

  datatype Settings = Settings(id: Id, whatsappNumber: string, restaurantName: string, currency: string)

  /** A cart line: a snapshot of the menu item, a quantity and an optional note. */
  datatype CartItem = CartItem(menuItem: MenuItem, quantity: int, note: Option<string>)

  /** Insert shapes: the row without `id`; a column with a default may be left out (None). */
  datatype InsertCategory = InsertCategory(name: string, order: Option<int>)

  datatype InsertMenuItem = InsertMenuItem(
    categoryId: Id,
    name: string,
    description: string,
    price: int,
    imageUrl: Option<string>,
    isAvailable: Option<bool>,
    isHidden: Option<bool>)

  datatype InsertBanner = InsertBanner(imageUrl: string, order: Option<int>, isActive: Option<bool>)

  datatype InsertSettings = InsertSettings(whatsappNumber: string, restaurantName: string, currency: Option<string>)

  /** The row the database stores for an inserted category under the generated `id`. */
  function CategoryRow(id: Id, ins: InsertCategory): (c: Category)
    ensures c.id == id && c.name == ins.name
    ensures ins.order.None? ==> c.order == 0
    ensures ins.order.Some? ==> c.order == ins.order.value
  {
    Category(id, ins.name, ins.order.GetOr(0))
  }

  /** The row stored for an inserted menu item: available and visible unless said otherwise. */
  function MenuItemRow(id: Id, ins: InsertMenuItem): (m: MenuItem)
    ensures m.id == id && m.categoryId == ins.categoryId && m.price == ins.price
    ensures m.name == ins.name && m.description == ins.description && m.imageUrl == ins.imageUrl
    ensures ins.isAvailable.None? ==> m.isAvailable
    ensures ins.isHidden.None? ==> !m.isHidden
    ensures ins.isAvailable.Some? ==> m.isAvailable == ins.isAvailable.value
    ensures ins.isHidden.Some? ==> m.isHidden == ins.isHidden.value
  {
    MenuItem(id, ins.categoryId, ins.name, ins.description, ins.price, ins.imageUrl,
             ins.isAvailable.GetOr(true), ins.isHidden.GetOr(false))
  }

  /** The row stored for an inserted banner: order 0 and active unless said otherwise. */
  function BannerRow(id: Id, ins: InsertBanner): (b: Banner)
    ensures b.id == id && b.imageUrl == ins.imageUrl
    ensures ins.order.None? ==> b.order == 0
    ensures ins.isActive.None? ==> b.isActive
    ensures ins.order.Some? ==> b.order == ins.order.value
    ensures ins.isActive.Some? ==> b.isActive == ins.isActive.value
  {
    Banner(id, ins.imageUrl, ins.order.GetOr(0), ins.isActive.GetOr(true))
  }

  /** The row stored for inserted settings: the currency defaults to "$". */
  function SettingsRow(id: Id, ins: InsertSettings): (s: Settings)
    ensures s.id == id && s.whatsappNumber == ins.whatsappNumber && s.restaurantName == ins.restaurantName
    ensures ins.currency.None? ==> s.currency == "$"
    ensures ins.currency.Some? ==> s.currency == ins.currency.value
  {
    Settings(id, ins.whatsappNumber, ins.restaurantName, ins.currency.GetOr("$"))
  }

  /** Insert shapes are row shapes minus `id`: every row is the stored form of its own insert shape. */
  lemma InsertShapesAreRowsWithoutId(c: Category, m: MenuItem, b: Banner, s: Settings)
    ensures CategoryRow(c.id, InsertCategory(c.name, Some(c.order))) == c
    ensures MenuItemRow(m.id, InsertMenuItem(m.categoryId, m.name, m.description, m.price, m.imageUrl,
                                             Some(m.isAvailable), Some(m.isHidden))) == m
    ensures BannerRow(b.id, InsertBanner(b.imageUrl, Some(b.order), Some(b.isActive))) == b
    ensures SettingsRow(s.id, InsertSettings(s.whatsappNumber, s.restaurantName, Some(s.currency))) == s
  {
  }
}
