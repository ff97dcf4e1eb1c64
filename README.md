# Mini's & Twennies storefront — a Dafny model

This project models the core of a small restaurant storefront. On the customer side, visitors
browse a menu by category, open an item, pick a quantity and a note, collect lines in a cart,
and send the order as a WhatsApp message. On the admin side, an administrator maintains
categories, menu items, banners and the settings row, and moves categories and banners up and
down.

The model covers:

- **Data.** The records of the database schema (`Schema`) and two sequence and number helpers:
  `Seqs` (filter, key uniqueness, map, swap, last index) and `Decimal` (`toString`, `parseInt`
  on digit strings, and `toFixed(2)` on cents).
- **Customer side:**
  - the home page's cart engine, as a class (`Cart.Storefront`);
  - the cart drawer's and order summary's derived values (`CartViews`);
  - the item detail modal, as a class (`ItemDetail.ItemDetailModal`);
  - the checkout message composer, as a loop (`Checkout.ComposeMessage`);
  - the banner carousel, as a class (`Carousel.BannerCarousel`);
  - the top-level router (`AppRouter`).
- **Admin pages:** the move-up and move-down logic with its busy flag, as a class
  (`Reorder.ReorderPage`), and the menu-item dialog and its grouping (`MenuAdmin`).
- **Server:** the storage layer, as a class over one map per table (`Store.Store`), and the
  HTTP handlers' decisions over it (`Routes`).

Money is an integer number of cents everywhere. Printed amounts go through `Decimal.FormatMoney`.

Where the code departs from what its names and comments suggest, the model follows the code:

- The checkout message hard-codes the restaurant name "Delicious Bites", the number
  "1234567890" and the "$" sign, rather than reading the stored settings.
- The checkout page's own cart state is created empty and never set. So the page always
  redirects to "/" (`Checkout.CheckoutAlwaysRedirects`); the composer is modelled for any cart.
- The home page renders hard-coded sample categories, items and banners, not the API's data.
  `Cart.Storefront` takes the item list as a constructor argument.
- `Cart.Storefront.RemoveItem` requires the drawer to be open, because its delete button lives
  in the drawer. `Cart.Storefront.OpenCart` requires the item modal to be closed, because the
  cart button lies under the modal's overlay. With `Cart.Storefront.Valid` these keep the edit
  index on a line of the cart, so the write at client/src/pages/HomePage.tsx:141 never lands
  past the end of the array.
- An edit index that addresses no line makes `handleEditItem` throw a TypeError at
  client/src/pages/HomePage.tsx:154 before any state changes; `Cart.Storefront.EditItem` models
  this as a call that changes nothing.
- The storage methods named `toggle…` set the given value. The negation happens in the route
  handler (`Routes.ToggleAvailability`).
- The sign-in page is rendered before any session check, and the admin guard's "signed in on the
  sign-in page" redirect can never run (`AppRouter.DeadAdminBranches`).

## Model

| member | source | states |
|---|---|---|
| Seqs.NonEmpty | client/src/components/ItemDetailModal.tsx:34 | an empty note (and, on the menu-item form, an empty image URL) is passed on as undefined, any other string verbatim |
| Seqs.Filter | client/src/pages/HomePage.tsx:127-129 | the kept elements are exactly the elements that pass, each from the input, no more of them than the input has |
| Seqs.FilterConcat | client/src/pages/HomePage.tsx:127-129 | filtering two lists laid end to end gives the two filtered lists end to end, so relative order is kept |
| Seqs.FilterUniqueBy | server/routes.ts:70-80 | filtering rows whose ids are distinct leaves rows whose ids are distinct |
| Seqs.UniqueByPermutation | server/storage.ts:157-161 | reordering rows whose ids are distinct (as `ORDER BY` does) leaves their ids distinct |
| Seqs.Map | client/src/pages/AdminCategoriesPage.tsx:92 | same length, element k is f of input element k |
| Seqs.Swapped | client/src/pages/AdminCategoriesPage.tsx:90 | a swap on a copy keeps the length |
| Seqs.SwappedAt | client/src/pages/AdminCategoriesPage.tsx:90 | the two positions are exchanged and every other position is unchanged |
| Seqs.SwappedPermutes | client/src/pages/AdminCategoriesPage.tsx:90 | a swap keeps the multiset of elements |
| Seqs.SwappedTwice | client/src/pages/AdminCategoriesPage.tsx:90 | swapping the same positions twice restores the list |
| Seqs.MapSwapped | client/src/pages/AdminCategoriesPage.tsx:90-92 | taking the ids of the swapped rows equals swapping the ids |
| Seqs.LastIndexOf | server/storage.ts:97-101 | -1 exactly when absent, otherwise a position holding the value with no later occurrence |
| Seqs.LastIndexOfDistinct | server/storage.ts:97-101 | without repetitions, the last occurrence of element i is i |
| Decimal.DigitChar | client/src/pages/AdminMenuItemsPage.tsx:118 | a digit value prints as an ASCII digit |
| Decimal.DigitValue | client/src/pages/AdminMenuItemsPage.tsx:62 | a digit character reads as a value below 10 that prints back as itself |
| Decimal.NatToString | client/src/pages/AdminMenuItemsPage.tsx:118 | `toString` of a non-negative number is a non-empty digit string with no leading zero except "0" |
| Decimal.IntToString | client/src/pages/AdminMenuItemsPage.tsx:118 | the text is never empty, and it is a digit string exactly when the number is not negative |
| Decimal.ParseDigits | client/src/pages/AdminMenuItemsPage.tsx:62 | `parseInt` of a digit string; ParseNatToString and NatToStringParse state that it inverts `toString` |
| Decimal.ParseNatToString | client/src/pages/AdminMenuItemsPage.tsx:62 | parsing a printed number gives the number back |
| Decimal.NatToStringParse | client/src/pages/AdminMenuItemsPage.tsx:62 | printing a parsed digit string without leading zeros gives the string back |
| Decimal.ParseAtLeastOne | client/src/pages/AdminMenuItemsPage.tsx:23 | a digit string not starting with '0' denotes a positive number |
| Decimal.FormatCents | client/src/components/CartDrawer.tsx:89 | `toFixed(2)` of cents/100 is a digit string, a point and exactly two digits |
| Decimal.FormatCentsRoundTrip | client/src/components/CartDrawer.tsx:89 | the printed amount reads back as the same number of cents |
| Decimal.FormatMoney | client/src/components/CartDrawer.tsx:115 | definition of `toFixed(2)` of cents/100; FormatMoneyShape states its shape, FormatCentsRoundTrip and the read-back lemmas state that the printed amount parses back |
| Decimal.FormatMoneyShape | client/src/components/CartDrawer.tsx:115 | a printed amount has at least four characters and starts with "-" exactly when the amount is negative |
| Decimal.FormatFixtureAmounts | client/src/components/examples/CartDrawer.tsx:10-37 | 2598, 899, 3497 and 5 cents print as "25.98", "8.99", "34.97" and "0.05" |
| Schema.CategoryRow | shared/schema.ts:12-16 | an inserted category keeps its fields, with order defaulting to 0 |
| Schema.MenuItemRow | shared/schema.ts:18-27 | an inserted item keeps its fields, available and visible unless given |
| Schema.BannerRow | shared/schema.ts:29-34 | an inserted banner keeps its URL, with order 0 and active unless given |
| Schema.SettingsRow | shared/schema.ts:36-41 | inserted settings keep number and name, with currency defaulting to "$" |
| Schema.InsertShapesAreRowsWithoutId | shared/schema.ts:43-47 | every row is the stored form of its own fields minus the id |
| Sorting.FilterSorted | server/storage.ts:157-161 | dropping rows from a listing sorted by order leaves it sorted |
| Sorting.Insert | server/storage.ts:69-71 | inserting into a sorted list gives a sorted list with one more element, the same multiset plus it |
| Sorting.SortBy | server/storage.ts:69-71 | `ORDER BY order ASC`: same length, sorted by the key, a permutation of the input |
| Sorting.SortByMembers | server/storage.ts:69-71 | sorting keeps exactly the elements it was given |
| Cart.LineTotal | client/src/components/CartDrawer.tsx:88-89 | price times quantity of one line: not negative for a non-negative price and quantity, the unit price for quantity 1 |
| Cart.Subtotal | client/src/components/CartDrawer.tsx:27-30 | the reduce over the lines: 0 for an empty cart and the line amount for one line; its sum meaning is carried by SubtotalIsSumOfLines and SubtotalConcat |
| Cart.SubtotalConcat | client/src/components/CartDrawer.tsx:27-30 | the subtotal of two carts end to end is the sum of their subtotals |
| Cart.SubtotalIsSumOfLines | client/src/components/CartDrawer.tsx:27-30 | the left fold equals the sum over lines of price times quantity, taken from the front |
| Cart.SubtotalNonNegative | client/src/components/OrderSummary.tsx:14 | with non-negative prices and positive quantities the total is not negative |
| Cart.TotalItems | client/src/pages/HomePage.tsx:166 | the quantity reduce: 0 for an empty cart, never negative for non-negative quantities; its relation to the number of lines is TotalItemsCountsUnits |
| Cart.TotalItemsCountsUnits | client/src/pages/HomePage.tsx:166 | the badge sums quantities: at least the number of lines, and equal to it exactly when every quantity is 1 |
| Cart.Listing | client/src/pages/HomePage.tsx:127-129 | the listing holds exactly the items of the active category that are not hidden |
| Cart.ListingConcat | client/src/pages/HomePage.tsx:127-129 | the listing keeps the original order of the items |
| Cart.RemoveAt | client/src/pages/HomePage.tsx:149-151 | exactly position i is removed and the rest keep their order; an out-of-range i changes nothing |
| Cart.Storefront.constructor | client/src/pages/HomePage.tsx:21-26 | category "1" active, nothing selected, modal and drawer closed, empty cart, no edit index |
| Cart.Storefront.FilteredItems | client/src/pages/HomePage.tsx:127-129 | an item is shown exactly when it is one of the page's items, belongs to the selected tab and is not hidden; no more cards than items; the cards are the listing of the menu, whose order ListingConcat keeps |
| Cart.Storefront.CartCount | client/src/pages/HomePage.tsx:166 | the badge counts units: 0 for an empty cart and, with every quantity at least 1, at least the number of lines and equal to it exactly when every quantity is 1 |
| Cart.Storefront.SelectCategory | client/src/pages/HomePage.tsx:184 | a category tab makes that category active |
| Cart.Storefront.ItemClick | client/src/pages/HomePage.tsx:131-136 | an unavailable item changes nothing; an available one is selected, the modal opens and the edit index clears |
| Cart.Storefront.AddToCart | client/src/pages/HomePage.tsx:138-147 | with an edit index only that line is replaced and the length is kept; otherwise one line is appended with the earlier lines unchanged; the edit index ends cleared |
| Cart.Storefront.RemoveItem | client/src/pages/HomePage.tsx:149-151 | the cart loses exactly line i, or is unchanged for an out-of-range i |
| Cart.Storefront.EditItem | client/src/pages/HomePage.tsx:153-159 | line i's item is selected, i becomes the edit index, the modal opens and the drawer closes; an out-of-range i changes nothing |
| Cart.Storefront.CloseModal | client/src/pages/HomePage.tsx:212-215 | closing the modal also clears the edit index |
| Cart.Storefront.OpenCart | client/src/pages/HomePage.tsx:207 | the cart button opens the drawer |
| Cart.Storefront.CloseCart | client/src/pages/HomePage.tsx:221 | the drawer's close callback closes it |
| Cart.Storefront.ProceedToCheckout | client/src/pages/HomePage.tsx:161-164 | the drawer closes and the location becomes "/checkout" |
| CartViews.CurrencyOrDefault | client/src/components/OrderSummary.tsx:13 | the currency is "$" when not supplied, otherwise the one supplied |
| CartViews.LineTotals | client/src/components/OrderSummary.tsx:41 | each displayed line amount is price times quantity |
| CartViews.TotalIsSumOfLineTotals | client/src/components/OrderSummary.tsx:14 | the total equals the sum of the displayed line amounts |
| CartViews.LineTotalTextReadsBack | client/src/components/CartDrawer.tsx:88-89 | a line's price text is the currency followed by an amount that reads back as price times quantity |
| CartViews.SubtotalTextReadsBack | client/src/components/CartDrawer.tsx:113-115 | the subtotal text is the currency followed by an amount that reads back as the subtotal |
| CartViews.NoteLine | client/src/components/CartDrawer.tsx:81-85 | a note line is shown exactly when the note is present and non-empty, and then it shows that note |
| CartViews.DrawerTitle | client/src/components/CartDrawer.tsx:36 | the title is "Your Order (", the number of lines, then " items)" |
| CartViews.DrawerTitleCountsLines | client/src/components/CartDrawer.tsx:36 | the title's count reads back as the number of lines, whatever the quantities |
| CartViews.EmptyStateHasNoTotal | client/src/components/CartDrawer.tsx:39 | in the empty state the total is 0, there are no line amounts and the title counts 0 items |
| ItemDetail.Decreased | client/src/components/ItemDetailModal.tsx:78 | max(1, q-1): never below 1, one less from 2 up |
| ItemDetail.TotalPriceCents | client/src/components/ItemDetailModal.tsx:41 | the add button's amount in cents; TotalPriceReadsBack states that its printed text reads back as price times quantity |
| ItemDetail.TotalPriceReadsBack | client/src/components/ItemDetailModal.tsx:41 | the add button's amount reads back as price times quantity cents |
| ItemDetail.ItemDetailModal.constructor | client/src/components/ItemDetailModal.tsx:23-24 | quantity 1 and an empty note |
| ItemDetail.ItemDetailModal.Decrease | client/src/components/ItemDetailModal.tsx:78-79 | the quantity becomes max(1, q-1) and stays at least 1 |
| ItemDetail.ItemDetailModal.Increase | client/src/components/ItemDetailModal.tsx:90 | the quantity grows by exactly 1 |
| ItemDetail.ItemDetailModal.EditNote | client/src/components/ItemDetailModal.tsx:24 | the note becomes the typed text |
| ItemDetail.ItemDetailModal.Close | client/src/components/ItemDetailModal.tsx:26-30 | quantity back to 1 and note cleared |
| ItemDetail.ItemDetailModal.AddToCart | client/src/components/ItemDetailModal.tsx:32-37 | nothing happens without an item; otherwise the item, quantity and note argument are handed on and the modal resets |
| Checkout.EntryRedirect | client/src/pages/CheckoutPage.tsx:12-16 | an empty cart sends the browser to "/", a non-empty one stays |
| Checkout.CheckoutAlwaysRedirects | client/src/pages/CheckoutPage.tsx:10-16 | the page's cart is always empty, so it always redirects to "/" |
| Checkout.OrderMessage | client/src/pages/CheckoutPage.tsx:23-39 | the whole order text as header, one block per line and the total line; its layout is stated by MessageLayout and FixtureMessage, and ComposeMessage is proved to build it |
| Checkout.ComposeMessage | client/src/pages/CheckoutPage.tsx:23-39 | the loop builds the header, one block per line in cart order, then the total line |
| Checkout.AppendLine | client/src/pages/CheckoutPage.tsx:26-32 | one loop turn appends exactly that line's block |
| Checkout.WhatsAppUrl | client/src/pages/CheckoutPage.tsx:42 | the wa.me link for a message; SendToWhatsApp states the full URL with the hard-coded number |
| Checkout.SendToWhatsApp | client/src/pages/CheckoutPage.tsx:41-42 | the URL is "https://wa.me/1234567890?text=" followed by the encoded message |
| Checkout.BlocksPrefix | client/src/pages/CheckoutPage.tsx:26-33 | the text appended for the first j lines is a prefix of the text for all lines |
| Checkout.MessageLayout | client/src/pages/CheckoutPage.tsx:21-39 | the message starts with the header, ends with the total line, and holds line k's block (numbered k+1) right after the blocks of the earlier lines |
| Checkout.BlockInBlocks | client/src/pages/CheckoutPage.tsx:26-33 | the blocks of the whole cart begin with the earlier lines' blocks followed by line k's block |
| Checkout.BlocksStep | client/src/pages/CheckoutPage.tsx:26-33 | one more line appends exactly its block |
| Checkout.NoteLineIffNonEmpty | client/src/pages/CheckoutPage.tsx:30-32 | a block ends with the note line when the note is non-empty, and with the price line otherwise |
| Checkout.FixtureMessage | client/src/components/examples/CartDrawer.tsx:10-37 | the sample cart totals 3497 cents and produces exactly the expected order text line by line |
| Checkout.FixtureTotals | client/src/pages/CheckoutPage.tsx:29 | the sample lines cost 2598 and 899 cents and print as "25.98" and "8.99" |
| Reorder.MoveRequest | client/src/pages/AdminCategoriesPage.tsx:84-92 | no request exactly when moving the first row up or the last row down; otherwise the ids with only positions index and index±1 exchanged |
| Reorder.MoveRequestPermutes | client/src/pages/AdminCategoriesPage.tsx:92 | the submitted ids are a permutation of the ids on screen |
| Reorder.MoveBackRestores | client/src/pages/AdminBannersPage.tsx:93 | moving a row and then back the other way submits the original order |
| Reorder.UpDisabled | client/src/pages/AdminCategoriesPage.tsx:187 | the up button's `disabled` test; DisabledIffIgnored states that outside a reorder it holds exactly when the move would be ignored |
| Reorder.DownDisabled | client/src/pages/AdminCategoriesPage.tsx:196 | the down button's `disabled` test; DisabledIffIgnored states that outside a reorder it holds exactly when the move would be ignored |
| Reorder.DisabledIffIgnored | client/src/pages/AdminCategoriesPage.tsx:187-196 | outside a reorder, a move button is disabled exactly when its move would be ignored |
| Reorder.ReorderPage.constructor | client/src/pages/AdminBannersPage.tsx:29-33 | the page starts with its rows and not busy |
| Reorder.ReorderPage.BeginMove | client/src/pages/AdminBannersPage.tsx:87-98 | the in-place swap on an array copy submits the move request, busy only when a request was sent |
| Reorder.ReorderPage.FinishMove | client/src/pages/AdminBannersPage.tsx:103-106 | the busy flag drops whether the request succeeded or failed |
| Reorder.CategorySubmission | client/src/pages/AdminCategoriesPage.tsx:123-129 | nothing is sent for an empty name; a new category gets order equal to the current count; an edit patches only the name |
| Reorder.BannerSubmission | client/src/pages/AdminBannersPage.tsx:126-132 | nothing is sent for an empty URL; a new banner gets order equal to the current count |
| Reorder.NewCategorySortsLast | client/src/pages/AdminCategoriesPage.tsx:42 | when rows are numbered below the count, a created category sorts after all of them |
| Reorder.NewBannerSortsLast | client/src/pages/AdminBannersPage.tsx:45 | the same for a created banner |
| Store.PatchCategory | server/storage.ts:83-89 | each field given in the patch is set; each field left out keeps its value; the id is kept |
| Store.PatchMenuItem | server/storage.ts:123-129 | the same per field, with a nullable image URL |
| Store.PatchBanner | server/storage.ts:173-179 | the same per field |
| Store.PatchSettings | server/storage.ts:208-214 | the same per field |
| Store.PatchesAreIdempotent | server/storage.ts:83-89 | applying a patch twice equals applying it once |
| Store.SettingsInsert | server/storage.ts:216-221 | an insert is possible exactly when both required fields are in the patch |
| Store.NewOrder | server/storage.ts:97-101 | a row listed in the ids ends at its last listed position; an unlisted row keeps its order |
| Store.NewOrderStep | server/storage.ts:97-101 | one loop turn gives order i to ids[i] and leaves every other row's result alone |
| Store.Orders | server/storage.ts:96-102 | the order column has one entry per row |
| Store.Renumbered | server/storage.ts:96-102 | renumbering keeps the set of rows |
| Store.RenumberedIsContiguous | server/storage.ts:96-102 | when the ids list every row once, the orders become exactly 0..n-1, one per row, with ids[k] at k |
| Store.TableRows | server/storage.ts:105-107 | a listing has one row per key, each stored row for those keys, no id twice |
| Store.Store.constructor | server/storage.ts:51 | all tables empty |
| Store.Store.AllCategories | server/storage.ts:69-71 | every category once, sorted by ascending order |
| Store.Store.AllMenuItems | server/storage.ts:105-107 | every menu item once |
| Store.Store.MenuItemsByCategory | server/storage.ts:109-111 | exactly the items of that category, each once |
| Store.Store.AllBanners | server/storage.ts:153-155 | every banner once, sorted by ascending order |
| Store.Store.ActiveBanners | server/storage.ts:157-161 | exactly the active banners, each once, sorted by ascending order |
| Store.Store.MenuItemById | server/storage.ts:113-116 | absent exactly when no row has the id, otherwise that row |
| Store.Store.BannerById | server/storage.ts:163-166 | absent exactly when no row has the id, otherwise that row |
| Store.Store.CurrentSettings | server/storage.ts:203-206 | absent exactly when there is no settings row, otherwise the first |
| Store.Store.CreateCategory | server/storage.ts:78-81 | the default-filled row is added under the new id; a taken id fails and changes nothing |
| Store.Store.CreateMenuItem | server/storage.ts:118-121 | the same for menu items |
| Store.Store.CreateBanner | server/storage.ts:168-171 | the same for banners |
| Store.Store.UpdateCategory | server/storage.ts:83-89 | absent id: no row and no change; otherwise only that row is replaced by its patched form |
| Store.Store.UpdateMenuItem | server/storage.ts:123-129 | the same for menu items |
| Store.Store.UpdateBanner | server/storage.ts:173-179 | the same for banners |
| Store.Store.DeleteCategory | server/storage.ts:91-94 | true exactly when the row existed; the table loses that id; menu items are not touched |
| Store.Store.DeleteMenuItem | server/storage.ts:131-134 | true exactly when the row existed; the table loses that id |
| Store.Store.DeleteBanner | server/storage.ts:181-184 | true exactly when the row existed; the table loses that id |
| Store.Store.SetItemAvailability | server/storage.ts:136-142 | only the availability of the matching row changes, to the given value |
| Store.Store.SetItemVisibility | server/storage.ts:144-150 | only the hidden flag of the matching row changes, to the given value |
| Store.Store.SetBannerActive | server/storage.ts:194-200 | only the active flag of the matching row changes, to the given value |
| Store.Store.ReorderCategories | server/storage.ts:96-102 | the loop keeps every row and its other fields; each row's order becomes its last position in the ids, or stays when unlisted; no row is created |
| Store.Store.ReorderBanners | server/storage.ts:186-192 | the same for banners |
| Store.Store.UpdateSettings | server/storage.ts:208-223 | patches the first row if any, else inserts when both required fields are given, else fails; at most one row stays at most one |
| Routes.StatusOf | server/routes.ts:146-150 | a validation error answers 400 and any other failure 500 |
| Routes.WithoutPassword | server/routes.ts:31 | the user sent back has the id and the user name |
| Routes.PasswordIsNotSent | server/routes.ts:49 | users differing only in their password look the same to the client |
| Routes.VisibleMenuItems | server/routes.ts:70-80 | exactly the stored items that are not hidden, each once |
| Routes.VisibleMenuItemsOf | server/routes.ts:83-94 | exactly the stored items of that category that are not hidden, each once |
| Routes.CategoryListingIsPartOfListing | server/routes.ts:85-89 | the per-category listing is the customer listing restricted to that category |
| Routes.SettingsResponse | server/routes.ts:108-125 | the stored row's fields, or the built-in default with name "Mini's & Twennies" and currency "$" |
| Routes.SettingsAlwaysHaveCurrency | server/routes.ts:110-117 | the settings answer always carries a currency, "$" by default |
| Routes.FlipAvailability | server/routes.ts:249-253 | only that item changes, and only its availability, which is negated |
| Routes.FlipVisibility | server/routes.ts:263-267 | only that item changes, and only its hidden flag, which is negated |
| Routes.FlipActive | server/routes.ts:329-333 | only that banner changes, and only its active flag, which is negated |
| Routes.FlipTwice | server/routes.ts:247-273 | toggling twice restores the table |
| Routes.ToggleAvailability | server/routes.ts:247-259 | 404 and no change for a missing item; otherwise the item with availability negated |
| Routes.ToggleVisibility | server/routes.ts:261-273 | 404 and no change for a missing item; otherwise the item with the hidden flag negated |
| Routes.ToggleActive | server/routes.ts:327-339 | 404 and no change for a missing banner; otherwise the banner with the active flag negated |
| Routes.CreateCategory | server/routes.ts:140-152 | 400 for an invalid body, 500 when the insert fails, otherwise the created row |
| Routes.CreateMenuItem | server/routes.ts:206-218 | the same for menu items |
| Routes.CreateBanner | server/routes.ts:286-298 | the same for banners |
| Routes.UpdateCategory | server/routes.ts:154-169 | 400 for an invalid body, 404 when no row has the id, otherwise the patched row |
| Routes.UpdateMenuItem | server/routes.ts:220-235 | the same for menu items |
| Routes.UpdateBanner | server/routes.ts:300-315 | the same for banners |
| Routes.DeleteCategory | server/routes.ts:171-179 | success whether or not a row existed; the row is gone |
| Routes.DeleteMenuItem | server/routes.ts:237-245 | the same for menu items |
| Routes.DeleteBanner | server/routes.ts:317-325 | the same for banners |
| Routes.ReorderCategories | server/routes.ts:181-193 | 400 for an invalid body, otherwise success with the orders renumbered by the ids |
| Routes.ReorderBanners | server/routes.ts:341-353 | the same for banners |
| Routes.PutSettings | server/routes.ts:356-368 | 400 for an invalid body with the rows unchanged; with a stored row, the patched row replaces the first row and is answered; with none, the new row built from the body becomes the only row and is answered, or 500 with no row when a required column is missing; at most one row stays at most one |
| Routes.GetSettings | server/routes.ts:108-125 | never an error: with no row the defaults (no id, empty number, "Mini's & Twennies", "$"), otherwise the first row's id and three columns |
| MenuAdmin.FormValid | client/src/pages/AdminMenuItemsPage.tsx:20-28 | the zod schema: name, description and category non-empty, the price a digit string; NegativePriceBlocksSave and Submit state its consequences |
| MenuAdmin.DefaultForm | client/src/pages/AdminMenuItemsPage.tsx:45-56 | the new-item form is available and visible, and not valid until filled in |
| MenuAdmin.Prefill | client/src/pages/AdminMenuItemsPage.tsx:115-123 | the form copies the item, a missing image URL as "", and its price text is a digit string exactly when the price is not negative |
| MenuAdmin.CreatePayload | client/src/pages/AdminMenuItemsPage.tsx:58-65 | the payload price is the decimal value of the price text; the other fields are copied |
| MenuAdmin.UpdatePayload | client/src/pages/AdminMenuItemsPage.tsx:78-85 | the patch sets every field, except an empty image URL, which is left out |
| MenuAdmin.Submit | client/src/pages/AdminMenuItemsPage.tsx:145-151 | nothing is sent exactly when the form is invalid; otherwise a PUT for the edited item or a POST |
| MenuAdmin.PrefillRoundTrip | client/src/pages/AdminMenuItemsPage.tsx:118 | saving a prefilled form unchanged writes the item back as it was |
| MenuAdmin.NegativePriceBlocksSave | client/src/pages/AdminMenuItemsPage.tsx:23 | an item with a negative price cannot be saved through the dialog |
| MenuAdmin.ClearedImageUrlIsKept | client/src/pages/AdminMenuItemsPage.tsx:83 | clearing the image URL on edit keeps the stored one |
| MenuAdmin.SentPriceReadsBack | client/src/pages/AdminMenuItemsPage.tsx:62 | the sent price prints and parses back to itself |
| MenuAdmin.MenuItemDialog.constructor | client/src/pages/AdminMenuItemsPage.tsx:45-56 | closed, nothing edited, default form |
| MenuAdmin.MenuItemDialog.Open | client/src/pages/AdminMenuItemsPage.tsx:112-137 | opens for the given item with its prefill, or for a new item with the default form |
| MenuAdmin.MenuItemDialog.Edit | client/src/pages/AdminMenuItemsPage.tsx:20-28 | the form holds the typed values |
| MenuAdmin.MenuItemDialog.SubmitForm | client/src/pages/AdminMenuItemsPage.tsx:145-151 | nothing is sent for an invalid form; a POST of the form's row without an item being edited, a PUT of the form's patch to that item's id with one; an untouched prefilled form writes the item back unchanged |
| MenuAdmin.MenuItemDialog.Close | client/src/pages/AdminMenuItemsPage.tsx:139-143 | the dialog closes and forgets the edited item |
| MenuAdmin.Groups | client/src/pages/AdminMenuItemsPage.tsx:171-175 | one group per category in category order, each holding exactly that category's items |
| MenuAdmin.DanglingItemIsInNoGroup | client/src/pages/AdminMenuItemsPage.tsx:172-175 | an item whose category matches none appears in no group |
| MenuAdmin.GroupsKeepOrder | client/src/pages/AdminMenuItemsPage.tsx:172-175 | each group keeps the items in list order |
| Carousel.JsRem | client/src/components/BannerCarousel.tsx:24 | JavaScript's `%`: for a non-negative dividend a remainder in [0, n) |
| Carousel.NextPosition | client/src/components/BannerCarousel.tsx:23-25 | next stays in [0, n), steps by one and wraps from the last slide to 0; with no banners it gives NaN |
| Carousel.PrevPosition | client/src/components/BannerCarousel.tsx:19-21 | previous stays in [0, n), steps back by one and wraps from 0 to the last slide; with no banners it gives NaN |
| Carousel.NextPrevInverse | client/src/components/BannerCarousel.tsx:19-25 | next then previous, and previous then next, return to the slide |
| Carousel.AdvanceWraps | client/src/components/BannerCarousel.tsx:12-17 | j ticks from slide k show slide (k + j) mod n |
| Carousel.FullCycleReturns | client/src/components/BannerCarousel.tsx:12-17 | n ticks return to the starting slide |
| Carousel.EmptyCarouselGoesNaN | client/src/components/BannerCarousel.tsx:12-17 | with no banners, any tick leaves the index NaN for good |
| Carousel.RendersNothing | client/src/components/BannerCarousel.tsx:27 | the empty-carousel test; ControlsMatchMovement states that it holds exactly when a step would give NaN |
| Carousel.ShowsControls | client/src/components/BannerCarousel.tsx:46 | the more-than-one-banner test; ControlsMatchMovement states that it holds exactly when a step changes the slide |
| Carousel.ControlsMatchMovement | client/src/components/BannerCarousel.tsx:27-46 | nothing is drawn exactly when a step would give NaN; the arrows and dots are drawn exactly when a step changes the slide |
| Carousel.BannerCarousel.constructor | client/src/components/BannerCarousel.tsx:10 | the index starts at 0 |
| Carousel.BannerCarousel.Next | client/src/components/BannerCarousel.tsx:23-25 | the index advances by the next step and stays a slide |
| Carousel.BannerCarousel.Tick | client/src/components/BannerCarousel.tsx:12-17 | the timer makes the same step as next |
| Carousel.BannerCarousel.Previous | client/src/components/BannerCarousel.tsx:19-21 | the index steps back and stays a slide |
| Carousel.BannerCarousel.Dot | client/src/components/BannerCarousel.tsx:75 | dot k shows slide k |
| AppRouter.AdminTable | client/src/App.tsx:70-77 | the five admin paths map to their pages and anything else to not found |
| AppRouter.AdminRoutes | client/src/App.tsx:20-58 | loading first; a visitor is redirected to sign-in (nothing on the sign-in path); a signed-in admin on sign-in goes to "/admin", elsewhere to the page table |
| AppRouter.PublicTable | client/src/App.tsx:96-100 | "/" is the home page, "/checkout" the checkout, anything else not found |
| AppRouter.Router | client/src/App.tsx:83-102 | the routing component the lemmas below are about; its own contract: an admin page is only ever shown after loading, to a signed-in administrator |
| AppRouter.AdminPrefixIsTextual | client/src/App.tsx:86 | "/adminx" counts as an admin path and is guarded |
| AppRouter.LoginPageAlwaysShown | client/src/App.tsx:89-91 | "/admin/login" always shows the sign-in page, whatever the session |
| AppRouter.LoadingGuardsAdmin | client/src/App.tsx:24-33 | other admin paths show the loading view while the session loads |
| AppRouter.VisitorIsRedirected | client/src/App.tsx:36-43 | a visitor on an admin path is sent to sign-in, and never sees an admin page |
| AppRouter.DeadAdminBranches | client/src/App.tsx:46-58 | the signed-in redirect to "/admin" and the blank view never come out of the router |
| AppRouter.AdminDispatch | client/src/App.tsx:70-77 | a signed-in admin gets an admin page exactly on the five table paths |
| AppRouter.PublicDispatch | client/src/App.tsx:96-100 | non-admin paths ignore the session: home exactly on "/", checkout exactly on "/checkout" |
| AppRouter.PublicPathsAreNotAdmin | client/src/App.tsx:86 | "/" and "/checkout" are not admin paths, so they show the home and checkout pages whatever the session state |

## Left out

- Persistence, the database driver, sessions, passport sign-in and the users table's storage
  methods: the store is a set of in-memory maps. SQL errors other than a taken id are not
  modelled, and the ids that `gen_random_uuid()` makes are a parameter (`freshId`).
- Store.Store.AllMenuItems: SQL gives no row order without `ORDER BY`, so the listing is a ghost
  function that promises its members, not an order.
- Store.Store.AllCategories: Postgres' `ORDER BY` is not stable on equal orders. The model uses
  one particular stable sort and promises only sortedness and the members.
- Sorting.SortBy: rows with equal `order` may come back in any order from the database; the model
  fixes one.
- Postgres' 32-bit `integer` columns and JavaScript's floating-point numbers: prices, orders and
  quantities are unbounded integers, so overflow and the precision limits of `parseInt` on very
  long digit strings are not modelled.
- `toFixed(2)` is modelled on integer cents divided by 100; binary floating-point rounding of
  `price / 100` is not modelled.
- `encodeURIComponent` is a parameter of `Checkout.SendToWhatsApp`; `window.open` is not modelled.
- React rendering, effects, React Query fetching, cache invalidation and refetching are not
  modelled. In particular `Reorder.ReorderPage` never refreshes its rows after a move.
- Toasts, confirmation dialogs and the dialogs' form reset on close are not modelled.
- The carousel's `setInterval` scheduling and its cleanup are not modelled: a tick is a call to
  `Carousel.BannerCarousel.Tick`. The banner count is fixed for a carousel's lifetime.
- Wouter's path matching is modelled as exact string equality. Its trailing-slash and case
  handling, and the `Redirect` navigation itself, are not modelled.
- Object storage and image upload routes, the seed script, the settings page form, the session
  hook, the sign-in page and the purely presentational components are not part of this model.
- Body validation is an input: a handler receives either a parsed body or "invalid", and zod's
  rules are not modelled, except the client forms' own rules: the menu-item form's price and
  required fields, and the non-empty category name and banner image URL
  (`Reorder.CategorySubmission`, `Reorder.BannerSubmission`).
- Store.Store.ReorderCategories, Store.Store.ReorderBanners, Routes.ToggleAvailability,
  Routes.ToggleVisibility and Routes.ToggleActive: each request is modelled as one atomic step.
  The source writes one `UPDATE` per id without a transaction, and the toggles read the row
  before writing it back, so interleavings of concurrent requests are not modelled.
- The ORM's behaviour on an update with an empty patch is not modelled: an empty patch is
  treated as a no-op update that returns the row.
