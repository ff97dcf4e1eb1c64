/** The admin menu-item page: the form's validation rule, the payload it sends, the edit
    prefill, the dialog state, and the grouping of items under their categories. */
module MenuAdmin {
  import opened Seqs
  import opened Decimal
  import opened Schema
  import opened Store
  import opened Routes

  /** The dialog's form values; the price is typed as text. */
  datatype MenuItemForm = MenuItemForm(
    name: string,
    description: string,
    price: string,
    categoryId: Id,
    imageUrl: string,
    isAvailable: bool,
    isHidden: bool)

  /** The form schema: name, description and category required, and the price a non-empty run
      of ASCII digits. */
  predicate FormValid(f: MenuItemForm) {
    f.name != "" && f.description != "" && IsDigitString(f.price) && f.categoryId != ""
  }

  /** The empty form of "Add Menu Item": available and visible. */
  function DefaultForm(): (f: MenuItemForm)
    ensures f.isAvailable && !f.isHidden && !FormValid(f)
  {
    MenuItemForm("", "", "", "", "", true, false)
  }

  /** `handleOpenDialog(item)`: the form filled from a stored item, the price as its decimal
      text and a missing image URL as "". */
  function Prefill(item: MenuItem): (f: MenuItemForm)
    ensures f.name == item.name && f.description == item.description && f.categoryId == item.categoryId
    ensures f.isAvailable == item.isAvailable && f.isHidden == item.isHidden
    ensures item.imageUrl.None? ==> f.imageUrl == ""
    ensures item.imageUrl.Some? ==> f.imageUrl == item.imageUrl.value
    ensures item.price >= 0 <==> IsDigitString(f.price)
  {
    MenuItemForm(item.name, item.description, IntToString(item.price), item.categoryId,
                 item.imageUrl.GetOr(""), item.isAvailable, item.isHidden)
  }

  /** The create payload: `parseInt` of the price text. */
  function CreatePayload(f: MenuItemForm): (r: InsertMenuItem)
    requires FormValid(f)
    ensures r.price == ParseDigits(f.price) && r.price >= 0
    ensures r.name == f.name && r.description == f.description && r.categoryId == f.categoryId
    ensures r.imageUrl == NonEmpty(f.imageUrl)
    ensures r.isAvailable == Some(f.isAvailable) && r.isHidden == Some(f.isHidden)
  {
    InsertMenuItem(f.categoryId, f.name, f.description, ParseDigits(f.price), NonEmpty(f.imageUrl),
                   Some(f.isAvailable), Some(f.isHidden))
  }

  /** The update payload: the same fields as a patch. An empty image URL is left out of the
      body, so it does not touch the stored one. */
  function UpdatePayload(f: MenuItemForm): (r: MenuItemPatch)
    requires FormValid(f)
    ensures r.price == Some(ParseDigits(f.price))
    ensures r.name == Some(f.name) && r.description == Some(f.description) && r.categoryId == Some(f.categoryId)
    ensures f.imageUrl == "" ==> r.imageUrl.None?
    ensures f.imageUrl != "" ==> r.imageUrl == Some(Some(f.imageUrl))
    ensures r.isAvailable == Some(f.isAvailable) && r.isHidden == Some(f.isHidden)
  {
    MenuItemPatch(Some(f.categoryId), Some(f.name), Some(f.description), Some(ParseDigits(f.price)),
                  if f.imageUrl == "" then None else Some(Some(f.imageUrl)),
                  Some(f.isAvailable), Some(f.isHidden))
  }

  /** `onSubmit`: nothing is sent while the form is invalid; otherwise a PUT for the item being
      edited or a POST of a new one. */
  function Submit(f: MenuItemForm, editing: Option<MenuItem>): (r: Option<Submission<InsertMenuItem, MenuItemPatch>>)
    ensures r.None? <==> !FormValid(f)
    ensures r.Some? && editing.None? ==> r.value == Create(CreatePayload(f))
    ensures r.Some? && editing.Some? ==> r.value == Update(editing.value.id, UpdatePayload(f))
  {
    if !FormValid(f) then None
    else if editing.Some? then Some(Update(editing.value.id, UpdatePayload(f)))
    else Some(Create(CreatePayload(f)))
  }

  /** Saving an item's prefilled form unchanged writes the item back as it was (for an item
      whose price is not negative and whose text fields are filled in). */
  lemma {:induction false} PrefillRoundTrip(item: MenuItem)
    requires item.price >= 0 && item.name != "" && item.description != "" && item.categoryId != ""
    ensures FormValid(Prefill(item))
    ensures PatchMenuItem(item, UpdatePayload(Prefill(item))) == item
  {
    ParseNatToString(item.price);
  }

  /** A negative stored price cannot be saved through the dialog: its prefilled text fails the
      price rule. */
  lemma NegativePriceBlocksSave(item: MenuItem)
    requires item.price < 0
    ensures Submit(Prefill(item), Some(item)).None?
  {
  }

  /** Clearing the image URL field in the edit dialog leaves the stored image URL as it was. */
  lemma ClearedImageUrlIsKept(item: MenuItem, f: MenuItemForm)
    requires FormValid(f) && f.imageUrl == ""
    ensures PatchMenuItem(item, UpdatePayload(f)).imageUrl == item.imageUrl
  {
  }

  /** A digit string is sent as the number it spells: printing the sent price and parsing it
      again gives the same value. */
  lemma {:induction false} SentPriceReadsBack(f: MenuItemForm)
    requires FormValid(f)
    ensures ParseDigits(NatToString(CreatePayload(f).price)) == CreatePayload(f).price
  {
    ParseNatToString(ParseDigits(f.price));
  }

  /** The add/edit dialog. */
  class MenuItemDialog {
    var isDialogOpen: bool
    var editingItem: Option<MenuItem>
    var form: MenuItemForm

    constructor ()
      ensures !isDialogOpen && editingItem.None? && form == DefaultForm()
    {
      isDialogOpen := false;
      editingItem := None;
      form := DefaultForm();
    }

    /** `handleOpenDialog`: edit a given item with its values, or add with the empty form. */
    method Open(item: Option<MenuItem>)
      modifies this
      ensures isDialogOpen && editingItem == item
      ensures item.Some? ==> form == Prefill(item.value)
      ensures item.None? ==> form == DefaultForm()
    {
      editingItem := item;
      if item.Some? {
        form := Prefill(item.value);
      } else {
        form := DefaultForm();
      }
      isDialogOpen := true;
    }

    /** The administrator types into the form. */
    method Edit(values: MenuItemForm)
      modifies this`form
      ensures form == values
    {
      form := values;
    }

    /** The submit button, with no state change until the request succeeds: nothing is sent for
        an invalid form, a POST without an item being edited, a PUT of that item's id with one;
        saving an item's untouched prefilled form writes the item back as it was. */
    method SubmitForm() returns (sent: Option<Submission<InsertMenuItem, MenuItemPatch>>)
      ensures sent.None? <==> !FormValid(form)
      ensures sent.Some? && editingItem.None? ==> sent.value == Create(CreatePayload(form))
      ensures sent.Some? && editingItem.Some? ==> sent.value == Update(editingItem.value.id, UpdatePayload(form))
      ensures editingItem.Some? && form == Prefill(editingItem.value) && editingItem.value.price >= 0
              && editingItem.value.name != "" && editingItem.value.description != ""
              && editingItem.value.categoryId != "" ==>
        sent.Some? && sent.value.Update? && PatchMenuItem(editingItem.value, sent.value.patch) == editingItem.value
    {
      if editingItem.Some? && form == Prefill(editingItem.value) && editingItem.value.price >= 0
         && editingItem.value.name != "" && editingItem.value.description != ""
         && editingItem.value.categoryId != "" {
        PrefillRoundTrip(editingItem.value);
      }
      sent := Submit(form, editingItem);
    }

    /** `handleCloseDialog`, and the success callbacks of both requests. */
    method Close()
      modifies this`isDialogOpen, this`editingItem
      ensures !isDialogOpen && editingItem.None?
    {
      isDialogOpen := false;
      editingItem := None;
    }
  }

  /** One section of the page: a category and its items. */
  datatype Group = Group(category: Category, items: seq<MenuItem>)

  /** `itemsByCategory`: one group per category, in category order, each holding that
      category's items in their original order. */
  function Groups(categories: seq<Category>, items: seq<MenuItem>): (r: seq<Group>)
    ensures |r| == |categories|
    ensures forall k :: 0 <= k < |r| ==> r[k].category == categories[k]
    ensures forall k :: 0 <= k < |r| ==>
      forall m :: m in r[k].items <==> m in items && m.categoryId == categories[k].id
  {
    Map(categories, (c: Category) => Group(c, Filter(items, (m: MenuItem) => m.categoryId == c.id)))
  }

  /** An item whose category matches none of the categories appears in no group. */
  lemma DanglingItemIsInNoGroup(categories: seq<Category>, items: seq<MenuItem>, m: MenuItem)
    requires forall k :: 0 <= k < |categories| ==> categories[k].id != m.categoryId
    ensures forall k :: 0 <= k < |categories| ==> m !in Groups(categories, items)[k].items
  {
  }

  /** Each group keeps its items in list order: the items of two lists laid end to end are the
      group items of the first followed by those of the second. */
  lemma GroupsKeepOrder(categories: seq<Category>, a: seq<MenuItem>, b: seq<MenuItem>, k: nat)
    requires k < |categories|
    ensures Groups(categories, a + b)[k].items == Groups(categories, a)[k].items + Groups(categories, b)[k].items
  {
    var c := categories[k];
    FilterConcat(a, b, (m: MenuItem) => m.categoryId == c.id);
  }
}
