/** The storefront's cart engine: the cart lines and the edit index held by the home page,
    the subtotal and badge reductions, and the category listing. */
module Cart {
  import opened Seqs
  import opened Schema

  /** The amount of one line, in cents. */
  function LineTotal(item: CartItem): (r: int)
    ensures item.menuItem.price >= 0 && item.quantity >= 0 ==> r >= 0
    ensures item.quantity == 1 ==> r == item.menuItem.price
  {
    item.menuItem.price * item.quantity
  }

  /** `cart.reduce((sum, item) => sum + price * quantity, 0)`: a left fold over the lines. */
  function Subtotal(cart: seq<CartItem>): (s: int)
    ensures cart == [] ==> s == 0
    ensures |cart| == 1 ==> s == LineTotal(cart[0])
  {
    if cart == [] then 0 else Subtotal(cart[..|cart| - 1]) + LineTotal(cart[|cart| - 1])
  }

  /** Reference sum, taken from the front. */
  function SumOfLines(cart: seq<CartItem>): int {
    if cart == [] then 0 else LineTotal(cart[0]) + SumOfLines(cart[1..])
  }

  /** The subtotal of two carts laid end to end is the sum of their subtotals. */
  lemma {:induction false} SubtotalConcat(a: seq<CartItem>, b: seq<CartItem>)
    ensures Subtotal(a + b) == Subtotal(a) + Subtotal(b)
  {
    if b != [] {
      var ab := a + b;
      assert ab[..|ab| - 1] == a + b[..|b| - 1];
      assert ab[|ab| - 1] == b[|b| - 1];
      SubtotalConcat(a, b[..|b| - 1]);
    } else {
      assert a + b == a;
    }
  }

  /** The left fold equals the sum over all lines of price times quantity. */
  lemma {:induction false} SubtotalIsSumOfLines(cart: seq<CartItem>)
    ensures Subtotal(cart) == SumOfLines(cart)
  {
    if cart != [] {
      assert cart == [cart[0]] + cart[1..];
      SubtotalConcat([cart[0]], cart[1..]);
      assert [cart[0]][..0] == [];
      SubtotalIsSumOfLines(cart[1..]);
    }
  }

  /** With non-negative prices and positive quantities the subtotal is never negative. */
  lemma {:induction false} SubtotalNonNegative(cart: seq<CartItem>)
    requires forall i :: 0 <= i < |cart| ==> cart[i].menuItem.price >= 0 && cart[i].quantity >= 1
    ensures Subtotal(cart) >= 0
  {
    if cart != [] {
      SubtotalNonNegative(cart[..|cart| - 1]);
    }
  }

  /** `cartItems.reduce((sum, item) => sum + item.quantity, 0)`: the badge count. */
  function TotalItems(cart: seq<CartItem>): (n: int)
    ensures cart == [] ==> n == 0
    ensures (forall i :: 0 <= i < |cart| ==> cart[i].quantity >= 0) ==> n >= 0
  {
    if cart == [] then 0 else TotalItems(cart[..|cart| - 1]) + cart[|cart| - 1].quantity
  }

  /** The badge counts units, not lines: with positive quantities it is at least the number of
      lines, and equal to it exactly when every quantity is 1. */
  lemma {:induction false} TotalItemsCountsUnits(cart: seq<CartItem>)
    requires forall i :: 0 <= i < |cart| ==> cart[i].quantity >= 1
    ensures TotalItems(cart) >= |cart|
    ensures TotalItems(cart) == |cart| <==> forall i :: 0 <= i < |cart| ==> cart[i].quantity == 1
  {
    if cart != [] {
      var pre := cart[..|cart| - 1];
      TotalItemsCountsUnits(pre);
      assert forall i :: 0 <= i < |pre| ==> pre[i] == cart[i];
    }
  }

  /** `filteredItems`: the items of the active category that are not hidden, in listing order. */
  function Listing(items: seq<MenuItem>, activeCategory: Id): (r: seq<MenuItem>)
    ensures forall i :: 0 <= i < |r| ==> r[i] in items && r[i].categoryId == activeCategory && !r[i].isHidden
    ensures forall i :: 0 <= i < |items| && items[i].categoryId == activeCategory && !items[i].isHidden
                        ==> items[i] in r
  {
    Filter(items, (m: MenuItem) => m.categoryId == activeCategory && !m.isHidden)
  }

  /** The listing of a concatenation is the concatenation of the listings (order is kept). */
  lemma ListingConcat(a: seq<MenuItem>, b: seq<MenuItem>, activeCategory: Id)
    ensures Listing(a + b, activeCategory) == Listing(a, activeCategory) + Listing(b, activeCategory)
  {
    FilterConcat(a, b, (m: MenuItem) => m.categoryId == activeCategory && !m.isHidden);
  }

  /** `s` without the element at `index` (`filter((_, i) => i !== index)`). */
  function RemoveAt<T>(s: seq<T>, index: int): (r: seq<T>)
    ensures 0 <= index < |s| ==> r == s[..index] + s[index + 1..]
    ensures !(0 <= index < |s|) ==> r == s
  {
    if s == [] then []
    else (if index == 0 then [] else [s[0]]) + RemoveAt(s[1..], index - 1)
  }

  /** The home page: its cart, its edit index and the modal and drawer flags. */
  class Storefront {
    const menuItems: seq<MenuItem>
    var activeCategory: Id
    var selectedItem: Option<MenuItem>
    var isModalOpen: bool
    var isCartOpen: bool
    var cartItems: seq<CartItem>
    var editingItemIndex: Option<nat>

    /** An edit index exists only while the item modal is open over a closed drawer, and it
        addresses a line of the cart. */
    ghost predicate Valid()
      reads this
    {
      editingItemIndex.Some? ==>
        isModalOpen && !isCartOpen && editingItemIndex.value < |cartItems|
    }

    constructor (items: seq<MenuItem>)
      ensures Valid()
      ensures menuItems == items && activeCategory == "1"
      ensures selectedItem == None && !isModalOpen && !isCartOpen
      ensures cartItems == [] && editingItemIndex == None
    {
      menuItems := items;
      activeCategory := "1";
      selectedItem := None;
      isModalOpen := false;
      isCartOpen := false;
      cartItems := [];
      editingItemIndex := None;
    }

    /** The cards shown: exactly the menu's items of the selected tab that are not hidden, in
        menu order (the order is the one `Listing` keeps, see `ListingConcat`). */
    function FilteredItems(): (r: seq<MenuItem>)
      reads this
      ensures r == Listing(menuItems, activeCategory)
      ensures |r| <= |menuItems|
      ensures forall m :: m in r <==> m in menuItems && m.categoryId == activeCategory && !m.isHidden
    {
      Listing(menuItems, activeCategory)
    }

    /** The cart button's badge: the number of units in the cart, which is 0 for an empty cart
        and, while every line holds at least one unit, never below the number of lines. */
    function CartCount(): (n: int)
      reads this
      ensures n == TotalItems(cartItems)
      ensures cartItems == [] ==> n == 0
      ensures (forall i :: 0 <= i < |cartItems| ==> cartItems[i].quantity >= 1) ==>
        n >= |cartItems| && (n == |cartItems| <==> forall i :: 0 <= i < |cartItems| ==> cartItems[i].quantity == 1)
    {
      if forall i :: 0 <= i < |cartItems| ==> cartItems[i].quantity >= 1 then
        TotalItemsCountsUnits(cartItems);
        TotalItems(cartItems)
      else
        TotalItems(cartItems)
    }

    /** A category tab was clicked. */
    method SelectCategory(category: Id)
      requires Valid()
      modifies this`activeCategory
      ensures Valid() && activeCategory == category
    {
      activeCategory := category;
    }

    /** A menu card was clicked: an unavailable item changes nothing; an available one is
        selected, the modal opens, and any edit index is dropped. */
    method ItemClick(item: MenuItem)
      requires Valid()
      modifies this`selectedItem, this`isModalOpen, this`editingItemIndex
      ensures Valid()
      ensures !item.isAvailable ==>
        selectedItem == old(selectedItem) && isModalOpen == old(isModalOpen)
        && editingItemIndex == old(editingItemIndex)
      ensures item.isAvailable ==>
        selectedItem == Some(item) && isModalOpen && editingItemIndex == None
    {
      if !item.isAvailable {
        return;
      }
      selectedItem := Some(item);
      isModalOpen := true;
      editingItemIndex := None;
    }

    /** The modal confirmed a line: it replaces the line being edited, or is appended. */
    method AddToCart(item: MenuItem, quantity: int, note: Option<string>)
      requires Valid()
      modifies this`cartItems, this`editingItemIndex
      ensures Valid() && editingItemIndex == None
      ensures old(editingItemIndex).Some? ==>
        cartItems == old(cartItems)[old(editingItemIndex).value := CartItem(item, quantity, note)]
      ensures old(editingItemIndex).None? ==>
        cartItems == old(cartItems) + [CartItem(item, quantity, note)]
    {
      if editingItemIndex.Some? {
        var newCartItems := cartItems;
        newCartItems := newCartItems[editingItemIndex.value := CartItem(item, quantity, note)];
        cartItems := newCartItems;
        editingItemIndex := None;
      } else {
        cartItems := cartItems + [CartItem(item, quantity, note)];
      }
    }

    /** The drawer's delete button for line `index`. */
    method RemoveItem(index: int)
      requires Valid() && isCartOpen
      modifies this`cartItems
      ensures Valid()
      ensures cartItems == RemoveAt(old(cartItems), index)
    {
      cartItems := RemoveAt(cartItems, index);
    }

    /** The drawer's edit button for line `index`: the line's item is selected, the modal opens
        over a closed drawer and remembers the index. An index that addresses no line makes the
        handler throw before any state changes. */
    method EditItem(index: int)
      requires Valid()
      modifies this`selectedItem, this`editingItemIndex, this`isModalOpen, this`isCartOpen
      ensures Valid()
      ensures 0 <= index < |cartItems| ==>
        selectedItem == Some(cartItems[index].menuItem) && editingItemIndex == Some(index)
        && isModalOpen && !isCartOpen
      ensures !(0 <= index < |cartItems|) ==>
        selectedItem == old(selectedItem) && editingItemIndex == old(editingItemIndex)
        && isModalOpen == old(isModalOpen) && isCartOpen == old(isCartOpen)
    {
      if !(0 <= index < |cartItems|) {
        return;
      }
      var item := cartItems[index];
      selectedItem := Some(item.menuItem);
      editingItemIndex := Some(index);
      isModalOpen := true;
      isCartOpen := false;
    }

    /** The modal's close callback: the modal closes and the edit index is dropped. */
    method CloseModal()
      requires Valid()
      modifies this`isModalOpen, this`editingItemIndex
      ensures Valid() && !isModalOpen && editingItemIndex == None
    {
      isModalOpen := false;
      editingItemIndex := None;
    }

    /** The cart button; it lies under the modal's overlay, so the modal is closed. */
    method OpenCart()
      requires Valid() && !isModalOpen
      modifies this`isCartOpen
      ensures Valid() && isCartOpen
    {
      isCartOpen := true;
    }

    method CloseCart()
      requires Valid()
      modifies this`isCartOpen
      ensures Valid() && !isCartOpen
    {
      isCartOpen := false;
    }

    /** "Proceed to Checkout": the drawer closes and the browser goes to "/checkout". */
    method ProceedToCheckout() returns (location: string)
      requires Valid()
      modifies this`isCartOpen
      ensures Valid() && !isCartOpen && location == "/checkout"
    {
      isCartOpen := false;
      location := "/checkout";
    }
  }
}
