/** The item detail modal: the quantity and note being chosen for one menu item. */
module ItemDetail {
  import opened Seqs
  import opened Decimal
  import opened Schema

  /** What the modal hands to the page's add-to-cart callback. */
  datatype AddRequest = AddRequest(item: MenuItem, quantity: int, note: Option<string>)

  /** `Math.max(1, quantity - 1)`. */
  function Decreased(quantity: int): (r: int)
    ensures r >= 1
    ensures quantity >= 2 ==> r == quantity - 1
    ensures quantity <= 2 ==> r == 1
  {
    if quantity - 1 > 1 then quantity - 1 else 1
  }

  /** The add button's amount, in cents: the unit price times the chosen quantity. */
  function TotalPriceCents(item: MenuItem, quantity: int): int {
    item.price * quantity
  }

  /** The add button's amount text for a non-negative price reads back as price × quantity. */
  lemma TotalPriceReadsBack(item: MenuItem, quantity: int)
    requires item.price >= 0 && quantity >= 1
    ensures ParseCents(FormatMoney(TotalPriceCents(item, quantity))) == Some(item.price * quantity)
  {
    assert item.price * quantity >= 0;
    FormatCentsRoundTrip(item.price * quantity);
  }

  class ItemDetailModal {
    var quantity: int
    var note: string

    /** The quantity never drops below 1. */
    ghost predicate Valid()
      reads this
    {
      quantity >= 1
    }

    constructor ()
      ensures Valid() && quantity == 1 && note == ""
    {
      quantity := 1;
      note := "";
    }

    method Decrease()
      requires Valid()
      modifies this`quantity
      ensures Valid() && quantity == Decreased(old(quantity))
    {
      quantity := Decreased(quantity);
    }

    /** No upper bound. */
    method Increase()
      requires Valid()
      modifies this`quantity
      ensures Valid() && quantity == old(quantity) + 1
    {
      quantity := quantity + 1;
    }

    method EditNote(text: string)
      requires Valid()
      modifies this`note
      ensures Valid() && note == text
    {
      note := text;
    }

    /** `handleClose`: quantity back to 1 and the note cleared (the page's close callback is
        the page's business). */
    method Close()
      modifies this
      ensures Valid() && quantity == 1 && note == ""
    {
      quantity := 1;
      note := "";
    }

    /** `handleAddToCart`: with no item selected nothing happens; otherwise the chosen line is
        handed on and the modal resets as on close. */
    method AddToCart(item: Option<MenuItem>) returns (request: Option<AddRequest>)
      requires Valid()
      modifies this
      ensures Valid()
      ensures item.None? ==> request.None? && quantity == old(quantity) && note == old(note)
      ensures item.Some? ==>
        request == Some(AddRequest(item.value, old(quantity), NonEmpty(old(note))))
        && quantity == 1 && note == ""
    {
      if item.None? {
        return None;
      }
      request := Some(AddRequest(item.value, quantity, NonEmpty(note)));
      Close();
    }
  }
}
