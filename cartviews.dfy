/** What the cart drawer and the order summary derive from the cart lines: the line and
    order totals, the line count, the empty state and the note lines. */
module CartViews {
  import opened Seqs
  import opened Decimal
  import opened Schema
  import opened Cart

  /** The `currency = "$"` prop default of both components. */
  function CurrencyOrDefault(currency: Option<string>): (r: string)
    ensures currency.None? ==> r == "$"
    ensures currency.Some? ==> r == currency.value
  {
    currency.GetOr("$")
  }

  /** The per-line amounts shown beside each line, in cents. */
  function LineTotals(cart: seq<CartItem>): (r: seq<int>)
    ensures |r| == |cart|
    ensures forall i :: 0 <= i < |cart| ==> r[i] == cart[i].menuItem.price * cart[i].quantity
  {
    Map(cart, LineTotal)
  }

  /** A left-fold sum of amounts. */
  function Sum(xs: seq<int>): int {
    if xs == [] then 0 else Sum(xs[..|xs| - 1]) + xs[|xs| - 1]
  }

  /** The order total is the sum of the displayed per-line totals. */
  lemma {:induction false} TotalIsSumOfLineTotals(cart: seq<CartItem>)
    ensures Sum(LineTotals(cart)) == Subtotal(cart)
  {
    if cart != [] {
      var pre := cart[..|cart| - 1];
      assert LineTotals(cart)[..|cart| - 1] == LineTotals(pre);
      TotalIsSumOfLineTotals(pre);
    }
  }

  /** The price text of one line: the currency and `((price * quantity) / 100).toFixed(2)`. */
  function LineTotalText(item: CartItem, currency: string): string {
    currency + FormatMoney(LineTotal(item))
  }

  /** The cents printed after the currency symbol of a line's price text read back as that
      line's total, for a line whose price is not negative. */
  lemma LineTotalTextReadsBack(item: CartItem, currency: string)
    requires item.menuItem.price >= 0 && item.quantity >= 1
    ensures LineTotal(item) >= 0
    ensures LineTotalText(item, currency)[..|currency|] == currency
    ensures ParseCents(LineTotalText(item, currency)[|currency|..]) == Some(LineTotal(item))
  {
    var s := LineTotalText(item, currency);
    assert s[|currency|..] == FormatCents(LineTotal(item));
    FormatCentsRoundTrip(LineTotal(item));
  }

  /** The subtotal / total text: the currency and `(subtotal / 100).toFixed(2)`. */
  function SubtotalText(cart: seq<CartItem>, currency: string): string {
    currency + FormatMoney(Subtotal(cart))
  }

  /** The cents printed after the currency symbol of the subtotal text read back as the
      subtotal, for a cart whose amounts are not negative. */
  lemma SubtotalTextReadsBack(cart: seq<CartItem>, currency: string)
    requires forall i :: 0 <= i < |cart| ==> cart[i].menuItem.price >= 0 && cart[i].quantity >= 1
    ensures Subtotal(cart) >= 0
    ensures SubtotalText(cart, currency)[..|currency|] == currency
    ensures ParseCents(SubtotalText(cart, currency)[|currency|..]) == Some(Subtotal(cart))
  {
    SubtotalNonNegative(cart);
    var s := SubtotalText(cart, currency);
    assert s[|currency|..] == FormatCents(Subtotal(cart));
    FormatCentsRoundTrip(Subtotal(cart));
  }

  /** `item.note && …`: a note line appears only for a present, non-empty note. */
  predicate NoteShown(item: CartItem) {
    item.note.Some? && item.note.value != ""
  }

  /** The note line of a cart line, if any. */
  function NoteLine(item: CartItem): (r: Option<string>)
    ensures r.Some? <==> item.note.Some? && item.note.value != ""
    ensures r.Some? ==> r.value == "Note: " + item.note.value
  {
    if NoteShown(item) then Some("Note: " + item.note.value) else None
  }

  /** The drawer header `Your Order ({cartItems.length} items)`. */
  function DrawerTitle(cart: seq<CartItem>): (s: string)
    ensures |s| >= 20
    ensures s[..12] == "Your Order (" && s[12..|s| - 7] == NatToString(|cart|)
    ensures s[|s| - 7..] == " items)"
  {
    "Your Order (" + NatToString(|cart|) + " items)"
  }

  /** The header counts lines: it reads back as the number of lines, whatever the quantities. */
  lemma DrawerTitleCountsLines(cart: seq<CartItem>)
    ensures ParseDigits(DrawerTitle(cart)[12..|DrawerTitle(cart)| - 7]) == |cart|
  {
    ParseNatToString(|cart|);
  }

  /** The drawer shows its empty state exactly when there are no lines. */
  predicate ShowsEmptyState(cart: seq<CartItem>) {
    |cart| == 0
  }

  /** The empty state and a zero subtotal go together only one way: an empty cart has a zero
      subtotal and no lines to show. */
  lemma EmptyStateHasNoTotal(cart: seq<CartItem>)
    requires ShowsEmptyState(cart)
    ensures Subtotal(cart) == 0 && LineTotals(cart) == [] && DrawerTitle(cart) == "Your Order (0 items)"
  {
  }
}
