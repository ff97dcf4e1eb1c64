/** The checkout page: the empty-cart redirect and the WhatsApp order message and link. */
module Checkout {
  import opened Seqs
  import opened Decimal
  import opened Schema
  import opened Cart
  import opened CartViews

  /** Hard-coded in the page rather than read from the settings. */
  const RestaurantName: string := "Delicious Bites"
  const WhatsAppNumber: string := "1234567890"

  /** The page's own cart state: initialised empty and never set. */
  function PageCart(): seq<CartItem> {
    []
  }

  /** The redirect effect: an empty cart sends the browser to "/". */
  function EntryRedirect(cart: seq<CartItem>): (r: Option<string>)
    ensures r.Some? <==> |cart| == 0
    ensures r.Some? ==> r.value == "/"
  {
    if |cart| == 0 then Some("/") else None
  }

  /** With the page's own cart the redirect always fires. */
  lemma CheckoutAlwaysRedirects()
    ensures EntryRedirect(PageCart()) == Some("/")
  {
  }

  /** The opening of the message: its title line and the details heading. */
  function Header(): string {
    TitleHeading() + DetailsHeading()
  }

  function TitleHeading(): string {
    "*" + RestaurantName + " - New Order*\n\n"
  }

  function DetailsHeading(): string {
    "*Order Details:*\n"
  }

  /** The block appended for the line at 1-based position `k`: its title, quantity and price
      lines, and a note line only for a non-empty note. The price is always prefixed with "$". */
  function LineBlock(item: CartItem, k: nat): string {
    TitleLine(item, k) + QuantityLine(item) + PriceLine(item) + NoteText(item)
  }

  function TitleLine(item: CartItem, k: nat): string {
    "\n" + NatToString(k) + ". *" + item.menuItem.name + "*\n"
  }

  function QuantityLine(item: CartItem): string {
    "   Quantity: " + IntToString(item.quantity) + "\n"
  }

  function PriceLine(item: CartItem): string {
    "   Price: $" + FormatMoney(LineTotal(item)) + "\n"
  }

  function NoteText(item: CartItem): string {
    if NoteShown(item) then NoteLineText(item.note.value) else ""
  }

  function NoteLineText(note: string): string {
    "   Note: " + note + "\n"
  }

  /** The blocks of all lines, in cart order, numbered from 1. */
  function Blocks(cart: seq<CartItem>): string {
    if cart == [] then "" else Blocks(cart[..|cart| - 1]) + LineBlock(cart[|cart| - 1], |cart|)
  }

  function Footer(total: int): string {
    "\n*Total: $" + FormatMoney(total) + "*"
  }

  /** The whole order text. */
  function OrderMessage(cart: seq<CartItem>): string {
    Header() + Blocks(cart) + Footer(Subtotal(cart))
  }

  /** `handleSendToWhatsApp`'s message: built by appending to a string line by line. */
  method ComposeMessage(cart: seq<CartItem>) returns (message: string)
    ensures message == OrderMessage(cart)
  {
    message := TitleHeading();
    message := message + DetailsHeading();
    var i := 0;
    ComposeStart(cart, message);
    while i < |cart|
      invariant 0 <= i <= |cart|
      invariant message == Header() + Blocks(cart[..i])
    {
      message := AppendLine(message, cart[i], i + 1);
      BlocksStep(cart, i);
      AppendAssoc(Header(), Blocks(cart[..i]), LineBlock(cart[i], i + 1));
      i := i + 1;
    }
    assert cart[..i] == cart;
    var total := Subtotal(cart);
    message := message + Footer(total);
  }

  /** The loop body: the title, quantity and price lines of one cart line, then its note line
      when the note is present and non-empty. */
  method AppendLine(before: string, item: CartItem, k: nat) returns (message: string)
    ensures message == before + LineBlock(item, k)
  {
    message := before + TitleLine(item, k);
    message := message + QuantityLine(item);
    message := message + PriceLine(item);
    if item.note.Some? && item.note.value != "" {
      message := message + NoteLineText(item.note.value);
    }
    AppendPieces(before, TitleLine(item, k), QuantityLine(item), PriceLine(item), NoteText(item));
  }

  lemma ComposeStart(cart: seq<CartItem>, message: string)
    requires message == TitleHeading() + DetailsHeading()
    ensures message == Header() + Blocks(cart[..0])
  {
    assert cart[..0] == [];
  }

  /** Appending four pieces one after the other appends their concatenation. */
  lemma AppendPieces(before: string, a: string, b: string, c: string, d: string)
    ensures before + a + b + c + d == before + (a + b + c + d)
  {
  }

  lemma AppendAssoc(a: string, b: string, c: string)
    ensures a + b + c == a + (b + c)
  {
  }

  /** The link opened in a new tab; `encode` stands for `encodeURIComponent`. */
  function WhatsAppUrl(message: string, encode: string -> string): string {
    "https://wa.me/" + WhatsAppNumber + "?text=" + encode(message)
  }

  method SendToWhatsApp(cart: seq<CartItem>, encode: string -> string) returns (url: string)
    ensures url == "https://wa.me/1234567890?text=" + encode(OrderMessage(cart))
  {
    var message := ComposeMessage(cart);
    url := WhatsAppUrl(message, encode);
    WhatsAppPrefix();
  }

  /** The fixed part of the link, with the number written in. */
  lemma WhatsAppPrefix()
    ensures "https://wa.me/" + WhatsAppNumber + "?text=" == "https://wa.me/1234567890?text="
  {
  }

  /** The blocks of a prefix of the cart are a prefix of the blocks of the cart. */
  lemma {:induction false} BlocksPrefix(cart: seq<CartItem>, j: nat)
    requires j <= |cart|
    ensures |Blocks(cart[..j])| <= |Blocks(cart)|
    ensures Blocks(cart)[..|Blocks(cart[..j])|] == Blocks(cart[..j])
    decreases |cart| - j
  {
    if j < |cart| {
      BlocksPrefix(cart, j + 1);
      BlocksStep(cart, j);
      PrefixOfPrefix(Blocks(cart), Blocks(cart[..j + 1]), Blocks(cart[..j]), LineBlock(cart[j], j + 1));
    } else {
      assert cart[..j] == cart;
    }
  }

  /** The message opens with the header, ends with the total line, and holds the block of the
      line at position k (numbered k + 1) right after the blocks of the lines before it. */
  lemma {:induction false} MessageLayout(cart: seq<CartItem>, k: nat)
    requires k < |cart|
    ensures var m := OrderMessage(cart);
            var at := |Header()| + |Blocks(cart[..k])|;
            var blk := LineBlock(cart[k], k + 1);
            && m[..|Header()|] == Header()
            && m[|m| - |Footer(Subtotal(cart))|..] == Footer(Subtotal(cart))
            && at + |blk| <= |m|
            && m[at..at + |blk|] == blk
  {
    BlockInBlocks(cart, k);
    SlicesOfConcat(Header(), Blocks(cart), Footer(Subtotal(cart)),
                   Blocks(cart[..k]), LineBlock(cart[k], k + 1));
  }

  /** The blocks of the whole cart start with the blocks before line k followed by its block. */
  lemma BlockInBlocks(cart: seq<CartItem>, k: nat)
    requires k < |cart|
    ensures var pre := Blocks(cart[..k]);
            var blk := LineBlock(cart[k], k + 1);
            |pre| + |blk| <= |Blocks(cart)| && Blocks(cart)[..|pre| + |blk|] == pre + blk
  {
    BlocksPrefix(cart, k + 1);
    BlocksStep(cart, k);
    PrefixThen(Blocks(cart), Blocks(cart[..k + 1]), Blocks(cart[..k]), LineBlock(cart[k], k + 1));
  }

  lemma BlocksStep(cart: seq<CartItem>, k: nat)
    requires k < |cart|
    ensures Blocks(cart[..k + 1]) == Blocks(cart[..k]) + LineBlock(cart[k], k + 1)
  {
    assert cart[..k + 1][..k] == cart[..k];
  }

  /** The front part of a prefix is a prefix too. */
  lemma PrefixOfPrefix(all: string, p: string, pre: string, blk: string)
    requires |p| <= |all| && all[..|p|] == p && p == pre + blk
    ensures |pre| <= |all| && all[..|pre|] == pre
  {
    assert all[..|pre|] == p[..|pre|];
  }

  /** A prefix that splits as `pre + blk` gives `pre + blk` as a prefix. */
  lemma PrefixThen(all: string, p: string, pre: string, blk: string)
    requires |p| <= |all| && all[..|p|] == p && p == pre + blk
    ensures |pre| + |blk| <= |all| && all[..|pre| + |blk|] == pre + blk
  {
  }

  /** Where the parts of `head + body + foot` sit, given that `body` starts with `pre + blk`. */
  lemma SlicesOfConcat(head: string, body: string, foot: string, pre: string, blk: string)
    requires |pre| + |blk| <= |body| && body[..|pre| + |blk|] == pre + blk
    ensures var m := head + body + foot;
            && m[..|head|] == head
            && m[|m| - |foot|..] == foot
            && |head| + |pre| + |blk| <= |m|
            && m[|head| + |pre|..|head| + |pre| + |blk|] == blk
  {
    var m := head + body + foot;
    assert m[|head|..|head| + |body|] == body;
    assert m[|head| + |pre|..|head| + |pre| + |blk|] == body[|pre|..|pre| + |blk|];
    assert body[|pre|..|pre| + |blk|] == (pre + blk)[|pre|..];
  }

  /** A line's block ends with a note line exactly when its note is present and non-empty. */
  lemma NoteLineIffNonEmpty(item: CartItem, k: nat)
    ensures NoteShown(item) ==>
      var b := LineBlock(item, k);
      var tail := "   Note: " + item.note.value + "\n";
      |tail| <= |b| && b[|b| - |tail|..] == tail
    ensures !NoteShown(item) ==>
      var b := LineBlock(item, k);
      b[|b| - |"   Price: $" + FormatMoney(LineTotal(item)) + "\n"|..]
        == "   Price: $" + FormatMoney(LineTotal(item)) + "\n"
  {
  }

  function FixtureCart(): seq<CartItem> {
    [ CartItem(MenuItem("1", "1", "Margherita Pizza", "Fresh mozzarella, tomato sauce, and basil",
                        1299, Some("pizza.png"), true, false), 2, Some("Extra cheese please")),
      CartItem(MenuItem("2", "2", "Caesar Salad", "Crispy lettuce with parmesan",
                        899, Some("salad.png"), true, false), 1, None) ]
  }

  /** The drawer fixture's cart produces exactly this order text, line by line. */
  lemma FixtureMessage()
    ensures Subtotal(FixtureCart()) == 3497
    ensures OrderMessage(FixtureCart()) ==
      "*Delicious Bites - New Order*\n\n" + "*Order Details:*\n"
      + "\n1. *Margherita Pizza*\n" + "   Quantity: 2\n" + "   Price: $25.98\n"
      + "   Note: Extra cheese please\n"
      + "\n2. *Caesar Salad*\n" + "   Quantity: 1\n" + "   Price: $8.99\n"
      + "\n*Total: $34.97*"
  {
    var c := FixtureCart();
    FixtureTotals();
    FixtureFirstLine();
    FixtureSecondLine();
    FixtureFrame();
    FixtureBlocks();
    MessagePieces(TitleHeading(), DetailsHeading(),
                  TitleLine(c[0], 1), QuantityLine(c[0]), PriceLine(c[0]), NoteText(c[0]),
                  TitleLine(c[1], 2), QuantityLine(c[1]), PriceLine(c[1]), NoteText(c[1]),
                  Footer(3497));
  }

  lemma FixtureFrame()
    ensures Footer(3497) == "\n*Total: $34.97*"
    ensures TitleHeading() == "*Delicious Bites - New Order*\n\n"
  {
    FormatFixtureAmounts();
    assert FormatMoney(3497) == "34.97";
    FixtureTitle();
  }

  lemma FixtureTitle()
    ensures TitleHeading() == "*Delicious Bites - New Order*\n\n"
  {
  }

  lemma FixtureBlocks()
    ensures var c := FixtureCart();
            Blocks(c) == ("" + LineBlock(c[0], 1)) + LineBlock(c[1], 2)
  {
    var c := FixtureCart();
    assert c[..1][..0] == [];
    assert c[..2] == c;
  }

  lemma FixtureTotals()
    ensures LineTotal(FixtureCart()[0]) == 2598 && LineTotal(FixtureCart()[1]) == 899
    ensures Subtotal(FixtureCart()) == 3497
    ensures FormatMoney(2598) == "25.98" && FormatMoney(899) == "8.99" && FormatMoney(3497) == "34.97"
  {
    var c := FixtureCart();
    assert c[..1][..0] == [];
    assert c[..2] == c;
    FormatFixtureAmounts();
  }

  lemma FixtureFirstLine()
    ensures var item := FixtureCart()[0];
            && TitleLine(item, 1) == "\n1. *Margherita Pizza*\n"
            && QuantityLine(item) == "   Quantity: 2\n"
            && PriceLine(item) == "   Price: $25.98\n"
            && NoteText(item) == "   Note: Extra cheese please\n"
  {
    var item := FixtureCart()[0];
    FixtureTotals();
    assert NatToString(1) == "1";
    assert TitleLine(item, 1) == "\n1. *Margherita Pizza*\n";
    assert IntToString(2) == "2";
    assert QuantityLine(item) == "   Quantity: 2\n";
    FixtureFirstNote();
  }

  lemma FixtureFirstNote()
    ensures NoteText(FixtureCart()[0]) == "   Note: Extra cheese please\n"
  {
  }

  lemma FixtureSecondLine()
    ensures var item := FixtureCart()[1];
            && TitleLine(item, 2) == "\n2. *Caesar Salad*\n"
            && QuantityLine(item) == "   Quantity: 1\n"
            && PriceLine(item) == "   Price: $8.99\n"
            && NoteText(item) == ""
  {
    FixtureTotals();
    assert NatToString(2) == "2";
    assert IntToString(1) == "1";
  }

  /** How the pieces of a two-line message regroup into one flat concatenation. */
  lemma MessagePieces(h1: string, h2: string, t0: string, q0: string, p0: string, n0: string,
                      t1: string, q1: string, p1: string, n1: string, f: string)
    ensures (h1 + h2) + (("" + (t0 + q0 + p0 + n0)) + (t1 + q1 + p1 + n1)) + f
            == h1 + h2 + t0 + q0 + p0 + n0 + t1 + q1 + p1 + n1 + f
  {
  }
}
