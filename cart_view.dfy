/** The rules of the cart panel, `src/components/pos/cart.tsx`: the price-override dialog,
    the quantity buttons and the checkout button. */
module CartView {
  import opened Wrappers
  import Text
  import Collections
  import opened CartSlice

  /** The text of the price field after the cleaning in `handlePriceSave`: the first "$"
      is dropped, every "." (thousands separator) is dropped, the first "," (decimal comma)
      becomes ".", and surrounding whitespace is trimmed. */
  function CleanPrice(text: string): string {
    Text.Trim(Text.ReplaceFirst(Text.RemoveAll(Text.ReplaceFirst(text, '$', ""), '.'), ',', "."))
  }

  lemma MultisetSlice(s: string, i: nat, j: nat, c: char)
    requires i <= j <= |s|
    ensures multiset(s[i..j])[c] <= multiset(s)[c]
  {
    assert s == s[..i] + s[i..j] + s[j..];
  }

  /** The cleaned text holds at most one ".", the one the decimal comma became. */
  lemma CleanPriceAtMostOneDot(text: string)
    ensures multiset(CleanPrice(text))['.'] <= 1
  {
    var a := Text.ReplaceFirst(text, '$', "");
    var b := Text.RemoveAll(a, '.');
    var c := Text.ReplaceFirst(b, ',', ".");
    assert multiset(b)['.'] == 0;
    if ',' in b {
      Text.ReplaceFirstCount(b, ',', ".", '.');
    } else {
      Text.ReplaceFirstSpec(b, ',', ".");
    }
    assert multiset(c)['.'] <= 1;
    var i, j := Text.TrimSpec(c);
    MultisetSlice(c, i, j, '.');
  }

  predicate AllDigits(s: string) {
    forall i :: 0 <= i < |s| ==> Text.IsDigit(s[i])
  }

  lemma DollarDropped(units: string, thousands: string, decimals: string)
    requires '$' !in units + thousands + decimals
    ensures Text.ReplaceFirst("$" + units + "." + thousands + "," + decimals, '$', "")
         == units + "." + thousands + "," + decimals
  {
    var rest := units + "." + thousands + "," + decimals;
    assert '$' !in rest by {
      assert units + thousands + decimals == units + (thousands + decimals);
    }
    Text.ReplaceFirstAfter([], '$', rest, "");
    assert [] + ['$'] + rest == "$" + units + "." + thousands + "," + decimals;
    assert [] + "" + rest == rest;
  }

  lemma DotRemoved(units: string, thousands: string, decimals: string)
    requires '.' !in units + thousands + decimals
    ensures Text.RemoveAll(units + "." + thousands + "," + decimals, '.') == (units + thousands) + [','] + decimals
  {
    var tail := thousands + "," + decimals;
    assert units + "." + thousands + "," + decimals == units + ("." + tail);
    assert units + tail == (units + thousands) + [','] + decimals;
    assert '.' !in units && '.' !in tail by {
      assert units + thousands + decimals == units + (thousands + decimals);
    }
    Text.RemoveAllAbsent(units, '.');
    Text.RemoveAllAbsent(tail, '.');
    Text.RemoveAllAppend(units, "." + tail, '.');
    Text.RemoveAllAppend(".", tail, '.');
    assert Text.RemoveAll(".", '.') == [] by {
      assert Text.RemoveAll(".", '.') == Collections.Where(".", Text.NotChar('.'));
    }
  }

  /** A price typed as "$" + units + "." + thousands + "," + decimals, the shape of the
      source's example "$12.000,50", is cleaned to units + thousands + "." + decimals. */
  lemma CleanPriceThousands(units: string, thousands: string, decimals: string)
    requires units != [] && AllDigits(units) && AllDigits(thousands) && AllDigits(decimals)
    ensures CleanPrice("$" + units + "." + thousands + "," + decimals) == units + thousands + "." + decimals
  {
    assert '$' !in units + thousands + decimals;
    assert '.' !in units + thousands + decimals;
    assert ',' !in units + thousands + decimals;
    assert !Text.IsWhitespace(units[0]);
    assert decimals != [] ==> !Text.IsWhitespace(decimals[|decimals| - 1]);
    CleanPriceParts(units, thousands, decimals);
  }

  lemma CleanPriceParts(units: string, thousands: string, decimals: string)
    requires '$' !in units + thousands + decimals
    requires '.' !in units + thousands + decimals
    requires ',' !in units + thousands + decimals
    requires units != [] && !Text.IsWhitespace(units[0])
    requires decimals != [] ==> !Text.IsWhitespace(decimals[|decimals| - 1])
    ensures CleanPrice("$" + units + "." + thousands + "," + decimals) == units + thousands + "." + decimals
  {
    DollarDropped(units, thousands, decimals);
    DotRemoved(units, thousands, decimals);
    assert ',' !in units + thousands by {
      assert units + thousands + decimals == (units + thousands) + decimals;
    }
    Text.ReplaceFirstAfter(units + thousands, ',', decimals, ".");
    var cleaned := units + thousands + "." + decimals;
    assert cleaned[0] == units[0];
    assert cleaned[|cleaned| - 1] == if decimals == [] then '.' else decimals[|decimals| - 1];
    Text.TrimUnchanged(cleaned);
  }

  /** One override the price dialog asks the cart to make. */
  datatype PriceChange = PriceChange(id: int, price: real)

  /** The `onUpdatePrice` call `handlePriceSave` makes, if any: only while an item is being
      edited, with non-empty text whose cleaned form `parse` (standing for `parseFloat`,
      `None` for NaN) reads as a positive number. */
  function PriceUpdate(editing: Option<CartItem>, text: string, parse: string -> Option<real>): (r: Option<PriceChange>)
    ensures r.Some? ==> editing.Some? && r.value.id == editing.value.id && r.value.price > 0.0
    ensures r.Some? ==> parse(CleanPrice(text)) == Some(r.value.price)
    ensures r.Some? <==> editing.Some? && text != "" && parse(CleanPrice(text)).Some? && parse(CleanPrice(text)).value > 0.0
  {
    if editing.None? || text == "" then None
    else
      var price := parse(CleanPrice(text));
      if price.Some? && price.value > 0.0 then Some(PriceChange(editing.value.id, price.value)) else None
  }

  /** A saved override leaves the edited line in the cart at a positive price, with its
      quantity and every other line as they were. */
  lemma SavedPriceIsPositive(c: seq<CartItem>, editing: Option<CartItem>, text: string, parse: string -> Option<real>)
    requires WellFormed(c) && PriceUpdate(editing, text, parse).Some?
    requires InCart(c, editing.value.id)
    ensures var u := PriceUpdate(editing, text, parse).value;
      && PriceOf(SetPrice(c, u.id, u.price), u.id).Some?
      && PriceOf(SetPrice(c, u.id, u.price), u.id).value > 0.0
      && QuantityOf(SetPrice(c, u.id, u.price), u.id) == QuantityOf(c, u.id)
      && RemoveItem(SetPrice(c, u.id, u.price), u.id) == RemoveItem(c, u.id)
  {
    var u := PriceUpdate(editing, text, parse).value;
    SetPriceSpec(c, u.id, u.price);
  }

  /** The two decimals of a price of `cents` whole cents. */
  function CentsDigits(cents: nat): (r: string)
    ensures |r| == 2 && AllDigits(r)
  {
    [Text.DigitChar(cents % 100 / 10), Text.DigitChar(cents % 10)]
  }

  /** `toFixed(2)` of a non-negative price of `cents` whole cents: the whole part, a
      decimal point and two decimals, as in "12.50". */
  function FixedText(cents: nat): string {
    Text.DecimalString(cents / 100) + "." + CentsDigits(cents)
  }

  /** The same price in the dialog's own format, with a decimal comma, as in "12,50". */
  function CommaText(cents: nat): string {
    Text.DecimalString(cents / 100) + "," + CentsDigits(cents)
  }

  /** The price of `cents` whole cents. */
  function Dollars(cents: nat): (r: real)
    ensures cents > 0 ==> r > 0.0
  {
    cents as real / 100.0
  }

  /** `parse` reads back every `toFixed(2)` text as the price it was written from, as
      `parseFloat` does. */
  ghost predicate ReadsFixed(parse: string -> Option<real>) {
    forall cents: nat :: parse(FixedText(cents)) == Some(Dollars(cents))
  }

  lemma WholeAndDecimals(whole: string, sep: char, decimals: string)
    requires whole != [] && AllDigits(whole) && |decimals| == 2 && AllDigits(decimals)
    ensures var s := whole + [sep] + decimals;
      && (forall c :: c in s ==> Text.IsDigit(c) || c == sep)
      && !Text.IsWhitespace(s[0]) && !Text.IsWhitespace(s[|s| - 1])
  {
    var s := whole + [sep] + decimals;
    forall c | c in s
      ensures Text.IsDigit(c) || c == sep
    {
      var i :| 0 <= i < |s| && s[i] == c;
      if i < |whole| {
        assert s[i] == whole[i];
      } else if i > |whole| {
        assert s[i] == decimals[i - |whole| - 1];
      }
    }
    assert s[0] == whole[0];
    assert s[|s| - 1] == decimals[1];
  }

  lemma PointRemoved(whole: string, decimals: string)
    requires '.' !in whole && '.' !in decimals
    ensures Text.RemoveAll(whole + ['.'] + decimals, '.') == whole + decimals
  {
    assert whole + ['.'] + decimals == whole + (['.'] + decimals);
    Text.RemoveAllAppend(whole, ['.'] + decimals, '.');
    Text.RemoveAllAppend(['.'], decimals, '.');
    assert Text.RemoveAll(['.'], '.') == [] by {
      assert Text.RemoveAll(['.'], '.') == Collections.Where(['.'], Text.NotChar('.'));
    }
    Text.RemoveAllAbsent(whole, '.');
    Text.RemoveAllAbsent(decimals, '.');
  }

  /** As written, the prefilled "12.50" loses its decimal point to the thousands-separator
      cleaning: every `toFixed(2)` text is cleaned to its digits alone. */
  lemma FixedTextCleansToDigits(cents: nat)
    ensures CleanPrice(FixedText(cents)) == Text.DecimalString(cents / 100) + CentsDigits(cents)
  {
    var whole := Text.DecimalString(cents / 100);
    var decimals := CentsDigits(cents);
    var s := FixedText(cents);
    var digits := whole + decimals;
    assert s == whole + ['.'] + decimals;
    assert digits[0] == whole[0] && digits[|digits| - 1] == decimals[1];
    WholeAndDecimals(whole, '.', decimals);
    assert '$' !in s && '.' !in whole && '.' !in decimals;
    assert ',' !in digits;
    Text.ReplaceFirstSpec(s, '$', "");
    PointRemoved(whole, decimals);
    Text.ReplaceFirstSpec(digits, ',', ".");
    Text.TrimUnchanged(digits);
  }

  lemma TwelveFifty()
    ensures FixedText(1250) == "12.50"
    ensures Text.DecimalString(1250 / 100) + CentsDigits(1250) == "1250"
  {
    assert Text.DecimalString(12) == "12";
    assert CentsDigits(1250) == "50";
  }

  /** Saving the dialog as it opens on a line priced 12.50 overrides the price with 1250:
      the handler as written prefills `toFixed(2)` text. */
  lemma PrefillSavesHundredfold(item: CartItem, parse: string -> Option<real>)
    requires parse("1250") == Some(1250.0)
    ensures FixedText(1250) == "12.50"
    ensures PriceUpdate(Some(item), FixedText(1250), parse) == Some(PriceChange(item.id, 1250.0))
  {
    TwelveFifty();
    FixedTextCleansToDigits(1250);
    assert CleanPrice(FixedText(1250)) == "1250";
  }

  /** `parse` reads a plain digit string as the whole number it spells, as `parseFloat`
      does. */
  ghost predicate ReadsWhole(parse: string -> Option<real>) {
    forall n: nat :: parse(Text.DecimalString(n)) == Some(n as real)
  }

  lemma TwoLastDigits(n: nat)
    requires n >= 100
    ensures n / 10 / 10 == n / 100 && n / 10 % 10 == n % 100 / 10
  {
  }

  /** From one dollar up, the whole part and the two cent digits spell the number of
      cents itself. */
  lemma {:induction false} CentsSpelled(cents: nat)
    requires cents >= 100
    ensures Text.DecimalString(cents / 100) + CentsDigits(cents) == Text.DecimalString(cents)
  {
    TwoLastDigits(cents);
    assert Text.DecimalString(cents / 10)
        == Text.DecimalString(cents / 100) + [Text.DigitChar(cents % 100 / 10)];
  }

  /** As written, saving the dialog as it opens on any line priced one dollar or more
      overrides the price with a hundred times itself: `cents` is both the price in
      cents and the number sent. */
  lemma PrefillSavesHundredfoldPrice(item: CartItem, cents: nat, parse: string -> Option<real>)
    requires cents >= 100 && 100.0 * item.price == cents as real && ReadsWhole(parse)
    ensures PriceUpdate(Some(item), FixedText(cents), parse) == Some(PriceChange(item.id, cents as real))
  {
    var cleaned := Text.DecimalString(cents);
    assert CleanPrice(FixedText(cents)) == cleaned by {
      FixedTextCleansToDigits(cents);
      CentsSpelled(cents);
    }
    assert parse(cleaned) == Some(cents as real);
    SaveReads(item, FixedText(cents), cleaned, parse, cents as real);
  }

  /** The comma prefill is cleaned to exactly the `toFixed(2)` text of the same price. */
  lemma CommaTextCleansToFixed(cents: nat)
    ensures CleanPrice(CommaText(cents)) == FixedText(cents)
  {
    var whole := Text.DecimalString(cents / 100);
    var decimals := CentsDigits(cents);
    var s := CommaText(cents);
    assert s == whole + [','] + decimals;
    WholeAndDecimals(whole, ',', decimals);
    assert '$' !in s && '.' !in s && ',' !in whole;
    Text.ReplaceFirstSpec(s, '$', "");
    Text.RemoveAllAbsent(s, '.');
    Text.ReplaceFirstAfter(whole, ',', decimals, ".");
    var fixed := FixedText(cents);
    assert fixed == whole + "." + decimals;
    WholeAndDecimals(whole, '.', decimals);
    Text.TrimUnchanged(fixed);
  }

  /** With the comma prefill, saving the dialog unedited keeps the line's price. */
  lemma PrefilledSaveKeepsPrice(item: CartItem, cents: nat, parse: string -> Option<real>)
    requires cents > 0 && ReadsFixed(parse)
    ensures PriceUpdate(Some(item), CommaText(cents), parse) == Some(PriceChange(item.id, Dollars(cents)))
  {
    CommaTextCleansToFixed(cents);
    assert parse(FixedText(cents)) == Some(Dollars(cents));
    SaveReads(item, CommaText(cents), FixedText(cents), parse, Dollars(cents));
  }

  lemma SaveReads(item: CartItem, text: string, cleaned: string, parse: string -> Option<real>, price: real)
    requires text != [] && CleanPrice(text) == cleaned
    requires parse(cleaned) == Some(price) && price > 0.0
    ensures PriceUpdate(Some(item), text, parse) == Some(PriceChange(item.id, price))
  {
  }

  /** The dialog state of the cart panel: the line whose price is being edited and the
      text in the price field. The dialog is open while an item is being edited. */
  class PriceEditor {
    var editingItem: Option<CartItem>
    var newPrice: string

    constructor()
      ensures editingItem == None && newPrice == ""
    {
      editingItem := None;
      newPrice := "";
    }

    /** `handlePriceClick`: the dialog opens on the line with its price as `toFixed(2)`
        text; `cents` is that price in whole cents. */
    method PriceClick(item: CartItem, cents: nat)
      requires item.price == Dollars(cents)
      modifies this
      ensures editingItem == Some(item) && newPrice == FixedText(cents)
    {
      editingItem := Some(item);
      newPrice := FixedText(cents);
    }

    /** The price field's `onChange`. */
    method PriceTyped(text: string)
      modifies this
      ensures editingItem == old(editingItem) && newPrice == text
    {
      newPrice := text;
    }

    /** `handlePriceSave`: returns the `onUpdatePrice` call made, if any. The dialog
        closes and the field empties only when a price is sent; otherwise nothing changes. */
    method PriceSave(parse: string -> Option<real>) returns (update: Option<PriceChange>)
      modifies this
      ensures update == PriceUpdate(old(editingItem), old(newPrice), parse)
      ensures update.Some? ==> editingItem == None && newPrice == ""
      ensures update.None? ==> editingItem == old(editingItem) && newPrice == old(newPrice)
    {
      update := None;
      if editingItem.Some? && newPrice != "" {
        var cleanedPrice := CleanPrice(newPrice);
        var price := parse(cleanedPrice);
        if price.Some? && price.value > 0.0 {
          update := Some(PriceChange(editingItem.value.id, price.value));
          editingItem := None;
          newPrice := "";
        }
      }
    }

    /** `handlePriceCancel`: closes the dialog and sends nothing. */
    method PriceCancel()
      modifies this
      ensures editingItem == None && newPrice == ""
    {
      editingItem := None;
      newPrice := "";
    }
  }

  /** The minus button of line `k`: `onUpdateQuantity(item.id, item.quantity - 1)`. */
  function Decrease(c: seq<CartItem>, k: nat): seq<CartItem>
    requires k < |c|
  {
    SetQuantity(c, c[k].id, c[k].quantity - 1)
  }

  /** The plus button of line `k`: `onUpdateQuantity(item.id, item.quantity + 1)`. */
  function Increase(c: seq<CartItem>, k: nat): seq<CartItem>
    requires k < |c|
  {
    SetQuantity(c, c[k].id, c[k].quantity + 1)
  }

  /** Minus takes one unit off; on a line with a single unit it removes the line. */
  lemma DecreaseSpec(c: seq<CartItem>, k: nat)
    requires k < |c|
    ensures RemoveItem(Decrease(c, k), c[k].id) == RemoveItem(c, c[k].id)
    ensures c[k].quantity == 1 ==> !InCart(Decrease(c, k), c[k].id)
    ensures c[k].quantity > 1 ==> QuantityOf(Decrease(c, k), c[k].id) == c[k].quantity - 1
  {
    assert InCart(c, c[k].id);
    MinusOne(c, c[k].id, c[k].quantity);
  }

  lemma MinusOne(c: seq<CartItem>, id: int, q: int)
    requires InCart(c, id)
    ensures RemoveItem(SetQuantity(c, id, q - 1), id) == RemoveItem(c, id)
    ensures q <= 1 ==> !InCart(SetQuantity(c, id, q - 1), id)
    ensures q > 1 ==> QuantityOf(SetQuantity(c, id, q - 1), id) == q - 1
  {
    if q <= 1 {
      SetQuantityRemoves(c, id, q - 1);
    } else {
      SetQuantityReplaces(c, id, q - 1);
    }
  }

  /** Plus adds one unit to the line and changes nothing else. */
  lemma IncreaseSpec(c: seq<CartItem>, k: nat)
    requires k < |c| && c[k].quantity >= 0
    ensures QuantityOf(Increase(c, k), c[k].id) == c[k].quantity + 1
    ensures RemoveItem(Increase(c, k), c[k].id) == RemoveItem(c, c[k].id)
  {
    var id, q := c[k].id, c[k].quantity;
    assert InCart(c, id);
    SetQuantityReplaces(c, id, q + 1);
  }

  /** The Checkout button is enabled exactly when the cart has lines. */
  function CheckoutEnabled(items: seq<CartItem>): bool {
    |items| != 0
  }

  /** Adding a product always enables checkout; clearing the cart disables it. */
  lemma CheckoutEnabledAfterAdd(c: seq<CartItem>, p: Product)
    ensures CheckoutEnabled(AddItem(c, p))
    ensures !CheckoutEnabled([])
  {
  }
}
