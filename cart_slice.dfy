/** The cart of `src/redux/slices/cartSlice.ts`: the ordered cart lines of the sale in
    progress, the checkout and completion flags, the receipt of the last completed sale,
    and the price snapshot that a round-up keeps so that it can be reverted.

    Each reducer is a method of `CartState` that updates the state in place; what it
    does is specified by a function on `CartData`, the value of the whole state, and the
    properties the slice promises are lemmas about those functions. */
module CartSlice {
  import opened Wrappers
  import Collections
  import Text

  /** The fields of a product that a new cart line copies (`{ ...product, quantity: 1 }`). */
  datatype Product = Product(id: int, name: string, price: real, sku: string)

  /** One cart line: the product's fields, a unit price that the cashier may override,
      and a quantity. */
  datatype CartItem = CartItem(id: int, name: string, price: real, sku: string, quantity: int)

  /** The receipt `completePayment` stores. */
  datatype ReceiptData = ReceiptData(
    items: seq<CartItem>,
    total: real,
    paymentMethod: string,
    cashGiven: Option<real>,
    change: Option<real>,
    timestamp: string,
    receiptNumber: string)

  /** The payload of `completePayment`, as a payment handler reports it. */
  datatype PaymentDetails = PaymentDetails(paymentMethod: string, cashGiven: Option<real>, change: Option<real>)

  /** The value of the whole cart state. */
  datatype CartData = CartData(
    cart: seq<CartItem>,
    isCheckingOut: bool,
    isCompleted: bool,
    receiptData: Option<ReceiptData>,
    originalPrices: Option<map<int, real>>)

  /** `initialState`. */
  const Initial := CartData([], false, false, None, None)

  // ---------------------------------------------------------------------------
  // Cart lines
  // ---------------------------------------------------------------------------

  predicate UniqueIds(c: seq<CartItem>) {
    forall i, j :: 0 <= i < j < |c| ==> c[i].id != c[j].id
  }

  /** What every reducer keeps: one line per product id, and every quantity at least 1
      (so the round-up may divide by the last line's quantity). */
  predicate WellFormed(c: seq<CartItem>) {
    UniqueIds(c) && forall i :: 0 <= i < |c| ==> c[i].quantity >= 1
  }

  predicate InCart(c: seq<CartItem>, id: int) {
    exists i :: 0 <= i < |c| && c[i].id == id
  }

  /** `cart.find((item) => item.id === id)`: the position of the first line with this id,
      or `|c|` when there is none. */
  function IndexOf(c: seq<CartItem>, id: int): (i: nat)
    ensures i <= |c|
    ensures i < |c| ==> c[i].id == id
    ensures forall k :: 0 <= k < i ==> c[k].id != id
    ensures i < |c| <==> InCart(c, id)
  {
    if c == [] then 0
    else if c[0].id == id then 0
    else 1 + IndexOf(c[1..], id)
  }

  /** With unique ids, the line at `k` is the one found for its id. */
  lemma IndexOfUnique(c: seq<CartItem>, k: nat)
    requires UniqueIds(c) && k < |c|
    ensures IndexOf(c, c[k].id) == k
  {
  }

  /** The quantity of the line for `id`, or 0 when the cart has none. */
  function QuantityOf(c: seq<CartItem>, id: int): int {
    var i := IndexOf(c, id);
    if i < |c| then c[i].quantity else 0
  }

  /** The unit price of the line for `id`, if the cart has one. */
  function PriceOf(c: seq<CartItem>, id: int): Option<real> {
    var i := IndexOf(c, id);
    if i < |c| then Some(c[i].price) else None
  }

  /** `price * item.quantity`. */
  function Line(x: CartItem): real {
    x.price * x.quantity as real
  }

  /** What the line for `id` contributes to the total, or 0 when the cart has none. */
  function LineAmount(c: seq<CartItem>, id: int): real {
    var i := IndexOf(c, id);
    if i < |c| then Line(c[i]) else 0.0
  }

  /** `selectCartTotal`, and the total `completePayment` and `roundUpTotal` compute:
      the sum of `price * quantity` over the cart. */
  function Total(c: seq<CartItem>): real {
    if c == [] then 0.0 else Line(c[0]) + Total(c[1..])
  }

  lemma {:induction false} TotalAppend(a: seq<CartItem>, b: seq<CartItem>)
    ensures Total(a + b) == Total(a) + Total(b)
  {
    if a == [] {
      assert a + b == b;
    } else {
      assert (a + b)[1..] == a[1..] + b;
      TotalAppend(a[1..], b);
    }
  }

  /** Replacing one line changes the total by the difference of the two lines. */
  lemma {:induction false} TotalUpdate(c: seq<CartItem>, i: nat, x: CartItem)
    requires i < |c|
    ensures Total(c[i := x]) == Total(c) - Line(c[i]) + Line(x)
  {
    if i > 0 {
      assert c[i := x][1..] == c[1..][i - 1 := x];
      TotalUpdate(c[1..], i - 1, x);
    }
  }

  lemma MulOneMore(a: real, q: int)
    ensures a * (q + 1) as real == a * q as real + a
  {
  }

  lemma DivideBack(p: real, d: real, q: real)
    requires q != 0.0
    ensures (p + d / q) * q == p * q + d
  {
  }

  /** Two carts with the same ids at the same positions find a given id at the same place. */
  lemma SameIdsSameIndex(c: seq<CartItem>, r: seq<CartItem>, id: int)
    requires |r| == |c| && forall k :: 0 <= k < |c| ==> r[k].id == c[k].id
    ensures IndexOf(r, id) == IndexOf(c, id)
  {
  }

  /** The line `addToCart` appends for a product not yet in the cart. */
  function NewItem(p: Product): CartItem {
    CartItem(p.id, p.name, p.price, p.sku, 1)
  }

  /** `addToCart`: one more of a product already in the cart, or a new line at the end. */
  function AddItem(c: seq<CartItem>, p: Product): seq<CartItem> {
    var i := IndexOf(c, p.id);
    if i < |c| then c[i := c[i].(quantity := c[i].quantity + 1)] else c + [NewItem(p)]
  }

  /** `updateQuantity`: a quantity of 0 or less removes the line. */
  function SetQuantity(c: seq<CartItem>, id: int, quantity: int): seq<CartItem> {
    if quantity <= 0 then RemoveItem(c, id)
    else
      var i := IndexOf(c, id);
      if i < |c| then c[i := c[i].(quantity := quantity)] else c
  }

  /** `updateItemPrice`: overrides the unit price of one line. */
  function SetPrice(c: seq<CartItem>, id: int, price: real): seq<CartItem> {
    var i := IndexOf(c, id);
    if i < |c| then c[i := c[i].(price := price)] else c
  }

  function NotId(id: int): CartItem -> bool {
    (x: CartItem) => x.id != id
  }

  /** `removeFromCart`, and the lines other than `id`'s in their order: no line for `id`
      is left, and every other line is kept in order. */
  function RemoveItem(c: seq<CartItem>, id: int): (r: seq<CartItem>)
    ensures !InCart(r, id)
    ensures Collections.IsSubsequence(r, c)
    ensures forall x :: x in c && x.id != id ==> x in r
  {
    var r := Collections.Where(c, NotId(id));
    assert forall i :: 0 <= i < |r| ==> r[i] in r;
    r
  }

  lemma AddItemKeepsWellFormed(c: seq<CartItem>, p: Product)
    requires WellFormed(c)
    ensures WellFormed(AddItem(c, p))
  {
  }

  /** The product's line has one more unit, at the line's current price if it was
      already in the cart (which may have been overridden) and at the product's price
      otherwise. */
  lemma AddItemQuantity(c: seq<CartItem>, p: Product)
    ensures QuantityOf(AddItem(c, p), p.id) == QuantityOf(c, p.id) + 1
    ensures PriceOf(AddItem(c, p), p.id) == Some(PriceOf(c, p.id).GetOr(p.price))
  {
    var r := AddItem(c, p);
    var i := IndexOf(c, p.id);
    if i < |c| {
      assert r == c[i := c[i].(quantity := c[i].quantity + 1)];
      SameIdsSameIndex(c, r, p.id);
    } else {
      assert r == c + [NewItem(p)];
      assert r[|c|] == NewItem(p);
      assert IndexOf(r, p.id) == |c|;
    }
  }

  /** Every other line stays where and as it was. */
  lemma AddItemKeepsOthers(c: seq<CartItem>, p: Product)
    ensures RemoveItem(AddItem(c, p), p.id) == RemoveItem(c, p.id)
    ensures !InCart(c, p.id) ==> AddItem(c, p) == c + [NewItem(p)]
  {
    var i := IndexOf(c, p.id);
    if i < |c| {
      var y := c[i].(quantity := c[i].quantity + 1);
      assert AddItem(c, p) == c[i := y];
      Collections.WhereUpdateDropped(c, i, y, NotId(p.id));
    } else {
      var x := NewItem(p);
      assert AddItem(c, p) == c + [x];
      Collections.WhereAppend(c, [x], NotId(p.id));
      assert [x][1..] == [];
      assert Collections.Where([x], NotId(p.id)) == [];
    }
  }

  /** The total grows by the unit price the product's line is charged at. */
  lemma AddItemTotal(c: seq<CartItem>, p: Product)
    ensures Total(AddItem(c, p)) == Total(c) + PriceOf(c, p.id).GetOr(p.price)
  {
    var i := IndexOf(c, p.id);
    if i < |c| {
      var y := c[i].(quantity := c[i].quantity + 1);
      assert AddItem(c, p) == c[i := y];
      TotalUpdate(c, i, y);
      MulOneMore(c[i].price, c[i].quantity);
    } else {
      var x := NewItem(p);
      assert AddItem(c, p) == c + [x];
      TotalAppend(c, [x]);
    }
  }

  lemma {:induction false} RemoveItemKeepsWellFormed(c: seq<CartItem>, id: int)
    requires WellFormed(c)
    ensures WellFormed(RemoveItem(c, id))
  {
    var r := RemoveItem(c, id);
    if c != [] {
      var rest := c[1..];
      var rr := RemoveItem(rest, id);
      assert WellFormed(rest) by {
        forall i, j | 0 <= i < j < |rest|
          ensures rest[i].id != rest[j].id
        {
          assert rest[i] == c[i + 1] && rest[j] == c[j + 1];
        }
      }
      RemoveItemKeepsWellFormed(rest, id);
      if c[0].id != id {
        assert r == [c[0]] + rr;
        forall i, j | 0 <= i < j < |r|
          ensures r[i].id != r[j].id
        {
          if i == 0 {
            assert r[j] == rr[j - 1] && rr[j - 1] in rr;
            var k :| 0 <= k < |rest| && rest[k] == rr[j - 1];
            assert c[k + 1] == r[j];
          } else {
            assert r[i] == rr[i - 1] && r[j] == rr[j - 1];
          }
        }
      } else {
        assert r == rr;
      }
    }
    forall i | 0 <= i < |r|
      ensures r[i].quantity >= 1
    {
      assert r[i] in r;
    }
  }

  /** Removing a line takes its amount off the total. */
  lemma {:induction false} RemoveItemTotal(c: seq<CartItem>, id: int)
    requires UniqueIds(c)
    ensures Total(RemoveItem(c, id)) == Total(c) - LineAmount(c, id)
  {
    if c != [] {
      var rest := c[1..];
      assert UniqueIds(rest) by {
        forall i, j | 0 <= i < j < |rest|
          ensures rest[i].id != rest[j].id
        {
          assert rest[i] == c[i + 1] && rest[j] == c[j + 1];
        }
      }
      RemoveItemTotal(rest, id);
      if c[0].id == id {
        forall k | 0 <= k < |rest|
          ensures NotId(id)(rest[k])
        {
          assert rest[k] == c[k + 1];
        }
        Collections.WhereKeepsAll(rest, NotId(id));
        assert RemoveItem(c, id) == rest;
      } else {
        assert RemoveItem(c, id) == [c[0]] + RemoveItem(rest, id);
        assert IndexOf(c, id) == 1 + IndexOf(rest, id);
        assert LineAmount(c, id) == LineAmount(rest, id);
      }
    }
  }

  lemma SetQuantityKeepsWellFormed(c: seq<CartItem>, id: int, quantity: int)
    requires WellFormed(c)
    ensures WellFormed(SetQuantity(c, id, quantity))
  {
    if quantity <= 0 {
      RemoveItemKeepsWellFormed(c, id);
    } else {
      var i := IndexOf(c, id);
      if i < |c| {
        assert SetQuantity(c, id, quantity) == c[i := c[i].(quantity := quantity)];
      }
    }
  }

  /** A quantity of 0 or less removes exactly the line for `id`. */
  lemma SetQuantityRemoves(c: seq<CartItem>, id: int, quantity: int)
    requires quantity <= 0
    ensures !InCart(SetQuantity(c, id, quantity), id)
    ensures RemoveItem(SetQuantity(c, id, quantity), id) == RemoveItem(c, id)
    ensures !InCart(c, id) ==> SetQuantity(c, id, quantity) == c
  {
    var r := RemoveItem(c, id);
    assert SetQuantity(c, id, quantity) == r;
    forall k | 0 <= k < |r|
      ensures NotId(id)(r[k])
    {
    }
    Collections.WhereKeepsAll(r, NotId(id));
    if !InCart(c, id) {
      Collections.WhereKeepsAll(c, NotId(id));
    }
  }

  /** A positive quantity replaces the quantity of the line for `id` in place, if there
      is one, and leaves everything else as it was. */
  lemma SetQuantityReplaces(c: seq<CartItem>, id: int, quantity: int)
    requires quantity > 0
    ensures QuantityOf(SetQuantity(c, id, quantity), id) == if InCart(c, id) then quantity else 0
    ensures RemoveItem(SetQuantity(c, id, quantity), id) == RemoveItem(c, id)
    ensures var r := SetQuantity(c, id, quantity);
      |r| == |c| && forall k :: 0 <= k < |c| ==> r[k].id == c[k].id && r[k].price == c[k].price
    ensures !InCart(c, id) ==> SetQuantity(c, id, quantity) == c
  {
    var r := SetQuantity(c, id, quantity);
    var i := IndexOf(c, id);
    if i < |c| {
      var y := c[i].(quantity := quantity);
      assert r == c[i := y];
      SameIdsSameIndex(c, r, id);
      Collections.WhereUpdateDropped(c, i, y, NotId(id));
    }
  }

  lemma SetPriceKeepsWellFormed(c: seq<CartItem>, id: int, price: real)
    requires WellFormed(c)
    ensures WellFormed(SetPrice(c, id, price))
  {
    var i := IndexOf(c, id);
    if i < |c| {
      assert SetPrice(c, id, price) == c[i := c[i].(price := price)];
    }
  }

  /** Overriding a price changes that line's unit price and nothing else. */
  lemma SetPriceSpec(c: seq<CartItem>, id: int, price: real)
    ensures PriceOf(SetPrice(c, id, price), id) == if InCart(c, id) then Some(price) else None
    ensures QuantityOf(SetPrice(c, id, price), id) == QuantityOf(c, id)
    ensures RemoveItem(SetPrice(c, id, price), id) == RemoveItem(c, id)
  {
    var r := SetPrice(c, id, price);
    var i := IndexOf(c, id);
    if i < |c| {
      var y := c[i].(price := price);
      assert r == c[i := y];
      SameIdsSameIndex(c, r, id);
      Collections.WhereUpdateDropped(c, i, y, NotId(id));
    }
  }

  /** Only the amount of the line for `id` changes in the total; with `SetPriceSpec`,
      that line is now charged at the new price. */
  lemma SetPriceTotal(c: seq<CartItem>, id: int, price: real)
    ensures Total(SetPrice(c, id, price)) == Total(c) - LineAmount(c, id) + LineAmount(SetPrice(c, id, price), id)
  {
    var r := SetPrice(c, id, price);
    var i := IndexOf(c, id);
    if i < |c| {
      var y := c[i].(price := price);
      assert r == c[i := y];
      SameIdsSameIndex(c, r, id);
      TotalUpdate(c, i, y);
    }
  }

  // ---------------------------------------------------------------------------
  // Round-up and revert
  // ---------------------------------------------------------------------------

  /** `Math.ceil`: the least integer not below `x`. */
  function Ceil(x: real): (n: int)
    ensures x <= n as real < x + 1.0
  {
    -((-x).Floor)
  }

  /** The prices after `roundUpTotal`: the difference between the ceiling of the total
      and the total is spread over the last line's quantity and added to its unit price. */
  function RoundUpPrices(c: seq<CartItem>): seq<CartItem>
    requires WellFormed(c)
  {
    if c == [] then c
    else
      var total := Total(c);
      var difference := Ceil(total) as real - total;
      if difference > 0.0 then
        var last := c[|c| - 1];
        c[|c| - 1 := last.(price := last.price + difference / last.quantity as real)]
      else c
  }

  /** The `originalPrices` the `forEach` of `roundUpTotal` fills: every line's id mapped to
      its unit price (a later line with the same id would win). */
  function Snapshot(c: seq<CartItem>): map<int, real>
    decreases |c|
  {
    if c == [] then map[]
    else Snapshot(c[..|c| - 1])[c[|c| - 1].id := c[|c| - 1].price]
  }

  /** One line as `revertRoundUp` leaves it. */
  function Restore(x: CartItem, snapshot: map<int, real>): CartItem {
    if x.id in snapshot then x.(price := snapshot[x.id]) else x
  }

  /** The cart after the `forEach` of `revertRoundUp`. */
  function RevertPrices(c: seq<CartItem>, snapshot: map<int, real>): (r: seq<CartItem>)
    ensures |r| == |c|
    ensures forall k :: 0 <= k < |c| ==> r[k].id == c[k].id && r[k].quantity == c[k].quantity
    ensures forall k :: 0 <= k < |c| && c[k].id in snapshot ==> r[k] == c[k].(price := snapshot[c[k].id])
    ensures forall k :: 0 <= k < |c| && c[k].id !in snapshot ==> r[k] == c[k]
  {
    seq(|c|, k requires 0 <= k < |c| => Restore(c[k], snapshot))
  }

  /** `roundUpTotal`: nothing on an empty cart; otherwise the snapshot is taken if there is
      none yet, then the prices are rounded up. */
  function RoundedUp(s: CartData): CartData
    requires WellFormed(s.cart)
  {
    if s.cart == [] then s
    else
      s.(cart := RoundUpPrices(s.cart),
         originalPrices := if s.originalPrices.None? then Some(Snapshot(s.cart)) else s.originalPrices)
  }

  /** `revertRoundUp`: nothing without a snapshot or with an empty cart (the snapshot is
      then kept); otherwise every line in the snapshot gets its price back and the snapshot
      is dropped. */
  function Reverted(s: CartData): CartData {
    if s.originalPrices.None? || s.cart == [] then s
    else s.(cart := RevertPrices(s.cart, s.originalPrices.value), originalPrices := None)
  }

  /** Adding `d / q` to the unit price of the last line, of quantity `q`, adds `d` to the
      total. */
  lemma SpreadOverLast(c: seq<CartItem>, d: real)
    requires c != [] && c[|c| - 1].quantity >= 1
    ensures var n := |c| - 1;
      Total(c[n := c[n].(price := c[n].price + d / c[n].quantity as real)]) == Total(c) + d
  {
    var n := |c| - 1;
    var q := c[n].quantity as real;
    var y := c[n].(price := c[n].price + d / q);
    TotalUpdate(c, n, y);
    DivideBack(c[n].price, d, q);
  }

  /** A second `revertRoundUp` does nothing: the first one either changed nothing or
      dropped the snapshot, and without a snapshot the revert returns early. */
  lemma RevertTwice(s: CartData)
    ensures Reverted(Reverted(s)) == Reverted(s)
  {
  }

  /** On a non-empty cart the rounded total is the ceiling of the old total, and only the
      last line's price changes, by the difference divided by its quantity. */
  lemma RoundUpPricesSpec(c: seq<CartItem>)
    requires WellFormed(c) && c != []
    ensures WellFormed(RoundUpPrices(c))
    ensures Total(RoundUpPrices(c)) == Ceil(Total(c)) as real
    ensures |RoundUpPrices(c)| == |c| && RoundUpPrices(c)[..|c| - 1] == c[..|c| - 1]
    ensures var n := |c| - 1;
      RoundUpPrices(c)[n] == c[n].(price := c[n].price + (Ceil(Total(c)) as real - Total(c)) / c[n].quantity as real)
  {
    var n := |c| - 1;
    var total := Total(c);
    var difference := Ceil(total) as real - total;
    var q := c[n].quantity as real;
    if difference > 0.0 {
      SpreadOverLast(c, difference);
    } else {
      assert difference == 0.0;
      assert c[n].(price := c[n].price + difference / q) == c[n];
    }
  }

  lemma RoundUpKeepsWellFormed(c: seq<CartItem>)
    requires WellFormed(c)
    ensures WellFormed(RoundUpPrices(c))
  {
    if c != [] {
      forall k | 0 <= k < |c|
        ensures RoundUpPrices(c)[k] == c[k].(price := RoundUpPrices(c)[k].price)
      {
        RoundUpKeepsLines(c, k);
      }
    }
  }

  /** A second round-up changes nothing: the total is already whole, and the snapshot of
      the first one is kept. */
  lemma RoundUpIdempotent(s: CartData)
    requires WellFormed(s.cart)
    ensures WellFormed(RoundedUp(s).cart)
    ensures RoundedUp(RoundedUp(s)) == RoundedUp(s)
  {
    if s.cart != [] {
      var r := RoundedUp(s);
      RoundUpPricesSpec(s.cart);
      var whole := Ceil(Total(s.cart));
      assert Total(r.cart) == whole as real;
      assert Ceil(Total(r.cart)) == whole;
      assert RoundUpPrices(r.cart) == r.cart;
    }
  }

  /** With unique ids, the snapshot maps every line's id to that line's price. */
  lemma {:induction false} SnapshotLookup(c: seq<CartItem>, k: nat)
    requires UniqueIds(c) && k < |c|
    ensures c[k].id in Snapshot(c) && Snapshot(c)[c[k].id] == c[k].price
    decreases |c|
  {
    var n := |c| - 1;
    if k < n {
      var p := c[..n];
      assert p[k] == c[k];
      assert UniqueIds(p) by {
        forall i, j | 0 <= i < j < |p|
          ensures p[i].id != p[j].id
        {
          assert p[i] == c[i] && p[j] == c[j];
        }
      }
      SnapshotLookup(p, k);
    }
  }

  /** The snapshot holds the ids of the cart's lines and no others. */
  lemma {:induction false} SnapshotKeys(c: seq<CartItem>, id: int)
    ensures id in Snapshot(c) <==> InCart(c, id)
    decreases |c|
  {
    if c != [] {
      var n := |c| - 1;
      var p := c[..n];
      SnapshotKeys(p, id);
      if InCart(p, id) {
        var k :| 0 <= k < |p| && p[k].id == id;
        assert c[k].id == id;
      }
      if InCart(c, id) && c[n].id != id {
        var k :| 0 <= k < |c| && c[k].id == id;
        assert p[k].id == id;
      }
    }
  }

  /** The rounded cart's lines are the old ones with at most their price changed. */
  lemma RoundUpKeepsLines(c: seq<CartItem>, k: nat)
    requires WellFormed(c) && k < |c|
    ensures |RoundUpPrices(c)| == |c|
    ensures RoundUpPrices(c)[k] == c[k].(price := RoundUpPrices(c)[k].price)
  {
    RoundUpPricesSpec(c);
    var r := RoundUpPrices(c);
    if k < |c| - 1 {
      assert r[k] == r[..|c| - 1][k] && c[k] == c[..|c| - 1][k];
    }
  }

  /** A round-up followed by a revert gives back the cart exactly as it was. */
  lemma RoundUpThenRevert(s: CartData)
    requires WellFormed(s.cart) && s.originalPrices.None?
    ensures Reverted(RoundedUp(s)) == s
  {
    if s.cart != [] {
      var c := s.cart;
      var r := RoundedUp(s);
      var back := Reverted(r).cart;
      forall k | 0 <= k < |c|
        ensures back[k] == c[k]
      {
        RoundUpKeepsLines(c, k);
        SnapshotLookup(c, k);
      }
      assert back == c;
    }
  }

  /** A line added after a round-up is not in the snapshot, so the revert leaves it at the
      price it was added with while restoring all the others. */
  lemma AddedAfterRoundUpKeepsPrice(s: CartData, p: Product)
    requires WellFormed(s.cart) && s.cart != [] && s.originalPrices.None? && !InCart(s.cart, p.id)
    ensures WellFormed(RoundedUp(s).cart)
    ensures Reverted(RoundedUp(s).(cart := AddItem(RoundedUp(s).cart, p))).cart == s.cart + [NewItem(p)]
  {
    var c := s.cart;
    RoundUpPricesSpec(c);
    var rc := RoundUpPrices(c);
    forall k | 0 <= k < |c|
      ensures rc[k].id == c[k].id
    {
      RoundUpKeepsLines(c, k);
    }
    SameIdsSameIndex(c, rc, p.id);
    var added := AddItem(rc, p);
    assert added == rc + [NewItem(p)];
    SnapshotKeys(c, p.id);
    var back := RevertPrices(added, Snapshot(c));
    var want := c + [NewItem(p)];
    forall k | 0 <= k < |want|
      ensures back[k] == want[k]
    {
      if k < |c| {
        RoundUpKeepsLines(c, k);
        SnapshotLookup(c, k);
      }
    }
    assert back == want;
  }

  /** `clearCart` keeps the snapshot, so the next round-up takes no new one. A product of
      the cleared sale that is added again and given a new price gets the old sale's price
      back on the revert: the override is lost. */
  lemma StaleSnapshotAfterClear(s: CartData, p: Product, price: real)
    requires s.originalPrices.Some? && p.id in s.originalPrices.value
    ensures var c := SetPrice(AddItem([], p), p.id, price);
      && c == [NewItem(p).(price := price)]
      && Reverted(RoundedUp(s.(cart := c))).cart == [NewItem(p).(price := s.originalPrices.value[p.id])]
  {
    var c := SetPrice(AddItem([], p), p.id, price);
    assert AddItem([], p) == [NewItem(p)];
    assert c == [NewItem(p).(price := price)];
    RoundUpKeepsLines(c, 0);
    var rc := RoundUpPrices(c);
    assert Reverted(RoundedUp(s.(cart := c))).cart == RevertPrices(rc, s.originalPrices.value);
  }

  // ---------------------------------------------------------------------------
  // Payment
  // ---------------------------------------------------------------------------

  /** `Math.floor(100000 + Math.random() * 900000)`, for the value `random` that
      `Math.random()` returned. */
  function ReceiptSerial(random: real): (n: nat)
    requires 0.0 <= random < 1.0
    ensures 100000 <= n <= 999999
  {
    (100000.0 + random * 900000.0).Floor
  }

  /** The template string `R-${serial}`. */
  function ReceiptNumber(serial: nat): string {
    "R-" + Text.DecimalString(serial)
  }

  /** A receipt number is "R-" followed by exactly six digits that spell the serial. */
  lemma ReceiptNumberFormat(random: real)
    requires 0.0 <= random < 1.0
    ensures var s := ReceiptNumber(ReceiptSerial(random));
      && |s| == 8 && s[..2] == "R-"
      && (forall i :: 2 <= i < 8 ==> Text.IsDigit(s[i]))
      && Text.DigitsValue(s[2..]) == ReceiptSerial(random)
  {
    var n := ReceiptSerial(random);
    assert Text.Pow10(5) == 100000 && Text.Pow10(6) == 1000000;
    Text.DecimalLength(n, 6);
    Text.DecimalRoundTrip(n);
    var s := ReceiptNumber(n);
    assert s[2..] == Text.DecimalString(n);
  }

  /** `completePayment`: the receipt freezes a copy of the cart, its total, the payment
      details, the time and a fresh receipt number; the sale is completed and checkout
      left. The cart itself is kept until `startNewSale`. */
  function AfterPayment(s: CartData, payment: PaymentDetails, random: real, timestamp: string): (r: CartData)
    requires 0.0 <= random < 1.0
  {
    var receipt := ReceiptData(s.cart, Total(s.cart), payment.paymentMethod, payment.cashGiven, payment.change,
                               timestamp, ReceiptNumber(ReceiptSerial(random)));
    s.(receiptData := Some(receipt), isCompleted := true, isCheckingOut := false)
  }

  /** The receipt of a payment carries the cart's lines and the total the cart showed,
      under a well-formed receipt number; nothing but the flags and the receipt changes. */
  lemma AfterPaymentSpec(s: CartData, payment: PaymentDetails, random: real, timestamp: string)
    requires 0.0 <= random < 1.0
    ensures var r := AfterPayment(s, payment, random, timestamp);
      && r.isCompleted && !r.isCheckingOut && r.receiptData.Some?
      && r.receiptData.value.items == s.cart
      && r.receiptData.value.total == Total(s.cart)
      && |r.receiptData.value.receiptNumber| == 8
      && r.cart == s.cart && r.originalPrices == s.originalPrices
  {
    ReceiptNumberFormat(random);
  }

  // ---------------------------------------------------------------------------
  // The slice
  // ---------------------------------------------------------------------------

  /** The Redux slice's state; each reducer is a method that updates it in place. */
  class CartState {
    var cart: seq<CartItem>
    var isCheckingOut: bool
    var isCompleted: bool
    var receiptData: Option<ReceiptData>
    var originalPrices: Option<map<int, real>>

    predicate Valid()
      reads this
    {
      WellFormed(cart)
    }

    function Data(): CartData
      reads this
    {
      CartData(cart, isCheckingOut, isCompleted, receiptData, originalPrices)
    }

    constructor()
      ensures Valid() && Data() == Initial
    {
      cart := [];
      isCheckingOut := false;
      isCompleted := false;
      receiptData := None;
      originalPrices := None;
    }

    method AddToCart(product: Product)
      requires Valid()
      modifies this
      ensures Valid()
      ensures Data() == old(Data()).(cart := AddItem(old(cart), product))
    {
      AddItemKeepsWellFormed(cart, product);
      var i := IndexOf(cart, product.id);
      if i < |cart| {
        cart := cart[i := cart[i].(quantity := cart[i].quantity + 1)];
      } else {
        cart := cart + [NewItem(product)];
      }
    }

    method UpdateQuantity(id: int, quantity: int)
      requires Valid()
      modifies this
      ensures Valid()
      ensures Data() == old(Data()).(cart := SetQuantity(old(cart), id, quantity))
    {
      SetQuantityKeepsWellFormed(cart, id, quantity);
      if quantity <= 0 {
        cart := RemoveItem(cart, id);
      } else {
        var i := IndexOf(cart, id);
        if i < |cart| {
          cart := cart[i := cart[i].(quantity := quantity)];
        }
      }
    }

    method UpdateItemPrice(id: int, price: real)
      requires Valid()
      modifies this
      ensures Valid()
      ensures Data() == old(Data()).(cart := SetPrice(old(cart), id, price))
    {
      SetPriceKeepsWellFormed(cart, id, price);
      var i := IndexOf(cart, id);
      if i < |cart| {
        cart := cart[i := cart[i].(price := price)];
      }
    }

    method RemoveFromCart(id: int)
      requires Valid()
      modifies this
      ensures Valid()
      ensures Data() == old(Data()).(cart := RemoveItem(old(cart), id))
    {
      RemoveItemKeepsWellFormed(cart, id);
      cart := RemoveItem(cart, id);
    }

    /** Empties the cart; the flags, the receipt and the round-up snapshot stay. */
    method ClearCart()
      requires Valid()
      modifies this
      ensures Valid()
      ensures Data() == old(Data()).(cart := [])
    {
      cart := [];
    }

    method SetCheckingOut(value: bool)
      requires Valid()
      modifies this
      ensures Valid()
      ensures Data() == old(Data()).(isCheckingOut := value)
    {
      isCheckingOut := value;
    }

    method SetCompleted(value: bool)
      requires Valid()
      modifies this
      ensures Valid()
      ensures Data() == old(Data()).(isCompleted := value)
    {
      isCompleted := value;
    }

    method SetReceiptData(value: Option<ReceiptData>)
      requires Valid()
      modifies this
      ensures Valid()
      ensures Data() == old(Data()).(receiptData := value)
    {
      receiptData := value;
    }

    /** `random` is the value `Math.random()` returned and `timestamp` the ISO text of
        `new Date()`. */
    method CompletePayment(payment: PaymentDetails, random: real, timestamp: string)
      requires Valid() && 0.0 <= random < 1.0
      modifies this
      ensures Valid()
      ensures Data() == AfterPayment(old(Data()), payment, random, timestamp)
    {
      var total := Total(cart);
      var receiptNumber := ReceiptNumber(ReceiptSerial(random));
      receiptData := Some(ReceiptData(cart, total, payment.paymentMethod, payment.cashGiven, payment.change,
                                      timestamp, receiptNumber));
      isCompleted := true;
      isCheckingOut := false;
    }

    method StartNewSale()
      requires Valid()
      modifies this
      ensures Valid()
      ensures Data() == Initial
    {
      cart := [];
      isCompleted := false;
      receiptData := None;
      isCheckingOut := false;
      originalPrices := None;
    }

    method RoundUpTotal()
      requires Valid()
      modifies this
      ensures Valid()
      ensures Data() == RoundedUp(old(Data()))
    {
      if |cart| == 0 {
        return;
      }
      if originalPrices.None? {
        StoreOriginalPrices();
      }
      var currentTotal := Total(cart);
      var roundedTotal := Ceil(currentTotal);
      var difference := roundedTotal as real - currentTotal;
      if difference > 0.0 {
        var lastItem := cart[|cart| - 1];
        var priceAdjustment := difference / lastItem.quantity as real;
        cart := cart[|cart| - 1 := lastItem.(price := lastItem.price + priceAdjustment)];
      }
      RoundUpKeepsWellFormed(old(cart));
    }

    /** The `forEach` of `roundUpTotal` that records every line's price. */
    method StoreOriginalPrices()
      modifies this
      ensures Data() == old(Data()).(originalPrices := Some(Snapshot(cart)))
    {
      originalPrices := Some(map[]);
      var i := 0;
      while i < |cart|
        invariant 0 <= i <= |cart|
        invariant originalPrices == Some(Snapshot(cart[..i]))
        invariant Data() == old(Data()).(originalPrices := originalPrices)
      {
        assert cart[..i + 1][..i] == cart[..i];
        originalPrices := Some(originalPrices.value[cart[i].id := cart[i].price]);
        i := i + 1;
      }
      assert cart[..|cart|] == cart;
    }

    method RevertRoundUp()
      requires Valid()
      modifies this
      ensures Valid()
      ensures Data() == Reverted(old(Data()))
    {
      if originalPrices.None? || |cart| == 0 {
        return;
      }
      var snapshot := originalPrices.value;
      var i := 0;
      while i < |cart|
        invariant 0 <= i <= |cart| == |old(cart)|
        invariant forall k :: 0 <= k < i ==> cart[k] == Restore(old(cart)[k], snapshot)
        invariant forall k :: i <= k < |cart| ==> cart[k] == old(cart)[k]
        invariant Data() == old(Data()).(cart := cart)
      {
        if cart[i].id in snapshot {
          cart := cart[i := cart[i].(price := snapshot[cart[i].id])];
        }
        i := i + 1;
      }
      assert cart == RevertPrices(old(cart), snapshot);
      originalPrices := None;
    }
  }
}
