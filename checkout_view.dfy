/** The checkout panel, `src/components/pos/checkout.tsx`: the order payload sent for a
    card or cash payment, the cash guard and the change, the choice of the error message
    shown when the order is refused, and the `isProcessing` flag. The HTTP request itself
    is not modelled: its outcome is an input to the handlers that settle a payment. */
module CheckoutView {
  import opened Wrappers
  import Text
  import opened CartSlice

  /** One entry of the `items` array of the order: `{product_id, quantity, price}`. */
  datatype OrderItem = OrderItem(productId: int, quantity: int, price: real)

  /** The `items.map(...)` of both payment handlers: one entry per cart line, in order. */
  function OrderItems(items: seq<CartItem>): (r: seq<OrderItem>)
    ensures |r| == |items|
    ensures forall k :: 0 <= k < |items| ==>
      r[k].productId == items[k].id && r[k].quantity == items[k].quantity && r[k].price == items[k].price
  {
    seq(|items|, k requires 0 <= k < |items| => OrderItem(items[k].id, items[k].quantity, items[k].price))
  }

  /** What the order asks to be paid: the sum of `price * quantity` over its entries. */
  function OrderAmount(order: seq<OrderItem>): real {
    if order == [] then 0.0 else order[0].price * order[0].quantity as real + OrderAmount(order[1..])
  }

  /** The order asks for exactly the cart total the panel shows. */
  lemma {:induction false} OrderAmountIsTotal(items: seq<CartItem>)
    ensures OrderAmount(OrderItems(items)) == Total(items)
  {
    if items != [] {
      OrderAmountIsTotal(items[1..]);
      assert OrderItems(items)[1..] == OrderItems(items[1..]);
    }
  }

  /** The order names a product exactly when the cart holds a line for it. */
  lemma OrderListsCartProducts(items: seq<CartItem>, id: int)
    ensures (exists k :: 0 <= k < |OrderItems(items)| && OrderItems(items)[k].productId == id) <==> InCart(items, id)
  {
    var r := OrderItems(items);
    if InCart(items, id) {
      var i := IndexOf(items, id);
      assert r[i].productId == id;
    }
  }

  /** The cash text, read by `parse` (standing for `Number.parseFloat`, `None` for NaN),
      covers the total: the guard of `handleCashPayment` and the condition for showing
      the change. */
  predicate CashCovers(cashText: string, total: real, parse: string -> Option<real>) {
    parse(cashText).Some? && parse(cashText).value >= total
  }

  /** `calculateChange`: 0 when the cash is not a number or does not cover the total. */
  function CalculateChange(cashText: string, total: real, parse: string -> Option<real>): (r: real)
    ensures r >= 0.0
    ensures CashCovers(cashText, total, parse) ==> parse(cashText).value == total + r
    ensures !CashCovers(cashText, total, parse) ==> r == 0.0
  {
    match parse(cashText)
    case None => 0.0
    case Some(cashGiven) => if cashGiven < total then 0.0 else cashGiven - total
  }

  /** The "Complete Cash Payment" button is enabled: the text is non-empty, a number,
      and not below the total. */
  predicate CashButtonEnabled(cashText: string, total: real, parse: string -> Option<real>) {
    cashText != "" && parse(cashText).Some? && !(parse(cashText).value < total)
  }

  /** The details a successful cash payment reports: the cash given and the change. */
  function CashDetails(cashText: string, total: real, parse: string -> Option<real>): (r: Option<PaymentDetails>)
    ensures r.Some? <==> CashCovers(cashText, total, parse)
    ensures r.Some? ==>
      && r.value.paymentMethod == "cash"
      && r.value.cashGiven == parse(cashText)
      && r.value.change == Some(CalculateChange(cashText, total, parse))
  {
    match parse(cashText)
    case None => None
    case Some(cashGiven) =>
      if cashGiven < total then None
      else Some(PaymentDetails("cash", Some(cashGiven), Some(cashGiven - total)))
  }

  /** The details a successful card payment reports: the method and nothing else. */
  const CardDetails := PaymentDetails("card", None, None)

  /** An enabled cash button always leads to a submitted order, and the change it
      reports is never negative. */
  lemma EnabledCashButtonSubmits(cashText: string, total: real, parse: string -> Option<real>)
    requires CashButtonEnabled(cashText, total, parse)
    ensures CashDetails(cashText, total, parse).Some?
    ensures CashDetails(cashText, total, parse).value.change.value >= 0.0
  {
  }

  /** The `data` of a refused request's response: the nested `error.errors` array of a
      MercadoPago refusal (the `message` of each of its entries), if there is one, and
      the `message` field, with "" standing for a missing or empty one. */
  datatype ResponseData = ResponseData(nestedErrors: Option<seq<string>>, message: string)

  /** A refused request: the response data, if the server answered, and the error's own
      `message`, with "" standing for a missing or empty one. */
  datatype PaymentError = PaymentError(response: Option<ResponseData>, message: string)

  const GenericError := "Error processing payment. Please try again."
  const MercadoPagoPrefix := "MercadoPago Error: "
  const ErrorPrefix := "Error: "

  /** The alert of `handleCardPayment` on failure. */
  function CardErrorMessage(e: PaymentError): string {
    match e.response
    case Some(data) =>
      if data.nestedErrors.Some? then MercadoPagoPrefix + Text.Join(data.nestedErrors.value, ", ")
      else if data.message != "" then ErrorPrefix + data.message
      else GenericError
    case None =>
      if e.message != "" then ErrorPrefix + e.message else GenericError
  }

  /** The alert of `handleCashPayment` on failure: the card order without the nested
      array. */
  function CashErrorMessage(e: PaymentError): string {
    match e.response
    case Some(data) =>
      if data.message != "" then ErrorPrefix + data.message else GenericError
    case None =>
      if e.message != "" then ErrorPrefix + e.message else GenericError
  }

  /** A nested MercadoPago error list wins, and every one of its messages is shown. */
  lemma CardErrorShowsEveryNestedMessage(e: PaymentError, k: nat)
    requires e.response.Some? && e.response.value.nestedErrors.Some?
    requires k < |e.response.value.nestedErrors.value|
    ensures Text.Contains(CardErrorMessage(e), e.response.value.nestedErrors.value[k])
    ensures CardErrorMessage(e)[..|MercadoPagoPrefix|] == MercadoPagoPrefix
  {
    var msgs := e.response.value.nestedErrors.value;
    var joined := Text.Join(msgs, ", ");
    Text.JoinContainsEachPart(msgs, ", ", k);
    var i := Text.ContainsWitness(joined, msgs[k]);
    var whole := MercadoPagoPrefix + joined;
    assert whole[|MercadoPagoPrefix| + i..|MercadoPagoPrefix| + i + |msgs[k]|] == joined[i..i + |msgs[k]|];
    Text.ContainsAt(whole, msgs[k], |MercadoPagoPrefix| + i);
  }

  /** Without a nested list, card and cash choose the same message: the response's
      message, else (only when the server did not answer) the error's own message, else
      the generic text. */
  lemma ErrorMessageOrder(e: PaymentError)
    requires e.response.None? || e.response.value.nestedErrors.None?
    ensures CardErrorMessage(e) == CashErrorMessage(e)
    ensures e.response.Some? && e.response.value.message != "" ==>
      CashErrorMessage(e) == ErrorPrefix + e.response.value.message
    ensures e.response.Some? && e.response.value.message == "" ==> CashErrorMessage(e) == GenericError
    ensures e.response.None? ==>
      CashErrorMessage(e) == if e.message != "" then ErrorPrefix + e.message else GenericError
  {
  }

  /** How the request of a payment ended. */
  datatype Outcome = Succeeded | Failed(error: PaymentError)

  /** The state of the checkout panel. */
  class CheckoutPanel {
    var paymentMethod: string
    var cashAmount: string
    var isProcessing: bool

    constructor()
      ensures paymentMethod == "card" && cashAmount == "" && !isProcessing
    {
      paymentMethod := "card";
      cashAmount := "";
      isProcessing := false;
    }

    /** `handleCardPayment` up to the request: the panel starts processing and sends
        the order built from the cart. */
    method StartCardPayment(items: seq<CartItem>) returns (order: seq<OrderItem>)
      modifies this
      ensures order == OrderItems(items)
      ensures isProcessing
      ensures paymentMethod == old(paymentMethod) && cashAmount == old(cashAmount)
    {
      isProcessing := true;
      order := OrderItems(items);
    }

    /** `handleCashPayment` up to the request: nothing happens unless the cash covers
        the total; otherwise the panel starts processing, sends the order and keeps the
        details to report once the request succeeds. */
    method StartCashPayment(items: seq<CartItem>, total: real, parse: string -> Option<real>)
      returns (order: Option<seq<OrderItem>>, pending: Option<PaymentDetails>)
      modifies this
      ensures pending == CashDetails(old(cashAmount), total, parse)
      ensures order.Some? <==> pending.Some?
      ensures order.Some? ==> order.value == OrderItems(items)
      ensures isProcessing == (pending.Some? || old(isProcessing))
      ensures paymentMethod == old(paymentMethod) && cashAmount == old(cashAmount)
    {
      var parsed := parse(cashAmount);
      if parsed.None? || parsed.value < total {
        return None, None;
      }
      isProcessing := true;
      var cashGiven := parsed.value;
      var change := cashGiven - total;
      order := Some(OrderItems(items));
      pending := Some(PaymentDetails("cash", Some(cashGiven), Some(change)));
    }

    /** The end of a card request: processing stops; completion is reported only on
        success, otherwise an alert is shown. */
    method SettleCardPayment(outcome: Outcome) returns (report: Option<PaymentDetails>, alert: Option<string>)
      modifies this
      ensures !isProcessing
      ensures outcome.Succeeded? ==> report == Some(CardDetails) && alert.None?
      ensures outcome.Failed? ==> report.None? && alert == Some(CardErrorMessage(outcome.error))
      ensures paymentMethod == old(paymentMethod) && cashAmount == old(cashAmount)
    {
      isProcessing := false;
      match outcome
      case Succeeded =>
        report, alert := Some(CardDetails), None;
      case Failed(error) =>
        report, alert := None, Some(CardErrorMessage(error));
    }

    /** The end of a cash request: processing stops; the pending details are reported
        only on success, otherwise an alert is shown. */
    method SettleCashPayment(outcome: Outcome, pending: PaymentDetails) returns (report: Option<PaymentDetails>, alert: Option<string>)
      modifies this
      ensures !isProcessing
      ensures outcome.Succeeded? ==> report == Some(pending) && alert.None?
      ensures outcome.Failed? ==> report.None? && alert == Some(CashErrorMessage(outcome.error))
      ensures paymentMethod == old(paymentMethod) && cashAmount == old(cashAmount)
    {
      isProcessing := false;
      match outcome
      case Succeeded =>
        report, alert := Some(pending), None;
      case Failed(error) =>
        report, alert := None, Some(CashErrorMessage(error));
    }
  }
}
