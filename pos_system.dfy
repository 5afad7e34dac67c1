/** The stage `PosSystem` (`src/components/pos/pos-system.tsx`) shows beside the product
    grid, chosen from the cart's flags. */
module PosSystem {
  import opened Wrappers
  import opened CartSlice

  datatype Screen = CartScreen | CheckoutScreen | ReceiptScreen

  /** The receipt when a sale is completed and its receipt is stored, otherwise the
      checkout while checking out, otherwise the cart. */
  function SelectScreen(s: CartData): Screen {
    if s.isCompleted && s.receiptData.Some? then ReceiptScreen
    else if s.isCheckingOut then CheckoutScreen
    else CartScreen
  }

  /** After a payment the receipt is on screen, whatever was shown before. */
  lemma PaymentShowsReceipt(s: CartData, payment: PaymentDetails, random: real, timestamp: string)
    requires 0.0 <= random < 1.0
    ensures SelectScreen(AfterPayment(s, payment, random, timestamp)) == ReceiptScreen
    ensures AfterPayment(s, payment, random, timestamp).receiptData.value.total == Total(s.cart)
  {
  }

  /** `startNewSale` goes back to the cart. */
  lemma NewSaleShowsCart()
    ensures SelectScreen(Initial) == CartScreen
  {
  }

  /** `handleCheckout` shows the checkout unless a completed sale's receipt is on screen. */
  lemma CheckoutShowsCheckout(s: CartData)
    requires !(s.isCompleted && s.receiptData.Some?)
    ensures SelectScreen(s.(isCheckingOut := true)) == CheckoutScreen
  {
  }

  /** Editing the cart, rounding up and reverting never change the stage shown. */
  lemma CartEditsKeepScreen(s: CartData, c: seq<CartItem>)
    requires WellFormed(s.cart)
    ensures SelectScreen(s.(cart := c)) == SelectScreen(s)
    ensures SelectScreen(RoundedUp(s)) == SelectScreen(s)
    ensures SelectScreen(Reverted(s)) == SelectScreen(s)
  {
  }
}
