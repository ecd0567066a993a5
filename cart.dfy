/**
 * The buyer's cart page: the names of the payment methods, the guards of the
 * payment dialog and of the checkout, and the quantity controls of a cart line.
 * Quantities are integers; a typed value that is not a number is not modelled.
 */
module CartPage {
  import opened Wrappers
  import opened Domain

  /** The labels of `getPaymentMethodName`. */
  const PaymentMethodNames: map<string, string> := map[
    "invoice" := "Выставление счета",
    "bank_transfer" := "Банковский перевод",
    "purchase_order" := "Договор поставки",
    "credit_line" := "Кредитная линия",
    "deferred_payment" := "Отсроченный платеж (30 дней)",
    "letter_of_credit" := "Аккредитив"
  ]

  /** `methods[method] || method`: a known code gets its label, any other code is shown as it is. */
  function PaymentMethodName(code: string): (r: string)
    ensures code in PaymentMethodNames ==> r == PaymentMethodNames[code] && r != ""
    ensures code !in PaymentMethodNames ==> r == code
  {
    if code in PaymentMethodNames && PaymentMethodNames[code] != "" then PaymentMethodNames[code] else code
  }

  /** The six known codes get six different labels, none equal to a code. */
  lemma PaymentLabelsDistinct(a: string, b: string)
    requires a in PaymentMethodNames && b in PaymentMethodNames && a != b
    ensures PaymentMethodName(a) != PaymentMethodName(b)
    ensures PaymentMethodName(a) !in PaymentMethodNames
  {
  }

  /** The dialog opens only for a loaded cart with at least one line. */
  predicate CanOpenPaymentDialog(cart: Option<Cart>) {
    cart.Some? && |cart.value.items| > 0
  }

  /** `handleCheckout` orders only with a token and a loaded, non-empty cart. */
  predicate CheckoutProceeds(accessToken: Option<string>, cart: Option<Cart>) {
    accessToken.Some? && accessToken.value != "" && CanOpenPaymentDialog(cart)
  }

  /** Every checkout that proceeds could have opened the dialog. */
  lemma CheckoutNeedsOpenableDialog(accessToken: Option<string>, cart: Option<Cart>)
    ensures CheckoutProceeds(accessToken, cart) ==> CanOpenPaymentDialog(cart)
    ensures cart.Some? && cart.value.items == [] ==> !CheckoutProceeds(accessToken, cart)
  {
  }

  /** The "−" button: disabled (`None`) at quantity 1 or less, otherwise it asks for one less. */
  function MinusRequest(item: CartItem): (r: Option<int>)
    ensures r.None? <==> item.quantity <= 1
    ensures r.Some? ==> r.value == item.quantity - 1 && r.value >= 1
  {
    if item.quantity <= 1 then None else Some(item.quantity - 1)
  }

  /** The "+" button: disabled once the quantity reaches the stock, otherwise it asks for one more. */
  function PlusRequest(item: CartItem): (r: Option<int>)
    ensures r.None? <==> item.quantity >= item.product.stock
    ensures r.Some? ==> r.value == item.quantity + 1 && r.value <= item.product.stock
  {
    if item.quantity >= item.product.stock then None else Some(item.quantity + 1)
  }

  /** A typed quantity is sent as `Math.max(1, value)`. */
  function TypedRequest(value: int): (r: int)
    ensures r >= 1 && r >= value
    ensures value >= 1 ==> r == value
  {
    if value > 1 then value else 1
  }

  /** From a line within 1..stock the buttons ask only for quantities within 1..stock. */
  lemma ButtonsStayInStock(item: CartItem)
    requires 1 <= item.quantity <= item.product.stock
    ensures MinusRequest(item).Some? ==> 1 <= MinusRequest(item).value <= item.product.stock
    ensures PlusRequest(item).Some? ==> 1 <= PlusRequest(item).value <= item.product.stock
  {
  }

  /** Typing bypasses the stock bound: with 5 in stock, typing 100 asks for 100. */
  lemma TypingIgnoresStock(item: CartItem)
    requires item.product.stock == 5
    ensures TypedRequest(100) > item.product.stock
  {
  }

  /** `handleUpdateQuantity` sends its request only with a token and a loaded cart. */
  function UpdateQuantity(accessToken: Option<string>, cart: Option<Cart>, productId: int, quantity: int)
    : (r: Option<(int, int)>)
    ensures r.Some? <==> accessToken.Some? && accessToken.value != "" && cart.Some?
    ensures r.Some? ==> r.value == (productId, quantity)
  {
    if accessToken.Some? && accessToken.value != "" && cart.Some? then Some((productId, quantity)) else None
  }
}
