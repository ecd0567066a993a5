/**
 * The product page: the quantity picker with its clamps, the add-to-cart guard,
 * and the choice of the supplier shown beside the product. A typed quantity
 * follows the same `Math.max(1, value)` rule as the cart's field,
 * `CartPage.TypedRequest`.
 */
module ProductDetails {
  import opened Wrappers
  import opened Domain
  import CartPage

  /** The picker is shown only for a product in stock. */
  predicate ControlsShown(stock: int) {
    stock > 0
  }

  /** "−": `Math.max(1, quantity - 1)`. */
  function Minus(quantity: int): (r: int)
    ensures r >= 1 && r <= (if quantity > 1 then quantity else 1)
    ensures quantity > 1 ==> r == quantity - 1
  {
    if quantity - 1 > 1 then quantity - 1 else 1
  }

  /** "+": `Math.min(stock, quantity + 1)`. */
  function Plus(quantity: int, stock: int): (r: int)
    ensures r <= stock && r <= quantity + 1
    ensures quantity < stock ==> r == quantity + 1
    ensures quantity >= stock ==> r == stock
  {
    if quantity + 1 < stock then quantity + 1 else stock
  }

  /** With the picker shown, both buttons keep a quantity within 1..stock inside that range. */
  lemma ButtonsKeepRange(quantity: int, stock: int)
    requires ControlsShown(stock) && 1 <= quantity <= stock
    ensures 1 <= Minus(quantity) <= stock
    ensures 1 <= Plus(quantity, stock) <= stock
  {
  }

  /** A typed quantity above the stock is pulled back to the stock by the first "+". */
  lemma PlusPullsBackToStock(value: int, stock: int)
    requires ControlsShown(stock) && value > stock
    ensures CartPage.TypedRequest(value) > stock
    ensures Plus(CartPage.TypedRequest(value), stock) == stock
  {
  }

  /** The add-to-cart button is disabled for a product out of stock or while a request runs. */
  predicate AddToCartDisabled(stock: int, adding: bool) {
    stock == 0 || adding
  }

  /**
   * Out of stock the picker is hidden and the button disabled. In stock, and for a
   * negative stock (picker hidden too), only a running request disables the button.
   */
  lemma StockGatesTheButton(stock: int, adding: bool)
    ensures stock == 0 ==> !ControlsShown(stock) && AddToCartDisabled(stock, adding)
    ensures stock > 0 ==> ControlsShown(stock) && (AddToCartDisabled(stock, adding) <==> adding)
    ensures stock < 0 ==> !ControlsShown(stock) && (AddToCartDisabled(stock, adding) <==> adding)
  {
  }

  /** `handleAddToCart`: nothing without a product or a token; otherwise product id and quantity. */
  function AddToCart(product: Option<Product>, accessToken: Option<string>, quantity: int): (r: Option<(int, int)>)
    ensures r.Some? <==> product.Some? && accessToken.Some? && accessToken.value != ""
    ensures r.Some? ==> r.value == (product.value.id, quantity)
  {
    if product.None? || accessToken.None? || accessToken.value == "" then None else Some((product.value.id, quantity))
  }

  /**
   * The supplier shown: asked for only when the product has a non-zero company id, and
   * replaced by the first company of the answer only when the answer has one.
   * `response` is the answer's `content`; `None` is a failed request or a missing list.
   */
  function SupplierInfo<C>(current: Option<C>, companyId: int, response: Option<seq<C>>): (r: Option<C>)
    ensures companyId == 0 || response.None? || response.value == [] ==> r == current
    ensures companyId != 0 && response.Some? && response.value != [] ==> r == Some(response.value[0])
  {
    if companyId != 0 && response.Some? && |response.value| > 0 then Some(response.value[0]) else current
  }
}
