/**
 * The cart and wishlist input schemas: carts and their owner, cart items and
 * their customisations, add/update/move requests, wishlists and their items,
 * bulk cart requests and the cart summary.
 */
module CartValidation {
  import opened Common
  import opened Zod

  // ---------------------------------------------------------------------------
  // Carts

  datatype CartInput = CartInput(id: Option<string>, userId: Option<string>, sessionId: Option<string>)

  /** The refinement: a cart belongs to a signed-in user or to a browser session. */
  predicate HasOwner(c: CartInput)
  {
    TruthyStr(c.userId) || TruthyStr(c.sessionId)
  }

  /** `cartSchema`. */
  predicate CartValid(c: CartInput)
  {
    ReqId(c.id) && HasOwner(c)
  }

  /** `createCartSchema`: the owner refinement without the id. */
  predicate CreateCartValid(c: CartInput)
  {
    HasOwner(c)
  }

  /** A cart with an id is valid exactly when its user id or its session id is non-empty. */
  lemma CartOwner(c: CartInput)
    requires ReqId(c.id)
    ensures CartValid(c) <==> (c.userId.Some? && c.userId.value != "") || (c.sessionId.Some? && c.sessionId.value != "")
    ensures !CartValid(c.(userId := Some(""), sessionId := None))
  {
  }

  // ---------------------------------------------------------------------------
  // Items

  datatype Decorations = Decorations(color: Option<string>, design: Option<string>, message: Option<string>)

  /** `cartItemCustomizationsSchema` without `customOptions`, which accepts any record. */
  datatype Customizations = Customizations(customText: Option<string>, decorations: Option<Decorations>,
                                           specialInstructions: Option<string>, giftWrap: Option<bool>,
                                           deliveryInstructions: Option<string>)

  predicate CustomizationsValid(c: Option<Customizations>)
  {
    c.None? ||
    (OptStr(c.value.customText, 500)
     && (c.value.decorations.None? ||
         (OptStr(c.value.decorations.value.color, 50) && OptStr(c.value.decorations.value.design, 100)
          && OptStr(c.value.decorations.value.message, 200)))
     && OptStr(c.value.specialInstructions, 1000) && OptStr(c.value.deliveryInstructions, 500))
  }

  /** Every cart quantity: a whole number from 1 to 100. */
  predicate QuantityOk(q: real)
  {
    IntIn(q, 1, 100)
  }

  datatype CartItemInput = CartItemInput(id: Option<string>, cartId: Option<string>, productId: Option<string>,
                                         variantId: Option<string>, quantity: Option<real>,
                                         customizations: Option<Customizations>, unitPrice: Option<string>)

  predicate CartItemFieldsValid(x: CartItemInput)
  {
    ReqId(x.cartId) && ReqId(x.productId) && x.quantity.Some? && QuantityOk(x.quantity.value)
    && CustomizationsValid(x.customizations) && ReqPrice(x.unitPrice)
  }

  /** `cartItemSchema`. */
  predicate CartItemValid(x: CartItemInput)
  {
    ReqId(x.id) && CartItemFieldsValid(x)
  }

  /** `createCartItemSchema`. */
  predicate CreateCartItemValid(x: CartItemInput)
  {
    CartItemFieldsValid(x)
  }

  lemma CreateCartItemIsItemWithoutId(x: CartItemInput, id: string)
    requires |id| >= 1
    ensures CreateCartItemValid(x) <==> CartItemValid(x.(id := Some(id)))
  {
  }

  /** `updateCartItemSchema`. */
  predicate UpdateCartItemValid(quantity: Option<real>, customizations: Option<Customizations>)
  {
    (quantity.None? || QuantityOk(quantity.value)) && CustomizationsValid(customizations)
  }

  datatype AddToCartInput = AddToCartInput(productId: Option<string>, variantId: Option<string>, quantity: Option<real>,
                                           customizations: Option<Customizations>)

  /** `addToCartSchema.parse`: one of the product unless a quantity is given. */
  function ParseAddToCart(x: AddToCartInput): (r: Option<AddToCartInput>)
    ensures r.Some? <==> ReqId(x.productId) && (x.quantity.None? || QuantityOk(x.quantity.value)) && CustomizationsValid(x.customizations)
    ensures r.Some? ==> r.value.quantity == Some(x.quantity.GetOr(1.0)) && QuantityOk(r.value.quantity.value)
    ensures r.Some? ==> r.value.(quantity := x.quantity) == x
  {
    if ReqId(x.productId) && (x.quantity.None? || QuantityOk(x.quantity.value)) && CustomizationsValid(x.customizations) then
      Some(x.(quantity := Some(x.quantity.GetOr(1.0))))
    else None
  }

  datatype MoveToCartInput = MoveToCartInput(wishlistItemId: Option<string>, quantity: Option<real>,
                                             customizations: Option<Customizations>)

  /** `moveToCartSchema.parse`: one of the product unless a quantity is given. */
  function ParseMoveToCart(x: MoveToCartInput): (r: Option<MoveToCartInput>)
    ensures r.Some? <==> ReqId(x.wishlistItemId) && (x.quantity.None? || QuantityOk(x.quantity.value)) && CustomizationsValid(x.customizations)
    ensures r.Some? ==> r.value.quantity == Some(x.quantity.GetOr(1.0)) && QuantityOk(r.value.quantity.value)
    ensures r.Some? ==> r.value.(quantity := x.quantity) == x
  {
    if ReqId(x.wishlistItemId) && (x.quantity.None? || QuantityOk(x.quantity.value)) && CustomizationsValid(x.customizations) then
      Some(x.(quantity := Some(x.quantity.GetOr(1.0))))
    else None
  }

  /**
   * Every way of putting a quantity into the cart accepts the same
   * quantities: 0, 101 and 2.5 are refused everywhere, 1 and 100 accepted.
   */
  lemma QuantityBounds(q: real)
    ensures QuantityOk(q) <==> IsInt(q) && 1.0 <= q <= 100.0
    ensures !QuantityOk(0.0) && !QuantityOk(101.0) && !QuantityOk(2.5) && QuantityOk(1.0) && QuantityOk(100.0)
    ensures UpdateCartItemValid(Some(q), None) <==> QuantityOk(q)
    ensures ParseAddToCart(AddToCartInput(Some("p"), None, Some(q), None)).Some? <==> QuantityOk(q)
    ensures ParseMoveToCart(MoveToCartInput(Some("w"), Some(q), None)).Some? <==> QuantityOk(q)
  {
    assert (2.5).Floor == 2;
  }

  /** A cart item's unit price is digits with at most two decimals. */
  lemma CartItemPrice(x: CartItemInput)
    requires CartItemValid(x)
    ensures exists whole, fraction :: x.unitPrice.value == whole + fraction && PriceParts(whole, fraction)
    ensures !CartItemValid(x.(unitPrice := Some("12.")))
  {
    PriceGrammar(x.unitPrice.value);
    PriceExamples();
  }

  // ---------------------------------------------------------------------------
  // Wishlists

  datatype WishlistInput = WishlistInput(id: Option<string>, userId: Option<string>, name: Option<string>,
                                         isDefault: Option<bool>)

  predicate WishlistFieldsValid(w: WishlistInput)
  {
    ReqId(w.userId) && (w.name.None? || LenIn(w.name.value, 1, 100))
  }

  /** `wishlistSchema`. */
  predicate WishlistValid(w: WishlistInput)
  {
    ReqId(w.id) && WishlistFieldsValid(w)
  }

  /** `wishlistSchema.parse`: named "My Wishlist" and the default list unless told otherwise. */
  function ParseWishlist(w: WishlistInput): (r: Option<WishlistInput>)
    ensures r.Some? <==> WishlistValid(w)
    ensures r.Some? ==> r.value.name == Some(w.name.GetOr("My Wishlist")) && r.value.isDefault == Some(w.isDefault.GetOr(true))
    ensures r.Some? ==> 1 <= |r.value.name.value| <= 100 && WishlistValid(r.value)
    ensures r.Some? ==> r.value.(name := w.name, isDefault := w.isDefault) == w
  {
    if WishlistValid(w) then Some(w.(name := Some(w.name.GetOr("My Wishlist")), isDefault := Some(w.isDefault.GetOr(true))))
    else None
  }

  /** `createWishlistSchema.parse`: the same defaults, and the id is dropped. */
  function ParseCreateWishlist(w: WishlistInput): (r: Option<WishlistInput>)
    ensures r.Some? <==> WishlistFieldsValid(w)
    ensures r.Some? ==> r.value.id.None? && r.value.name == Some(w.name.GetOr("My Wishlist"))
                        && r.value.isDefault == Some(w.isDefault.GetOr(true))
  {
    if WishlistFieldsValid(w) then Some(w.(id := None, name := Some(w.name.GetOr("My Wishlist")), isDefault := Some(w.isDefault.GetOr(true))))
    else None
  }

  /** Creating gives what parsing the full wishlist gives, minus its id. */
  lemma CreateWishlistIsWishlistWithoutId(w: WishlistInput, id: string)
    requires |id| >= 1
    ensures ParseCreateWishlist(w).Some? <==> ParseWishlist(w.(id := Some(id))).Some?
    ensures ParseCreateWishlist(w).Some? ==> ParseCreateWishlist(w).value == ParseWishlist(w.(id := Some(id))).value.(id := None)
  {
  }

  /** `updateWishlistSchema`: a name, when given, is 1 to 100 characters. */
  predicate UpdateWishlistValid(name: Option<string>, isDefault: Option<bool>)
  {
    name.None? || LenIn(name.value, 1, 100)
  }

  /** An empty name is refused on create and update; an absent one is filled in on create only. */
  lemma WishlistName(w: WishlistInput)
    requires ReqId(w.id) && ReqId(w.userId)
    ensures ParseWishlist(w.(name := Some(""))).None?
    ensures ParseWishlist(w.(name := None)).Some? && ParseWishlist(w.(name := None)).value.name == Some("My Wishlist")
    ensures !UpdateWishlistValid(Some(""), None) && UpdateWishlistValid(None, None)
  {
  }

  datatype WishlistItemInput = WishlistItemInput(id: Option<string>, wishlistId: Option<string>, productId: Option<string>,
                                                 variantId: Option<string>, notes: Option<string>)

  /** `wishlistItemSchema`; without the id, `createWishlistItemSchema` and `addToWishlistSchema`. */
  predicate WishlistItemFieldsValid(x: WishlistItemInput)
  {
    ReqId(x.wishlistId) && ReqId(x.productId) && OptStr(x.notes, 500)
  }

  predicate WishlistItemValid(x: WishlistItemInput)
  {
    ReqId(x.id) && WishlistItemFieldsValid(x)
  }

  /** `updateWishlistItemSchema`. */
  predicate UpdateWishlistItemValid(notes: Option<string>)
  {
    OptStr(notes, 500)
  }

  lemma CreateWishlistItemIsItemWithoutId(x: WishlistItemInput, id: string)
    requires |id| >= 1
    ensures WishlistItemFieldsValid(x) <==> WishlistItemValid(x.(id := Some(id)))
    ensures WishlistItemValid(x) ==> UpdateWishlistItemValid(x.notes)
  {
  }

  // ---------------------------------------------------------------------------
  // Bulk requests and the summary

  datatype BulkItem = BulkItem(id: Option<string>, quantity: Option<real>)

  /** `bulkCartUpdateSchema`. */
  predicate BulkCartUpdateValid(items: Option<seq<BulkItem>>)
  {
    items.Some? && |items.value| >= 1
    && forall i :: 0 <= i < |items.value| ==>
         ReqId(items.value[i].id) && items.value[i].quantity.Some? && QuantityOk(items.value[i].quantity.value)
  }

  /** `bulkCartRemoveSchema`. */
  predicate BulkCartRemoveValid(itemIds: Option<seq<string>>)
  {
    IdList(itemIds)
  }

  /** Both bulk requests refuse an empty list, and a bulk update holds every item to the quantity bounds. */
  lemma BulkCartLists(items: seq<BulkItem>, k: nat)
    ensures !BulkCartUpdateValid(Some([])) && !BulkCartRemoveValid(Some([]))
    ensures BulkCartUpdateValid(Some(items)) && k < |items| ==> QuantityOk(items[k].quantity.value)
  {
  }

  datatype CartSummary = CartSummary(subtotal: real, tax: real, deliveryFee: real, total: real, itemCount: real)

  /** `cartSummarySchema`: every figure at least 0, and the item count whole. */
  predicate CartSummaryValid(s: CartSummary)
  {
    s.subtotal >= 0.0 && s.tax >= 0.0 && s.deliveryFee >= 0.0 && s.total >= 0.0 && IntAtLeast(s.itemCount, 0)
  }

  /** The summary check does not relate the figures: a total below the subtotal passes. */
  lemma CartSummaryUnrelated()
    ensures CartSummaryValid(CartSummary(10.0, 0.0, 0.0, 1.0, 1.0))
    ensures !CartSummaryValid(CartSummary(10.0, -1.0, 0.0, 9.0, 1.0))
  {
  }
}
