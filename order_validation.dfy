/**
 * The order input schemas: order and payment statuses, delivery addresses,
 * orders and their items with money amounts as two-decimal strings, status
 * history, checkout, the order filter and sort, and bulk updates. Dates are
 * millisecond timestamps.
 */
module OrderValidation {
  import opened Common
  import opened Zod

  /** `orderStatusSchema`. */
  const OrderStatuses: seq<string> := ["pending", "confirmed", "preparing", "ready", "delivered", "cancelled"]

  /** `paymentStatusSchema`. */
  const PaymentStatuses: seq<string> := ["pending", "processing", "completed", "failed", "refunded"]

  /** The two status enums are closed lists of six and five distinct values. */
  lemma StatusEnums(s: string)
    ensures s in OrderStatuses <==> (s == "pending" || s == "confirmed" || s == "preparing" || s == "ready"
                                     || s == "delivered" || s == "cancelled")
    ensures s in PaymentStatuses <==> (s == "pending" || s == "processing" || s == "completed" || s == "failed"
                                       || s == "refunded")
    ensures |OrderStatuses| == 6 && |PaymentStatuses| == 5
    ensures forall i, j :: 0 <= i < j < |OrderStatuses| ==> OrderStatuses[i] != OrderStatuses[j]
    ensures forall i, j :: 0 <= i < j < |PaymentStatuses| ==> PaymentStatuses[i] != PaymentStatuses[j]
  {
  }

  // ---------------------------------------------------------------------------
  // Addresses and customisations

  datatype AddressInput = AddressInput(firstName: Option<string>, lastName: Option<string>, company: Option<string>,
                                       addressLine1: Option<string>, addressLine2: Option<string>, city: Option<string>,
                                       state: Option<string>, postalCode: Option<string>, country: Option<string>,
                                       phone: Option<string>, deliveryInstructions: Option<string>)

  /** `deliveryAddressSchema`. */
  predicate AddressValid(a: AddressInput)
  {
    ReqStr(a.firstName, 1, 50) && ReqStr(a.lastName, 1, 50) && OptStr(a.company, 100)
    && ReqStr(a.addressLine1, 1, 100) && OptStr(a.addressLine2, 100) && ReqStr(a.city, 1, 50)
    && ReqStr(a.state, 1, 50) && ReqStr(a.postalCode, 1, 20) && ReqStr(a.country, 1, 50)
    && OptStr(a.phone, 20) && OptStr(a.deliveryInstructions, 500)
  }

  /** A valid address has every required part non-empty; blanking any one of them makes it invalid. */
  lemma AddressRequiredParts(a: AddressInput)
    requires AddressValid(a)
    ensures a.firstName.value != "" && a.lastName.value != "" && a.addressLine1.value != "" && a.city.value != ""
            && a.state.value != "" && a.postalCode.value != "" && a.country.value != ""
    ensures !AddressValid(a.(firstName := Some(""))) && !AddressValid(a.(lastName := Some("")))
            && !AddressValid(a.(addressLine1 := Some(""))) && !AddressValid(a.(city := Some("")))
            && !AddressValid(a.(state := Some(""))) && !AddressValid(a.(postalCode := Some("")))
            && !AddressValid(a.(country := Some("")))
    ensures AddressValid(a.(company := None, addressLine2 := None, phone := None, deliveryInstructions := None))
  {
  }

  datatype Decorations = Decorations(color: Option<string>, design: Option<string>, message: Option<string>,
                                     frosting: Option<string>)

  /** `orderItemCustomizationsSchema` without `customOptions`, which accepts any record. */
  datatype Customizations = Customizations(customText: Option<string>, decorations: Option<Decorations>,
                                           specialInstructions: Option<string>, giftWrap: Option<bool>)

  predicate CustomizationsValid(c: Option<Customizations>)
  {
    c.None? ||
    (OptStr(c.value.customText, 500)
     && (c.value.decorations.None? ||
         (OptStr(c.value.decorations.value.color, 50) && OptStr(c.value.decorations.value.design, 100)
          && OptStr(c.value.decorations.value.message, 200) && OptStr(c.value.decorations.value.frosting, 50)))
     && OptStr(c.value.specialInstructions, 1000))
  }

  // ---------------------------------------------------------------------------
  // Orders

  datatype OrderInput = OrderInput(id: Option<string>, orderNumber: Option<string>, userId: Option<string>,
                                   status: Option<string>, totalAmount: Option<string>, subtotal: Option<string>,
                                   taxAmount: Option<string>, deliveryFee: Option<string>,
                                   specialInstructions: Option<string>, deliveryDate: Option<int>,
                                   deliveryAddress: Option<AddressInput>, paymentStatus: Option<string>,
                                   stripePaymentIntentId: Option<string>)

  /** The order checks other than the id and order number. */
  predicate OrderFieldsValid(o: OrderInput)
  {
    ReqIn(o.status, OrderStatuses) && ReqPrice(o.totalAmount) && ReqPrice(o.subtotal)
    && OptPrice(o.taxAmount) && OptPrice(o.deliveryFee) && OptStr(o.specialInstructions, 1000)
    && (o.deliveryAddress.None? || AddressValid(o.deliveryAddress.value)) && ReqIn(o.paymentStatus, PaymentStatuses)
  }

  /** `orderSchema`. */
  predicate OrderValid(o: OrderInput)
  {
    ReqId(o.id) && ReqStr(o.orderNumber, 1, 50) && OrderFieldsValid(o)
  }

  /** `createOrderSchema`: the order checks without the id and the generated order number. */
  predicate CreateOrderValid(o: OrderInput)
  {
    OrderFieldsValid(o)
  }

  /**
   * `orderSchema.parse`: tax and delivery fee default to 0. The amounts stay
   * in their validated text form here, so the default 0 is the text "0".
   */
  function ParseOrder(o: OrderInput): (r: Option<OrderInput>)
    ensures r.Some? <==> OrderValid(o)
    ensures r.Some? ==> OrderValid(r.value)
    ensures r.Some? ==> r.value.taxAmount == Some(o.taxAmount.GetOr("0")) && r.value.deliveryFee == Some(o.deliveryFee.GetOr("0"))
    ensures r.Some? ==> r.value.(taxAmount := o.taxAmount, deliveryFee := o.deliveryFee) == o
  {
    if OrderValid(o) then Some(o.(taxAmount := Some(o.taxAmount.GetOr("0")), deliveryFee := Some(o.deliveryFee.GetOr("0"))))
    else None
  }

  /** Every money amount of a parsed order is digits with at most two decimals, defaults included. */
  lemma OrderMoneyFormat(o: OrderInput)
    requires ParseOrder(o).Some?
    ensures var p := ParseOrder(o).value;
            IsPrice(p.totalAmount.value) && IsPrice(p.subtotal.value) && IsPrice(p.taxAmount.value) && IsPrice(p.deliveryFee.value)
    ensures !OrderValid(o.(subtotal := Some("9.999"))) && !OrderValid(o.(taxAmount := Some(".5")))
  {
    PriceExamples();
    assert DigitRun("0") == 1;
    assert DigitRun("9.999") == 1;
  }

  lemma CreateOrderIsOrderWithoutIds(o: OrderInput, id: string, orderNumber: string)
    requires |id| >= 1 && 1 <= |orderNumber| <= 50
    ensures CreateOrderValid(o) <==> OrderValid(o.(id := Some(id), orderNumber := Some(orderNumber)))
  {
  }

  datatype OrderUpdateInput = OrderUpdateInput(status: Option<string>, specialInstructions: Option<string>,
                                               deliveryDate: Option<int>, deliveryAddress: Option<AddressInput>,
                                               paymentStatus: Option<string>, stripePaymentIntentId: Option<string>)

  /** `updateOrderSchema`: every field optional. */
  predicate UpdateOrderValid(u: OrderUpdateInput)
  {
    OptIn(u.status, OrderStatuses) && OptStr(u.specialInstructions, 1000)
    && (u.deliveryAddress.None? || AddressValid(u.deliveryAddress.value)) && OptIn(u.paymentStatus, PaymentStatuses)
  }

  // ---------------------------------------------------------------------------
  // Items and history

  datatype OrderItemInput = OrderItemInput(id: Option<string>, orderId: Option<string>, productId: Option<string>,
                                           variantId: Option<string>, quantity: Option<real>, unitPrice: Option<string>,
                                           totalPrice: Option<string>, customizations: Option<Customizations>)

  predicate OrderItemFieldsValid(x: OrderItemInput)
  {
    ReqId(x.orderId) && ReqId(x.productId) && x.quantity.Some? && IntIn(x.quantity.value, 1, 100)
    && ReqPrice(x.unitPrice) && ReqPrice(x.totalPrice) && CustomizationsValid(x.customizations)
  }

  /** `orderItemSchema`. */
  predicate OrderItemValid(x: OrderItemInput)
  {
    ReqId(x.id) && OrderItemFieldsValid(x)
  }

  /** `createOrderItemSchema`. */
  predicate CreateOrderItemValid(x: OrderItemInput)
  {
    OrderItemFieldsValid(x)
  }

  /** `updateOrderItemSchema`. */
  predicate UpdateOrderItemValid(quantity: Option<real>, customizations: Option<Customizations>)
  {
    (quantity.None? || IntIn(quantity.value, 1, 100)) && CustomizationsValid(customizations)
  }

  /** Creating and updating an item accept the same quantities: whole numbers from 1 to 100. */
  lemma OrderItemQuantity(x: OrderItemInput, q: real)
    requires CreateOrderItemValid(x)
    ensures CreateOrderItemValid(x.(quantity := Some(q))) <==> IsInt(q) && 1.0 <= q <= 100.0
    ensures UpdateOrderItemValid(Some(q), x.customizations) <==> CreateOrderItemValid(x.(quantity := Some(q)))
    ensures !CreateOrderItemValid(x.(quantity := None)) && UpdateOrderItemValid(None, x.customizations)
  {
  }

  lemma CreateOrderItemIsItemWithoutId(x: OrderItemInput, id: string)
    requires |id| >= 1
    ensures CreateOrderItemValid(x) <==> OrderItemValid(x.(id := Some(id)))
  {
  }

  /** `orderStatusHistorySchema`; without the id, `createOrderStatusHistorySchema`. */
  predicate StatusHistoryValid(id: Option<string>, orderId: Option<string>, status: Option<string>, notes: Option<string>)
  {
    ReqId(id) && ReqId(orderId) && ReqIn(status, OrderStatuses) && OptStr(notes, 1000)
  }

  predicate CreateStatusHistoryValid(orderId: Option<string>, status: Option<string>, notes: Option<string>)
  {
    ReqId(orderId) && ReqIn(status, OrderStatuses) && OptStr(notes, 1000)
  }

  // ---------------------------------------------------------------------------
  // Checkout, filter, sort, bulk

  /** `checkoutSchema`, without the future-date check on the delivery date. */
  predicate CheckoutValid(cartId: Option<string>, deliveryAddress: Option<AddressInput>,
                          specialInstructions: Option<string>, paymentMethodId: Option<string>)
  {
    ReqId(cartId) && deliveryAddress.Some? && AddressValid(deliveryAddress.value)
    && OptStr(specialInstructions, 1000) && ReqId(paymentMethodId)
  }

  datatype OrderFilterInput = OrderFilterInput(status: Option<seq<string>>, paymentStatus: Option<seq<string>>,
                                               userId: Option<string>, dateFrom: Option<int>, dateTo: Option<int>,
                                               minAmount: Option<real>, maxAmount: Option<real>, search: Option<string>)

  predicate OrderFilterFieldsValid(f: OrderFilterInput)
  {
    OptAllIn(f.status, OrderStatuses) && OptAllIn(f.paymentStatus, PaymentStatuses)
    && OptNumAtLeast(f.minAmount, 0.0) && OptNumAtLeast(f.maxAmount, 0.0) && OptStr(f.search, 255)
  }

  /** A `Date` is an object, so it is truthy whenever it is present. */
  predicate DatesOk(from: Option<int>, to: Option<int>)
  {
    from.Some? && to.Some? ==> from.value <= to.value
  }

  /** `orderFilterSchema`, with its date and amount refinements. */
  predicate OrderFilterValid(f: OrderFilterInput)
  {
    OrderFilterFieldsValid(f) && DatesOk(f.dateFrom, f.dateTo) && RangeOk(f.minAmount, f.maxAmount)
  }

  /**
   * The date refinement applies whenever both dates are given; the amount
   * refinement only when both amounts are non-zero, so a zero amount never
   * triggers it.
   */
  lemma OrderFilterRefinements(f: OrderFilterInput)
    requires OrderFilterFieldsValid(f)
    ensures f.dateFrom.Some? && f.dateTo.Some? && f.dateFrom.value > f.dateTo.value ==> !OrderFilterValid(f)
    ensures DatesOk(f.dateFrom, f.dateTo) && f.minAmount.Some? && f.maxAmount.Some?
            && f.minAmount.value > 0.0 && f.maxAmount.value > 0.0 ==>
              (OrderFilterValid(f) <==> f.minAmount.value <= f.maxAmount.value)
    ensures DatesOk(f.dateFrom, f.dateTo) && (f.minAmount == Some(0.0) || f.maxAmount == Some(0.0)) ==> OrderFilterValid(f)
  {
  }

  /** `orderSortSchema`. */
  const OrderSorts: seq<string> := ["created-desc", "created-asc", "total-desc", "total-asc", "status", "delivery-date"]

  predicate OrderSortValid(s: string)
  {
    s in OrderSorts
  }

  /**
   * `bulkOrderUpdateSchema` as written: ids, and updates whose parsed object
   * has at least one key. `keys` are the keys of the input `updates` object,
   * so a status given as `undefined` still counts.
   */
  predicate BulkOrderUpdateValid(orderIds: Option<seq<string>>, status: Option<string>, paymentStatus: Option<string>,
                                 keys: set<string>)
  {
    IdList(orderIds) && OptIn(status, OrderStatuses) && OptIn(paymentStatus, PaymentStatuses)
    && (KeyKept(status, "status", keys) || KeyKept(paymentStatus, "paymentStatus", keys))
  }

  /** `bulkOrderUpdateSchema` as intended: a status or a payment status to set. */
  predicate BulkOrderUpdateIntended(orderIds: Option<seq<string>>, status: Option<string>, paymentStatus: Option<string>)
  {
    IdList(orderIds) && OptIn(status, OrderStatuses) && OptIn(paymentStatus, PaymentStatuses)
    && (status.Some? || paymentStatus.Some?)
  }

  /** A bulk order update with no ids or no update key is refused; one id and one status suffice. */
  lemma BulkOrderUpdateNeeds(orderIds: Option<seq<string>>, id: string, keys: set<string>)
    ensures "status" !in keys && "paymentStatus" !in keys ==> !BulkOrderUpdateValid(orderIds, None, None, keys)
    ensures !BulkOrderUpdateValid(Some([]), Some("ready"), None, keys)
    ensures |id| >= 1 ==> BulkOrderUpdateValid(Some([id]), Some("ready"), None, keys)
                          && BulkOrderUpdateValid(Some([id]), None, Some("refunded"), keys)
  {
  }

  /**
   * The intended schema accepts exactly the updates the schema as written
   * accepts that set a status, and the two agree when no key is given as `undefined`.
   */
  lemma BulkOrderUpdateIntendedMeaning(orderIds: Option<seq<string>>, status: Option<string>, paymentStatus: Option<string>,
                                       keys: set<string>)
    ensures BulkOrderUpdateIntended(orderIds, status, paymentStatus)
            <==> BulkOrderUpdateValid(orderIds, status, paymentStatus, keys) && (status.Some? || paymentStatus.Some?)
    ensures NotUndefined(status, "status", keys) && NotUndefined(paymentStatus, "paymentStatus", keys) ==>
              (BulkOrderUpdateIntended(orderIds, status, paymentStatus) <==> BulkOrderUpdateValid(orderIds, status, paymentStatus, keys))
  {
  }

  /** `{ status: undefined }` passes the schema as written though it sets nothing. */
  lemma UndefinedKeyCountsAsOrderUpdate()
    ensures BulkOrderUpdateValid(Some(["o1"]), None, None, {"status"})
    ensures !BulkOrderUpdateIntended(Some(["o1"]), None, None)
  {
  }
}
