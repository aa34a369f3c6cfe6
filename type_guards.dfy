/**
 * Domain rules of the storefront: the closed sets of order, payment, message
 * thread and custom request statuses, the order cancel/modify guards,
 * product availability and the cart item count.
 */
module TypeGuards {
  import opened Common

  // ---------------------------------------------------------------------------
  // Status vocabularies

  datatype OrderStatus = Pending | Confirmed | Preparing | Ready | Delivered | Cancelled

  datatype PaymentStatus = PaymentPending | Processing | Completed | Failed | Refunded

  datatype ThreadStatus = Open | Closed | ThreadPending

  datatype RequestStatus = RequestPending | Reviewing | Quoted | Approved | Declined | RequestCompleted

  /** The wire name of each order status. */
  function OrderStatusName(s: OrderStatus): string
  {
    match s
    case Pending => "pending"
    case Confirmed => "confirmed"
    case Preparing => "preparing"
    case Ready => "ready"
    case Delivered => "delivered"
    case Cancelled => "cancelled"
  }

  function PaymentStatusName(s: PaymentStatus): string
  {
    match s
    case PaymentPending => "pending"
    case Processing => "processing"
    case Completed => "completed"
    case Failed => "failed"
    case Refunded => "refunded"
  }

  function ThreadStatusName(s: ThreadStatus): string
  {
    match s
    case Open => "open"
    case Closed => "closed"
    case ThreadPending => "pending"
  }

  function RequestStatusName(s: RequestStatus): string
  {
    match s
    case RequestPending => "pending"
    case Reviewing => "reviewing"
    case Quoted => "quoted"
    case Approved => "approved"
    case Declined => "declined"
    case RequestCompleted => "completed"
  }

  /** The literal lists the guards test with `includes`. */
  function OrderStatusList(): seq<string>
  {
    ["pending", "confirmed", "preparing", "ready", "delivered", "cancelled"]
  }

  function PaymentStatusList(): seq<string>
  {
    ["pending", "processing", "completed", "failed", "refunded"]
  }

  function ThreadStatusList(): seq<string>
  {
    ["open", "closed", "pending"]
  }

  function RequestStatusList(): seq<string>
  {
    ["pending", "reviewing", "quoted", "approved", "declined", "completed"]
  }

  /** `isValidOrderStatus`: the string is one of the six order statuses. */
  predicate IsValidOrderStatus(status: string)
  {
    status in OrderStatusList()
  }

  /** `isValidPaymentStatus`: the string is one of the five payment statuses. */
  predicate IsValidPaymentStatus(status: string)
  {
    status in PaymentStatusList()
  }

  /** `isValidMessageThreadStatus`. */
  predicate IsValidThreadStatus(status: string)
  {
    status in ThreadStatusList()
  }

  /** `isValidCustomRequestStatus`. */
  predicate IsValidRequestStatus(status: string)
  {
    status in RequestStatusList()
  }

  /** The order-status guard accepts exactly the names of the order statuses, and each name names one status. */
  lemma OrderStatusGuardExact(status: string)
    ensures IsValidOrderStatus(status) <==> exists s :: OrderStatusName(s) == status
    ensures forall s, t :: OrderStatusName(s) == OrderStatusName(t) ==> s == t
  {
    if IsValidOrderStatus(status) {
      var i :| 0 <= i < 6 && OrderStatusList()[i] == status;
      var all := [Pending, Confirmed, Preparing, Ready, Delivered, Cancelled];
      assert OrderStatusName(all[i]) == status;
    }
  }

  lemma PaymentStatusGuardExact(status: string)
    ensures IsValidPaymentStatus(status) <==> exists s :: PaymentStatusName(s) == status
    ensures forall s, t :: PaymentStatusName(s) == PaymentStatusName(t) ==> s == t
  {
    if IsValidPaymentStatus(status) {
      var i :| 0 <= i < 5 && PaymentStatusList()[i] == status;
      var all := [PaymentPending, Processing, Completed, Failed, Refunded];
      assert PaymentStatusName(all[i]) == status;
    }
  }

  lemma ThreadStatusGuardExact(status: string)
    ensures IsValidThreadStatus(status) <==> exists s :: ThreadStatusName(s) == status
    ensures forall s, t :: ThreadStatusName(s) == ThreadStatusName(t) ==> s == t
  {
    if IsValidThreadStatus(status) {
      var i :| 0 <= i < 3 && ThreadStatusList()[i] == status;
      var all := [Open, Closed, ThreadPending];
      assert ThreadStatusName(all[i]) == status;
    }
  }

  lemma RequestStatusGuardExact(status: string)
    ensures IsValidRequestStatus(status) <==> exists s :: RequestStatusName(s) == status
    ensures forall s, t :: RequestStatusName(s) == RequestStatusName(t) ==> s == t
  {
    if IsValidRequestStatus(status) {
      var i :| 0 <= i < 6 && RequestStatusList()[i] == status;
      var all := [RequestPending, Reviewing, Quoted, Approved, Declined, RequestCompleted];
      assert RequestStatusName(all[i]) == status;
    }
  }

  // ---------------------------------------------------------------------------
  // Orders

  /** `canCancelOrder`: only a pending or confirmed order can be cancelled. */
  predicate CanCancelOrder(status: string)
  {
    status in ["pending", "confirmed"]
  }

  /** `canModifyOrder`: only a pending order can be modified. */
  predicate CanModifyOrder(status: string)
  {
    status in ["pending"]
  }

  /** A modifiable order is cancellable, a cancellable one has a valid status, and neither holds once preparation starts. */
  lemma OrderGuardsNested(status: string)
    ensures CanModifyOrder(status) ==> CanCancelOrder(status)
    ensures CanCancelOrder(status) ==> IsValidOrderStatus(status)
    ensures CanCancelOrder(status) <==> status == OrderStatusName(Pending) || status == OrderStatusName(Confirmed)
    ensures CanModifyOrder(status) <==> status == OrderStatusName(Pending)
  {
  }

  // ---------------------------------------------------------------------------
  // Products

  /** `isProductAvailable`: `Boolean(isActive)` (a null flag is false), and stock either untracked (null) or positive. */
  function IsProductAvailable(isActive: Option<bool>, stockQuantity: Option<int>): (r: bool)
    ensures r <==> isActive == Some(true) && (stockQuantity.None? || stockQuantity.value >= 1)
    ensures stockQuantity == Some(0) ==> !r
  {
    isActive.Some? && isActive.value && (stockQuantity.None? || stockQuantity.value > 0)
  }

  // ---------------------------------------------------------------------------
  // Carts

  datatype CartItem = CartItem(productId: string, quantity: int)

  /** `isCartEmpty`: the items are missing, or the list is empty. */
  predicate IsCartEmpty(items: Option<seq<CartItem>>)
  {
    items.None? || |items.value| == 0
  }

  /** The sum of the quantities of a list of items. */
  function QuantitySum(items: seq<CartItem>): int
  {
    if |items| == 0 then 0 else QuantitySum(items[..|items| - 1]) + items[|items| - 1].quantity
  }

  /** `getCartItemCount`: 0 for missing items, else the `reduce` sum of the quantities. */
  function GetCartItemCount(items: Option<seq<CartItem>>): (r: int)
    ensures items.None? ==> r == 0
    ensures items.Some? ==> r == QuantitySum(items.value)
  {
    if items.None? then 0 else QuantitySum(items.value)
  }

  /** Adding an item adds its quantity to the count. */
  lemma {:induction false} QuantitySumAppend(a: seq<CartItem>, b: seq<CartItem>)
    ensures QuantitySum(a + b) == QuantitySum(a) + QuantitySum(b)
    decreases |b|
  {
    if |b| == 0 {
      assert a + b == a;
    } else {
      QuantitySumAppend(a, b[..|b| - 1]);
      assert (a + b)[..|a + b| - 1] == a + b[..|b| - 1];
    }
  }

  /** With quantities in 1..100 (the cart validators' bounds) the count lies between the number of items and 100 times it. */
  lemma {:induction false} QuantitySumBounds(items: seq<CartItem>)
    requires forall i :: 0 <= i < |items| ==> 1 <= items[i].quantity <= 100
    ensures |items| <= QuantitySum(items) <= 100 * |items|
  {
    if |items| > 0 {
      QuantitySumBounds(items[..|items| - 1]);
    }
  }

  /** With positive quantities, the count is 0 exactly when the cart is empty. */
  lemma CountZeroIffEmpty(items: Option<seq<CartItem>>)
    requires items.Some? ==> forall i :: 0 <= i < |items.value| ==> items.value[i].quantity >= 1
    ensures GetCartItemCount(items) == 0 <==> IsCartEmpty(items)
  {
    if items.Some? {
      PositiveSumAtLeastLength(items.value);
    }
  }

  lemma {:induction false} PositiveSumAtLeastLength(items: seq<CartItem>)
    requires forall i :: 0 <= i < |items| ==> items[i].quantity >= 1
    ensures QuantitySum(items) >= |items|
  {
    if |items| > 0 {
      PositiveSumAtLeastLength(items[..|items| - 1]);
    }
  }
}
