/**
 * The order engine: placing an order (stock check, decrement and order
 * insertion as one transaction) and cancelling an order under the policy
 * that shipped or delivered orders cannot be cancelled. Each operation maps
 * a store to a result and the store after the call.
 */
module OrderEngine {
  import opened Outcomes
  import opened Records
  import opened Calendar
  import opened Inventory

  /** Exclusive upper bound on the quantity of one order request. */
  const MaxQuantity := 50
  /** Minimum length of a cancellation reason. */
  const MinReasonLength := 10
  /** The largest rowid SQLite can assign. */
  const MaxRowId := MaxInteger

  /** The field constraint on an order request's quantity. */
  predicate ValidQuantity(quantity: int) {
    0 < quantity < MaxQuantity
  }

  /** The field constraint on a cancellation request's reason. */
  predicate ValidReason(reason: string) {
    |reason| >= MinReasonLength
  }

  /** What a successful placement reports: the new order's id and its delivery date. */
  datatype Placement = Placement(orderId: int, deliveryDate: Day)

  /** What a successful cancellation reports; the reason is echoed, not stored. */
  datatype Cancellation = Cancellation(orderId: int, reason: string)

  /**
   * Places an order for `quantity` units of `productId`. Any failure, whether
   * a check that refuses or a fault raised after the stock was already taken,
   * returns the store unchanged: the transaction is rolled back.
   */
  function PlaceOrder(s: Store, setting: OffsetSetting, now: Day,
                      customerId: int, productId: int, quantity: int)
    : (r: (Result<Placement, PlaceError>, Store))
    requires ValidQuantity(quantity)
    requires Representable(now)
    // failures roll back completely
    ensures r.0.Err? ==> r.1 == s
    ensures r.0 == Err(ProductUnavailable)
            <==> Bindable(productId) && (productId !in s.stock || s.stock[productId] < quantity)
    ensures r.0.Ok?
            <==> && Bindable(productId)
                 && productId in s.stock && s.stock[productId] >= quantity
                 && DeliveryDate(now, setting).Ok?
                 && Bindable(customerId)
                 && s.nextId <= MaxRowId
    ensures r.0 == Err(SystemError(IdOutOfRange))
            <==> || !Bindable(productId)
                 || (&& productId in s.stock && s.stock[productId] >= quantity
                     && DeliveryDate(now, setting).Ok?
                     && !Bindable(customerId))
    ensures Bindable(productId) && productId in s.stock && s.stock[productId] >= quantity
            && DeliveryDate(now, setting).Err?
            ==> r.0 == Err(SystemError(DeliveryDate(now, setting).error))
    ensures r.0 == Err(SystemError(RowIdExhausted))
            <==> && Bindable(productId)
                 && productId in s.stock && s.stock[productId] >= quantity
                 && DeliveryDate(now, setting).Ok?
                 && Bindable(customerId)
                 && s.nextId > MaxRowId
    // on success: the chosen product loses exactly `quantity` units, nothing else
    ensures r.0.Ok? ==> r.1.stock.Keys == s.stock.Keys
    ensures r.0.Ok? ==> r.1.stock[productId] == s.stock[productId] - quantity
    ensures r.0.Ok? ==> forall p :: p in s.stock && p != productId ==> r.1.stock[p] == s.stock[p]
    // on success: exactly one new pending order under the counter's id
    ensures r.0.Ok? ==> r.0.value.orderId == s.nextId && r.1.nextId == s.nextId + 1
    ensures r.0.Ok? ==> r.1.orders.Keys == s.orders.Keys + {r.0.value.orderId}
    ensures r.0.Ok? ==> r.1.orders[r.0.value.orderId]
                        == Order(customerId, productId, Pending, now, r.0.value.deliveryDate)
    ensures r.0.Ok? && IdsBelowCounter(s) ==> r.0.value.orderId !in s.orders
    ensures r.0.Ok? && IdsBelowCounter(s)
            ==> forall id :: id in s.orders ==> r.1.orders[id] == s.orders[id]
    ensures r.0.Ok? && IdsBelowCounter(s) ==> |r.1.orders| == |s.orders| + 1
    // on success: the delivery date is the order date plus the configured offset
    ensures r.0.Ok? && setting.Unset? ==> r.0.value.deliveryDate == now + DefaultOffsetDays
    ensures r.0.Ok? && setting.Parsed? ==> r.0.value.deliveryDate == now + setting.days
  {
    // Binding the product id to the stock query raises when it is out of range.
    if !Bindable(productId) then (Err(SystemError(IdOutOfRange)), s)
    else
      match TakeStock(s.stock, productId, quantity)
      case None => (Err(ProductUnavailable), s)
      case Some(stock') =>
        // The decrement is staged; every failure below discards it.
        var staged := s.(stock := stock');
        match DeliveryDate(now, setting)
        case Err(fault) => (Err(SystemError(fault)), s)
        case Ok(delivery) =>
          // Binding the insert's parameters raises before AUTOINCREMENT is consulted.
          if !Bindable(customerId) then (Err(SystemError(IdOutOfRange)), s)
          else if staged.nextId > MaxRowId then (Err(SystemError(RowIdExhausted)), s)
          else
            var id := staged.nextId;
            var order := Order(customerId, productId, Pending, now, delivery);
            (Ok(Placement(id, delivery)),
             staged.(orders := staged.orders[id := order], nextId := id + 1))
  }

  /**
   * Cancels order `orderId`. A missing order is an error, a dispatched order
   * is refused by policy, and every other order, including one already
   * cancelled, ends up cancelled. Stock is never restored. An order id the
   * driver cannot bind raises out of the lookup, before anything is written.
   */
  function CancelOrder(s: Store, orderId: int, reason: string)
    : (r: (Result<Cancellation, CancelError>, Store))
    requires ValidReason(reason)
    ensures r.1.stock == s.stock && r.1.nextId == s.nextId
    ensures r.0.Err? ==> r.1 == s
    ensures r.0 == Err(Uncaught(IdOutOfRange)) <==> !Bindable(orderId)
    ensures r.0 == Err(OrderNotFound) <==> Bindable(orderId) && orderId !in s.orders
    ensures r.0.Err? && Bindable(orderId) && orderId in s.orders
            ==> r.0.error == PolicyRestriction(s.orders[orderId].status)
    ensures r.0.Ok?
            <==> Bindable(orderId) && orderId in s.orders && !Dispatched(s.orders[orderId].status)
    ensures r.0.Ok? ==> r.0.value == Cancellation(orderId, reason)
    ensures r.0.Ok? ==> r.1.orders.Keys == s.orders.Keys
    ensures r.0.Ok? ==> r.1.orders[orderId] == s.orders[orderId].(status := Cancelled)
    ensures r.0.Ok? ==> forall id :: id in s.orders && id != orderId ==> r.1.orders[id] == s.orders[id]
  {
    if !Bindable(orderId) then (Err(Uncaught(IdOutOfRange)), s)
    else if orderId !in s.orders then (Err(OrderNotFound), s)
    else
      var status := s.orders[orderId].status;
      if status == Shipped || status == Delivered then (Err(PolicyRestriction(status)), s)
      else
        (Ok(Cancellation(orderId, reason)),
         s.(orders := s.orders[orderId := s.orders[orderId].(status := Cancelled)]))
  }

  /** A placement, successful or not, keeps the store invariant. */
  lemma PlaceOrderPreservesValid(s: Store, setting: OffsetSetting, now: Day,
                                 customerId: int, productId: int, quantity: int)
    requires ValidQuantity(quantity) && Representable(now)
    requires Valid(s)
    ensures Valid(PlaceOrder(s, setting, now, customerId, productId, quantity).1)
  {
  }

  /** A cancellation, successful or not, keeps the store invariant. */
  lemma CancelOrderPreservesValid(s: Store, orderId: int, reason: string)
    requires ValidReason(reason)
    requires Valid(s)
    ensures Valid(CancelOrder(s, orderId, reason).1)
  {
  }

  /**
   * Cancelling again an order that was just cancelled succeeds again and
   * leaves the store as the first cancellation left it.
   */
  lemma CancelOrderIdempotent(s: Store, orderId: int, reason: string, reason': string)
    requires ValidReason(reason) && ValidReason(reason')
    requires CancelOrder(s, orderId, reason).0.Ok?
    ensures var s1 := CancelOrder(s, orderId, reason).1;
            CancelOrder(s1, orderId, reason') == (Ok(Cancellation(orderId, reason')), s1)
  {
    var s1 := CancelOrder(s, orderId, reason).1;
    assert s1.orders[orderId].status == Cancelled;
    assert s1.orders[orderId := s1.orders[orderId].(status := Cancelled)] == s1.orders;
  }
}
