/**
 * Sequences of calls. Each call runs as one atomic step on the store, so a
 * history of calls is their serial composition; the lemmas here state what
 * any such history preserves: stock is conserved against what was sold, no
 * product is oversold, and orders move only along the lifecycle the
 * cancellation policy allows.
 */
module Trace {
  import opened Outcomes
  import opened Records
  import opened Calendar
  import opened OrderEngine

  /** One call into the engine with its validated arguments; a placement carries the clock reading. */
  datatype Call =
    | PlaceCall(customerId: int, productId: int, quantity: int, now: Day)
    | CancelCall(orderId: int, reason: string)

  datatype Reply =
    | PlaceReply(placed: Result<Placement, PlaceError>)
    | CancelReply(cancelled: Result<Cancellation, CancelError>)

  /** The call passed the request's field constraints and the clock is a real date. */
  predicate Admissible(c: Call) {
    match c
    case PlaceCall(_, _, quantity, now) => ValidQuantity(quantity) && Representable(now)
    case CancelCall(_, reason) => ValidReason(reason)
  }

  predicate AllAdmissible(calls: seq<Call>) {
    forall i :: 0 <= i < |calls| ==> Admissible(calls[i])
  }

  /** Units of `productId` handed out by the call, as its reply shows. */
  function Units(c: Call, reply: Reply, productId: int): int {
    if c.PlaceCall? && c.productId == productId && reply.PlaceReply? && reply.placed.Ok?
    then c.quantity
    else 0
  }

  /** Units of `productId` handed out by a whole history. */
  function Sold(calls: seq<Call>, replies: seq<Reply>, productId: int): int
    requires |calls| == |replies|
  {
    if |calls| == 0 then 0
    else Units(calls[0], replies[0], productId) + Sold(calls[1..], replies[1..], productId)
  }

  /** Number of placements in a history that succeeded. */
  function Placed(replies: seq<Reply>): nat {
    if |replies| == 0 then 0
    else (if replies[0].PlaceReply? && replies[0].placed.Ok? then 1 else 0) + Placed(replies[1..])
  }

  /** How an existing order may change under the engine: not at all, or into a cancelled copy of an undispatched order. */
  predicate Evolves(before: Order, after: Order) {
    || after == before
    || (!Dispatched(before.status) && after == before.(status := Cancelled))
  }

  /** Runs one call. */
  function Step(s: Store, setting: OffsetSetting, c: Call): (r: (Reply, Store))
    requires Admissible(c)
    ensures r.0.PlaceReply? <==> c.PlaceCall?
    ensures r.1.stock.Keys == s.stock.Keys
    ensures s.orders.Keys <= r.1.orders.Keys
    ensures s.nextId <= r.1.nextId
    ensures forall p :: p in s.stock ==> r.1.stock[p] + Units(c, r.0, p) == s.stock[p]
    ensures IdsBelowCounter(s) ==> forall id :: id in s.orders ==> Evolves(s.orders[id], r.1.orders[id])
  {
    match c
    case PlaceCall(customerId, productId, quantity, now) =>
      var (res, t) := PlaceOrder(s, setting, now, customerId, productId, quantity);
      (PlaceReply(res), t)
    case CancelCall(orderId, reason) =>
      var (res, t) := CancelOrder(s, orderId, reason);
      (CancelReply(res), t)
  }

  lemma AdmissibleTail(calls: seq<Call>)
    requires |calls| > 0 && AllAdmissible(calls)
    ensures Admissible(calls[0]) && AllAdmissible(calls[1..])
  {
    assert Admissible(calls[0]);
    forall i | 0 <= i < |calls[1..]| ensures Admissible(calls[1..][i]) {
      assert calls[1..][i] == calls[i + 1];
    }
  }

  /** Runs a history of calls one after the other; one reply per call. */
  function Run(s: Store, setting: OffsetSetting, calls: seq<Call>): (r: (seq<Reply>, Store))
    requires AllAdmissible(calls)
    ensures |r.0| == |calls|
    ensures r.1.stock.Keys == s.stock.Keys
    ensures s.orders.Keys <= r.1.orders.Keys
    ensures s.nextId <= r.1.nextId
    decreases |calls|
  {
    if |calls| == 0 then ([], s)
    else
      AdmissibleTail(calls);
      var step := Step(s, setting, calls[0]);
      var rest := Run(step.1, setting, calls[1..]);
      ([step.0] + rest.0, rest.1)
  }

  /** Every history keeps the store invariant. */
  lemma {:induction false} RunPreservesValid(s: Store, setting: OffsetSetting, calls: seq<Call>)
    requires AllAdmissible(calls)
    requires Valid(s)
    ensures Valid(Run(s, setting, calls).1)
    decreases |calls|
  {
    if |calls| > 0 {
      AdmissibleTail(calls);
      var s1 := Step(s, setting, calls[0]).1;
      match calls[0] {
        case PlaceCall(customerId, productId, quantity, now) =>
          PlaceOrderPreservesValid(s, setting, now, customerId, productId, quantity);
        case CancelCall(orderId, reason) =>
          CancelOrderPreservesValid(s, orderId, reason);
      }
      RunPreservesValid(s1, setting, calls[1..]);
    }
  }

  /** Stock is conserved: what a product holds at the end plus what was sold equals what it held at the start. */
  lemma {:induction false} RunConservesStock(s: Store, setting: OffsetSetting, calls: seq<Call>, productId: int)
    requires AllAdmissible(calls)
    requires productId in s.stock
    ensures var (replies, t) := Run(s, setting, calls);
            t.stock[productId] + Sold(calls, replies, productId) == s.stock[productId]
    decreases |calls|
  {
    if |calls| > 0 {
      AdmissibleTail(calls);
      var (reply, s1) := Step(s, setting, calls[0]);
      RunConservesStock(s1, setting, calls[1..], productId);
      var (replies, t) := Run(s, setting, calls);
      assert replies[0] == reply;
      assert replies[1..] == Run(s1, setting, calls[1..]).0;
    }
  }

  /** No history sells more units of a product than it held at the start. */
  lemma NoOverselling(s: Store, setting: OffsetSetting, calls: seq<Call>, productId: int)
    requires AllAdmissible(calls)
    requires Valid(s)
    requires productId in s.stock
    ensures Sold(calls, Run(s, setting, calls).0, productId) <= s.stock[productId]
  {
    RunPreservesValid(s, setting, calls);
    RunConservesStock(s, setting, calls, productId);
  }

  /** Each successful placement adds exactly one order; nothing removes one. */
  lemma {:induction false} RunOrderCount(s: Store, setting: OffsetSetting, calls: seq<Call>)
    requires AllAdmissible(calls)
    requires Valid(s)
    ensures var (replies, t) := Run(s, setting, calls);
            |t.orders| == |s.orders| + Placed(replies)
    decreases |calls|
  {
    if |calls| > 0 {
      AdmissibleTail(calls);
      var (reply, s1) := Step(s, setting, calls[0]);
      match calls[0] {
        case PlaceCall(customerId, productId, quantity, now) =>
          PlaceOrderPreservesValid(s, setting, now, customerId, productId, quantity);
        case CancelCall(orderId, reason) =>
          CancelOrderPreservesValid(s, orderId, reason);
      }
      RunOrderCount(s1, setting, calls[1..]);
      var (replies, t) := Run(s, setting, calls);
      assert replies[0] == reply;
      assert replies[1..] == Run(s1, setting, calls[1..]).0;
    }
  }

  lemma EvolvesTransitive(a: Order, b: Order, c: Order)
    requires Evolves(a, b) && Evolves(b, c)
    ensures Evolves(a, c)
  {
  }

  /**
   * Over any history, every order that existed at the start either is
   * unchanged or is the same order now cancelled, and a shipped or delivered
   * order is never touched.
   */
  lemma {:induction false} RunRespectsLifecycle(s: Store, setting: OffsetSetting, calls: seq<Call>)
    requires AllAdmissible(calls)
    requires Valid(s)
    ensures var t := Run(s, setting, calls).1;
            forall id :: id in s.orders ==> Evolves(s.orders[id], t.orders[id])
    decreases |calls|
  {
    if |calls| > 0 {
      AdmissibleTail(calls);
      var s1 := Step(s, setting, calls[0]).1;
      match calls[0] {
        case PlaceCall(customerId, productId, quantity, now) =>
          PlaceOrderPreservesValid(s, setting, now, customerId, productId, quantity);
        case CancelCall(orderId, reason) =>
          CancelOrderPreservesValid(s, orderId, reason);
      }
      RunRespectsLifecycle(s1, setting, calls[1..]);
      var t := Run(s, setting, calls).1;
      assert t == Run(s1, setting, calls[1..]).1;
      forall id | id in s.orders ensures Evolves(s.orders[id], t.orders[id]) {
        EvolvesTransitive(s.orders[id], s1.orders[id], t.orders[id]);
      }
    }
  }

  /**
   * Two placements of one unit each against a product with one unit left,
   * run one after the other: the first succeeds, the second is refused, and
   * the product ends with no stock.
   */
  lemma LastUnitSoldOnce(s: Store, setting: OffsetSetting, productId: int,
                         first: int, second: int, now1: Day, now2: Day)
    requires productId in s.stock && s.stock[productId] == 1
    requires Bindable(productId) && Bindable(first)
    requires Representable(now1) && Representable(now2)
    requires DeliveryDate(now1, setting).Ok? && s.nextId <= MaxRowId
    ensures var calls := [PlaceCall(first, productId, 1, now1), PlaceCall(second, productId, 1, now2)];
            var (replies, t) := Run(s, setting, calls);
            && replies[0].PlaceReply? && replies[0].placed.Ok?
            && replies[1] == PlaceReply(Err(ProductUnavailable))
            && t.stock[productId] == 0
  {
    var calls := [PlaceCall(first, productId, 1, now1), PlaceCall(second, productId, 1, now2)];
    var (r1, s1) := Step(s, setting, calls[0]);
    var (r2, s2) := Step(s1, setting, calls[1]);
    var rest := [calls[1]];
    assert calls[1..] == rest;
    assert rest[1..] == [];
    assert Run(s2, setting, rest[1..]) == ([], s2);
    assert Step(s1, setting, rest[0]) == (r2, s2);
    assert [r2] + [] == [r2];
    assert Run(s1, setting, rest) == ([r2], s2);
    assert [r1] + [r2] == [r1, r2];
    assert Run(s, setting, calls) == ([r1, r2], s2);
  }
}
