/**
 * The state a fresh database starts from: three catalogue products and one
 * order that has already shipped, placed there to exercise the cancellation
 * policy.
 */
module Seed {
  import opened Outcomes
  import opened Records
  import opened Calendar
  import opened OrderEngine
  import opened Trace

  /** Id of the seeded shipped order. */
  const ShippedOrderId := 101

  /**
   * Products 1, 2 and 3 with 45, 10 and 200 units; order 101 for customer
   * 500 on product 1, shipped, ordered 2026-02-01 (day 739648) for delivery
   * 2026-02-05 (day 739652). The order is inserted with an explicit id, which
   * moves the AUTOINCREMENT counter past it, so the next id is 102.
   */
  const SeedStore := Store(
    map[1 := 45, 2 := 10, 3 := 200],
    map[ShippedOrderId := Order(500, 1, Shipped, 739648, 739652)],
    ShippedOrderId + 1)

  lemma SeedIsValid()
    ensures Valid(SeedStore)
  {
  }

  /** A direct attempt to cancel the seeded order is refused and changes nothing. */
  lemma SeedOrderRefusesCancel(reason: string)
    requires ValidReason(reason)
    ensures CancelOrder(SeedStore, ShippedOrderId, reason)
            == (Err(PolicyRestriction(Shipped)), SeedStore)
  {
  }

  /** No history of calls starting from the seed ever cancels or otherwise alters order 101. */
  lemma SeedOrderNeverCancelled(setting: OffsetSetting, calls: seq<Call>)
    requires AllAdmissible(calls)
    ensures var t := Run(SeedStore, setting, calls).1;
            && ShippedOrderId in t.orders
            && t.orders[ShippedOrderId] == SeedStore.orders[ShippedOrderId]
            && t.orders[ShippedOrderId].status == Shipped
  {
    RunRespectsLifecycle(SeedStore, setting, calls);
  }

  /**
   * A customer id one past the 64-bit range passes the stock check, fails when
   * the order row is inserted, and the rollback restores product 1's stock.
   */
  lemma SeedOversizedCustomerRolledBack(now: Day)
    requires Representable(now) && now + DefaultOffsetDays <= MaxDay
    ensures PlaceOrder(SeedStore, Unset, now, MaxInteger + 1, 1, 1)
            == (Err(SystemError(IdOutOfRange)), SeedStore)
  {
  }
}
