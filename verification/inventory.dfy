/** The inventory side of a placement: the stock check and the decrement it guards. */
module Inventory {
  import opened Outcomes

  /** The stock of `productId`, or `None` when no product row has that id. */
  function FindStock(stock: map<int, int>, productId: int): Option<int>
  {
    if productId in stock then Some(stock[productId]) else None
  }

  /**
   * Check-then-act on one product: when the product exists and holds at least
   * `quantity` units, the stock table with exactly `quantity` units taken from
   * that product; otherwise `None`, and the caller keeps the table it had.
   */
  function TakeStock(stock: map<int, int>, productId: int, quantity: int): (r: Option<map<int, int>>)
    ensures r.Some? <==> productId in stock && stock[productId] >= quantity
    ensures r.Some? ==> r.value.Keys == stock.Keys
    ensures r.Some? ==> r.value[productId] + quantity == stock[productId]
    ensures r.Some? ==> forall p :: p in stock && p != productId ==> r.value[p] == stock[p]
  {
    match FindStock(stock, productId)
    case None => None
    case Some(available) =>
      if available < quantity then None
      else Some(stock[productId := available - quantity])
  }

}
