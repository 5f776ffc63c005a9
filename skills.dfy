/**
 * The stock rule of a skill slot (`GenericSkill`) as every caller in the core
 * uses it: `AddOneStock()` is only called while `stock < maxStock`.
 */
module Skills {

  /** The stock after a guarded one-stock refund. */
  function RefundOneStock(stock: int, maxStock: int): (r: int)
    ensures r == stock + 1 <==> stock < maxStock
    ensures r == stock || r == stock + 1
    ensures stock <= maxStock ==> r <= maxStock
  {
    if stock < maxStock then stock + 1 else stock
  }
}
