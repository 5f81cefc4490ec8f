/** The order table, standing in for the Prisma client: a map from order id to row. */
module Store {
  import opened Types

  class OrderStore {
    var orders: map<OrderId, Order>

    /** Every row is filed under its own id. */
    ghost predicate Valid()
      reads this
    {
      forall id | id in orders :: orders[id].id == id
    }

    constructor ()
      ensures orders == map[]
      ensures Valid()
    {
      orders := map[];
    }
  }
}
