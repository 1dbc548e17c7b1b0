/**
 * The order store and the event outbox that stand in for the JPA
 * repositories and the Kafka producer, and the invariant that ties the
 * store to the status history.
 */
module Store {
  import opened Wrappers
  import opened Entities
  import opened History

  /**
   * Orders by id, with their line items. Order and product ids are issued
   * by identity counters.
   */
  class OrderRepository {
    var orders: map<int, Order>
    var nextId: int
    var nextProductId: int

    constructor ()
      ensures orders == map[] && nextId == 1 && nextProductId == 1
    {
      orders := map[];
      nextId := 1;
      nextProductId := 1;
    }

    /**
     * Each order is filed under its own id, which lies below the counter; it
     * has at least one item; each item links back to it and has an id below
     * the product counter.
     */
    ghost predicate Valid()
      reads this
    {
      && 1 <= nextId && 1 <= nextProductId
      && (forall id :: id in orders ==> orders[id].id == id && 1 <= id < nextId && |orders[id].items| > 0)
      && (forall id, j :: id in orders && 0 <= j < |orders[id].items| ==>
            orders[id].items[j].orderId == id && 1 <= orders[id].items[j].id < nextProductId)
    }
  }

  /** The `order-events` topic as seen by the producer: the order ids sent so far. */
  class OrderProducer {
    var sent: seq<int>

    constructor ()
      ensures sent == []
    {
      sent := [];
    }

    /** Publishes one event carrying `orderId`. */
    method SendOrder(orderId: int)
      modifies this
      ensures sent == old(sent) + [orderId]
    {
      sent := sent + [orderId];
    }
  }

  /**
   * The store and the history agree: both are well formed, every row refers
   * to a stored order, and each order's latest row records its status.
   */
  ghost predicate Consistent(repo: OrderRepository, history: StatusHistory)
    reads repo, history
  {
    && repo.Valid()
    && history.Valid()
    && (forall i :: 0 <= i < |history.rows| ==> history.rows[i].orderId in repo.orders)
    && Audited(repo.orders, history.rows)
  }

  /**
   * In a consistent state the orders with history are exactly the stored
   * orders, and each stored order has a row recording its current status.
   */
  lemma ConsistentHistoryCoversStore(repo: OrderRepository, history: StatusHistory, id: int)
    requires Consistent(repo, history)
    ensures id in repo.orders <==> exists i :: 0 <= i < |history.rows| && history.rows[i].orderId == id
    ensures id in repo.orders ==>
      exists i :: 0 <= i < |history.rows| && history.rows[i].orderId == id && history.rows[i].status == repo.orders[id].status
  {
    if id in repo.orders {
      AuditedRowExists(repo.orders, history.rows, id);
    }
  }
}
