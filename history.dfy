/**
 * The status audit trail: an append-only log of status rows, and what it
 * says about each order's current status.
 */
module History {
  import opened Wrappers
  import opened OrderStatusCodec
  import opened Entities

  /**
   * The status-history service with its repository. Its only operation
   * appends a row; no row is ever updated or removed.
   */
  class StatusHistory {
    var rows: seq<StatusDetail>

    constructor ()
      ensures rows == []
    {
      rows := [];
    }

    /** Row ids are issued by the store in insertion order. */
    ghost predicate Valid()
      reads this
    {
      forall i :: 0 <= i < |rows| ==> rows[i].id == i + 1
    }

    /**
     * Writes one row for `order` with the given status, actor and note,
     * stamped with the current time. Earlier rows and the order are untouched.
     */
    method SaveOrderStatusLogs(order: Order, status: OrderStatus, updatedBy: Option<string>,
                               notes: Option<string>, now: Time)
      requires Valid()
      modifies this
      ensures Valid()
      ensures rows == old(rows) + [StatusDetail(|old(rows)| + 1, order.id, status, updatedBy, now, notes)]
    {
      var details := StatusDetail(|rows| + 1, order.id, status, updatedBy, now, notes);
      rows := rows + [details];
    }
  }

  /** The status recorded by the latest row about `orderId`, if there is one. */
  function LastStatus(rows: seq<StatusDetail>, orderId: int): Option<OrderStatus>
  {
    if |rows| == 0 then None
    else if rows[|rows| - 1].orderId == orderId then Some(rows[|rows| - 1].status)
    else LastStatus(rows[..|rows| - 1], orderId)
  }

  /** The audit trail agrees with the store: every order's latest row records its current status. */
  ghost predicate Audited(orders: map<int, Order>, rows: seq<StatusDetail>)
  {
    forall id :: id in orders ==> LastStatus(rows, id) == Some(orders[id].status)
  }

  /**
   * `LastStatus` finds the latest row about the order: it records the status
   * found and no later row is about that order; with no such row it finds none.
   */
  lemma {:induction false} LastStatusIsLatest(rows: seq<StatusDetail>, orderId: int)
    ensures LastStatus(rows, orderId).Some? ==> exists i :: (0 <= i < |rows| && rows[i].orderId == orderId
      && rows[i].status == LastStatus(rows, orderId).value
      && forall j :: i < j < |rows| ==> rows[j].orderId != orderId)
    ensures LastStatus(rows, orderId).None? <==> forall i :: 0 <= i < |rows| ==> rows[i].orderId != orderId
  {
    if |rows| > 0 && rows[|rows| - 1].orderId != orderId {
      var p := rows[..|rows| - 1];
      LastStatusIsLatest(p, orderId);
      assert forall i :: 0 <= i < |p| ==> p[i] == rows[i];
    }
  }

  /** In an audited state every stored order has a row recording its current status. */
  lemma {:induction false} AuditedRowExists(orders: map<int, Order>, rows: seq<StatusDetail>, id: int)
    requires Audited(orders, rows) && id in orders
    ensures exists i :: 0 <= i < |rows| && rows[i].orderId == id && rows[i].status == orders[id].status
  {
    LastStatusIsLatest(rows, id);
  }

  /** Appending a row changes the latest status of its own order only. */
  lemma {:induction false} LastStatusAppend(rows: seq<StatusDetail>, r: StatusDetail, orderId: int)
    ensures LastStatus(rows + [r], orderId) == if r.orderId == orderId then Some(r.status) else LastStatus(rows, orderId)
  {
    assert (rows + [r])[..|rows|] == rows;
  }

  /** Storing an order together with a row recording its new status keeps the trail in agreement. */
  lemma {:induction false} AuditedAfterAppend(orders: map<int, Order>, rows: seq<StatusDetail>, o: Order, r: StatusDetail)
    requires Audited(orders, rows)
    requires r.orderId == o.id && r.status == o.status
    ensures Audited(orders[o.id := o], rows + [r])
  {
    forall id | id in orders[o.id := o]
      ensures LastStatus(rows + [r], id) == Some(orders[o.id := o][id].status)
    {
      LastStatusAppend(rows, r, id);
    }
  }

  /** Storing a new version of an order whose status is unchanged needs no row. */
  lemma AuditedAfterKeep(orders: map<int, Order>, rows: seq<StatusDetail>, o: Order)
    requires Audited(orders, rows)
    requires o.id in orders && o.status == orders[o.id].status
    ensures Audited(orders[o.id := o], rows)
  {
  }
}
