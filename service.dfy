/**
 * The order lifecycle service: creation, lookup, the string-keyed partial
 * update, and the mapping of an order to its read view. Both service
 * classes of the application are modelled by the one class below.
 */
module Service {
  import opened Wrappers
  import opened ApiErrors
  import opened OrderStatusCodec
  import opened Numbers
  import opened Entities
  import opened Requests
  import opened Responses
  import opened History
  import opened Store

  const UserActor: string := "User"
  const CreatedNote: string := "Order created"
  const UpdatedNote: string := "Order status updated via API"

  /** The item fields that go into non-null product columns are all present. */
  predicate Insertable(p: ProductRequest)
  {
    p.name.Some? && p.quantity.Some? && p.price.Some?
  }

  predicate AllInsertable(items: seq<ProductRequest>)
  {
    forall i :: 0 <= i < |items| ==> Insertable(items[i])
  }

  /**
   * The line items built from the request items: one per request item, in
   * order, with its name, quantity and price, no description, linked to the
   * order, and with consecutive ids from `firstId`.
   */
  function BuildProducts(items: seq<ProductRequest>, orderId: int, firstId: int): (ps: seq<Product>)
    requires AllInsertable(items)
    ensures |ps| == |items|
    ensures forall i :: 0 <= i < |items| ==>
      ps[i] == Product(firstId + i, items[i].name.value, None, items[i].quantity.value, items[i].price.value, orderId)
  {
    if |items| == 0 then []
    else
      var p := items[0];
      [Product(firstId, p.name.value, None, p.quantity.value, p.price.value, orderId)]
        + BuildProducts(items[1..], orderId, firstId + 1)
  }

  /**
   * Why `placeOrder` throws, in the order its checks run: no items, then a
   * missing or non-positive total, then anything the store refuses (a null
   * in a non-null column, or a store failure), reported as a creation failure.
   */
  function PlaceOrderRejection(req: OrderRequest, storeFault: bool): (r: Option<ErrorCode>)
    ensures r.Some? ==> r.value == EmptyOrder || r.value == InvalidAmount || r.value == OrderCreationFailed
    ensures r == Some(EmptyOrder) <==> req.items.None? || |req.items.value| == 0
    ensures r == Some(InvalidAmount) <==>
      && req.items.Some? && |req.items.value| > 0
      && (req.totalAmount.None? || req.totalAmount.value <= 0.0)
    ensures storeFault ==> r.Some?
    ensures r.None? <==>
      && !storeFault
      && req.customerName.Some? && req.orderTime.Some?
      && req.items.Some? && |req.items.value| > 0 && AllInsertable(req.items.value)
      && req.totalAmount.Some? && req.totalAmount.value > 0.0
  {
    if req.items.None? || |req.items.value| == 0 then Some(EmptyOrder)
    else if req.totalAmount.None? || req.totalAmount.value <= 0.0 then Some(InvalidAmount)
    else if storeFault || req.customerName.None? || req.orderTime.None? || !AllInsertable(req.items.value)
    then Some(OrderCreationFailed)
    else None
  }

  function MapToProductResponse(p: Product): ProductResponse
  {
    ProductResponse(p.id, p.name, p.quantity, p.price)
  }

  /**
   * The read view of an order, with its status rendered by a name that parses
   * back to it, and one entry per line item in the order's own order.
   */
  function MapToOrderResponse(o: Order): (r: OrderResponse)
    ensures ParseStatus(r.status) == Some(o.status)
    ensures |r.items| == |o.items|
    ensures forall i :: 0 <= i < |o.items| ==> r.items[i].id == o.items[i].id && r.items[i].qty == o.items[i].quantity
  {
    ParseName(o.status);
    OrderResponse(
      o.id,
      o.customerName,
      seq(|o.items|, i requires 0 <= i < |o.items| => MapToProductResponse(o.items[i])),
      o.totalAmount,
      o.orderTime,
      Name(o.status))
  }

  /** The `id` parameter of an update, as `Long.parseLong` reads it; a missing key reads as null, which it rejects. */
  function IdParam(params: map<string, string>): Option<int>
  {
    if "id" in params then ParseLong(params["id"]) else None
  }

  predicate BadStatus(params: map<string, string>)
  {
    "status" in params && ParseStatus(params["status"]).None?
  }

  predicate BadAmount(params: map<string, string>)
  {
    "totalAmount" in params && ParseDecimal(params["totalAmount"]).None?
  }

  predicate HasRecognisedKey(params: map<string, string>)
  {
    "customerName" in params || "status" in params || "totalAmount" in params
  }

  /**
   * The view mirrors the order: same id, name, total and time, one item view
   * per item in the same order, and a status string that parses back to the
   * order's status.
   */
  lemma {:induction false} ResponseMirrorsOrder(o: Order)
    ensures var r := MapToOrderResponse(o);
      && r.id == o.id && r.customerName == o.customerName
      && r.totalAmount == o.totalAmount && r.orderTime == o.orderTime
      && ParseStatus(r.status) == Some(o.status)
      && |r.items| == |o.items|
      && forall i :: 0 <= i < |o.items| ==>
           && r.items[i].id == o.items[i].id && r.items[i].name == o.items[i].name
           && r.items[i].qty == o.items[i].quantity && r.items[i].price == o.items[i].price
  {
    ParseName(o.status);
  }

  /**
   * The view of a freshly created order lists the request items in request
   * order, with their name, quantity and price and consecutive ids.
   */
  lemma {:induction false} CreatedViewMirrorsRequest(items: seq<ProductRequest>, o: Order, firstId: int)
    requires AllInsertable(items)
    requires o.items == BuildProducts(items, o.id, firstId)
    ensures var r := MapToOrderResponse(o);
      && |r.items| == |items|
      && forall i :: 0 <= i < |items| ==>
           r.items[i] == ProductResponse(firstId + i, items[i].name.value, items[i].quantity.value, items[i].price.value)
  {
  }

  /** An item request that satisfies its declared constraints has every non-null column filled. */
  lemma ValidItemInsertable(p: ProductRequest)
    requires ProductRequestValid(p)
    ensures Insertable(p)
  {
  }

  /**
   * A request that passes the declared constraints, whose items do too, is
   * refused by `placeOrder` only for a missing total or a store failure.
   */
  lemma {:induction false} ValidRequestOutcome(req: OrderRequest, storeFault: bool)
    requires OrderRequestValid(req)
    requires forall i :: 0 <= i < |req.items.value| ==> ProductRequestValid(req.items.value[i])
    ensures req.totalAmount.None? ==> PlaceOrderRejection(req, storeFault) == Some(InvalidAmount)
    ensures req.totalAmount.Some? ==>
      PlaceOrderRejection(req, storeFault) == if storeFault then Some(OrderCreationFailed) else None
  {
    forall i | 0 <= i < |req.items.value| ensures Insertable(req.items.value[i]) {
      ValidItemInsertable(req.items.value[i]);
    }
  }

  /**
   * Creation enforces no item constraint: with a name, a time, a positive
   * total and no store fault, any non-empty list of items whose non-null
   * columns can be filled is accepted, whether or not the items meet their
   * declared constraints.
   */
  lemma ItemConstraintsNotEnforced(req: OrderRequest)
    requires req.customerName.Some? && req.orderTime.Some?
    requires req.totalAmount.Some? && req.totalAmount.value > 0.0
    requires req.items.Some? && |req.items.value| > 0 && AllInsertable(req.items.value)
    ensures PlaceOrderRejection(req, false) == None
  {
  }

  /**
   * The item constraints are not enforced on creation: an order whose only
   * item has quantity zero and a negative price is accepted.
   */
  lemma UncheckedItemAccepted(req: OrderRequest)
    requires req.customerName.Some? && req.orderTime.Some?
    requires req.totalAmount.Some? && req.totalAmount.value > 0.0
    requires req.items == Some([ProductRequest(Some("Widget"), Some(0), Some(-1.0))])
    ensures !ProductRequestValid(req.items.value[0])
    ensures PlaceOrderRejection(req, false) == None
  {
  }

  class OrderService {
    const repo: OrderRepository
    const history: StatusHistory
    const producer: OrderProducer

    constructor (repo: OrderRepository, history: StatusHistory, producer: OrderProducer)
      ensures this.repo == repo && this.history == history && this.producer == producer
    {
      this.repo := repo;
      this.history := history;
      this.producer := producer;
    }

    /**
     * Validates the request, then stores a new CREATED order with its items,
     * writes one CREATED history row by "User", publishes the new id, and
     * returns the order's view. On any failure nothing is written.
     */
    method PlaceOrder(req: OrderRequest, now: Time, storeFault: bool) returns (r: Result<OrderResponse, ErrorCode>)
      requires Consistent(repo, history)
      modifies repo, history, producer
      ensures Consistent(repo, history)
      ensures r.Failure? <==> PlaceOrderRejection(req, storeFault).Some?
      ensures r.Failure? ==> r.error == PlaceOrderRejection(req, storeFault).value && unchanged(repo, history, producer)
      ensures r.Success? ==>
        var id := old(repo.nextId);
        var items := req.items.value;
        var o := Order(id, req.customerName.value, BuildProducts(items, id, old(repo.nextProductId)),
                       req.totalAmount.value, req.orderTime.value, Created, now, None, None);
        && id !in old(repo.orders)
        && repo.orders == old(repo.orders)[id := o]
        && repo.nextId == id + 1
        && repo.nextProductId == old(repo.nextProductId) + |items|
        && history.rows == old(history.rows) + [StatusDetail(|old(history.rows)| + 1, id, Created, Some(UserActor), now, Some(CreatedNote))]
        && producer.sent == old(producer.sent) + [id]
        && r.value == MapToOrderResponse(o)
    {
      var rejection := PlaceOrderRejection(req, storeFault);
      if rejection.Some? {
        return Failure(rejection.value);
      }
      var items := req.items.value;
      var id := repo.nextId;
      var order := Order(id, req.customerName.value, [], req.totalAmount.value, req.orderTime.value,
                         Created, now, None, None);
      repo.orders := repo.orders[id := order];
      repo.nextId := id + 1;

      var products := BuildProducts(items, id, repo.nextProductId);
      repo.nextProductId := repo.nextProductId + |items|;
      order := order.(items := products);
      repo.orders := repo.orders[id := order];

      history.SaveOrderStatusLogs(order, Created, Some(UserActor), Some(CreatedNote), now);
      AuditedAfterAppend(old(repo.orders), old(history.rows), order, history.rows[|history.rows| - 1]);
      producer.SendOrder(id);
      r := Success(MapToOrderResponse(order));
    }

    /** The stored order with this id, or ORDER_NOT_FOUND. */
    method GetOrderById(id: int) returns (r: Result<Order, ErrorCode>)
      ensures id in repo.orders ==> r == Success(repo.orders[id])
      ensures id !in repo.orders ==> r == Failure(OrderNotFound)
    {
      if id in repo.orders {
        r := Success(repo.orders[id]);
      } else {
        r := Failure(OrderNotFound);
      }
    }

    /** The view of the stored order with this id, or ORDER_NOT_FOUND. */
    method GetOrderResponseById(id: int) returns (r: Result<OrderResponse, ErrorCode>)
      ensures id in repo.orders ==> r == Success(MapToOrderResponse(repo.orders[id]))
      ensures id !in repo.orders ==> r == Failure(OrderNotFound)
    {
      if id in repo.orders {
        r := Success(MapToOrderResponse(repo.orders[id]));
      } else {
        r := Failure(OrderNotFound);
      }
    }

    /** The stored order with this id, or nothing. */
    method FindByIdEntity(id: int) returns (r: Option<Order>)
      ensures id in repo.orders <==> r.Some?
      ensures r.Some? ==> r.value == repo.orders[id]
    {
      if id in repo.orders {
        r := Some(repo.orders[id]);
      } else {
        r := None;
      }
    }

    /**
     * The partial update. Checks run in this order: a readable id, at least
     * one key besides it, a stored order, a parseable status, a parseable
     * amount, a recognised key. On success only the recognised keys present
     * change, updatedAt becomes `now`, and a "User" history row is written
     * exactly when the status key was present and changed the status.
     */
    method UpdateOrder(params: map<string, string>, now: Time) returns (r: Outcome<ErrorCode>)
      requires Consistent(repo, history)
      modifies repo, history
      ensures Consistent(repo, history)
      ensures IdParam(params).None? ==> r == Fail(InvalidIdFormat)
      ensures IdParam(params).Some? && |params| == 1 ==> r == Fail(NoUpdateFields)
      ensures IdParam(params).Some? && |params| != 1 && IdParam(params).value !in old(repo.orders) ==>
        r == Fail(OrderNotFound)
      ensures IdParam(params).Some? && |params| != 1 && IdParam(params).value in old(repo.orders) ==>
        r == if BadStatus(params) then Fail(InvalidStatus)
             else if BadAmount(params) then Fail(InvalidAmount)
             else if !HasRecognisedKey(params) then Fail(NoValidUpdateFields)
             else Pass
      ensures r.Fail? ==> unchanged(repo, history)
      ensures r.Pass? ==> IdParam(params).Some? && IdParam(params).value in old(repo.orders) && IdParam(params).value in repo.orders
      ensures r.Pass? ==>
        var id := IdParam(params).value;
        var before, after := old(repo.orders[id]), repo.orders[id];
        && repo.orders == old(repo.orders)[id := after]
        && repo.nextId == old(repo.nextId) && repo.nextProductId == old(repo.nextProductId)
        && after.customerName == (if "customerName" in params then params["customerName"] else before.customerName)
        && ("status" in params ==> ParseStatus(params["status"]) == Some(after.status))
        && ("status" !in params ==> after.status == before.status)
        && ("totalAmount" in params ==> ParseDecimal(params["totalAmount"]) == Some(after.totalAmount))
        && ("totalAmount" !in params ==> after.totalAmount == before.totalAmount)
        && after.updatedAt == Some(now)
        && after.id == before.id && after.items == before.items && after.orderTime == before.orderTime
        && after.createdAt == before.createdAt && after.notes == before.notes
        && history.rows == old(history.rows) +
             if "status" in params && after.status != before.status
             then [StatusDetail(|old(history.rows)| + 1, id, after.status, Some(UserActor), now, Some(UpdatedNote))]
             else []
    {
      var idParam := IdParam(params);
      if idParam.None? {
        return Fail(InvalidIdFormat);
      }
      var id := idParam.value;
      if |params| == 1 && "id" in params {
        return Fail(NoUpdateFields);
      }
      var existing := FindByIdEntity(id);
      if existing.None? {
        return Fail(OrderNotFound);
      }
      var order := existing.value;
      var updated := false;
      var oldStatus := order.status;

      if "customerName" in params {
        order := order.(customerName := params["customerName"]);
        updated := true;
      }
      if "status" in params {
        var newStatus := ParseStatus(params["status"]);
        if newStatus.None? {
          return Fail(InvalidStatus);
        }
        order := order.(status := newStatus.value);
        updated := true;
      }
      if "totalAmount" in params {
        var amount := ParseDecimal(params["totalAmount"]);
        if amount.None? {
          return Fail(InvalidAmount);
        }
        order := order.(totalAmount := amount.value);
        updated := true;
      }
      if !updated {
        return Fail(NoValidUpdateFields);
      }

      order := order.(updatedAt := Some(now));
      SaveUpdated(existing.value, order, "status" in params, now);
      r := Pass;
    }

    /**
     * Stores the updated version of an order and, when the status key was
     * given and the status changed, writes the "User" history row.
     */
    method SaveUpdated(before: Order, order: Order, statusGiven: bool, now: Time)
      requires Consistent(repo, history)
      requires order.id in repo.orders && repo.orders[order.id] == before
      requires order.id == before.id && order.items == before.items
      requires !statusGiven ==> order.status == before.status
      modifies repo, history
      ensures Consistent(repo, history)
      ensures repo.orders == old(repo.orders)[order.id := order]
      ensures repo.nextId == old(repo.nextId) && repo.nextProductId == old(repo.nextProductId)
      ensures history.rows == old(history.rows) +
        if statusGiven && order.status != before.status
        then [StatusDetail(|old(history.rows)| + 1, order.id, order.status, Some(UserActor), now, Some(UpdatedNote))]
        else []
    {
      repo.orders := repo.orders[order.id := order];
      if statusGiven && order.status != before.status {
        history.SaveOrderStatusLogs(order, order.status, Some(UserActor), Some(UpdatedNote), now);
        AuditedAfterAppend(old(repo.orders), old(history.rows), order, history.rows[|history.rows| - 1]);
      } else {
        AuditedAfterKeep(old(repo.orders), old(history.rows), order);
      }
    }
  }
}
