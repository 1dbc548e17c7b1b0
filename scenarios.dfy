/**
 * Client runs of the service and the worker on a fresh store, derived from
 * the operations' contracts alone.
 */
module Scenarios {
  import opened Wrappers
  import opened ApiErrors
  import opened OrderStatusCodec
  import opened Numbers
  import opened Entities
  import opened Requests
  import opened History
  import opened Store
  import opened Service
  import opened Consumer

  /** A fresh store, history and outbox, with a service and a worker over them. */
  method Fresh() returns (service: OrderService, consumer: OrderConsumer)
    ensures fresh(service.repo) && fresh(service.history) && fresh(service.producer)
    ensures consumer.repo == service.repo && consumer.history == service.history
    ensures Consistent(service.repo, service.history)
    ensures service.repo.orders == map[] && service.repo.nextId == 1
    ensures service.history.rows == [] && service.producer.sent == []
  {
    var repo := new OrderRepository();
    var history := new StatusHistory();
    var producer := new OrderProducer();
    service := new OrderService(repo, history, producer);
    consumer := new OrderConsumer(repo, history);
  }

  /** Alice orders two widgets; the worker then moves the order to PROCESSING. */
  method AliceScenario(now: Time)
    returns (placedStatus: string, qty: int, finalStatus: string, trail: seq<OrderStatus>)
    ensures placedStatus == "CREATED" && qty == 2
    ensures finalStatus == "PROCESSING"
    ensures trail == [Created, Processing]
  {
    var service, consumer := Fresh();
    var req := OrderRequest(Some("Alice"), Some([ProductRequest(Some("Widget"), Some(2), Some(9.99))]),
                            Some(19.98), Some(now));
    var placed := service.PlaceOrder(req, now, false);
    assert placed.Success?;
    placedStatus := placed.value.status;
    qty := placed.value.items[0].qty;
    consumer.ConsumeOrder(placed.value.id, now + 2000, false);
    var view := service.GetOrderResponseById(placed.value.id);
    finalStatus := view.value.status;
    var rows := service.history.rows;
    trail := seq(|rows|, i requires 0 <= i < |rows| => rows[i].status);
  }

  /** A fresh store holding one order, placed by Bob. */
  method OneOrder(now: Time) returns (service: OrderService, consumer: OrderConsumer)
    ensures fresh(service.repo) && fresh(service.history) && fresh(service.producer)
    ensures consumer.repo == service.repo && consumer.history == service.history
    ensures Consistent(service.repo, service.history)
    ensures 1 in service.repo.orders && service.repo.orders[1].status == Created
    ensures |service.history.rows| == 1
  {
    service, consumer := Fresh();
    var req := OrderRequest(Some("Bob"), Some([ProductRequest(Some("Lamp"), Some(1), Some(5.0))]),
                            Some(5.0), Some(now));
    var placed := service.PlaceOrder(req, now, false);
    assert placed.Success?;
  }

  /** An unknown status name is refused and the stored status stays as it was. */
  method BogusStatusScenario(now: Time) returns (r: Outcome<ErrorCode>, status: OrderStatus, rows: nat)
    ensures r == Fail(InvalidStatus) && status == Created && rows == 1
  {
    var service, _ := OneOrder(now);
    assert ParseStatus("bogus").None? by { ParseRejects("bogus"); }
    r := service.UpdateOrder(map["id" := "1", "status" := "bogus"], now + 1);
    status := service.repo.orders[1].status;
    rows := |service.history.rows|;
  }

  /** A map holding only the id is refused. */
  method OnlyIdScenario(now: Time) returns (r: Outcome<ErrorCode>)
    ensures r == Fail(NoUpdateFields)
  {
    var service, _ := OneOrder(now);
    r := service.UpdateOrder(map["id" := "1"], now + 1);
  }

  /** Lower-case names are accepted and a real change of status writes one row. */
  method ShipScenario(now: Time) returns (r: Outcome<ErrorCode>, status: OrderStatus, rows: nat)
    ensures r == Pass && status == Shipped && rows == 2
  {
    var service, _ := OneOrder(now);
    assert ParseStatus("shipped") == Some(Shipped) by { ParseCaseVariant("shipped", Shipped); }
    r := service.UpdateOrder(map["id" := "1", "status" := "shipped"], now + 1);
    status := service.repo.orders[1].status;
    rows := |service.history.rows|;
  }

  /** Setting the status to its current value writes no row. */
  method SameStatusScenario(now: Time) returns (r: Outcome<ErrorCode>, rows: nat)
    ensures r == Pass && rows == 1
  {
    var service, _ := OneOrder(now);
    assert ParseStatus("Created") == Some(Created) by { ParseCaseVariant("Created", Created); }
    r := service.UpdateOrder(map["id" := "1", "status" := "Created"], now + 1);
    rows := |service.history.rows|;
  }

  /** The update path stores a negative total: it does not keep the total positive. */
  method NegativeAmountScenario(now: Time) returns (r: Outcome<ErrorCode>, amount: real)
    ensures r == Pass && amount == -5.0
  {
    var service, _ := OneOrder(now);
    assert ParseDecimal("-5") == Some(-5.0);
    r := service.UpdateOrder(map["id" := "1", "totalAmount" := "-5"], now + 1);
    amount := service.repo.orders[1].totalAmount;
  }

  /** Delivering the same event twice leaves the order PROCESSING but writes two rows. */
  method DuplicateDeliveryScenario(now: Time) returns (status: OrderStatus, rows: nat)
    ensures status == Processing && rows == 3
  {
    var service, consumer := OneOrder(now);
    consumer.ConsumeOrder(1, now + 2000, false);
    consumer.ConsumeOrder(1, now + 4000, false);
    status := service.repo.orders[1].status;
    rows := |service.history.rows|;
  }
}
