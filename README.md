# Order lifecycle — a Dafny model

This project models the core of an order service: a single order store with
an append-only status audit trail and an outbox of order events. Four
operations act on it:

- **placeOrder** validates a creation request, stores a new `CREATED` order with one line item per
  request item, writes one `CREATED` history row and publishes the new id;
- **getOrderById** looks an order up, as the stored entity or as its read view;
- **updateOrder** applies a string-keyed partial update (`id`, `customerName`, `status`, `totalAmount`)
  after a fixed sequence of checks, and writes a history row only when the status really changes;
- **consumeOrder** is the asynchronous worker step that forces an order to `PROCESSING`.

## Structure

| file | module | contents |
|---|---|---|
| `wrappers.dfy` | `Wrappers` | `Option` (null), `Result` and `Outcome` (a value or a thrown `ApiException`) |
| `api_errors.dfy` | `ApiErrors` | the `ApiException` error codes |
| `order_status.dfy` | `OrderStatusCodec` | the seven-valued status enum, its name, ASCII upper-casing and the parser |
| `numbers.dfy` | `Numbers` | `Long.parseLong`, `new BigDecimal(String)` without exponents, and decimal rendering |
| `entities.dfy` | `Entities` | the `Orders`, `Product` and `OrderStatusDetails` records |
| `requests.dfy` | `Requests` | the request records and their declared validation constraints |
| `responses.dfy` | `Responses` | the read views |
| `history.dfy` | `History` | the status-history service as a class over an append-only sequence, and the audit invariant |
| `store.dfy` | `Store` | the order repository (map and identity counters), the producer outbox, and `Consistent` |
| `service.dfy` | `Service` | the order service class: place, get, find, update, and the view mapping |
| `consumer.dfy` | `Consumer` | the event consumer class |
| `scenarios.dfy` | `Scenarios` | client runs on a fresh store, proved from the contracts alone |

The stateful parts are classes whose methods change their fields: `OrderRepository` (orders by id,
the order and product identity counters), `StatusHistory` (its rows), `OrderProducer` (the ids
sent). `OrderService` and `OrderConsumer` hold references to them, as the Java beans hold their
repositories. The two service classes of the application (`OrderService` and `OrderServiceImpl`)
are modelled by one class with the union of their operations; their `placeOrder` and
`mapToOrderResponse` bodies are identical, and `OrderService.getOrderById` differs only in
returning the view (`GetOrderResponseById` here). The two status-history service classes are
likewise identical and are one class here.

The service-level methods `Service.OrderService.PlaceOrder`, `Service.OrderService.UpdateOrder` (and its
helper `SaveUpdated`) and `Consumer.OrderConsumer.ConsumeOrder` require and ensure `Store.Consistent`; the
lower-level `History.StatusHistory.SaveOrderStatusLogs` keeps only `StatusHistory.Valid`, and
`Store.OrderProducer.SendOrder` keeps no invariant. `Store.Consistent` says:

- each order is filed under its own id, below the identity counter;
- each order has at least one line item, and each item links back to its order with an id below the product counter;
- history row ids are issued in order, and every row refers to a stored order;
- **the audit trail agrees with the store**: for every order, the latest history row about it records its current status
  (`History.Audited`).

The Java `@Transactional` rollback is modelled by leaving all state unchanged on every error path.
A column declared `nullable = false` has a plain type in the records, and so do the nullable columns
that are never null once a row is stored (generated ids, the product's order link, the order's `status`,
set by every write, and its `createdAt`); a null in a non-null column makes the insert fail, which the model reports as `ORDER_CREATION_FAILED`, the code the catch-all handler of
`placeOrder` produces. Any other unexpected store or producer failure during creation is the
`storeFault` input. The clock is the `now` input; the worker's interruption during its delay is the
`interrupted` input. The `createdAt` column is filled by the database default when the row is
inserted, modelled as `now` at insertion; no operation writes it afterwards.

## Where the code does not do what it declares

The model follows the code.

- The request declares the total amount strictly positive (`@DecimalMin(value = "0.0", inclusive = false)`,
  order/src/main/java/com/api/order/dto/req/OrderRequest.java:15-16) and `placeOrder` refuses a
  non-positive total (order/src/main/java/com/api/order/service/impl/OrderServiceImpl.java:53).
  `updateOrder` stores any parseable decimal: `Scenarios.NegativeAmountScenario` stores `-5`.
- `updateOrder` writes a history row only when the status really changes
  (order/src/main/java/com/api/order/service/impl/OrderServiceImpl.java:206). The worker writes a
  `PROCESSING` row on every delivery: `Scenarios.DuplicateDeliveryScenario` ends with three rows for one
  order. What does hold is `History.Audited`: the latest row of each order records its current status.
- `sendOrder` hands the id to `kafkaTemplate.send`
  (order/src/main/java/com/api/order/mq/OrderProducer.java:17) and ignores the future it returns: a
  failure reported by the broker later is never seen, and the order stays created. Only an exception
  that `send` throws at once reaches the catch-all handler of `placeOrder`
  (order/src/main/java/com/api/order/service/impl/OrderServiceImpl.java:94-97): the creation is then
  reported as `ORDER_CREATION_FAILED` and rolled back. That synchronous case is part of `storeFault` here.
- The item constraints of the request are declared but not cascaded, since the items list has no
  `@Valid`: `Service.UncheckedItemAccepted` places an order whose item has quantity 0 and a negative price.

## Model

| member | source | states |
|---|---|---|
| `OrderStatusCodec.SevenStatuses` | order/src/main/java/com/api/order/enums/OrderStatus.java:5-15 | there are exactly seven statuses, pairwise distinct, and no others |
| `OrderStatusCodec.NameInjective` | order/src/main/java/com/api/order/enums/OrderStatus.java:7-13 | distinct statuses have distinct names, so a stored name identifies its status |
| `OrderStatusCodec.Name` | order/src/main/java/com/api/order/entity/Orders.java:40-42 | the stored and rendered name of every status is non-empty, upper-case only, and fits the 20-character status column |
| `OrderStatusCodec.ParseStatus` | order/src/main/java/com/api/order/service/impl/OrderServiceImpl.java:178-185 | a string that parses is a case variant of the parsed status's name (soundness of `valueOf(toUpperCase)`) |
| `OrderStatusCodec.UpperMatchIsVariant` | order/src/main/java/com/api/order/service/impl/OrderServiceImpl.java:180 | a string whose upper-casing equals a name is a case variant of that name |
| `OrderStatusCodec.ParseCaseVariant` | order/src/main/java/com/api/order/service/impl/OrderServiceImpl.java:180 | case-insensitivity: every case variant of a status name parses to that status |
| `OrderStatusCodec.ParseName` | order/src/main/java/com/api/order/service/impl/OrderServiceImpl.java:142 | round trip: parsing the rendered name of a status yields that status |
| `OrderStatusCodec.ParseRejects` | order/src/main/java/com/api/order/service/impl/OrderServiceImpl.java:183-184 | a string is rejected exactly when it is a case variant of none of the seven names |
| `Numbers.ParseLong` | order/src/main/java/com/api/order/service/impl/OrderServiceImpl.java:154-159 | an accepted id lies within the range of a Java `long`, and apart from one leading sign consists of digits only |
| `Numbers.ParseLongShape` | order/src/main/java/com/api/order/service/impl/OrderServiceImpl.java:156 | converse round trip: an accepted id is an optional sign, leading zeros and the rendering of its magnitude, with `-` before every negative value and never before a positive one |
| `Numbers.ParseLongFormat` | order/src/main/java/com/api/order/service/impl/OrderServiceImpl.java:156 | round trip: every `long` is read back from its decimal rendering |
| `Numbers.ParseLongDigits` | order/src/main/java/com/api/order/service/impl/OrderServiceImpl.java:156 | completeness: an optional `+` or `-` followed by any digits, leading zeros included (`+5`, `007`), is accepted with their value whenever it fits a `long` |
| `Numbers.LongIsDecimal` | order/src/main/java/com/api/order/service/impl/OrderServiceImpl.java:188-195 | every string accepted as a `long` is accepted as a total amount, with the same value |
| `Numbers.ParseDecimal` | order/src/main/java/com/api/order/service/impl/OrderServiceImpl.java:190 | an accepted amount is non-empty, and it is negative only after a leading `-`, which never yields a positive value |
| `Numbers.ParseDecimalSign` | order/src/main/java/com/api/order/service/impl/OrderServiceImpl.java:190 | a leading `-` negates the unsigned reading, a leading `+` keeps it, and a `-` is accepted only before an acceptable unsigned significand |
| `Numbers.ParseDecimalShape` | order/src/main/java/com/api/order/service/impl/OrderServiceImpl.java:190-194 | after an optional sign, an accepted amount has only digits and at most one `.`, and at least one digit; any other character is refused with INVALID_AMOUNT |
| `Numbers.ParseDecimalWhole` | order/src/main/java/com/api/order/service/impl/OrderServiceImpl.java:190 | any non-empty digit string, leading zeros and values beyond a `long` included, is read as its value |
| `Numbers.ParseDecimalFraction` | order/src/main/java/com/api/order/service/impl/OrderServiceImpl.java:190 | `w.f` is read as w + f / 10^len(f) for any digit strings w and f, not both empty (so `.5` and `007.50` included) |
| `Numbers.ParseDecimalUnsigned` | order/src/main/java/com/api/order/service/impl/OrderServiceImpl.java:190 | a string with no leading sign is read exactly as its unsigned significand |
| `Requests.NotBlankIffVisible` | order/src/main/java/com/api/order/dto/req/ProductRequest.java:13 | a name passes `@NotBlank`, defined by `String.trim` leaving something, exactly when it holds a character above U+0020 |
| `Requests.ProductRequestValid` | order/src/main/java/com/api/order/dto/req/ProductRequest.java:10-19 | an item request is valid iff its name is present with a visible character, its quantity is present and at least 1, and its price is present and above 0 |
| `Requests.OrderRequestValid` | order/src/main/java/com/api/order/dto/req/OrderRequest.java:8-19 | an order request is valid iff its customer name is present with a visible character, its items are present and non-empty, its total is absent or above 0, and its time is present |
| `Requests.ItemBoundaries` | order/src/main/java/com/api/order/dto/req/ProductRequest.java:13-17 | a price of exactly 0, a quantity of 0 and a whitespace-only name are each refused |
| `Requests.AbsentAmountIsValid` | order/src/main/java/com/api/order/dto/req/OrderRequest.java:15-16 | a request with no total amount passes the declared constraints |
| `History.StatusHistory.SaveOrderStatusLogs` | order/src/main/java/com/api/order/service/impl/OrderServiceDetailServiceImpl.java:20-30 | appends exactly one row with the given order id, status, actor and note, stamped now, with the next id; earlier rows are unchanged |
| `History.LastStatusIsLatest` | order/src/main/java/com/api/order/service/OrderServiceDetailService.java:21-31 | the status found for an order is the one recorded by its latest row, and none is found exactly when no row is about it |
| `History.AuditedRowExists` | order/src/main/java/com/api/order/service/impl/OrderServiceImpl.java:83 | in an audited state every stored order has a history row recording its current status |
| `History.LastStatusAppend` | order/src/main/java/com/api/order/service/OrderServiceDetailService.java:29 | appending a row changes the latest recorded status of its own order and of no other |
| `History.AuditedAfterAppend` | order/src/main/java/com/api/order/service/impl/OrderServiceImpl.java:206-213 | storing an order together with a row recording its new status keeps the trail in agreement with the store |
| `History.AuditedAfterKeep` | order/src/main/java/com/api/order/service/impl/OrderServiceImpl.java:206 | storing an order whose status did not change keeps the trail in agreement without a row |
| `Store.ConsistentHistoryCoversStore` | order/src/main/java/com/api/order/service/impl/OrderServiceImpl.java:64-85 | in a consistent state an id has history rows exactly when it is stored, and a stored order has a row with its current status |
| `Store.OrderProducer.SendOrder` | order/src/main/java/com/api/order/mq/OrderProducer.java:15-18 | publishing appends exactly the order id to the outbox |
| `Service.BuildProducts` | order/src/main/java/com/api/order/service/impl/OrderServiceImpl.java:67-79 | one product per request item, in request order, with its name, quantity and price, no description, linked to the order, with consecutive ids |
| `Service.PlaceOrderRejection` | order/src/main/java/com/api/order/service/impl/OrderServiceImpl.java:49-97 | the only refusals are EMPTY_ORDER, INVALID_AMOUNT and ORDER_CREATION_FAILED; EMPTY_ORDER exactly for absent or empty items; INVALID_AMOUNT exactly when items are present and the total is absent or non-positive; a request is accepted exactly when there is no store fault, the name, time and items are present, the items are non-empty with every non-null column fillable, and the total is positive |
| `Service.MapToOrderResponse` | order/src/main/java/com/api/order/service/impl/OrderServiceImpl.java:126-144 | the view's status string parses back to the order's status, and it has one entry per item, in order, with the item's id and quantity |
| `Service.ResponseMirrorsOrder` | order/src/main/java/com/api/order/service/impl/OrderServiceImpl.java:126-144 | the view has the order's id, name, total and time, one item view per item in order with equal fields, and a status string that parses back to the order's status |
| `Service.CreatedViewMirrorsRequest` | order/src/main/java/com/api/order/service/OrderService.java:98-116 | the view of a created order lists the request items 1:1 in request order with their name, quantity and price |
| `Service.ValidItemInsertable` | order/src/main/java/com/api/order/entity/Product.java:23-32 | an item request meeting its declared constraints fills every non-null product column |
| `Service.ValidRequestOutcome` | order/src/main/java/com/api/order/service/impl/OrderServiceImpl.java:49-55 | a request meeting all declared constraints is refused only with INVALID_AMOUNT when its total is absent, or for a store failure |
| `Service.ItemConstraintsNotEnforced` | order/src/main/java/com/api/order/service/impl/OrderServiceImpl.java:67-79 | with a name, a time, a positive total and no store fault, any non-empty items whose non-null columns are filled are accepted, whatever their declared constraints say |
| `Service.UncheckedItemAccepted` | order/src/main/java/com/api/order/dto/req/OrderRequest.java:12-13 | an item with quantity 0 and a negative price violates the item constraints yet is accepted by placeOrder |
| `Service.OrderService.PlaceOrder` | order/src/main/java/com/api/order/service/impl/OrderServiceImpl.java:43-98 | EMPTY_ORDER before INVALID_AMOUNT before ORDER_CREATION_FAILED, with nothing written on failure; on success a new CREATED order with the request's fields and items under a fresh id, one CREATED "User" row, one event with the id, and the order's view returned |
| `Service.OrderService.GetOrderById` | order/src/main/java/com/api/order/service/impl/OrderServiceImpl.java:104-123 | returns the stored order for a known id and ORDER_NOT_FOUND otherwise, changing nothing |
| `Service.OrderService.GetOrderResponseById` | order/src/main/java/com/api/order/service/OrderService.java:118-137 | returns the view of the stored order for a known id and ORDER_NOT_FOUND otherwise, changing nothing |
| `Service.OrderService.FindByIdEntity` | order/src/main/java/com/api/order/service/impl/OrderServiceImpl.java:147-149 | finds an order exactly when the id is stored, and then the stored order |
| `Service.OrderService.UpdateOrder` | order/src/main/java/com/api/order/service/impl/OrderServiceImpl.java:151-214 | INVALID_ID_FORMAT, NO_UPDATE_FIELDS, ORDER_NOT_FOUND, INVALID_STATUS, INVALID_AMOUNT, NO_VALID_UPDATE_FIELDS in that order, with nothing changed; on success only the given recognised fields change, updatedAt is now, other orders are untouched, and one "User" row is appended iff the status key was given and changed the status |
| `Service.OrderService.SaveUpdated` | order/src/main/java/com/api/order/service/impl/OrderServiceImpl.java:201-213 | stores the updated order and appends the "User" row iff the status was given and differs from the old one |
| `Consumer.OrderConsumer.ConsumeOrder` | order/src/main/java/com/api/order/mq/OrderConsumer.java:21-40 | an unknown id or an interruption changes nothing; otherwise status becomes PROCESSING, notes and updatedAt are set, nothing else changes, and one "System" row is appended |
| `Scenarios.AliceScenario` | order/src/main/java/com/api/order/mq/OrderConsumer.java:24-32 | an order placed for Alice is viewed as CREATED with quantity 2, and after the worker runs as PROCESSING with history CREATED, PROCESSING |
| `Scenarios.BogusStatusScenario` | order/src/main/java/com/api/order/service/impl/OrderServiceImpl.java:178-185 | updating order 1 to status "bogus" fails with INVALID_STATUS and leaves its status and history as they were |
| `Scenarios.OnlyIdScenario` | order/src/main/java/com/api/order/service/impl/OrderServiceImpl.java:161-163 | an update carrying only the id fails with NO_UPDATE_FIELDS |
| `Scenarios.ShipScenario` | order/src/main/java/com/api/order/service/impl/OrderServiceImpl.java:178-182 | the lower-case status "shipped" is accepted and the change writes a second row |
| `Scenarios.SameStatusScenario` | order/src/main/java/com/api/order/service/impl/OrderServiceImpl.java:206 | setting the status to its current value, spelt "Created", succeeds and writes no row |
| `Scenarios.NegativeAmountScenario` | order/src/main/java/com/api/order/service/impl/OrderServiceImpl.java:188-195 | an update to total "-5" succeeds and stores -5 |
| `Scenarios.DuplicateDeliveryScenario` | order/src/main/java/com/api/order/mq/OrderConsumer.java:27-32 | delivering the same id twice leaves the order PROCESSING and writes one row per delivery |

## Left out

- The HTTP controller: routing, response wrapping, pagination defaults and its empty-map guard (`NO_UPDATE_PARAMS`); given an empty map, the service alone answers `INVALID_ID_FORMAT`.
- `getAllOrders`: paging is delegated to the persistence framework.
- The `ORDER_FETCH_FAILED` path of `getOrderById`: store failures on reads are not modelled.
- Store failures in `updateOrder` and `consumeOrder`. The consumer is not transactional, so a failed history insert after a saved status change would break `History.Audited`; that case is not modelled.
- Kafka: topic, serialisation, delivery, redelivery, and the worker seeing an event before the creating transaction commits. The producer is an append to the outbox sequence.
- The concurrent race between `updateOrder` and `consumeOrder`: each operation is atomic here.
- The two-second processing delay; an interruption is the `interrupted` input.
- Identity counters are rolled back with the rest on failure. A database may leave a gap instead. Overflow of the counters past the range of `long` is not modelled.
- A null element inside the items list cannot be written in the model, since `OrderRequest.items` holds plain item requests. In the source it makes the item mapping throw a NullPointerException, which the catch-all handler reports as `ORDER_CREATION_FAILED`.
- A broker-side publish failure, reported through the future that `kafkaTemplate.send` returns: nothing observes it, and publishing is always an append to the outbox here.
- Real clock values and logging; `now` is an input. `createdAt` comes from the database clock in the source and from `now` here.
- Column precision and scale of amounts (13, 2), the 32-bit width of `quantity`, and the `orderStatusDetails` back-collection on the order entity.
- `Numbers.ParseDecimal`: exponent notation accepted by `BigDecimal` (such as `1E+3`) and non-ASCII Unicode decimal digits (which `BigDecimal` reads through `Character.digit`) are rejected here, so such an amount gives `INVALID_AMOUNT` in the model.
- `Numbers.ParseLong`: only ASCII digits are read; Java also accepts other Unicode decimal digits.
- `OrderStatusCodec.ParseStatus`: upper-casing is ASCII only. Java's `toUpperCase` depends on the default locale and also maps characters such as `ı` to `I` and `ſ` to `S`. It can also change the length of a string: `ß` upper-cases to `SS`, so Java accepts `proceßing` as `PROCESSING` where the model rejects it. `OrderStatusCodec.ParseRejects` holds for the ASCII upper-casing only.
