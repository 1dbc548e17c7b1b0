/**
 * The persisted records: an order, its line items and its status-history
 * rows. A column declared `nullable = false` has a plain type, and so do the
 * nullable columns that are never null once a row is stored: the generated
 * ids, the product's link to its order (set when the item is built), the
 * order's `status` (every modelled write sets it to a fixed or parsed status)
 * and its `createdAt` (filled by the database default on insertion). Every
 * other nullable column has an Option type.
 */
module Entities {
  import opened Wrappers
  import opened OrderStatusCodec

  /** A point in time (timestamps and offset date-times alike). */
  type Time = int

  /** A line item; `orderId` is the `order_fk_id` link to its owning order. */
  datatype Product = Product(
    id: int,
    name: string,
    description: Option<string>,
    quantity: int,
    price: real,
    orderId: int)

  /**
   * An order. `createdAt` is filled in by the database default when the row
   * is inserted; the application never writes it.
   */
  datatype Order = Order(
    id: int,
    customerName: string,
    items: seq<Product>,
    totalAmount: real,
    orderTime: Time,
    status: OrderStatus,
    createdAt: Time,
    updatedAt: Option<Time>,
    notes: Option<string>)

  /** One row of the status audit trail; `orderId` is its required order reference. */
  datatype StatusDetail = StatusDetail(
    id: int,
    orderId: int,
    status: OrderStatus,
    updatedBy: Option<string>,
    updatedAt: Time,
    notes: Option<string>)
}
