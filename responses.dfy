/** The read views returned to callers. */
module Responses {
  import opened Entities

  datatype ProductResponse = ProductResponse(id: int, name: string, qty: int, price: real)

  datatype OrderResponse = OrderResponse(
    id: int,
    customerName: string,
    items: seq<ProductResponse>,
    totalAmount: real,
    orderTime: Time,
    status: string)
}
