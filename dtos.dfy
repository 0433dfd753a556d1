/** The records of ShopEasy.Application/DTOs: what the services return and accept. */
module Dtos {
  import opened Wrappers
  import opened Domain

  datatype ProductDto = ProductDto(
    productId: int,
    name: string,
    description: Option<string>,
    price: Money,
    stockQuantity: Int32,
    category: string)

  datatype CustomerDto = CustomerDto(
    customerId: int,
    fullName: string,
    email: string,
    createdAt: Timestamp)

  datatype OrderItemDto = OrderItemDto(
    productName: string,
    quantity: Int32,
    unitPrice: Money,
    lineTotal: Money)

  datatype OrderDto = OrderDto(
    orderId: int,
    customerName: string,
    orderDate: Timestamp,
    status: string,
    totalAmount: Money,
    items: seq<OrderItemDto>)

  datatype CreateOrderItemDto = CreateOrderItemDto(productId: int, quantity: Int32)

  datatype CreateOrderDto = CreateOrderDto(
    customerId: int,
    shippingAddress: string,
    notes: Option<string>,
    items: seq<CreateOrderItemDto>)
}
