/**
 * The entities of ShopEasy.Domain as values. Money is an exact count of cents
 * (the columns are decimal(10,2)); timestamps are opaque tick counts; EF Core
 * navigation properties are replaced by id lookups into the tables.
 */
module Domain {
  import opened Wrappers

  /** Exact money in cents. */
  type Money = int
  /** A point in time (a `DateTime` in ticks). */
  type Timestamp = int

  /** The range of a C# `int`: -2^31 up to 2^31 - 1. */
  const Int32Min: int := -0x8000_0000
  const Int32Modulus: int := 0x1_0000_0000

  predicate InInt32(x: int)
  {
    Int32Min <= x < Int32Min + Int32Modulus
  }

  /** A C# `int`. */
  type Int32 = x: int | -0x8000_0000 <= x < 0x8000_0000

  /** `a` and `b` are equal modulo 2^32. */
  ghost predicate Congruent32(a: int, b: int)
  {
    (a - b) % Int32Modulus == 0
  }

  /**
   * Unchecked C# `int` arithmetic: the exact result `x` brought into the
   * `int` range modulo 2^32 (two's-complement wrap-around).
   */
  function Wrap32(x: int): (r: Int32)
    ensures InInt32(x) ==> r == x
    ensures Congruent32(r, x)
  {
    (x - Int32Min) % Int32Modulus + Int32Min
  }

  /** Wrapping after each of two subtractions is wrapping once after both. */
  lemma Wrap32Sub(a: int, b: int)
    ensures Wrap32(Wrap32(a) - b) == Wrap32(a - b)
  {
  }

  /** The order lifecycle states, in declaration order (ShopEasy.Domain/Enums/OrderStatus.cs). */
  datatype OrderStatus = Pending | Confirmed | Shipped | Delivered | Cancelled

  /** `status.ToString()`: the enum member's name. */
  function StatusName(s: OrderStatus): string
  {
    match s
    case Pending => "Pending"
    case Confirmed => "Confirmed"
    case Shipped => "Shipped"
    case Delivered => "Delivered"
    case Cancelled => "Cancelled"
  }

  /** The enum's underlying integer value. */
  function Ordinal(s: OrderStatus): nat
  {
    match s
    case Pending => 0
    case Confirmed => 1
    case Shipped => 2
    case Delivered => 3
    case Cancelled => 4
  }

  /** A catalog product; only `stockQuantity` is changed by the core. */
  datatype Product = Product(
    productId: int,
    name: string,
    description: Option<string>,
    price: Money,
    stockQuantity: Int32,
    category: string,
    isActive: bool,
    createdAt: Timestamp)

  datatype Customer = Customer(
    customerId: int,
    fullName: string,
    email: string,
    createdAt: Timestamp)

  /** One line of an order, with the unit price snapshotted at creation. */
  datatype OrderItem = OrderItem(
    orderItemId: int,
    orderId: int,
    productId: int,
    quantity: Int32,
    unitPrice: Money)
  {
    /** The computed, never-stored line total. */
    function LineTotal(): (r: Money)
      ensures quantity == 0 ==> r == 0
      ensures quantity == 1 ==> r == unitPrice
      ensures quantity > 0 && unitPrice >= 0 ==> r >= unitPrice
    {
      quantity * unitPrice
    }
  }

  datatype Order = Order(
    orderId: int,
    customerId: int,
    orderDate: Timestamp,
    status: OrderStatus,
    totalAmount: Money,
    shippingAddress: string,
    notes: Option<string>,
    items: seq<OrderItem>)

  /** The sum of the line totals, accumulated first line first. */
  function SumLineTotals(items: seq<OrderItem>): Money
  {
    if items == [] then 0
    else SumLineTotals(items[..|items| - 1]) + items[|items| - 1].LineTotal()
  }

  /** Primary keys: no two products share an id. */
  ghost predicate UniqueProductIds(ps: seq<Product>)
  {
    forall i, j :: 0 <= i < j < |ps| ==> ps[i].productId != ps[j].productId
  }

  ghost predicate UniqueCustomerIds(cs: seq<Customer>)
  {
    forall i, j :: 0 <= i < j < |cs| ==> cs[i].customerId != cs[j].customerId
  }

  ghost predicate UniqueOrderIds(os: seq<Order>)
  {
    forall i, j :: 0 <= i < j < |os| ==> os[i].orderId != os[j].orderId
  }

  /** `Products.FirstOrDefault(p => p.ProductId == id)`, with no `IsActive` filter. */
  function FindProduct(ps: seq<Product>, id: int): (r: Option<Product>)
    ensures r.None? ==> forall k :: 0 <= k < |ps| ==> ps[k].productId != id
    ensures r.Some? ==> r.value in ps && r.value.productId == id
  {
    if ps == [] then None
    else if ps[0].productId == id then Some(ps[0])
    else FindProduct(ps[1..], id)
  }

  /** `Customers.FirstOrDefault(c => c.CustomerId == id)`. */
  function FindCustomer(cs: seq<Customer>, id: int): (r: Option<Customer>)
    ensures r.None? <==> forall k :: 0 <= k < |cs| ==> cs[k].customerId != id
    ensures r.Some? ==> r.value in cs && r.value.customerId == id
  {
    if cs == [] then None
    else if cs[0].customerId == id then Some(cs[0])
    else FindCustomer(cs[1..], id)
  }

  /** In a table with unique keys the lookup finds the one row holding the key. */
  lemma {:induction false} FindProductUnique(ps: seq<Product>, k: nat)
    requires UniqueProductIds(ps)
    requires k < |ps|
    ensures FindProduct(ps, ps[k].productId) == Some(ps[k])
  {
    if k > 0 {
      FindProductUnique(ps[1..], k - 1);
    }
  }

  lemma {:induction false} FindCustomerUnique(cs: seq<Customer>, k: nat)
    requires UniqueCustomerIds(cs)
    requires k < |cs|
    ensures FindCustomer(cs, cs[k].customerId) == Some(cs[k])
  {
    if k > 0 {
      FindCustomerUnique(cs[1..], k - 1);
    }
  }
}
