/**
 * The read side of OrderService: `MapToDto` and the three order queries.
 * Eager-loaded navigation properties (`Include(o => o.Customer)`,
 * `ThenInclude(i => i.Product)`) become id lookups into the customer and
 * product tables, with the "Unknown" placeholder when a row is missing.
 */
module OrderProjection {
  import opened Wrappers
  import opened Sorting
  import opened Domain
  import opened Dtos

  const UnknownName: string := "Unknown"

  /** `item.Product?.Name ?? "Unknown"`. */
  function ProductNameOrUnknown(ps: seq<Product>, id: int): string
  {
    match FindProduct(ps, id)
    case Some(p) => p.name
    case None => UnknownName
  }

  /** `customer?.FullName ?? "Unknown"`. */
  function CustomerNameOrUnknown(cs: seq<Customer>, id: int): string
  {
    match FindCustomer(cs, id)
    case Some(c) => c.fullName
    case None => UnknownName
  }

  function ItemToDto(item: OrderItem, ps: seq<Product>): OrderItemDto
  {
    OrderItemDto(ProductNameOrUnknown(ps, item.productId), item.quantity, item.unitPrice, item.LineTotal())
  }

  /** `order.Items.Select(...)`: one item DTO per item, in item order. */
  function ItemDtos(items: seq<OrderItem>, ps: seq<Product>): seq<OrderItemDto>
  {
    seq(|items|, j requires 0 <= j < |items| => ItemToDto(items[j], ps))
  }

  /** `MapToDto(order, customerName)`. */
  function MapToDto(order: Order, customerName: string, ps: seq<Product>): OrderDto
  {
    OrderDto(order.orderId, customerName, order.orderDate, StatusName(order.status), order.totalAmount,
             ItemDtos(order.items, ps))
  }

  /**
   * The projection copies the order's header, shows the status by name, and
   * shows one item per line, in line order, with the line's quantity and
   * snapshotted price, quantity times price as line total, and the name of
   * the product row with that id, or "Unknown" when there is none.
   */
  lemma MapToDtoFields(order: Order, customerName: string, ps: seq<Product>)
    ensures var r := MapToDto(order, customerName, ps);
      && r.orderId == order.orderId && r.customerName == customerName && r.orderDate == order.orderDate
      && r.status == StatusName(order.status) && r.totalAmount == order.totalAmount
      && |r.items| == |order.items|
      && (forall j :: 0 <= j < |order.items| ==>
           && r.items[j].quantity == order.items[j].quantity
           && r.items[j].unitPrice == order.items[j].unitPrice
           && r.items[j].lineTotal == order.items[j].quantity * order.items[j].unitPrice)
      && (forall j :: 0 <= j < |order.items| ==>
           r.items[j].productName == if FindProduct(ps, order.items[j].productId).Some?
                                     then FindProduct(ps, order.items[j].productId).value.name
                                     else UnknownName)
  {
  }

  /** Two product tables that agree on every row's id and name. */
  ghost predicate SameIdsAndNames(ps: seq<Product>, qs: seq<Product>)
  {
    && |ps| == |qs|
    && forall k :: 0 <= k < |ps| ==> ps[k].productId == qs[k].productId && ps[k].name == qs[k].name
  }

  lemma {:induction false} ProductNameSameTables(ps: seq<Product>, qs: seq<Product>, id: int)
    requires SameIdsAndNames(ps, qs)
    ensures ProductNameOrUnknown(ps, id) == ProductNameOrUnknown(qs, id)
    decreases |ps|
  {
    if ps != [] && ps[0].productId != id {
      ProductNameSameTables(ps[1..], qs[1..], id);
    }
  }

  /**
   * Price snapshots: changing any product's live price or stock after the
   * order was placed leaves the order's projection unchanged.
   */
  lemma ProjectionIgnoresLivePrices(order: Order, customerName: string, ps: seq<Product>, qs: seq<Product>)
    requires SameIdsAndNames(ps, qs)
    ensures MapToDto(order, customerName, ps) == MapToDto(order, customerName, qs)
  {
    forall j | 0 <= j < |order.items|
      ensures ItemToDto(order.items[j], ps) == ItemToDto(order.items[j], qs)
    {
      ProductNameSameTables(ps, qs, order.items[j].productId);
    }
  }

  /** The sum of the projected line totals. */
  function SumDtoLineTotals(items: seq<OrderItemDto>): Money
  {
    if items == [] then 0
    else SumDtoLineTotals(items[..|items| - 1]) + items[|items| - 1].lineTotal
  }

  lemma {:induction false} SumLineTotalsProjected(items: seq<OrderItem>, ps: seq<Product>)
    ensures SumDtoLineTotals(ItemDtos(items, ps)) == SumLineTotals(items)
    decreases |items|
  {
    if items != [] {
      var n := |items| - 1;
      assert ItemDtos(items, ps)[..n] == ItemDtos(items[..n], ps);
      SumLineTotalsProjected(items[..n], ps);
    }
  }

  /** A projected order whose total is the sum of its lines shows a total equal to the sum of the shown line totals. */
  lemma ProjectedTotalMatchesLines(order: Order, customerName: string, ps: seq<Product>)
    requires order.totalAmount == SumLineTotals(order.items)
    ensures MapToDto(order, customerName, ps).totalAmount == SumDtoLineTotals(MapToDto(order, customerName, ps).items)
  {
    SumLineTotalsProjected(order.items, ps);
  }

  /** `MapToDto(o, o.Customer.FullName)` as a function value, for `Select`. */
  function OrderViewer(cs: seq<Customer>, ps: seq<Product>): Order -> OrderDto
  {
    (o: Order) => MapToDto(o, CustomerNameOrUnknown(cs, o.customerId), ps)
  }

  /** `FirstOrDefault(o => o.OrderId == orderId)`: the index of the first order with that id. */
  function FindOrderIndex(os: seq<Order>, id: int): (r: Option<nat>)
    ensures r.None? <==> forall k :: 0 <= k < |os| ==> os[k].orderId != id
    ensures r.Some? ==> r.value < |os| && os[r.value].orderId == id
    ensures r.Some? ==> forall k :: 0 <= k < r.value ==> os[k].orderId != id
  {
    if os == [] then None
    else if os[0].orderId == id then Some(0)
    else match FindOrderIndex(os[1..], id)
      case None => None
      case Some(k) => Some(k + 1)
  }

  lemma FindOrderIndexUnique(os: seq<Order>, k: nat)
    requires UniqueOrderIds(os)
    requires k < |os|
    ensures FindOrderIndex(os, os[k].orderId) == Some(k)
  {
  }

  /** `GetOrderByIdAsync`: the projected order with that id, or null. */
  function GetOrderById(os: seq<Order>, cs: seq<Customer>, ps: seq<Product>, id: int): (r: Option<OrderDto>)
    ensures r.None? <==> forall k :: 0 <= k < |os| ==> os[k].orderId != id
    ensures r.Some? ==> r.value.orderId == id
    ensures r.Some? ==> exists k :: 0 <= k < |os| && os[k].orderId == id && r.value == OrderViewer(cs, ps)(os[k])
  {
    match FindOrderIndex(os, id)
    case None => None
    case Some(k) => Some(OrderViewer(cs, ps)(os[k]))
  }

  /** With unique keys, every stored order is found under its own id. */
  lemma GetOrderByIdOfStored(os: seq<Order>, cs: seq<Customer>, ps: seq<Product>, k: nat)
    requires UniqueOrderIds(os) && k < |os|
    ensures GetOrderById(os, cs, ps, os[k].orderId) == Some(MapToDto(os[k], CustomerNameOrUnknown(cs, os[k].customerId), ps))
  {
    FindOrderIndexUnique(os, k);
  }

  /** With unique keys, the order stored under an id is found, named after its customer. */
  lemma GetOrderByIdOfRow(os: seq<Order>, cs: seq<Customer>, ps: seq<Product>, k: nat, c: nat)
    requires UniqueOrderIds(os) && UniqueCustomerIds(cs)
    requires k < |os| && c < |cs| && cs[c].customerId == os[k].customerId
    ensures GetOrderById(os, cs, ps, os[k].orderId) == Some(MapToDto(os[k], cs[c].fullName, ps))
  {
    FindOrderIndexUnique(os, k);
    FindCustomerUnique(cs, c);
  }

  /** `Where(o => o.CustomerId == customerId)`. */
  function OrdersOfCustomer(os: seq<Order>, customerId: int): (r: seq<Order>)
    ensures forall o :: o in r <==> o in os && o.customerId == customerId
    ensures (forall k :: 0 <= k < |os| ==> os[k].customerId != customerId) ==> r == []
  {
    if os == [] then []
    else (if os[0].customerId == customerId then [os[0]] else []) + OrdersOfCustomer(os[1..], customerId)
  }

  /** `OrderByDescending(o => o.OrderDate)`. */
  predicate NewestFirst(a: Order, b: Order)
  {
    a.orderDate >= b.orderDate
  }

  lemma NewestFirstIsTotalPreorder()
    ensures TotalPreorder(NewestFirst)
  {
  }

  /** `GetOrdersByCustomerAsync`: that customer's orders, newest first, projected. */
  function GetOrdersByCustomer(os: seq<Order>, cs: seq<Customer>, ps: seq<Product>, customerId: int): (r: seq<OrderDto>)
    ensures multiset(r) == multiset(SeqMap(OrderViewer(cs, ps), OrdersOfCustomer(os, customerId)))
    ensures forall i, j :: 0 <= i < j < |r| ==> r[i].orderDate >= r[j].orderDate
    ensures (forall k :: 0 <= k < |os| ==> os[k].customerId != customerId) ==> r == []
  {
    var mine := OrdersOfCustomer(os, customerId);
    var sorted := SortBy(mine, NewestFirst);
    NewestFirstIsTotalPreorder();
    SortBySorted(mine, NewestFirst);
    SeqMapPermutation(OrderViewer(cs, ps), sorted, mine);
    SeqMap(OrderViewer(cs, ps), sorted)
  }

  /** Exactly the projections of the customer's own orders are listed. */
  lemma GetOrdersByCustomerContents(os: seq<Order>, cs: seq<Customer>, ps: seq<Product>, customerId: int, d: OrderDto)
    ensures d in GetOrdersByCustomer(os, cs, ps, customerId) <==>
      exists o :: o in os && o.customerId == customerId && d == OrderViewer(cs, ps)(o)
  {
    var r := GetOrdersByCustomer(os, cs, ps, customerId);
    var views := SeqMap(OrderViewer(cs, ps), OrdersOfCustomer(os, customerId));
    assert d in r <==> d in views by {
      assert d in r <==> d in multiset(r);
      assert d in views <==> d in multiset(views);
    }
    SeqMapContains(OrderViewer(cs, ps), OrdersOfCustomer(os, customerId), d);
  }

  /** `GetAllOrdersAsync`: every order, newest first, projected. */
  function GetAllOrders(os: seq<Order>, cs: seq<Customer>, ps: seq<Product>): (r: seq<OrderDto>)
    ensures |r| == |os|
    ensures multiset(r) == multiset(SeqMap(OrderViewer(cs, ps), os))
    ensures forall i, j :: 0 <= i < j < |r| ==> r[i].orderDate >= r[j].orderDate
  {
    var sorted := SortBy(os, NewestFirst);
    NewestFirstIsTotalPreorder();
    SortBySorted(os, NewestFirst);
    SeqMapPermutation(OrderViewer(cs, ps), sorted, os);
    SeqMap(OrderViewer(cs, ps), sorted)
  }
}
