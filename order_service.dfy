/**
 * The write side of OrderService over an in-memory store: order creation
 * (batch product fetch, missing-id check, price snapshot, running total,
 * in-place stock decrement) and status updates through the lifecycle table.
 * Each call is one atomic step; `SaveChangesAsync` is the end of the method.
 */
module OrderService {
  import opened Wrappers
  import opened Sorting
  import opened Domain
  import opened Dtos
  import opened OrderLifecycle
  import opened OrderProjection

  /**
   * The service's failures: the first two are `KeyNotFoundException`s, the
   * third an `InvalidOperationException`; each carries the values its message names.
   */
  datatype OrderError =
    | ProductsNotFound(productIds: seq<int>)
    | OrderNotFound(orderId: int)
    | InvalidTransition(currentStatus: string, requestedStatus: string)

  /** `dto.Items.Select(item => item.ProductId)`: duplicates kept, request order. */
  function RequestedProductIds(lines: seq<CreateOrderItemDto>): seq<int>
  {
    seq(|lines|, j requires 0 <= j < |lines| => lines[j].productId)
  }

  /** `Products.Where(p => requestedProductIds.Contains(p.ProductId))`: no `IsActive` filter. */
  function FetchProducts(ps: seq<Product>, ids: seq<int>): (r: seq<Product>)
    ensures forall p :: p in r <==> p in ps && p.productId in ids
  {
    if ps == [] then []
    else (if ps[0].productId in ids then [ps[0]] else []) + FetchProducts(ps[1..], ids)
  }

  /** `products.Select(p => p.ProductId).ToHashSet()`. */
  function FoundIds(fetched: seq<Product>): set<int>
  {
    set p | p in fetched :: p.productId
  }

  /** `requestedProductIds.Where(id => !foundProductIds.Contains(id))`. */
  function MissingIds(ids: seq<int>, found: set<int>): seq<int>
  {
    if ids == [] then []
    else (if ids[0] !in found then [ids[0]] else []) + MissingIds(ids[1..], found)
  }

  /** Reference definition: the id of every request line whose product is not in the table, line by line. */
  function UnknownProductIds(ps: seq<Product>, lines: seq<CreateOrderItemDto>): (r: seq<int>)
    ensures r == [] <==> forall j :: 0 <= j < |lines| ==> FindProduct(ps, lines[j].productId).Some?
    ensures forall id :: id in r <==>
      (exists j :: 0 <= j < |lines| && lines[j].productId == id) && FindProduct(ps, id).None?
  {
    if lines == [] then []
    else
      var rest := UnknownProductIds(ps, lines[1..]);
      assert forall id :: id in rest <==>
        (exists j :: 1 <= j < |lines| && lines[j].productId == id) && FindProduct(ps, id).None? by {
        forall id
          ensures id in rest <==> (exists j :: 1 <= j < |lines| && lines[j].productId == id) && FindProduct(ps, id).None?
        {
          if exists j :: 1 <= j < |lines| && lines[j].productId == id {
            var j :| 1 <= j < |lines| && lines[j].productId == id;
            assert lines[1..][j - 1] == lines[j];
          }
          if id in rest {
            var j :| 0 <= j < |lines[1..]| && lines[1..][j].productId == id;
            assert lines[j + 1] == lines[1..][j];
          }
        }
      }
      (if FindProduct(ps, lines[0].productId).None? then [lines[0].productId] else []) + rest
  }

  /** The ids the creation path reports missing, computed as the service does: one batch fetch, then a set difference in request order. */
  function MissingProductIds(ps: seq<Product>, lines: seq<CreateOrderItemDto>): seq<int>
  {
    var ids := RequestedProductIds(lines);
    MissingIds(ids, FoundIds(FetchProducts(ps, ids)))
  }

  lemma {:induction false} MissingIdsPerLine(ps: seq<Product>, lines: seq<CreateOrderItemDto>, found: set<int>)
    requires forall j :: 0 <= j < |lines| ==> (lines[j].productId in found <==> FindProduct(ps, lines[j].productId).Some?)
    ensures MissingIds(RequestedProductIds(lines), found) == UnknownProductIds(ps, lines)
    decreases |lines|
  {
    if lines != [] {
      assert RequestedProductIds(lines)[1..] == RequestedProductIds(lines[1..]);
      MissingIdsPerLine(ps, lines[1..], found);
    }
  }

  /** The batch fetch reports exactly the unknown ids of the request, in request order, repeats included. */
  lemma MissingProductIdsAreUnknownIds(ps: seq<Product>, lines: seq<CreateOrderItemDto>)
    ensures MissingProductIds(ps, lines) == UnknownProductIds(ps, lines)
  {
    var ids := RequestedProductIds(lines);
    var found := FoundIds(FetchProducts(ps, ids));
    forall j | 0 <= j < |lines|
      ensures lines[j].productId in found <==> FindProduct(ps, lines[j].productId).Some?
    {
      var id := lines[j].productId;
      assert id == ids[j];
      if FindProduct(ps, id).Some? {
        assert FindProduct(ps, id).value in FetchProducts(ps, ids);
      }
    }
    MissingIdsPerLine(ps, lines, found);
  }

  /** An empty missing-id list means every line names a product of the table. */
  lemma NoMissingMeansAllFound(ps: seq<Product>, lines: seq<CreateOrderItemDto>)
    requires MissingProductIds(ps, lines) == []
    ensures forall j :: 0 <= j < |lines| ==> FindProduct(ps, lines[j].productId).Some?
  {
    MissingProductIdsAreUnknownIds(ps, lines);
  }

  /** `products.ToDictionary(p => p.ProductId)` over the fetched rows: each fetched id to its row index. */
  function ProductLookup(ps: seq<Product>, ids: seq<int>): (m: map<int, nat>)
    requires UniqueProductIds(ps)
    ensures forall id :: id in m ==> m[id] < |ps| && ps[m[id]].productId == id
    ensures forall j :: 0 <= j < |ids| && FindProduct(ps, ids[j]).Some? ==> ids[j] in m
  {
    var m := map k | 0 <= k < |ps| && ps[k].productId in ids :: ps[k].productId := k;
    assert forall j :: 0 <= j < |ids| && FindProduct(ps, ids[j]).Some? ==> ids[j] in m by {
      forall j | 0 <= j < |ids| && FindProduct(ps, ids[j]).Some?
        ensures ids[j] in m
      {
        var k :| 0 <= k < |ps| && ps[k] == FindProduct(ps, ids[j]).value;
      }
    }
    m
  }

  /** The price the item of a line snapshots. */
  function PriceOf(ps: seq<Product>, id: int): (r: Money)
    ensures FindProduct(ps, id).Some? ==> r == FindProduct(ps, id).value.price
  {
    match FindProduct(ps, id)
    case Some(p) => p.price
    case None => 0  // not reached: the creation path stops before pricing an unknown id
  }

  /**
   * `product.StockQuantity -= line.Quantity` on the row the line names: unchecked
   * `int` subtraction, with no lower bound and wrap-around at the `int` range.
   */
  function DecrementOne(ps: seq<Product>, line: CreateOrderItemDto): (r: seq<Product>)
    ensures |r| == |ps|
  {
    seq(|ps|, k requires 0 <= k < |ps| =>
      if ps[k].productId == line.productId
      then ps[k].(stockQuantity := Wrap32(ps[k].stockQuantity - line.quantity))
      else ps[k])
  }

  /** The product table after the decrements of the given lines, first line first. */
  function StockAfter(ps: seq<Product>, lines: seq<CreateOrderItemDto>): (r: seq<Product>)
    ensures |r| == |ps|
  {
    if lines == [] then ps
    else DecrementOne(StockAfter(ps, lines[..|lines| - 1]), lines[|lines| - 1])
  }

  /** Reference: the total quantity the lines order of product `id`, each line counted. */
  function QuantityOrdered(lines: seq<CreateOrderItemDto>, id: int): int
  {
    if lines == [] then 0
    else QuantityOrdered(lines[..|lines| - 1], id)
         + (if lines[|lines| - 1].productId == id then lines[|lines| - 1].quantity else 0)
  }

  /** Lines none of which names `id` order nothing of it. */
  lemma {:induction false} NothingOrderedOfUnnamed(lines: seq<CreateOrderItemDto>, id: int)
    requires forall j :: 0 <= j < |lines| ==> lines[j].productId != id
    ensures QuantityOrdered(lines, id) == 0
    decreases |lines|
  {
    if lines != [] {
      NothingOrderedOfUnnamed(lines[..|lines| - 1], id);
    }
  }

  /**
   * Every row's stock drops by the summed quantity of the lines naming it,
   * wrapped once into the `int` range (so rows no line names are unchanged,
   * and the drop is exact whenever the exact result is an `int`); nothing
   * else in the row changes.
   */
  lemma {:induction false} StockAfterPerProduct(ps: seq<Product>, lines: seq<CreateOrderItemDto>, k: nat)
    requires k < |ps|
    ensures StockAfter(ps, lines)[k]
         == ps[k].(stockQuantity := Wrap32(ps[k].stockQuantity - QuantityOrdered(lines, ps[k].productId)))
    ensures InInt32(ps[k].stockQuantity - QuantityOrdered(lines, ps[k].productId)) ==>
      StockAfter(ps, lines)[k].stockQuantity == ps[k].stockQuantity - QuantityOrdered(lines, ps[k].productId)
    decreases |lines|
  {
    if lines != [] {
      var n := |lines| - 1;
      StockAfterPerProduct(ps, lines[..n], k);
      if lines[n].productId == ps[k].productId {
        Wrap32Sub(ps[k].stockQuantity - QuantityOrdered(lines[..n], ps[k].productId), lines[n].quantity);
      }
    }
  }

  /** A row whose product no line names comes out of the decrements unchanged. */
  lemma UnnamedRowUnchanged(ps: seq<Product>, lines: seq<CreateOrderItemDto>, k: nat)
    requires k < |ps|
    requires forall j :: 0 <= j < |lines| ==> lines[j].productId != ps[k].productId
    ensures StockAfter(ps, lines)[k] == ps[k]
  {
    NothingOrderedOfUnnamed(lines, ps[k].productId);
    StockAfterPerProduct(ps, lines, k);
  }

  /** The decrements touch only stock quantities, so the table keeps its ids in place. */
  lemma StockAfterKeepsIds(ps: seq<Product>, lines: seq<CreateOrderItemDto>)
    requires UniqueProductIds(ps)
    ensures forall k :: 0 <= k < |ps| ==> StockAfter(ps, lines)[k].productId == ps[k].productId
    ensures UniqueProductIds(StockAfter(ps, lines))
  {
    forall k | 0 <= k < |ps|
      ensures StockAfter(ps, lines)[k].productId == ps[k].productId
    {
      StockAfterPerProduct(ps, lines, k);
    }
  }

  /** The sum of all stock quantities of a table. */
  function TotalStock(ps: seq<Product>): int
  {
    if ps == [] then 0 else ps[0].stockQuantity + TotalStock(ps[1..])
  }

  /** The sum of all ordered quantities. */
  function TotalQuantity(lines: seq<CreateOrderItemDto>): int
  {
    if lines == [] then 0 else TotalQuantity(lines[..|lines| - 1]) + lines[|lines| - 1].quantity
  }

  /** The quantities the lines order of the table's rows, summed row by row. */
  function OrderedOfRows(ps: seq<Product>, lines: seq<CreateOrderItemDto>): int
  {
    if ps == [] then 0 else QuantityOrdered(lines, ps[0].productId) + OrderedOfRows(ps[1..], lines)
  }

  /** The last line adds its quantity to the row sum once if some row has its product, else not at all. */
  lemma {:induction false} OrderedOfRowsLast(ps: seq<Product>, lines: seq<CreateOrderItemDto>)
    requires UniqueProductIds(ps)
    requires lines != []
    ensures var last := lines[|lines| - 1];
      OrderedOfRows(ps, lines)
      == OrderedOfRows(ps, lines[..|lines| - 1]) + (if FindProduct(ps, last.productId).Some? then last.quantity else 0)
    decreases |ps|
  {
    if ps != [] {
      OrderedOfRowsLast(ps[1..], lines);
      if ps[0].productId == lines[|lines| - 1].productId {
        assert FindProduct(ps[1..], ps[0].productId).None?;
      }
    }
  }

  /** With unique ids and every line found, the row sum counts every line exactly once. */
  lemma {:induction false} OrderedOfRowsTotal(ps: seq<Product>, lines: seq<CreateOrderItemDto>)
    requires UniqueProductIds(ps)
    requires forall j :: 0 <= j < |lines| ==> FindProduct(ps, lines[j].productId).Some?
    ensures OrderedOfRows(ps, lines) == TotalQuantity(lines)
    decreases |lines|
  {
    if lines != [] {
      OrderedOfRowsTotal(ps, lines[..|lines| - 1]);
      OrderedOfRowsLast(ps, lines);
    } else {
      NothingOrderedOfRows(ps);
    }
  }

  lemma {:induction false} NothingOrderedOfRows(ps: seq<Product>)
    ensures OrderedOfRows(ps, []) == 0
    decreases |ps|
  {
    if ps != [] {
      NothingOrderedOfRows(ps[1..]);
    }
  }

  /** A table whose every row holds its wrapped decremented stock totals, modulo 2^32, to the decremented total. */
  lemma {:induction false} TotalStockCongruent(t: seq<Product>, ps: seq<Product>, lines: seq<CreateOrderItemDto>)
    requires |t| == |ps|
    requires forall k :: 0 <= k < |ps| ==>
      t[k].stockQuantity == Wrap32(ps[k].stockQuantity - QuantityOrdered(lines, ps[k].productId))
    ensures Congruent32(TotalStock(t), TotalStock(ps) - OrderedOfRows(ps, lines))
    decreases |ps|
  {
    if ps != [] {
      TotalStockCongruent(t[1..], ps[1..], lines);
    }
  }

  /** A table whose every row holds exactly its decremented stock totals to exactly the decremented total. */
  lemma {:induction false} TotalStockExact(t: seq<Product>, ps: seq<Product>, lines: seq<CreateOrderItemDto>)
    requires |t| == |ps|
    requires forall k :: 0 <= k < |ps| ==>
      t[k].stockQuantity == ps[k].stockQuantity - QuantityOrdered(lines, ps[k].productId)
    ensures TotalStock(t) == TotalStock(ps) - OrderedOfRows(ps, lines)
    decreases |ps|
  {
    if ps != [] {
      TotalStockExact(t[1..], ps[1..], lines);
    }
  }

  /**
   * Stock is conserved modulo 2^32: when every line names a product of a
   * table with unique ids, the table's total stock drops by the total
   * ordered, up to the wrap-arounds of the `int` stock column.
   */
  lemma StockConservedModulo(ps: seq<Product>, lines: seq<CreateOrderItemDto>)
    requires UniqueProductIds(ps)
    requires forall j :: 0 <= j < |lines| ==> FindProduct(ps, lines[j].productId).Some?
    ensures Congruent32(TotalStock(StockAfter(ps, lines)), TotalStock(ps) - TotalQuantity(lines))
  {
    var t := StockAfter(ps, lines);
    assert Congruent32(TotalStock(t), TotalStock(ps) - OrderedOfRows(ps, lines)) by {
      StockAfterRows(ps, lines);
      TotalStockCongruent(t, ps, lines);
    }
    OrderedOfRowsTotal(ps, lines);
  }

  /** Every row of the decremented table holds its old stock minus what the lines order of it, wrapped. */
  lemma StockAfterRows(ps: seq<Product>, lines: seq<CreateOrderItemDto>)
    ensures forall k :: 0 <= k < |ps| ==>
      StockAfter(ps, lines)[k].stockQuantity == Wrap32(ps[k].stockQuantity - QuantityOrdered(lines, ps[k].productId))
  {
    forall k | 0 <= k < |ps|
      ensures StockAfter(ps, lines)[k].stockQuantity == Wrap32(ps[k].stockQuantity - QuantityOrdered(lines, ps[k].productId))
    {
      StockAfterPerProduct(ps, lines, k);
    }
  }

  /**
   * Stock is conserved exactly: when every line names a product of a table
   * with unique ids and no product's stock leaves the `int` range, the
   * table's total stock drops by exactly the total ordered.
   */
  lemma StockConserved(ps: seq<Product>, lines: seq<CreateOrderItemDto>)
    requires UniqueProductIds(ps)
    requires forall j :: 0 <= j < |lines| ==> FindProduct(ps, lines[j].productId).Some?
    ensures (forall k :: 0 <= k < |ps| ==> InInt32(ps[k].stockQuantity - QuantityOrdered(lines, ps[k].productId)))
      ==> TotalStock(StockAfter(ps, lines)) == TotalStock(ps) - TotalQuantity(lines)
  {
    var t := StockAfter(ps, lines);
    if forall k :: 0 <= k < |ps| ==> InInt32(ps[k].stockQuantity - QuantityOrdered(lines, ps[k].productId)) {
      forall k | 0 <= k < |ps|
        ensures t[k].stockQuantity == ps[k].stockQuantity - QuantityOrdered(lines, ps[k].productId)
      {
        StockAfterPerProduct(ps, lines, k);
      }
      OrderedOfRowsTotal(ps, lines);
      TotalStockExact(t, ps, lines);
    }
  }

  /** With unique ids, decrementing by id is an update of the one row holding the id. */
  lemma DecrementOneAt(ps: seq<Product>, k: nat, line: CreateOrderItemDto)
    requires UniqueProductIds(ps)
    requires k < |ps| && ps[k].productId == line.productId
    ensures DecrementOne(ps, line) == ps[k := ps[k].(stockQuantity := Wrap32(ps[k].stockQuantity - line.quantity))]
  {
  }

  /** Every line names a product of the table (the creation path's only check). */
  ghost predicate AllFound(ps: seq<Product>, lines: seq<CreateOrderItemDto>)
  {
    forall j :: 0 <= j < |lines| ==> FindProduct(ps, lines[j].productId).Some?
  }

  /** The items the creation loop builds for the lines, first line first. */
  function OrderItemsFor(ps: seq<Product>, lines: seq<CreateOrderItemDto>, orderId: int, firstItemId: int): (r: seq<OrderItem>)
    ensures |r| == |lines|
    decreases |lines|
  {
    if lines == [] then []
    else
      var n := |lines| - 1;
      OrderItemsFor(ps, lines[..n], orderId, firstItemId)
        + [OrderItem(firstItemId + n, orderId, lines[n].productId, lines[n].quantity, PriceOf(ps, lines[n].productId))]
  }

  /** The pending order the creation path stores for `dto` over table `ps`. */
  function NewOrder(ps: seq<Product>, dto: CreateOrderDto, orderId: int, firstItemId: int, now: Timestamp): Order
  {
    var items := OrderItemsFor(ps, dto.items, orderId, firstItemId);
    Order(orderId, dto.customerId, now, Pending, SumLineTotals(items), dto.shippingAddress, dto.notes, items)
  }

  /** Reference: the order total computed from the lines and the table's prices. */
  function LinesTotal(ps: seq<Product>, lines: seq<CreateOrderItemDto>): Money
  {
    if lines == [] then 0
    else LinesTotal(ps, lines[..|lines| - 1])
         + lines[|lines| - 1].quantity * PriceOf(ps, lines[|lines| - 1].productId)
  }

  /**
   * Item `j` of the built items stands for line `j`: the next item identity
   * value plus `j`, the order's id, the line's product and quantity, and the
   * price of the product row with that id at creation time.
   */
  lemma {:induction false} OrderItemsForLine(ps: seq<Product>, lines: seq<CreateOrderItemDto>, orderId: int, firstItemId: int, j: nat)
    requires AllFound(ps, lines)
    requires j < |lines|
    ensures var it := OrderItemsFor(ps, lines, orderId, firstItemId)[j];
      && it.orderItemId == firstItemId + j
      && it.orderId == orderId
      && it.productId == lines[j].productId
      && it.quantity == lines[j].quantity
      && exists k :: 0 <= k < |ps| && ps[k].productId == lines[j].productId && it.unitPrice == ps[k].price
    decreases |lines|
  {
    var n := |lines| - 1;
    if j < n {
      OrderItemsForLine(ps, lines[..n], orderId, firstItemId, j);
      assert OrderItemsFor(ps, lines, orderId, firstItemId)[j] == OrderItemsFor(ps, lines[..n], orderId, firstItemId)[j];
    } else {
      var p := FindProduct(ps, lines[j].productId).value;
      var k :| 0 <= k < |ps| && ps[k] == p;
    }
  }

  /** The stored total is the sum over the lines of quantity times snapshotted price. */
  lemma {:induction false} NewOrderTotal(ps: seq<Product>, dto: CreateOrderDto, orderId: int, firstItemId: int, now: Timestamp)
    ensures NewOrder(ps, dto, orderId, firstItemId, now).totalAmount == LinesTotal(ps, dto.items)
  {
    ItemsTotal(ps, dto.items, orderId, firstItemId);
  }

  lemma {:induction false} ItemsTotal(ps: seq<Product>, lines: seq<CreateOrderItemDto>, orderId: int, firstItemId: int)
    ensures SumLineTotals(OrderItemsFor(ps, lines, orderId, firstItemId)) == LinesTotal(ps, lines)
    decreases |lines|
  {
    if lines != [] {
      var n := |lines| - 1;
      var items := OrderItemsFor(ps, lines, orderId, firstItemId);
      ItemsTotal(ps, lines[..n], orderId, firstItemId);
      assert items[..n] == OrderItemsFor(ps, lines[..n], orderId, firstItemId);
    }
  }

  /** Extending the lines by one extends the built items by that line's item. */
  lemma OrderItemsForStep(ps: seq<Product>, lines: seq<CreateOrderItemDto>, i: nat, orderId: int, firstItemId: int)
    requires i < |lines|
    ensures OrderItemsFor(ps, lines[..i + 1], orderId, firstItemId)
         == OrderItemsFor(ps, lines[..i], orderId, firstItemId)
            + [OrderItem(firstItemId + i, orderId, lines[i].productId, lines[i].quantity, PriceOf(ps, lines[i].productId))]
  {
    assert lines[..i + 1][..i] == lines[..i];
  }

  /** With unique ids, the snapshotted price of a line is the price of the row `k` holding its product. */
  lemma PriceOfRow(ps: seq<Product>, k: nat)
    requires UniqueProductIds(ps) && k < |ps|
    ensures FindProduct(ps, ps[k].productId).Some?
    ensures PriceOf(ps, ps[k].productId) == ps[k].price
  {
    FindProductUnique(ps, k);
  }

  /** One loop step of the creation path applies the line's decrement to the row holding its product. */
  lemma StockStep(current: seq<Product>, ps: seq<Product>, lines: seq<CreateOrderItemDto>, i: nat, k: nat)
    requires i < |lines|
    requires UniqueProductIds(current)
    requires current == StockAfter(ps, lines[..i])
    requires k < |current| && current[k].productId == lines[i].productId
    ensures current[k := current[k].(stockQuantity := Wrap32(current[k].stockQuantity - lines[i].quantity))]
         == StockAfter(ps, lines[..i + 1])
  {
    DecrementOneAt(current, k, lines[i]);
    assert lines[..i + 1][..i] == lines[..i];
  }

  /** The loop state after the first `i` lines: the items built so far, their total and the decremented table. */
  ghost predicate LoopState(ps: seq<Product>, lines: seq<CreateOrderItemDto>, i: nat, orderId: int, firstItemId: int,
                            items: seq<OrderItem>, totalAmount: Money, stock: seq<Product>)
  {
    && i <= |lines|
    && stock == StockAfter(ps, lines[..i])
    && items == OrderItemsFor(ps, lines[..i], orderId, firstItemId)
    && totalAmount == SumLineTotals(items)
  }

  /** One step of the creation loop, from line `i` and the row `k` holding its product, keeps the loop state. */
  lemma LoopStep(ps: seq<Product>, lines: seq<CreateOrderItemDto>, i: nat, k: nat, orderId: int, firstItemId: int,
                 items: seq<OrderItem>, totalAmount: Money, stock: seq<Product>)
    requires UniqueProductIds(ps)
    requires i < |lines| && k < |ps| && ps[k].productId == lines[i].productId
    requires LoopState(ps, lines, i, orderId, firstItemId, items, totalAmount, stock)
    ensures k < |stock|
    ensures LoopState(ps, lines, i + 1, orderId, firstItemId,
                      items + [OrderItem(firstItemId + i, orderId, lines[i].productId, lines[i].quantity, stock[k].price)],
                      totalAmount + lines[i].quantity * stock[k].price,
                      stock[k := stock[k].(stockQuantity := Wrap32(stock[k].stockQuantity - lines[i].quantity))])
  {
    StockAfterKeepsIds(ps, lines[..i]);
    StockAfterPerProduct(ps, lines[..i], k);
    PriceOfRow(ps, k);
    OrderItemsForStep(ps, lines, i, orderId, firstItemId);
    var item := OrderItem(firstItemId + i, orderId, lines[i].productId, lines[i].quantity, stock[k].price);
    assert (items + [item])[..i] == items;
    StockStep(stock, ps, lines, i, k);
  }

  /**
   * The loop of the creation path: for each line, look the product up,
   * snapshot its price into a new item, add the line total to the running
   * total and decrement the product's stock.
   */
  method BuildOrderLines(ps: seq<Product>, lines: seq<CreateOrderItemDto>, productLookup: map<int, nat>, orderId: int, firstItemId: int)
    returns (items: seq<OrderItem>, totalAmount: Money, stock: seq<Product>)
    requires UniqueProductIds(ps)
    requires forall j :: 0 <= j < |lines| ==>
      lines[j].productId in productLookup && productLookup[lines[j].productId] < |ps|
      && ps[productLookup[lines[j].productId]].productId == lines[j].productId
    ensures items == OrderItemsFor(ps, lines, orderId, firstItemId)
    ensures totalAmount == SumLineTotals(items)
    ensures stock == StockAfter(ps, lines)
  {
    stock := ps;
    items := [];
    totalAmount := 0;
    var i := 0;
    while i < |lines|
      invariant LoopState(ps, lines, i, orderId, firstItemId, items, totalAmount, stock)
    {
      var line := lines[i];
      var k := productLookup[line.productId];
      LoopStep(ps, lines, i, k, orderId, firstItemId, items, totalAmount, stock);
      var product := stock[k];

      // The item keeps the unit price of the fetched row.
      items := items + [OrderItem(firstItemId + i, orderId, line.productId, line.quantity, product.price)];
      totalAmount := totalAmount + line.quantity * product.price;
      stock := stock[k := product.(stockQuantity := Wrap32(product.stockQuantity - line.quantity))];
      i := i + 1;
    }
    assert lines[..i] == lines;
  }

  /**
   * The success path of `CreateOrderAsync` on values: index the fetched
   * products by id, run the line loop and build the pending order.
   */
  method PlaceOrder(ps: seq<Product>, dto: CreateOrderDto, orderId: int, firstItemId: int, now: Timestamp)
    returns (order: Order, stock: seq<Product>)
    requires UniqueProductIds(ps)
    requires AllFound(ps, dto.items)
    ensures order == NewOrder(ps, dto, orderId, firstItemId, now)
    ensures stock == StockAfter(ps, dto.items)
  {
    var requested := RequestedProductIds(dto.items);
    var productLookup := ProductLookup(ps, requested);
    assert forall j :: 0 <= j < |dto.items| ==> dto.items[j].productId in productLookup by {
      forall j | 0 <= j < |dto.items|
        ensures dto.items[j].productId in productLookup
      {
        assert requested[j] == dto.items[j].productId;
      }
    }
    var items, totalAmount;
    items, totalAmount, stock := BuildOrderLines(ps, dto.items, productLookup, orderId, firstItemId);
    order := Order(orderId, dto.customerId, now, Pending, totalAmount, dto.shippingAddress, dto.notes, items);
  }

  /** Appending an order under the next identity value keeps order ids unique and below the counter. */
  lemma AppendOrderKeepsKeys(os: seq<Order>, o: Order, next: int)
    requires UniqueOrderIds(os)
    requires forall k :: 0 <= k < |os| ==> os[k].orderId < next
    requires o.orderId == next
    ensures UniqueOrderIds(os + [o])
    ensures forall k :: 0 <= k < |os + [o]| ==> (os + [o])[k].orderId < next + 1
  {
  }

  /** Products P1 at 10.00 and P2 at 5.00, ten of each in stock. */
  const ExampleProducts: seq<Product> :=
    [Product(1, "P1", None, 1000, 10, "Tools", true, 0), Product(2, "P2", None, 500, 10, "Tools", true, 0)]

  /** Two of P1 and one of P2. */
  const ExampleLines: seq<CreateOrderItemDto> := [CreateOrderItemDto(1, 2), CreateOrderItemDto(2, 1)]

  /** Both example lines name a product of the example table, so nothing is reported missing. */
  lemma FoundExample()
    ensures MissingProductIds(ExampleProducts, ExampleLines) == []
  {
    var ps, lines := ExampleProducts, ExampleLines;
    PriceOfRow(ps, 0);
    PriceOfRow(ps, 1);
    MissingProductIdsAreUnknownIds(ps, lines);
  }

  /** The example order is pending; its items snapshot 10.00 and 5.00 and its total is 25.00. */
  lemma CreateOrderExample(now: Timestamp)
    ensures var o := NewOrder(ExampleProducts, CreateOrderDto(1, "1 High Street", None, ExampleLines), 1, 1, now);
      && o.status == Pending
      && |o.items| == 2 && o.items[0].unitPrice == 1000 && o.items[1].unitPrice == 500
      && o.totalAmount == 2500
  {
    var ps, lines := ExampleProducts, ExampleLines;
    PriceOfRow(ps, 0);
    PriceOfRow(ps, 1);
    var first := OrderItem(1, 1, 1, 2, 1000);
    var second := OrderItem(2, 1, 2, 1, 500);
    assert lines[..1] == [lines[0]];
    assert lines[..1][..0] == [];
    assert OrderItemsFor(ps, lines[..1], 1, 1) == [first];
    assert OrderItemsFor(ps, lines, 1, 1) == [first, second];
    assert SumLineTotals([first]) == 2000;
    assert [first, second][..1] == [first];
  }

  /** Placing the example lines takes P1's stock from 10 to 8 and P2's from 10 to 9. */
  lemma StockExample()
    ensures StockAfter(ExampleProducts, ExampleLines)[0].stockQuantity == 8
    ensures StockAfter(ExampleProducts, ExampleLines)[1].stockQuantity == 9
  {
    var ps, lines := ExampleProducts, ExampleLines;
    var once := DecrementOne(ps, lines[0]);
    assert lines[..1] == [lines[0]];
    assert lines[..1][..0] == [];
    assert StockAfter(ps, lines[..1]) == once;
    assert once[0].stockQuantity == 8 && once[1].stockQuantity == 10;
    assert StockAfter(ps, lines) == DecrementOne(once, lines[1]);
  }

  /**
   * Unchecked `int` arithmetic: ordering -2147483648 of a product with stock 10
   * wraps the stock to 10 + 2^31 - 2^32 instead of raising it to 2147483658.
   */
  lemma StockWrapsExample()
    ensures StockAfter(ExampleProducts[..1], [CreateOrderItemDto(1, Int32Min)])[0].stockQuantity == -2147483638
  {
    var lines := [CreateOrderItemDto(1, Int32Min)];
    assert lines[..0] == [];
  }

  /** A request naming P1 and the unknown P99 reports exactly P99 missing. */
  lemma MissingProductExample()
    ensures MissingProductIds(ExampleProducts[..1], [CreateOrderItemDto(1, 1), CreateOrderItemDto(99, 1)]) == [99]
  {
    var lines := [CreateOrderItemDto(1, 1), CreateOrderItemDto(99, 1)];
    MissingProductIdsAreUnknownIds(ExampleProducts[..1], lines);
    assert lines[1..][1..] == [];
  }

  /** The in-memory store the services read and write: the tables and the identity counters. */
  class Shop {
    var products: seq<Product>
    var customers: seq<Customer>
    var orders: seq<Order>
    /** The next identity value for an order row. */
    var nextOrderId: int
    /** The next identity value for an order-item row. */
    var nextOrderItemId: int

    /** Primary keys are unique and the order identity counter is ahead of every stored order. */
    ghost predicate Valid()
      reads this
    {
      && UniqueProductIds(products)
      && UniqueCustomerIds(customers)
      && UniqueOrderIds(orders)
      && forall k :: 0 <= k < |orders| ==> orders[k].orderId < nextOrderId
    }

    constructor (products: seq<Product>, customers: seq<Customer>)
      requires UniqueProductIds(products) && UniqueCustomerIds(customers)
      ensures Valid()
      ensures this.products == products && this.customers == customers && orders == []
      ensures nextOrderId == 1 && nextOrderItemId == 1
    {
      this.products := products;
      this.customers := customers;
      orders := [];
      nextOrderId := 1;
      nextOrderItemId := 1;
    }

    /**
     * `CreateOrderAsync`. Checks only that every requested product id exists
     * (active or not); no customer check, no stock check, no check on the
     * quantities or on an empty item list.
     */
    method CreateOrder(dto: CreateOrderDto, now: Timestamp) returns (r: Result<OrderDto, OrderError>)
      requires Valid()
      modifies this
      ensures Valid()
      ensures customers == old(customers)
      ensures MissingProductIds(old(products), dto.items) != [] ==>
        && r == Failure(ProductsNotFound(MissingProductIds(old(products), dto.items)))
        && products == old(products) && orders == old(orders)
        && nextOrderId == old(nextOrderId) && nextOrderItemId == old(nextOrderItemId)
      ensures MissingProductIds(old(products), dto.items) == [] ==>
        && AllFound(old(products), dto.items)
        && products == StockAfter(old(products), dto.items)
        && orders == old(orders) + [NewOrder(old(products), dto, old(nextOrderId), old(nextOrderItemId), now)]
        && nextOrderId == old(nextOrderId) + 1
        && nextOrderItemId == old(nextOrderItemId) + |dto.items|
        && r == Success(MapToDto(orders[|orders| - 1], CustomerNameOrUnknown(customers, dto.customerId), products))
    {
      // One batch fetch of the requested ids, then the ids it did not return.
      var missing := MissingProductIds(products, dto.items);
      if |missing| > 0 {
        return Failure(ProductsNotFound(missing));
      }
      assert AllFound(products, dto.items) by {
        NoMissingMeansAllFound(products, dto.items);
      }

      var order, stock := PlaceOrder(products, dto, nextOrderId, nextOrderItemId, now);
      assert UniqueProductIds(stock) && UniqueOrderIds(orders + [order])
          && forall k :: 0 <= k < |orders + [order]| ==> (orders + [order])[k].orderId < nextOrderId + 1 by {
        StockAfterKeepsIds(products, dto.items);
        AppendOrderKeepsKeys(orders, order, nextOrderId);
      }

      products := stock;
      orders := orders + [order];
      nextOrderId := nextOrderId + 1;
      nextOrderItemId := nextOrderItemId + |dto.items|;
      r := Success(MapToDto(order, CustomerNameOrUnknown(customers, dto.customerId), products));
    }

    /**
     * `UpdateOrderStatusAsync`: not found, refused by the lifecycle table
     * (status unchanged), or the status set to the parsed target and nothing else changed.
     */
    method UpdateOrderStatus(orderId: int, newStatus: string) returns (r: Result<OrderDto, OrderError>)
      requires Valid()
      modifies this
      ensures Valid()
      ensures products == old(products) && customers == old(customers)
      ensures nextOrderId == old(nextOrderId) && nextOrderItemId == old(nextOrderItemId)
      ensures FindOrderIndex(old(orders), orderId).None? ==>
        r == Failure(OrderNotFound(orderId)) && orders == old(orders)
      ensures FindOrderIndex(old(orders), orderId).Some? ==>
        var k := FindOrderIndex(old(orders), orderId).value;
        var current := old(orders)[k].status;
        if CanTransition(StatusName(current), newStatus) then
          && ParseStatus(newStatus).Some?
          && orders == old(orders)[k := old(orders)[k].(status := ParseStatus(newStatus).value)]
          && r == Success(MapToDto(orders[k], CustomerNameOrUnknown(customers, orders[k].customerId), products))
        else
          && orders == old(orders)
          && r == Failure(InvalidTransition(StatusName(current), newStatus))
      ensures |orders| == |old(orders)|
      ensures forall k :: 0 <= k < |orders| && IsTerminal(old(orders)[k].status) ==> orders[k] == old(orders)[k]
      ensures forall k :: 0 <= k < |orders| ==>
        orders[k] == old(orders)[k] || IsLifecycleStep(old(orders)[k].status, orders[k].status)
    {
      var found := FindOrderIndex(orders, orderId);
      if found.None? {
        return Failure(OrderNotFound(orderId));
      }
      var k := found.value;
      var order := orders[k];
      var currentStatusName := StatusName(order.status);
      if !CanTransition(currentStatusName, newStatus) {
        return Failure(InvalidTransition(currentStatusName, newStatus));
      }
      var target := ParseStatus(newStatus).value;
      CanTransitionFromNames(currentStatusName, newStatus, order.status, target);
      if IsTerminal(order.status) {
        TerminalIsAbsorbing(order.status, newStatus);
      }
      var updated := order.(status := target);
      orders := orders[k := updated];
      r := Success(MapToDto(updated, CustomerNameOrUnknown(customers, updated.customerId), products));
    }
  }
}
