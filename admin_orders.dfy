/** The admin order list: the page keeps its own list of orders, replaces
    it when an admin picks a new status for one, and shows it under a
    status filter. */
module AdminOrders {
  import opened Common

  /** One item line of an order; `price` in cents. */
  datatype OrderLine = OrderLine(name: string, quantity: int, price: int)

  /** One row of the page's list; `total` in cents. */
  datatype OrderRow = OrderRow(
    id: int, customerName: string, customerEmail: string, orderDate: string, total: int,
    status: string, items: seq<OrderLine>, shippingAddress: string)

  /** The filter choices; "all" matches everything. */
  const Statuses: seq<string> := ["all", "Pending", "Processing", "Shipped", "Delivered", "Cancelled"]

  /** `getStatusColor(status)`. */
  function StatusColor(status: string): (c: string)
    ensures status == "Pending" ==> c == "warning"
    ensures status == "Processing" ==> c == "info"
    ensures status == "Shipped" ==> c == "primary"
    ensures status == "Delivered" ==> c == "success"
    ensures status == "Cancelled" ==> c == "error"
    ensures c == "default" <==> status !in {"Pending", "Processing", "Shipped", "Delivered", "Cancelled"}
  {
    match status
    case "Pending" => "warning"
    case "Processing" => "info"
    case "Shipped" => "primary"
    case "Delivered" => "success"
    case "Cancelled" => "error"
    case _ => "default"
  }

  function NotAll(s: string): bool {
    s != "all"
  }

  /** The statuses offered in each row's selector:
      `statuses.filter(s => s !== "all")`. */
  function StatusOptions(): seq<string> {
    Filter(Statuses, NotAll)
  }

  /** The selector offers the filter list without "all", in the same order. */
  lemma StatusOptionsAreStatuses()
    ensures StatusOptions() == ["Pending", "Processing", "Shipped", "Delivered", "Cancelled"]
    ensures StatusOptions() == Statuses[1..]
  {
    var rest := ["Pending", "Processing", "Shipped", "Delivered", "Cancelled"];
    assert Statuses == ["all"] + rest;
    assert NotAll(rest[0]) && NotAll(rest[1]) && NotAll(rest[2]) && NotAll(rest[3]) && NotAll(rest[4]);
    FilterAll(rest, NotAll);
    FilterAppend(["all"], rest, NotAll);
    assert Filter(["all"], NotAll) == [];
  }

  /** Every status the selector offers has its own colour, none of them the
      fallback. */
  lemma StatusOptionsColored()
    ensures Map(StatusOptions(), StatusColor) == ["warning", "info", "primary", "success", "error"]
  {
    StatusOptionsAreStatuses();
  }

  // ---------------------------------------------------------------- list updates

  function StatusIf(id: int, status: string): OrderRow -> OrderRow {
    (o: OrderRow) => if o.id == id then o.(status := status) else o
  }

  /** `orders.map(order => order.id === orderId ? {...order, status: newStatus} : order)`. */
  function WithStatus(orders: seq<OrderRow>, id: int, status: string): seq<OrderRow> {
    Map(orders, StatusIf(id, status))
  }

  /** A status change sets the status of the orders with that id only; the
      length, the order and every other field are kept. */
  lemma WithStatusEffect(orders: seq<OrderRow>, id: int, status: string)
    ensures |WithStatus(orders, id, status)| == |orders|
    ensures forall i :: 0 <= i < |orders| ==>
      WithStatus(orders, id, status)[i] == (if orders[i].id == id then orders[i].(status := status) else orders[i])
  {
  }

  /** Setting the same status twice is setting it once. */
  lemma WithStatusIdempotent(orders: seq<OrderRow>, id: int, status: string)
    ensures WithStatus(WithStatus(orders, id, status), id, status) == WithStatus(orders, id, status)
  {
    var once := WithStatus(orders, id, status);
    var twice := WithStatus(once, id, status);
    assert |twice| == |once|;
    forall i | 0 <= i < |once| ensures twice[i] == once[i] {
      assert once[i] == StatusIf(id, status)(orders[i]);
      assert twice[i] == StatusIf(id, status)(once[i]);
    }
  }

  // ---------------------------------------------------------------- filtering

  function HasStatus(status: string): OrderRow -> bool {
    (o: OrderRow) => o.status == status
  }

  /** `filteredOrders`. */
  function FilteredOrders(orders: seq<OrderRow>, filter: string): seq<OrderRow> {
    if filter == "all" then orders else Filter(orders, HasStatus(filter))
  }

  /** "all" shows every order; any other filter shows the orders with that
      status, each as often as in the list. */
  lemma FilteredOrdersEffect(orders: seq<OrderRow>, filter: string, o: OrderRow)
    ensures filter == "all" ==> FilteredOrders(orders, filter) == orders
    ensures filter != "all" ==>
      && (forall i :: 0 <= i < |FilteredOrders(orders, filter)| ==> FilteredOrders(orders, filter)[i].status == filter)
      && multiset(FilteredOrders(orders, filter))[o] == (if o.status == filter then multiset(orders)[o] else 0)
  {
    if filter != "all" {
      FilterMultiset(orders, HasStatus(filter), o);
    }
  }

  // ---------------------------------------------------------------- the page

  class OrdersPage {
    var orders: seq<OrderRow>
    var statusFilter: string

    constructor(initial: seq<OrderRow>)
      ensures orders == initial && statusFilter == "all"
    {
      orders := initial;
      statusFilter := "all";
    }

    /** `handleStatusChange(orderId, newStatus)`. */
    method HandleStatusChange(orderId: int, newStatus: string)
      modifies this
      ensures orders == WithStatus(old(orders), orderId, newStatus)
      ensures statusFilter == old(statusFilter)
    {
      orders := Map(orders, StatusIf(orderId, newStatus));
    }

    method SetStatusFilter(filter: string)
      modifies this
      ensures orders == old(orders) && statusFilter == filter
    {
      statusFilter := filter;
    }
  }
}
