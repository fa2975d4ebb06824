/**
 * OrdersController: placing orders with snapshot pricing, reading them under
 * the owner-or-administrator rule, the administrator's unrestricted status
 * overwrite, the owner's Pending -> Cancelled self-service path, and the
 * paged administrator listing.
 */
module OrdersController {
  import opened Wrappers
  import opened Text
  import opened Seqs
  import opened Paging
  import opened Models
  import opened Api

  const Pending := "Pending"
  const Processing := "Processing"
  const Completed := "Completed"
  const Cancelled := "Cancelled"

  /** The literal list the status update accepts; the comparison is case-sensitive. */
  const ValidStatuses: seq<string> := [Pending, Processing, Completed, Cancelled]

  /** One line of the order payload, as the client sends it. */
  datatype LineRequest = LineRequest(id: int, productId: int, quantity: int, unitPrice: int)

  /** The order payload; `items` may be absent (`null`). */
  datatype OrderRequest = OrderRequest(
    id: int,
    orderDate: int,
    customerName: Option<string>,
    email: Option<string>,
    mobileNumber: Option<string>,
    address: Option<string>,
    totalAmount: int,
    status: string,
    userId: Option<string>,
    items: Option<seq<LineRequest>>)

  // ---------------------------------------------------------------------------
  // Listing

  /** The status filter of the listing: absent or empty matches all, otherwise case-insensitive equality. */
  predicate StatusMatches(o: Order, status: Option<string>) {
    IsNullOrEmpty(status) || Lower(o.status) == Lower(status.value)
  }

  function StatusFilter(status: Option<string>): Order -> bool {
    (o: Order) => StatusMatches(o, status)
  }

  /**
   * `a` may be listed before `b`: the key is chosen by `sortBy` ignoring case
   * ("amount", "status", anything else is the date), and the direction is
   * ascending only for a `sortOrder` of exactly "asc". Statuses compare by the
   * database collation `collate`.
   */
  predicate ListedBefore(a: Order, b: Order, sortBy: string, sortOrder: string, collate: (string, string) -> bool) {
    var asc := sortOrder == "asc";
    var key := Lower(sortBy);
    if key == "amount" then
      (if asc then a.totalAmount <= b.totalAmount else b.totalAmount <= a.totalAmount)
    else if key == "status" then
      (if asc then collate(a.status, b.status) else collate(b.status, a.status))
    else
      (if asc then a.orderDate <= b.orderDate else b.orderDate <= a.orderDate)
  }

  function OrderComparer(sortBy: string, sortOrder: string, collate: (string, string) -> bool): (Order, Order) -> bool {
    (a: Order, b: Order) => ListedBefore(a, b, sortBy, sortOrder, collate)
  }

  lemma OrderComparerIsTotalPreorder(sortBy: string, sortOrder: string, collate: (string, string) -> bool)
    requires TotalPreorder(collate)
    ensures TotalPreorder(OrderComparer(sortBy, sortOrder, collate))
  {
    var le := OrderComparer(sortBy, sortOrder, collate);
    forall a, b ensures le(a, b) || le(b, a) {
      assert collate(a.status, b.status) || collate(b.status, a.status);
    }
    forall a, b, c | le(a, b) && le(b, c) ensures le(a, c) {
      assert collate(a.status, b.status) && collate(b.status, c.status) ==> collate(a.status, c.status);
      assert collate(c.status, b.status) && collate(b.status, a.status) ==> collate(c.status, a.status);
    }
  }

  /** All matching orders in listing order, before paging. */
  function OrderListing(orders: map<int, Order>, sortBy: string, sortOrder: string, status: Option<string>,
                        collate: (string, string) -> bool): seq<Order>
  {
    SortBy(Filter(Rows(orders), StatusFilter(status)), OrderComparer(sortBy, sortOrder, collate))
  }

  lemma OrderListingFacts(orders: map<int, Order>, sortBy: string, sortOrder: string, status: Option<string>,
                          collate: (string, string) -> bool)
    requires TotalPreorder(collate)
    ensures var l := OrderListing(orders, sortBy, sortOrder, status, collate);
      && |l| == |KeysWhere(orders, StatusFilter(status))|
      && (forall o :: o in l <==> o in orders.Values && StatusMatches(o, status))
      && Sorted(l, OrderComparer(sortBy, sortOrder, collate))
  {
    var matching := Filter(Rows(orders), StatusFilter(status));
    var l := OrderListing(orders, sortBy, sortOrder, status, collate);
    FilterRowsCount(orders, StatusFilter(status));
    OrderComparerIsTotalPreorder(sortBy, sortOrder, collate);
    SortBySorted(matching, OrderComparer(sortBy, sortOrder, collate));
    forall o ensures o in l <==> o in orders.Values && StatusMatches(o, status) {
      assert o in l <==> o in multiset(l);
      assert o in matching <==> o in multiset(matching);
    }
  }

  /**
   * `l` is page `pageNumber` of the orders matching `status`: the counts are
   * those of all matching orders, every row is a stored matching order, the
   * rows are in listing order, and row `i` is row `(pageNumber - 1) * pageSize + i`
   * of the listing.
   */
  ghost predicate IsOrderPage(l: Listing<Order>, orders: map<int, Order>, pageNumber: int, pageSize: int,
                              sortBy: string, sortOrder: string, status: Option<string>,
                              collate: (string, string) -> bool)
    requires pageNumber >= 1 && pageSize > 0
  {
    && l.totalItems == |KeysWhere(orders, StatusFilter(status))|
    && IsPageCount(l.totalPages, l.totalItems, pageSize)
    && l.currentPage == pageNumber && l.pageSize == pageSize
    && |l.data| == PageLength(l.totalItems, pageNumber, pageSize)
    && (forall o :: o in l.data ==> o in orders.Values && StatusMatches(o, status))
    && (forall i, j :: 0 <= i < j < |l.data| ==> ListedBefore(l.data[i], l.data[j], sortBy, sortOrder, collate))
    && IsPageOf(l.data, OrderListing(orders, sortBy, sortOrder, status, collate), pageNumber, pageSize)
  }

  lemma OrderPageFacts(orders: map<int, Order>, pageNumber: int, pageSize: int, sortBy: string, sortOrder: string,
                       status: Option<string>, collate: (string, string) -> bool)
    requires pageNumber >= 1 && pageSize > 0
    requires TotalPreorder(collate)
    ensures IsOrderPage(Paginate(OrderListing(orders, sortBy, sortOrder, status, collate), pageNumber, pageSize),
                        orders, pageNumber, pageSize, sortBy, sortOrder, status, collate)
  {
    var listing := OrderListing(orders, sortBy, sortOrder, status, collate);
    var le := OrderComparer(sortBy, sortOrder, collate);
    OrderListingFacts(orders, sortBy, sortOrder, status, collate);
    PaginateFacts(listing, pageNumber, pageSize, le);
    SortedIsListedBefore(Paginate(listing, pageNumber, pageSize).data, sortBy, sortOrder, collate);
  }

  /** A sequence sorted by the comparer has every pair in listing order. */
  lemma SortedIsListedBefore(data: seq<Order>, sortBy: string, sortOrder: string, collate: (string, string) -> bool)
    requires Sorted(data, OrderComparer(sortBy, sortOrder, collate))
    ensures forall i, j :: 0 <= i < j < |data| ==> ListedBefore(data[i], data[j], sortBy, sortOrder, collate)
  {
    forall i, j | 0 <= i < j < |data| ensures ListedBefore(data[i], data[j], sortBy, sortOrder, collate) {
      assert OrderComparer(sortBy, sortOrder, collate)(data[i], data[j]);
    }
  }

  /**
   * GetAll (administrators only): filter by status, order by the chosen key,
   * then return one page with the item and page counts. A page number
   * below 1 or a page size below 1 makes the query fail.
   */
  function GetAll(db: Db, caller: Caller, pageNumber: int, pageSize: int, sortBy: string, sortOrder: string,
                  status: Option<string>, collate: (string, string) -> bool): (r: Response<Listing<Order>>)
    requires TotalPreorder(collate)
    ensures !IsAdmin(caller) ==> r.Fail? && (r.error == Unauthorized <==> caller.Anonymous?)
    ensures r.Ok? <==> IsAdmin(caller) && ValidPaging(pageNumber, pageSize)
    ensures IsAdmin(caller) && !ValidPaging(pageNumber, pageSize) ==> r == Fail(ServerError)
    ensures r.Ok? ==> IsOrderPage(r.value, db.orders, pageNumber, pageSize, sortBy, sortOrder, status, collate)
  {
    match Authorize(caller, RequireRole(AdminRole))
    case Some(e) => Fail(e)
    case None =>
      if !ValidPaging(pageNumber, pageSize) then Fail(ServerError)
      else
        OrderPageFacts(db.orders, pageNumber, pageSize, sortBy, sortOrder, status, collate);
        Ok(Paginate(OrderListing(db.orders, sortBy, sortOrder, status, collate), pageNumber, pageSize))
  }

  /** Orders placed by `userId`, newest first. */
  function OrdersOf(orders: map<int, Order>, userId: string): seq<Order> {
    SortBy(Where(orders, OwnedBy(userId)), NewestFirst())
  }

  function OwnedBy(userId: string): Order -> bool {
    (o: Order) => o.userId == Some(userId)
  }

  function NewestFirst(): (Order, Order) -> bool {
    (a: Order, b: Order) => a.orderDate >= b.orderDate
  }

  /** `rs` is exactly the orders of `userId` in the store, by descending date. */
  ghost predicate IsOrdersOf(rs: seq<Order>, orders: map<int, Order>, userId: string) {
    && (forall o :: o in rs <==> o in orders.Values && o.userId == Some(userId))
    && |rs| == |KeysWhere(orders, OwnedBy(userId))|
    && (forall i, j :: 0 <= i < j < |rs| ==> rs[i].orderDate >= rs[j].orderDate)
  }

  lemma OrdersOfFacts(orders: map<int, Order>, userId: string)
    ensures IsOrdersOf(OrdersOf(orders, userId), orders, userId)
  {
    var matching := Where(orders, OwnedBy(userId));
    var rs := OrdersOf(orders, userId);
    SortBySorted(matching, NewestFirst());
    assert forall o :: o in rs <==> o in multiset(rs);
    assert forall o :: o in matching <==> o in multiset(matching);
  }

  /** GetUserOrders (administrators only): every order of `userId`, newest first, unpaged. */
  function GetUserOrders(db: Db, caller: Caller, userId: string): (r: Response<seq<Order>>)
    ensures !IsAdmin(caller) ==> r.Fail? && (r.error == Unauthorized <==> caller.Anonymous?)
    ensures IsAdmin(caller) ==> r.Ok? && IsOrdersOf(r.value, db.orders, userId)
  {
    match Authorize(caller, RequireRole(AdminRole))
    case Some(e) => Fail(e)
    case None =>
      OrdersOfFacts(db.orders, userId);
      Ok(OrdersOf(db.orders, userId))
  }

  /** GetMyOrders: the caller's own orders, newest first; a token without a user id gets 401. */
  function GetMyOrders(db: Db, caller: Caller): (r: Response<seq<Order>>)
    ensures r.Ok? <==> caller.Authenticated? && !IsNullOrEmpty(caller.userId)
    ensures r.Fail? ==> r.error == Unauthorized
    ensures r.Ok? ==> IsOrdersOf(r.value, db.orders, caller.userId.value)
  {
    match Authorize(caller, AnyUser)
    case Some(e) => Fail(e)
    case None =>
      var me := UserIdOf(caller);
      if IsNullOrEmpty(me) then Fail(Unauthorized)
      else
        OrdersOfFacts(db.orders, me.value);
        Ok(OrdersOf(db.orders, me.value))
  }

  // ---------------------------------------------------------------------------
  // Single-order access

  /** GetById: 404 for an unknown id, then 403 unless the caller is an administrator or the owner. */
  function GetById(db: Db, caller: Caller, id: int): (r: Response<Order>)
    ensures caller.Anonymous? ==> r == Fail(Unauthorized)
    ensures caller.Authenticated? && id !in db.orders ==> r == Fail(NotFound)
    ensures caller.Authenticated? && id in db.orders ==>
      (if CanActOn(caller, db.orders[id]) then r == Ok(db.orders[id]) else r == Fail(Forbid))
  {
    match Authorize(caller, AnyUser)
    case Some(e) => Fail(e)
    case None =>
      if id !in db.orders then Fail(NotFound)
      else if !CanActOn(caller, db.orders[id]) then Fail(Forbid)
      else Ok(db.orders[id])
  }

  // ---------------------------------------------------------------------------
  // Creation

  /** Outcome of pricing the requested lines against the catalog. */
  datatype Pricing = Priced(items: seq<OrderItem>) | UnknownProduct(productId: int)

  /** The first line, in payload order, whose product is not in the catalog. */
  ghost predicate FirstUnknown(lines: seq<LineRequest>, products: map<int, Product>, productId: int) {
    exists i :: 0 <= i < |lines| && lines[i].productId == productId && productId !in products
      && forall j :: 0 <= j < i ==> lines[j].productId in products
  }

  /**
   * Copies each referenced product's current price into its line (the price
   * snapshot), stopping at the first unknown product.
   */
  function PriceLines(lines: seq<LineRequest>, products: map<int, Product>, orderId: int): (p: Pricing)
    ensures p.UnknownProduct? <==> exists i :: 0 <= i < |lines| && lines[i].productId !in products
    ensures p.UnknownProduct? ==> FirstUnknown(lines, products, p.productId)
    ensures p.Priced? ==>
      && |p.items| == |lines|
      && forall i :: 0 <= i < |lines| ==>
           && p.items[i].productId == lines[i].productId
           && p.items[i].quantity == lines[i].quantity
           && p.items[i].id == lines[i].id
           && p.items[i].orderId == orderId
           && lines[i].productId in products
           && p.items[i].unitPrice == products[lines[i].productId].price
  {
    if lines == [] then Priced([])
    else if lines[0].productId !in products then
      assert FirstUnknown(lines, products, lines[0].productId) by {
        assert lines[0].productId == lines[0].productId;
      }
      UnknownProduct(lines[0].productId)
    else
      var line := lines[0];
      var item := OrderItem(line.id, line.productId, line.quantity, products[line.productId].price, orderId);
      match PriceLines(lines[1..], products, orderId)
      case UnknownProduct(pid) =>
        assert FirstUnknown(lines, products, pid) by {
          var i :| 0 <= i < |lines[1..]| && lines[1..][i].productId == pid && pid !in products
            && forall j :: 0 <= j < i ==> lines[1..][j].productId in products;
          assert lines[i + 1].productId == pid;
          forall j | 0 <= j < i + 1 ensures lines[j].productId in products {
            if j > 0 {
              assert lines[j] == lines[1..][j - 1];
            }
          }
        }
        assert exists i :: 0 <= i < |lines| && lines[i].productId !in products by {
          var i :| 0 <= i < |lines[1..]| && lines[1..][i].productId !in products;
          assert lines[i + 1] == lines[1..][i];
        }
        UnknownProduct(pid)
      case Priced(rest) =>
        assert forall i :: 0 <= i < |lines| ==> lines[i].productId in products by {
          forall i | 0 <= i < |lines| ensures lines[i].productId in products {
            if i > 0 {
              assert lines[i] == lines[1..][i - 1];
            }
          }
        }
        Priced([item] + rest)
  }

  /** Store invariant: rows sit under their id, and every total is the sum of its lines. */
  ghost predicate OrdersConsistent(orders: map<int, Order>) {
    forall k :: k in orders ==> orders[k].id == k && orders[k].totalAmount == LineTotal(orders[k].items)
  }

  /**
   * The payload leaves every key to the database: the order id and each line
   * id are 0. The mapper copies them into the new rows, and a non-zero value
   * is an explicit insert into an identity column, which the save refuses.
   */
  predicate KeysLeftToDatabase(req: OrderRequest) {
    && req.id == 0
    && (req.items.Some? ==> forall i :: 0 <= i < |req.items.value| ==> req.items.value[i].id == 0)
  }

  /** What the catalog charges for `lines`: each named product's current price times the line's quantity. */
  function CatalogTotal(lines: seq<LineRequest>, products: map<int, Product>): int
    requires forall i :: 0 <= i < |lines| ==> lines[i].productId in products
  {
    if lines == [] then 0
    else products[lines[0].productId].price * lines[0].quantity + CatalogTotal(lines[1..], products)
  }

  /** Lines priced from the catalog sum to the catalog's charge for the request. */
  lemma {:induction false} PricedTotal(lines: seq<LineRequest>, items: seq<OrderItem>, products: map<int, Product>)
    requires |items| == |lines|
    requires forall i :: 0 <= i < |lines| ==>
      && lines[i].productId in products
      && items[i].quantity == lines[i].quantity
      && items[i].unitPrice == products[lines[i].productId].price
    ensures LineTotal(items) == CatalogTotal(lines, products)
  {
    if lines != [] {
      PricedTotal(lines[1..], items[1..], products);
    }
  }

  /** The order that Create stores: caller as owner, "Pending", the current time, snapshot prices. */
  function NewOrder(req: OrderRequest, userId: string, items: seq<OrderItem>, newId: int, now: int): Order {
    Order(newId, now, req.customerName, req.email, req.mobileNumber, req.address,
          LineTotal(items), Pending, Some(userId), items)
  }

  /**
   * Create: 400 for an absent or empty line list, 401 for a token without a
   * user id, 400 naming the first unknown product, 500 when the save refuses
   * the row: the payload sets an order or line id, or the total does not fit
   * `decimal(18,2)`. Otherwise the order is stored under `newId` (the
   * database's identity value) with the caller as owner, status "Pending",
   * date `now`, and catalog prices. Nothing is written on any failure.
   */
  function Create(db: Db, caller: Caller, req: OrderRequest, newId: int, now: int): (r: Reply<Order>)
    requires newId !in db.orders
    ensures !r.response.Created? ==> r.db == db
    ensures caller.Anonymous? ==> r.response == Fail(Unauthorized)
    ensures caller.Authenticated? && (req.items.None? || req.items.value == []) ==>
      r.response == Fail(BadRequest(EmptyOrder))
    ensures caller.Authenticated? && req.items.Some? && req.items.value != [] && IsNullOrEmpty(caller.userId) ==>
      r.response == Fail(Unauthorized)
    ensures r.response.Fail? && r.response.error.BadRequest? && r.response.error.reason.InvalidProductId? ==>
      req.items.Some? && FirstUnknown(req.items.value, db.products, r.response.error.reason.productId)
    ensures r.response.Fail? && r.response.error == ServerError <==>
      && caller.Authenticated? && req.items.Some? && req.items.value != [] && !IsNullOrEmpty(caller.userId)
      && (forall i :: 0 <= i < |req.items.value| ==> req.items.value[i].productId in db.products)
      && (!KeysLeftToDatabase(req) || !FitsMoneyColumn(CatalogTotal(req.items.value, db.products)))
    ensures r.response.Created? <==>
      && caller.Authenticated? && req.items.Some? && req.items.value != [] && !IsNullOrEmpty(caller.userId)
      && (forall i :: 0 <= i < |req.items.value| ==> req.items.value[i].productId in db.products)
      && KeysLeftToDatabase(req) && FitsMoneyColumn(CatalogTotal(req.items.value, db.products))
    ensures r.response.Created? ==>
      var o := r.response.value;
      var lines := req.items.value;
      && r.db == db.(orders := db.orders[newId := o])
      && o.id == newId && o.orderDate == now
      && o.userId == caller.userId && o.status == Pending
      && o.customerName == req.customerName && o.email == req.email
      && o.mobileNumber == req.mobileNumber && o.address == req.address
      && |o.items| == |lines|
      && (forall i :: 0 <= i < |lines| ==>
            && o.items[i].productId == lines[i].productId
            && o.items[i].quantity == lines[i].quantity
            && o.items[i].unitPrice == db.products[lines[i].productId].price)
      && o.totalAmount == LineTotal(o.items) == CatalogTotal(lines, db.products)
  {
    match Authorize(caller, AnyUser)
    case Some(e) => Reply(Fail(e), db)
    case None =>
      if req.items.None? || req.items.value == [] then Reply(Fail(BadRequest(EmptyOrder)), db)
      else if IsNullOrEmpty(UserIdOf(caller)) then Reply(Fail(Unauthorized), db)
      else
        match PriceLines(req.items.value, db.products, newId)
        case UnknownProduct(pid) => Reply(Fail(BadRequest(InvalidProductId(pid))), db)
        case Priced(items) =>
          PricedTotal(req.items.value, items, db.products);
          if !KeysLeftToDatabase(req) || !FitsMoneyColumn(LineTotal(items)) then Reply(Fail(ServerError), db)
          else
            var o := NewOrder(req, UserIdOf(caller).value, items, newId, now);
            Reply(Created(o), db.(orders := db.orders[newId := o]))
  }

  // ---------------------------------------------------------------------------
  // Status changes

  /**
   * UpdateStatus (administrators only): 404 for an unknown id, 400 unless the
   * new status is one of the four literals exactly; otherwise only the status
   * is overwritten, whatever it was before.
   */
  function UpdateStatus(db: Db, caller: Caller, id: int, newStatus: string): (r: Reply<()>)
    ensures r.response != NoContent ==> r.db == db
    ensures !IsAdmin(caller) ==> r.response.Fail? && (r.response.error == Unauthorized <==> caller.Anonymous?)
    ensures IsAdmin(caller) && id !in db.orders ==> r.response == Fail(NotFound)
    ensures IsAdmin(caller) && id in db.orders && newStatus !in ValidStatuses ==>
      r.response == Fail(BadRequest(InvalidStatus))
    ensures r.response == NoContent <==> IsAdmin(caller) && id in db.orders && newStatus in ValidStatuses
    ensures r.response == NoContent ==>
      r.db == db.(orders := db.orders[id := db.orders[id].(status := newStatus)])
  {
    match Authorize(caller, RequireRole(AdminRole))
    case Some(e) => Reply(Fail(e), db)
    case None =>
      if id !in db.orders then Reply(Fail(NotFound), db)
      else if newStatus !in ValidStatuses then Reply(Fail(BadRequest(InvalidStatus)), db)
      else Reply(NoContent, db.(orders := db.orders[id := db.orders[id].(status := newStatus)]))
  }

  /**
   * CancelOrDeleteOrder: 404 for an unknown id, 403 unless administrator or
   * owner; an administrator deletes the order whatever its status, an owner
   * turns "Pending" into "Cancelled" and gets 400 for any other status.
   */
  function CancelOrDeleteOrder(db: Db, caller: Caller, id: int): (r: Reply<()>)
    ensures r.response != NoContent ==> r.db == db
    ensures caller.Anonymous? ==> r.response == Fail(Unauthorized)
    ensures caller.Authenticated? && id !in db.orders ==> r.response == Fail(NotFound)
    ensures caller.Authenticated? && id in db.orders && !CanActOn(caller, db.orders[id]) ==>
      r.response == Fail(Forbid)
    ensures IsAdmin(caller) && id in db.orders ==>
      r.response == NoContent && r.db == db.(orders := db.orders - {id})
    ensures caller.Authenticated? && !IsAdmin(caller) && id in db.orders && CanActOn(caller, db.orders[id]) ==>
      if db.orders[id].status == Pending then
        r.response == NoContent && r.db == db.(orders := db.orders[id := db.orders[id].(status := Cancelled)])
      else
        r.response == Fail(BadRequest(CannotCancel))
  {
    match Authorize(caller, AnyUser)
    case Some(e) => Reply(Fail(e), db)
    case None =>
      if id !in db.orders then Reply(Fail(NotFound), db)
      else
        var o := db.orders[id];
        if !CanActOn(caller, o) then Reply(Fail(Forbid), db)
        else if IsAdmin(caller) then Reply(NoContent, db.(orders := db.orders - {id}))
        else if o.status == Pending then Reply(NoContent, db.(orders := db.orders[id := o.(status := Cancelled)]))
        else Reply(Fail(BadRequest(CannotCancel)), db)
  }

  // ---------------------------------------------------------------------------
  // Properties across handlers

  lemma CreateKeepsStoreConsistent(db: Db, caller: Caller, req: OrderRequest, newId: int, now: int)
    requires newId !in db.orders
    requires OrdersConsistent(db.orders)
    ensures OrdersConsistent(Create(db, caller, req, newId, now).db.orders)
  {
  }

  lemma UpdateStatusKeepsStoreConsistent(db: Db, caller: Caller, id: int, newStatus: string)
    requires OrdersConsistent(db.orders)
    ensures OrdersConsistent(UpdateStatus(db, caller, id, newStatus).db.orders)
  {
  }

  lemma CancelOrDeleteKeepsStoreConsistent(db: Db, caller: Caller, id: int)
    requires OrdersConsistent(db.orders)
    ensures OrdersConsistent(CancelOrDeleteOrder(db, caller, id).db.orders)
  {
  }

  /** A placed order names only catalog products, so the foreign keys keep holding. */
  lemma CreateKeepsReferences(db: Db, caller: Caller, req: OrderRequest, newId: int, now: int)
    requires newId !in db.orders
    requires ReferencesHold(db)
    ensures ReferencesHold(Create(db, caller, req, newId, now).db)
  {
    var r := Create(db, caller, req, newId, now);
    if r.response.Created? {
      var o := r.response.value;
      forall it | it in o.items ensures it.productId in db.products {
        var i :| 0 <= i < |o.items| && o.items[i] == it;
      }
    }
  }

  /**
   * Create writes only amounts that fit their columns: the total is checked,
   * and each unit price is copied from a stored product.
   */
  lemma CreateKeepsMoneyInColumns(db: Db, caller: Caller, req: OrderRequest, newId: int, now: int)
    requires newId !in db.orders
    requires MoneyInColumns(db)
    ensures MoneyInColumns(Create(db, caller, req, newId, now).db)
  {
    var r := Create(db, caller, req, newId, now);
    if r.response.Created? {
      var o := r.response.value;
      forall it | it in o.items ensures FitsMoneyColumn(it.unitPrice) {
        var i :| 0 <= i < |o.items| && o.items[i] == it;
      }
    }
  }

  /** The order a caller has just placed is readable by that caller and listed among their orders. */
  lemma CreatedOrderIsVisibleToOwner(db: Db, caller: Caller, req: OrderRequest, newId: int, now: int)
    requires newId !in db.orders
    requires Create(db, caller, req, newId, now).response.Created?
    ensures var r := Create(db, caller, req, newId, now);
      && GetById(r.db, caller, newId) == Ok(r.response.value)
      && GetMyOrders(r.db, caller).Ok?
      && r.response.value in GetMyOrders(r.db, caller).value
  {
    var r := Create(db, caller, req, newId, now);
    assert newId in r.db.orders && r.db.orders[newId] == r.response.value;
  }

  /**
   * The owner's cancellation is one-way: once an order is "Cancelled" a
   * second request from the same owner is refused and changes nothing.
   */
  lemma OwnerCancelIsOneWay(db: Db, caller: Caller, id: int)
    requires caller.Authenticated? && !IsAdmin(caller)
    requires id in db.orders && CanActOn(caller, db.orders[id]) && db.orders[id].status == Pending
    ensures var first := CancelOrDeleteOrder(db, caller, id);
      && first.response == NoContent
      && first.db.orders[id].status == Cancelled
      && CancelOrDeleteOrder(first.db, caller, id) == Reply(Fail(BadRequest(CannotCancel)), first.db)
  {
  }

  /** Only an administrator can bring a cancelled order back, and only through the status overwrite. */
  lemma AdminCanReopenCancelled(db: Db, caller: Caller, id: int)
    requires IsAdmin(caller) && id in db.orders && db.orders[id].status == Cancelled
    ensures UpdateStatus(db, caller, id, Pending).db.orders[id].status == Pending
    ensures UpdateStatus(db, caller, id, "pending").response == Fail(BadRequest(InvalidStatus))
    ensures UpdateStatus(db, caller, id, "Shipped").response == Fail(BadRequest(InvalidStatus))
  {
    assert "pending" != Pending && "pending" != Processing && "pending" != Completed && "pending" != Cancelled;
    assert "Shipped" != Pending && "Shipped" != Processing && "Shipped" != Completed && "Shipped" != Cancelled;
  }

  /**
   * Two frames at 1000.00 and a mount at 200.00: the stored total is 2200.00
   * even though the client claimed 1.00, and the stored prices are the catalog's.
   */
  lemma CreatePricesFromCatalog()
    ensures var products := map[1 := Product(1, Some("Frame"), Some("Acme"), None, 100000, None, 1),
                                2 := Product(2, Some("Mount"), Some("Acme"), None, 20000, None, 1)];
      var db := Db(map[], products, map[]);
      var caller := Authenticated(Some("u1"), {});
      var req := OrderRequest(0, 0, Some("A"), Some("a@b.c"), Some("9876543210"), Some("Street"), 100, Cancelled,
                              Some("someone-else"),
                              Some([LineRequest(0, 1, 2, 1), LineRequest(0, 2, 1, 1)]));
      var r := Create(db, caller, req, 7, 42);
      && r.response.Created?
      && r.response.value.totalAmount == 220000
      && r.response.value.status == Pending
      && r.response.value.userId == Some("u1")
      && r.response.value.items[0].unitPrice == 100000
  {
    var products := map[1 := Product(1, Some("Frame"), Some("Acme"), None, 100000, None, 1),
                        2 := Product(2, Some("Mount"), Some("Acme"), None, 20000, None, 1)];
    var lines := [LineRequest(0, 1, 2, 1), LineRequest(0, 2, 1, 1)];
    var p := PriceLines(lines, products, 7);
    assert p.Priced?;
    assert p.items == [OrderItem(0, 1, 2, 100000, 7), OrderItem(0, 2, 1, 20000, 7)];
    assert LineTotal(p.items) == 220000;
  }

  /** A line naming a product that is not in the catalog rejects the whole order. */
  lemma CreateRejectsUnknownProduct()
    ensures var products := map[1 := Product(1, Some("Frame"), Some("Acme"), None, 100000, None, 1)];
      var db := Db(map[], products, map[]);
      var req := OrderRequest(0, 0, None, None, None, None, 0, Pending, None,
                              Some([LineRequest(0, 1, 1, 0), LineRequest(0, 9, 1, 0)]));
      Create(db, Authenticated(Some("u1"), {}), req, 7, 42) == Reply(Fail(BadRequest(InvalidProductId(9))), db)
  {
    var products := map[1 := Product(1, Some("Frame"), Some("Acme"), None, 100000, None, 1)];
    var lines := [LineRequest(0, 1, 1, 0), LineRequest(0, 9, 1, 0)];
    assert lines[1..] == [LineRequest(0, 9, 1, 0)];
    assert PriceLines(lines[1..], products, 7) == UnknownProduct(9);
  }

  /**
   * A frame at 10,000,000.00 ordered a billion times costs 10^16 currency
   * units, one minor unit past `decimal(18,2)`: the save fails with 500 and
   * nothing is written. One frame fewer than a billion fits and is stored.
   */
  lemma CreateOverflowingTotalFails()
    ensures var products := map[1 := Product(1, Some("Frame"), None, None, 1_000_000_000, None, 1)];
      var db := Db(map[], products, map[]);
      var caller := Authenticated(Some("u1"), {});
      var big := OrderRequest(0, 0, None, None, None, None, 0, Pending, None, Some([LineRequest(0, 1, 1_000_000_000, 0)]));
      var fits := OrderRequest(0, 0, None, None, None, None, 0, Pending, None, Some([LineRequest(0, 1, 999_999_999, 0)]));
      && Create(db, caller, big, 7, 42) == Reply(Fail(ServerError), db)
      && Create(db, caller, fits, 7, 42).response.Created?
      && Create(db, caller, fits, 7, 42).response.value.totalAmount == 999_999_999_000_000_000
  {
    var products := map[1 := Product(1, Some("Frame"), None, None, 1_000_000_000, None, 1)];
    assert CatalogTotal([LineRequest(0, 1, 1_000_000_000, 0)], products) == 1_000_000_000_000_000_000;
    assert CatalogTotal([LineRequest(0, 1, 999_999_999, 0)], products) == 999_999_999_000_000_000;
  }
}
