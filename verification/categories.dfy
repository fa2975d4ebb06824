/**
 * CategoriesController: the public category listing and lookup, and the
 * administrator's create/update/delete. No field is validated by the
 * actions themselves.
 */
module CategoriesController {
  import opened Wrappers
  import opened Text
  import opened Seqs
  import opened Paging
  import opened Models
  import opened Api

  /**
   * `a` may be listed before `b`: by id when `sortBy` is "id" ignoring case,
   * otherwise by name under the collation `collate`; descending when
   * `sortOrder` is "desc" ignoring case.
   */
  predicate ListedBefore(a: Category, b: Category, sortBy: string, sortOrder: string, collate: (string, string) -> bool) {
    var desc := Lower(sortOrder) == "desc";
    if Lower(sortBy) == "id" then
      (if desc then b.id <= a.id else a.id <= b.id)
    else
      (if desc then collate(b.name, a.name) else collate(a.name, b.name))
  }

  function CategoryComparer(sortBy: string, sortOrder: string, collate: (string, string) -> bool): (Category, Category) -> bool {
    (a: Category, b: Category) => ListedBefore(a, b, sortBy, sortOrder, collate)
  }

  lemma CategoryComparerIsTotalPreorder(sortBy: string, sortOrder: string, collate: (string, string) -> bool)
    requires TotalPreorder(collate)
    ensures TotalPreorder(CategoryComparer(sortBy, sortOrder, collate))
  {
    var le := CategoryComparer(sortBy, sortOrder, collate);
    forall a, b ensures le(a, b) || le(b, a) {
      assert collate(a.name, b.name) || collate(b.name, a.name);
    }
    forall a, b, c | le(a, b) && le(b, c) ensures le(a, c) {
      assert collate(a.name, b.name) && collate(b.name, c.name) ==> collate(a.name, c.name);
      assert collate(c.name, b.name) && collate(b.name, a.name) ==> collate(c.name, a.name);
    }
  }

  /** All categories in listing order, before paging. */
  function CategoryListing(categories: map<int, Category>, sortBy: string, sortOrder: string,
                           collate: (string, string) -> bool): seq<Category>
  {
    SortBy(Rows(categories), CategoryComparer(sortBy, sortOrder, collate))
  }

  lemma CategoryListingFacts(categories: map<int, Category>, sortBy: string, sortOrder: string,
                             collate: (string, string) -> bool)
    requires TotalPreorder(collate)
    ensures var l := CategoryListing(categories, sortBy, sortOrder, collate);
      && |l| == |categories|
      && (forall c :: c in l <==> c in categories.Values)
      && Sorted(l, CategoryComparer(sortBy, sortOrder, collate))
  {
    var listing := CategoryListing(categories, sortBy, sortOrder, collate);
    CategoryComparerIsTotalPreorder(sortBy, sortOrder, collate);
    SortBySorted(Rows(categories), CategoryComparer(sortBy, sortOrder, collate));
    forall c ensures c in listing <==> c in categories.Values {
      assert c in listing <==> c in multiset(listing);
      assert c in Rows(categories) <==> c in multiset(Rows(categories));
    }
  }

  /**
   * `l` is page `pageNumber` of all categories, in listing order, with the
   * counts of the whole table: row `i` is row `(pageNumber - 1) * pageSize + i`
   * of the listing.
   */
  ghost predicate IsCategoryPage(l: Listing<Category>, categories: map<int, Category>, pageNumber: int, pageSize: int,
                                 sortBy: string, sortOrder: string, collate: (string, string) -> bool)
    requires pageNumber >= 1 && pageSize > 0
  {
    && l.totalItems == |categories|
    && IsPageCount(l.totalPages, l.totalItems, pageSize)
    && l.currentPage == pageNumber && l.pageSize == pageSize
    && |l.data| == PageLength(l.totalItems, pageNumber, pageSize)
    && (forall c :: c in l.data ==> c in categories.Values)
    && (forall i, j :: 0 <= i < j < |l.data| ==> ListedBefore(l.data[i], l.data[j], sortBy, sortOrder, collate))
    && IsPageOf(l.data, CategoryListing(categories, sortBy, sortOrder, collate), pageNumber, pageSize)
  }

  lemma CategoryPageFacts(categories: map<int, Category>, pageNumber: int, pageSize: int, sortBy: string,
                          sortOrder: string, collate: (string, string) -> bool)
    requires pageNumber >= 1 && pageSize > 0
    requires TotalPreorder(collate)
    ensures IsCategoryPage(Paginate(CategoryListing(categories, sortBy, sortOrder, collate), pageNumber, pageSize),
                           categories, pageNumber, pageSize, sortBy, sortOrder, collate)
  {
    var listing := CategoryListing(categories, sortBy, sortOrder, collate);
    var le := CategoryComparer(sortBy, sortOrder, collate);
    CategoryListingFacts(categories, sortBy, sortOrder, collate);
    PaginateFacts(listing, pageNumber, pageSize, le);
    SortedIsListedBefore(Paginate(listing, pageNumber, pageSize).data, sortBy, sortOrder, collate);
  }

  /** A sequence sorted by the comparer has every pair in listing order. */
  lemma SortedIsListedBefore(data: seq<Category>, sortBy: string, sortOrder: string, collate: (string, string) -> bool)
    requires Sorted(data, CategoryComparer(sortBy, sortOrder, collate))
    ensures forall i, j :: 0 <= i < j < |data| ==> ListedBefore(data[i], data[j], sortBy, sortOrder, collate)
  {
    forall i, j | 0 <= i < j < |data| ensures ListedBefore(data[i], data[j], sortBy, sortOrder, collate) {
      assert CategoryComparer(sortBy, sortOrder, collate)(data[i], data[j]);
    }
  }

  /**
   * GetAll (anyone): the categories ordered by the chosen key, one page of
   * them; a page number below 1 or a page size below 1 makes the query fail.
   */
  function GetAll(db: Db, pageNumber: int, pageSize: int, sortBy: string, sortOrder: string,
                  collate: (string, string) -> bool): (r: Response<Listing<Category>>)
    requires TotalPreorder(collate)
    ensures r.Ok? <==> ValidPaging(pageNumber, pageSize)
    ensures r.Fail? ==> r.error == ServerError
    ensures r.Ok? ==> IsCategoryPage(r.value, db.categories, pageNumber, pageSize, sortBy, sortOrder, collate)
  {
    if !ValidPaging(pageNumber, pageSize) then Fail(ServerError)
    else
      CategoryPageFacts(db.categories, pageNumber, pageSize, sortBy, sortOrder, collate);
      Ok(Paginate(CategoryListing(db.categories, sortBy, sortOrder, collate), pageNumber, pageSize))
  }

  /** GetById (anyone): the stored category or 404. */
  function GetById(db: Db, id: int): (r: Response<Category>)
    ensures r.Ok? <==> id in db.categories
    ensures r.Ok? ==> r.value == db.categories[id]
    ensures !r.Ok? ==> r == Fail(NotFound)
  {
    if id in db.categories then Ok(db.categories[id]) else Fail(NotFound)
  }

  /**
   * Create (administrators only): stores the payload unvalidated under
   * `newId`, the identity value. A payload that sets the id is an explicit
   * identity insert, which the save refuses (500).
   */
  function Create(db: Db, caller: Caller, dto: Category, newId: int): (r: Reply<Category>)
    requires newId !in db.categories
    ensures !r.response.Created? ==> r.db == db
    ensures !IsAdmin(caller) ==> r.response.Fail? && (r.response.error == Unauthorized <==> caller.Anonymous?)
    ensures IsAdmin(caller) && dto.id != 0 ==> r.response == Fail(ServerError)
    ensures r.response.Created? <==> IsAdmin(caller) && dto.id == 0
    ensures r.response.Created? ==>
      && r.response.value == dto.(id := newId)
      && r.db == db.(categories := db.categories[newId := dto.(id := newId)])
  {
    match Authorize(caller, RequireRole(AdminRole))
    case Some(e) => Reply(Fail(e), db)
    case None =>
      if dto.id != 0 then Reply(Fail(ServerError), db)
      else
        var c := dto.(id := newId);
        Reply(Created(c), db.(categories := db.categories[newId := c]))
  }

  /**
   * Update (administrators only): 400 when the route id differs from the
   * payload's, checked before existence; 404 for an unknown id; otherwise
   * the stored category takes the payload's fields and nothing else changes.
   */
  function Update(db: Db, caller: Caller, id: int, dto: Category): (r: Reply<()>)
    ensures r.response != NoContent ==> r.db == db
    ensures !IsAdmin(caller) ==> r.response.Fail? && (r.response.error == Unauthorized <==> caller.Anonymous?)
    ensures IsAdmin(caller) && id != dto.id ==> r.response == Fail(BadRequest(IdMismatch))
    ensures IsAdmin(caller) && id == dto.id && id !in db.categories ==> r.response == Fail(NotFound)
    ensures r.response == NoContent <==> IsAdmin(caller) && id == dto.id && id in db.categories
    ensures r.response == NoContent ==>
      && r.db.orders == db.orders && r.db.products == db.products
      && r.db.categories.Keys == db.categories.Keys
      && r.db.categories[id] == dto
      && forall k :: k in db.categories && k != id ==> r.db.categories[k] == db.categories[k]
  {
    match Authorize(caller, RequireRole(AdminRole))
    case Some(e) => Reply(Fail(e), db)
    case None =>
      if id != dto.id then Reply(Fail(BadRequest(IdMismatch)), db)
      else if id !in db.categories then Reply(Fail(NotFound), db)
      else Reply(NoContent, db.(categories := db.categories[id := dto]))
  }

  /**
   * A category created by an administrator reads back as the payload under
   * its new id; any other id reads as before.
   */
  lemma CreateThenGet(db: Db, caller: Caller, dto: Category, newId: int, k: int)
    requires newId !in db.categories
    ensures var r := Create(db, caller, dto, newId);
      && (r.response.Created? ==> GetById(r.db, newId) == Ok(dto.(id := newId)))
      && (k != newId ==> GetById(r.db, k) == GetById(db, k))
      && (IsAdmin(caller) && dto.id == 0 ==> r.response.Created?)
  {
  }

  /** The ids of the stored products filed under category `id`. */
  function ProductsIn(products: map<int, Product>, id: int): (ks: set<int>)
    ensures forall k :: k in ks <==> k in products && products[k].categoryId == id
  {
    set k | k in products && products[k].categoryId == id
  }

  /**
   * Delete (administrators only): 404 for an unknown id, otherwise that
   * category goes. Through the required `CategoryId` key its products go
   * too, and through `ProductId` every order line naming one of them; the
   * orders themselves stay, stored totals included.
   */
  function Delete(db: Db, caller: Caller, id: int): (r: Reply<()>)
    ensures r.response != NoContent ==> r.db == db
    ensures !IsAdmin(caller) ==> r.response.Fail? && (r.response.error == Unauthorized <==> caller.Anonymous?)
    ensures IsAdmin(caller) && id !in db.categories ==> r.response == Fail(NotFound)
    ensures r.response == NoContent <==> IsAdmin(caller) && id in db.categories
    ensures r.response == NoContent ==>
      && r.db.categories.Keys == db.categories.Keys - {id}
      && (forall k :: k in r.db.categories ==> r.db.categories[k] == db.categories[k])
      && (forall k :: k in r.db.products <==> k in db.products && db.products[k].categoryId != id)
      && (forall k :: k in r.db.products ==> r.db.products[k] == db.products[k])
      && r.db.orders.Keys == db.orders.Keys
      && (forall k :: k in db.orders ==> r.db.orders[k].(items := db.orders[k].items) == db.orders[k])
      && (forall k, it :: k in db.orders ==>
            (it in r.db.orders[k].items <==>
               it in db.orders[k].items && !(it.productId in db.products && db.products[it.productId].categoryId == id)))
  {
    match Authorize(caller, RequireRole(AdminRole))
    case Some(e) => Reply(Fail(e), db)
    case None =>
      if id !in db.categories then Reply(Fail(NotFound), db)
      else
        var gone := ProductsIn(db.products, id);
        Reply(NoContent, Db(DropLinesOf(db.orders, gone), db.products - gone, db.categories - {id}))
  }

  /** The cascade keeps the foreign keys intact: no product or order line is left pointing at what went. */
  lemma DeleteKeepsReferences(db: Db, caller: Caller, id: int)
    requires ReferencesHold(db)
    ensures ReferencesHold(Delete(db, caller, id).db)
  {
  }

  /** What Update stores is what GetById then returns; a deleted category is then 404. */
  lemma UpdateThenGetDeleteThenGet(db: Db, caller: Caller, dto: Category)
    requires IsAdmin(caller) && dto.id in db.categories
    ensures GetById(Update(db, caller, dto.id, dto).db, dto.id) == Ok(dto)
    ensures GetById(Delete(db, caller, dto.id).db, dto.id) == Fail(NotFound)
  {
  }
}
