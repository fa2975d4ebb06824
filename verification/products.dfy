/**
 * ProductsController: the public catalog listing and lookups, and the
 * administrator's create/update/delete with their validation order.
 */
module ProductsController {
  import opened Wrappers
  import opened Text
  import opened Seqs
  import opened Paging
  import opened Models
  import opened Api

  // ---------------------------------------------------------------------------
  // Listing

  /**
   * `a` may be listed before `b`: the key is chosen by `sortBy` ignoring case
   * ("price", "brand", anything else is the name) and the direction is
   * descending only for a `sortOrder` of exactly "desc". Brand and name are
   * nullable columns, ordered NULL first by the collation `collate`.
   */
  predicate ListedBefore(a: Product, b: Product, sortBy: string, sortOrder: string, collate: (string, string) -> bool) {
    var desc := sortOrder == "desc";
    var key := Lower(sortBy);
    if key == "price" then
      (if desc then b.price <= a.price else a.price <= b.price)
    else if key == "brand" then
      (if desc then NullsFirst(b.brand, a.brand, collate) else NullsFirst(a.brand, b.brand, collate))
    else
      (if desc then NullsFirst(b.name, a.name, collate) else NullsFirst(a.name, b.name, collate))
  }

  function ProductComparer(sortBy: string, sortOrder: string, collate: (string, string) -> bool): (Product, Product) -> bool {
    (a: Product, b: Product) => ListedBefore(a, b, sortBy, sortOrder, collate)
  }

  lemma NullsFirstIsTotalPreorder(x: Option<string>, y: Option<string>, z: Option<string>, collate: (string, string) -> bool)
    requires TotalPreorder(collate)
    ensures NullsFirst(x, y, collate) || NullsFirst(y, x, collate)
    ensures NullsFirst(x, y, collate) && NullsFirst(y, z, collate) ==> NullsFirst(x, z, collate)
  {
    if x.Some? && y.Some? {
      assert collate(x.value, y.value) || collate(y.value, x.value);
      if z.Some? {
        assert collate(x.value, y.value) && collate(y.value, z.value) ==> collate(x.value, z.value);
      }
    }
  }

  lemma ProductComparerIsTotalPreorder(sortBy: string, sortOrder: string, collate: (string, string) -> bool)
    requires TotalPreorder(collate)
    ensures TotalPreorder(ProductComparer(sortBy, sortOrder, collate))
  {
    var le := ProductComparer(sortBy, sortOrder, collate);
    forall a, b ensures le(a, b) || le(b, a) {
      NullsFirstIsTotalPreorder(a.brand, b.brand, b.brand, collate);
      NullsFirstIsTotalPreorder(a.name, b.name, b.name, collate);
    }
    forall a, b, c | le(a, b) && le(b, c) ensures le(a, c) {
      NullsFirstIsTotalPreorder(a.brand, b.brand, c.brand, collate);
      NullsFirstIsTotalPreorder(c.brand, b.brand, a.brand, collate);
      NullsFirstIsTotalPreorder(a.name, b.name, c.name, collate);
      NullsFirstIsTotalPreorder(c.name, b.name, a.name, collate);
    }
  }

  /** The whole catalog in listing order, before paging. */
  function ProductListing(products: map<int, Product>, sortBy: string, sortOrder: string,
                          collate: (string, string) -> bool): seq<Product>
  {
    SortBy(Rows(products), ProductComparer(sortBy, sortOrder, collate))
  }

  /**
   * `l` is page `page` of the catalog: the counts are those of the whole
   * catalog, every row is a stored product, the rows are in listing order,
   * and row `i` is row `(page - 1) * pageSize + i` of the listing.
   */
  ghost predicate IsProductPage(l: Listing<Product>, products: map<int, Product>, page: int, pageSize: int,
                                sortBy: string, sortOrder: string, collate: (string, string) -> bool)
    requires page >= 1 && pageSize > 0
  {
    && l.totalItems == |products|
    && IsPageCount(l.totalPages, l.totalItems, pageSize)
    && l.currentPage == page && l.pageSize == pageSize
    && |l.data| == PageLength(l.totalItems, page, pageSize)
    && (forall p :: p in l.data ==> p in products.Values)
    && (forall i, j :: 0 <= i < j < |l.data| ==> ListedBefore(l.data[i], l.data[j], sortBy, sortOrder, collate))
    && IsPageOf(l.data, ProductListing(products, sortBy, sortOrder, collate), page, pageSize)
  }

  lemma ProductListingFacts(products: map<int, Product>, sortBy: string, sortOrder: string,
                            collate: (string, string) -> bool)
    requires TotalPreorder(collate)
    ensures var l := ProductListing(products, sortBy, sortOrder, collate);
      && |l| == |products|
      && (forall p :: p in l <==> p in products.Values)
      && Sorted(l, ProductComparer(sortBy, sortOrder, collate))
  {
    var listing := ProductListing(products, sortBy, sortOrder, collate);
    ProductComparerIsTotalPreorder(sortBy, sortOrder, collate);
    SortBySorted(Rows(products), ProductComparer(sortBy, sortOrder, collate));
    forall p ensures p in listing <==> p in products.Values {
      assert p in listing <==> p in multiset(listing);
      assert p in Rows(products) <==> p in multiset(Rows(products));
    }
  }

  lemma ProductPageFacts(products: map<int, Product>, page: int, pageSize: int, sortBy: string, sortOrder: string,
                         collate: (string, string) -> bool)
    requires page >= 1 && pageSize > 0
    requires TotalPreorder(collate)
    ensures IsProductPage(Paginate(ProductListing(products, sortBy, sortOrder, collate), page, pageSize),
                          products, page, pageSize, sortBy, sortOrder, collate)
  {
    var listing := ProductListing(products, sortBy, sortOrder, collate);
    var le := ProductComparer(sortBy, sortOrder, collate);
    ProductListingFacts(products, sortBy, sortOrder, collate);
    PaginateFacts(listing, page, pageSize, le);
    SortedIsListedBefore(Paginate(listing, page, pageSize).data, sortBy, sortOrder, collate);
  }

  /** A sequence sorted by the comparer has every pair in listing order. */
  lemma SortedIsListedBefore(data: seq<Product>, sortBy: string, sortOrder: string, collate: (string, string) -> bool)
    requires Sorted(data, ProductComparer(sortBy, sortOrder, collate))
    ensures forall i, j :: 0 <= i < j < |data| ==> ListedBefore(data[i], data[j], sortBy, sortOrder, collate)
  {
    forall i, j | 0 <= i < j < |data| ensures ListedBefore(data[i], data[j], sortBy, sortOrder, collate) {
      assert ProductComparer(sortBy, sortOrder, collate)(data[i], data[j]);
    }
  }

  /**
   * GetAll (anyone): the catalog ordered by the chosen key, one page of it;
   * a page number below 1 or a page size below 1 makes the query fail.
   */
  function GetAll(db: Db, page: int, pageSize: int, sortBy: string, sortOrder: string,
                  collate: (string, string) -> bool): (r: Response<Listing<Product>>)
    requires TotalPreorder(collate)
    ensures r.Ok? <==> ValidPaging(page, pageSize)
    ensures r.Fail? ==> r.error == ServerError
    ensures r.Ok? ==> IsProductPage(r.value, db.products, page, pageSize, sortBy, sortOrder, collate)
  {
    if !ValidPaging(page, pageSize) then Fail(ServerError)
    else
      ProductPageFacts(db.products, page, pageSize, sortBy, sortOrder, collate);
      Ok(Paginate(ProductListing(db.products, sortBy, sortOrder, collate), page, pageSize))
  }

  /** GetById (anyone): the stored product or 404. */
  function GetById(db: Db, id: int): (r: Response<Product>)
    ensures r.Ok? <==> id in db.products
    ensures r.Ok? ==> r.value in db.products.Values && r.value == db.products[id]
    ensures !r.Ok? ==> r == Fail(NotFound)
  {
    if id in db.products then Ok(db.products[id]) else Fail(NotFound)
  }

  // ---------------------------------------------------------------------------
  // Administration

  /**
   * Create (administrators only): rejects a blank name, then a price that is
   * not positive, then a category id with no category; a payload that sets
   * the id is an explicit identity insert, and a price beyond `decimal(18,2)`
   * does not fit its column, so the save refuses either (500); otherwise stores the payload under `newId`, the database's identity value.
   */
  function Create(db: Db, caller: Caller, dto: Product, newId: int): (r: Reply<Product>)
    requires newId !in db.products
    ensures !r.response.Created? ==> r.db == db
    ensures !IsAdmin(caller) ==> r.response.Fail? && (r.response.error == Unauthorized <==> caller.Anonymous?)
    ensures IsAdmin(caller) && IsBlank(dto.name) ==> r.response == Fail(BadRequest(NameRequired))
    ensures IsAdmin(caller) && !IsBlank(dto.name) && dto.price <= 0 ==> r.response == Fail(BadRequest(PriceNotPositive))
    ensures IsAdmin(caller) && !IsBlank(dto.name) && dto.price > 0 && dto.categoryId !in db.categories ==>
      r.response == Fail(BadRequest(InvalidCategoryId))
    ensures (IsAdmin(caller) && !IsBlank(dto.name) && dto.price > 0 && dto.categoryId in db.categories
             && (dto.id != 0 || !FitsMoneyColumn(dto.price))) ==> r.response == Fail(ServerError)
    ensures r.response.Created? <==>
      && IsAdmin(caller) && !IsBlank(dto.name) && dto.price > 0 && dto.categoryId in db.categories && dto.id == 0
      && FitsMoneyColumn(dto.price)
    ensures r.response.Created? ==>
      && r.response.value == dto.(id := newId)
      && r.db == db.(products := db.products[newId := dto.(id := newId)])
  {
    match Authorize(caller, RequireRole(AdminRole))
    case Some(e) => Reply(Fail(e), db)
    case None =>
      if IsBlank(dto.name) then Reply(Fail(BadRequest(NameRequired)), db)
      else if dto.price <= 0 then Reply(Fail(BadRequest(PriceNotPositive)), db)
      else if dto.categoryId !in db.categories then Reply(Fail(BadRequest(InvalidCategoryId)), db)
      else if dto.id != 0 || !FitsMoneyColumn(dto.price) then Reply(Fail(ServerError), db)
      else
        var p := dto.(id := newId);
        Reply(Created(p), db.(products := db.products[newId := p]))
  }

  /**
   * Update (administrators only): rejects an id that differs from the
   * payload's, then an unknown id (404), then an unknown category, a blank
   * name, a price that is not positive; otherwise every mapped field is
   * overwritten. A price that does not fit `decimal(18,2)` is refused by
   * the save; `saved` is whether the database accepts an otherwise valid
   * write. A refused write is a 500 and leaves the store as it was.
   */
  function Update(db: Db, caller: Caller, id: int, dto: Product, saved: bool): (r: Reply<()>)
    ensures r.response != NoContent ==> r.db == db
    ensures !IsAdmin(caller) ==> r.response.Fail? && (r.response.error == Unauthorized <==> caller.Anonymous?)
    ensures IsAdmin(caller) && id != dto.id ==> r.response == Fail(BadRequest(IdMismatch))
    ensures IsAdmin(caller) && id == dto.id && id !in db.products ==> r.response == Fail(NotFound)
    ensures IsAdmin(caller) && id == dto.id && id in db.products && dto.categoryId !in db.categories ==>
      r.response == Fail(BadRequest(InvalidCategoryId))
    ensures (IsAdmin(caller) && id == dto.id && id in db.products && dto.categoryId in db.categories
             && IsBlank(dto.name)) ==> r.response == Fail(BadRequest(NameRequired))
    ensures (IsAdmin(caller) && id == dto.id && id in db.products && dto.categoryId in db.categories
             && !IsBlank(dto.name) && dto.price <= 0) ==> r.response == Fail(BadRequest(PriceNotPositive))
    ensures r.response == NoContent <==>
      && IsAdmin(caller) && id == dto.id && id in db.products && dto.categoryId in db.categories
      && !IsBlank(dto.name) && dto.price > 0 && FitsMoneyColumn(dto.price) && saved
    ensures (IsAdmin(caller) && id == dto.id && id in db.products && dto.categoryId in db.categories
             && !IsBlank(dto.name) && dto.price > 0 && !FitsMoneyColumn(dto.price)) ==> r.response == Fail(ServerError)
    ensures r.response == NoContent ==> r.db == db.(products := db.products[id := dto])
  {
    match Authorize(caller, RequireRole(AdminRole))
    case Some(e) => Reply(Fail(e), db)
    case None =>
      if id != dto.id then Reply(Fail(BadRequest(IdMismatch)), db)
      else if id !in db.products then Reply(Fail(NotFound), db)
      else if dto.categoryId !in db.categories then Reply(Fail(BadRequest(InvalidCategoryId)), db)
      else if IsBlank(dto.name) then Reply(Fail(BadRequest(NameRequired)), db)
      else if dto.price <= 0 then Reply(Fail(BadRequest(PriceNotPositive)), db)
      else if !FitsMoneyColumn(dto.price) || !saved then Reply(Fail(ServerError), db)
      else Reply(NoContent, db.(products := db.products[id := dto]))
  }

  /** Create and Update check the category first, so the foreign keys keep holding. */
  lemma WritesKeepReferences(db: Db, caller: Caller, dto: Product, newId: int, id: int, saved: bool)
    requires newId !in db.products
    requires ReferencesHold(db)
    ensures ReferencesHold(Create(db, caller, dto, newId).db)
    ensures ReferencesHold(Update(db, caller, id, dto, saved).db)
  {
  }

  /** Create and Update write only prices that fit the column, and Delete writes no amount. */
  lemma WritesKeepMoneyInColumns(db: Db, caller: Caller, dto: Product, newId: int, id: int, saved: bool)
    requires newId !in db.products
    requires MoneyInColumns(db)
    ensures MoneyInColumns(Create(db, caller, dto, newId).db)
    ensures MoneyInColumns(Update(db, caller, id, dto, saved).db)
    ensures MoneyInColumns(Delete(db, caller, id).db)
  {
  }

  /**
   * What an accepted Update stores, GetById returns; a refused one leaves
   * every product as GetById saw it before.
   */
  lemma UpdateThenGet(db: Db, caller: Caller, id: int, dto: Product, saved: bool, k: int)
    ensures var r := Update(db, caller, id, dto, saved);
      && (r.response == NoContent ==> GetById(r.db, id) == Ok(dto))
      && (r.response != NoContent ==> GetById(r.db, k) == GetById(db, k))
      && (k != id ==> GetById(r.db, k) == GetById(db, k))
  {
  }

  /**
   * Delete (administrators only): 404 for an unknown id, otherwise that
   * product goes and, through the required `ProductId` key, so does every
   * order line naming it. The orders themselves stay, stored totals included.
   */
  function Delete(db: Db, caller: Caller, id: int): (r: Reply<()>)
    ensures r.response != NoContent ==> r.db == db
    ensures !IsAdmin(caller) ==> r.response.Fail? && (r.response.error == Unauthorized <==> caller.Anonymous?)
    ensures IsAdmin(caller) && id !in db.products ==> r.response == Fail(NotFound)
    ensures r.response == NoContent <==> IsAdmin(caller) && id in db.products
    ensures r.response == NoContent ==>
      && r.db.categories == db.categories
      && r.db.products.Keys == db.products.Keys - {id}
      && (forall k :: k in r.db.products ==> r.db.products[k] == db.products[k])
      && r.db.orders.Keys == db.orders.Keys
      && (forall k :: k in db.orders ==> r.db.orders[k].(items := db.orders[k].items) == db.orders[k])
      && (forall k, it :: k in db.orders ==>
            (it in r.db.orders[k].items <==> it in db.orders[k].items && it.productId != id))
  {
    match Authorize(caller, RequireRole(AdminRole))
    case Some(e) => Reply(Fail(e), db)
    case None =>
      if id !in db.products then Reply(Fail(NotFound), db)
      else Reply(NoContent, db.(products := db.products - {id}, orders := DropLinesOf(db.orders, {id})))
  }

  /** The cascade keeps the foreign keys intact: no order line is left naming the deleted product. */
  lemma DeleteKeepsReferences(db: Db, caller: Caller, id: int)
    requires ReferencesHold(db)
    ensures ReferencesHold(Delete(db, caller, id).db)
  {
  }

  /**
   * Deleting a product that was ordered rewrites history: the order loses
   * its line but keeps the total it was placed with.
   */
  lemma DeleteOrderedProductLeavesStaleTotal()
    ensures var line := OrderItem(1, 3, 2, 10000, 5);
      var order := Order(5, 0, None, None, None, None, 20000, "Pending", Some("u1"), [line]);
      var db := Db(map[5 := order], map[3 := Product(3, Some("Frame"), None, None, 10000, None, 1)],
                   map[1 := Category(1, "Frames", None)]);
      var r := Delete(db, Authenticated(Some("a"), {AdminRole}), 3);
      && ReferencesHold(db)
      && r.response == NoContent
      && r.db.orders[5].items == []
      && r.db.orders[5].totalAmount == 20000 != LineTotal(r.db.orders[5].items)
  {
  }

  /** A product created by an administrator can be read back by anyone, and deleting it again removes it. */
  lemma CreateThenGetThenDelete(db: Db, caller: Caller, dto: Product, newId: int)
    requires ReferencesHold(db)
    requires newId !in db.products
    requires Create(db, caller, dto, newId).response.Created?
    ensures var created := Create(db, caller, dto, newId);
      && GetById(created.db, newId) == Ok(created.response.value)
      && Delete(created.db, caller, newId).db == db
  {
    var created := Create(db, caller, dto, newId);
    assert created.db.products - {newId} == db.products;
    DropNoLines(db.orders, {newId});
  }

  // ---------------------------------------------------------------------------
  // Lookups

  /** A nullable text column contains `term` ignoring case; NULL and "" never match. */
  predicate FieldMatches(field: Option<string>, term: string) {
    !IsNullOrEmpty(field) && Contains(Lower(field.value), Lower(term))
  }

  /** The product's category exists, has a non-empty name, and that name lowercased is `cleanName`. */
  predicate InCategory(categories: map<int, Category>, p: Product, cleanName: string) {
    && p.categoryId in categories
    && categories[p.categoryId].name != ""
    && Lower(categories[p.categoryId].name) == cleanName
  }

  predicate SearchMatches(p: Product, term: string) {
    FieldMatches(p.name, term) || FieldMatches(p.brand, term) || FieldMatches(p.description, term)
  }

  /** The query as the lookup compares it: surrounding white space removed, then lowercased. */
  function CleanName(name: string): (r: string)
    ensures |r| <= |name|
    ensures forall i :: 0 <= i < |r| ==> !IsUpperAscii(r[i])
  {
    Lower(Trim(name, IsDotNetSpace))
  }

  /**
   * GetByCategory (anyone): 400 for a blank name; otherwise exactly the
   * products whose category's lowercased name equals the trimmed, lowercased query.
   */
  function GetByCategory(db: Db, name: Option<string>): (r: Response<seq<Product>>)
    ensures r.Fail? <==> IsBlank(name)
    ensures r.Fail? ==> r.error == BadRequest(CategoryNameRequired)
    ensures r.Ok? ==>
      && (forall p :: p in r.value <==> p in db.products.Values && InCategory(db.categories, p, CleanName(name.value)))
      && |r.value| == |KeysWhere(db.products, (p: Product) => InCategory(db.categories, p, CleanName(name.value)))|
  {
    if IsBlank(name) then Fail(BadRequest(CategoryNameRequired))
    else
      var cleanName := CleanName(name.value);
      Ok(Where(db.products, (p: Product) => InCategory(db.categories, p, cleanName)))
  }

  /**
   * GetByBrand (anyone): 400 for a blank name; otherwise exactly the products
   * whose brand contains the query ignoring case (the query is not trimmed).
   */
  function GetByBrand(db: Db, name: Option<string>): (r: Response<seq<Product>>)
    ensures r.Fail? <==> IsBlank(name)
    ensures r.Fail? ==> r.error == BadRequest(BrandNameRequired)
    ensures r.Ok? ==> forall p :: p in r.value <==> p in db.products.Values && FieldMatches(p.brand, name.value)
    ensures r.Ok? ==> |r.value| == |KeysWhere(db.products, (p: Product) => FieldMatches(p.brand, name.value))|
  {
    if IsBlank(name) then Fail(BadRequest(BrandNameRequired))
    else Ok(Where(db.products, (p: Product) => FieldMatches(p.brand, name.value)))
  }

  /**
   * Search (anyone): 400 for a blank term; otherwise exactly the products
   * whose name, brand or description contains the term ignoring case.
   */
  function Search(db: Db, term: Option<string>): (r: Response<seq<Product>>)
    ensures r.Fail? <==> IsBlank(term)
    ensures r.Fail? ==> r.error == BadRequest(SearchTermRequired)
    ensures r.Ok? ==> forall p :: p in r.value <==> p in db.products.Values && SearchMatches(p, term.value)
    ensures r.Ok? ==> |r.value| == |KeysWhere(db.products, (p: Product) => SearchMatches(p, term.value))|
  {
    if IsBlank(term) then Fail(BadRequest(SearchTermRequired))
    else Ok(Where(db.products, (p: Product) => SearchMatches(p, term.value)))
  }

  /** Every brand hit is a search hit for the same text: search looks at the brand among other fields. */
  lemma BrandResultsAreSearchResults(db: Db, name: string)
    requires !IsBlank(Some(name))
    ensures GetByBrand(db, Some(name)).Ok? && Search(db, Some(name)).Ok?
    ensures forall p :: p in GetByBrand(db, Some(name)).value ==> p in Search(db, Some(name)).value
  {
  }

  lemma LowerKeepsBlank(s: string)
    ensures IsBlank(Some(Lower(s))) == IsBlank(Some(s))
  {
    forall i | 0 <= i < |s| ensures IsDotNetSpace(Lower(s)[i]) <==> IsDotNetSpace(s[i]) {
    }
  }

  /**
   * GetByCategory cleans the query itself: lowercasing it first, or trimming
   * it first, changes neither the 400 nor the products found.
   */
  lemma CategoryQueryIsCleaned(db: Db, name: string)
    ensures GetByCategory(db, Some(Lower(name))) == GetByCategory(db, Some(name))
    ensures GetByCategory(db, Some(Trim(name, IsDotNetSpace))) == GetByCategory(db, Some(name))
  {
    LowerKeepsBlank(name);
    TrimLowerCommute(name);
    LowerIdempotent(Trim(name, IsDotNetSpace));
    SameCleanNameSameResult(db, Lower(name), name);
    TrimKeepsBlank(name);
    TrimIdempotent(name, IsDotNetSpace);
    SameCleanNameSameResult(db, Trim(name, IsDotNetSpace), name);
  }

  /** GetByCategory sees a query only through its blankness and its cleaned form. */
  lemma SameCleanNameSameResult(db: Db, a: string, b: string)
    requires IsBlank(Some(a)) == IsBlank(Some(b))
    requires !IsBlank(Some(a)) ==> CleanName(a) == CleanName(b)
    ensures GetByCategory(db, Some(a)) == GetByCategory(db, Some(b))
  {
  }

  /** A query is blank exactly when its trimmed form is. */
  lemma TrimKeepsBlank(name: string)
    ensures IsBlank(Some(Trim(name, IsDotNetSpace))) == IsBlank(Some(name))
  {
    var t1 := TrimStart(name, IsDotNetSpace);
    var t := Trim(name, IsDotNetSpace);
    TrimEmptyIffAllSpace(name, IsDotNetSpace);
    if t != [] {
      assert t[0] == t1[0];
    }
  }

  /** Search ignores the case of the term: lowercasing it first changes nothing. */
  lemma SearchIgnoresCase(db: Db, term: string)
    ensures Search(db, Some(Lower(term))) == Search(db, Some(term))
  {
    LowerKeepsBlank(term);
    LowerIdempotent(term);
    if !IsBlank(Some(term)) {
      FilterCongruent(Rows(db.products), (p: Product) => SearchMatches(p, Lower(term)),
                      (p: Product) => SearchMatches(p, term));
    }
  }

  /** GetByBrand ignores the case of the query. */
  lemma BrandIgnoresCase(db: Db, name: string)
    ensures GetByBrand(db, Some(Lower(name))) == GetByBrand(db, Some(name))
  {
    LowerKeepsBlank(name);
    LowerIdempotent(name);
    if !IsBlank(Some(name)) {
      FilterCongruent(Rows(db.products), (p: Product) => FieldMatches(p.brand, Lower(name)),
                      (p: Product) => FieldMatches(p.brand, name));
    }
  }
}
