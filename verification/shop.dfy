/**
 * The storefront's shop page: the client-side search and price sort over
 * the loaded products, the three-state sort toggle, and the pager state
 * around the server's product listing and category lookups.
 */
module Shop {
  import opened Wrappers
  import opened Text
  import opened Seqs
  import opened Paging

  datatype ShopProduct = ShopProduct(id: int, name: string, brand: string, price: int)

  /** The sort toggle's three states: "", "low-high", "high-low". */
  datatype SortMode = Unsorted | LowHigh | HighLow

  /** toggleSort: "" -> "low-high" -> "high-low" -> "". */
  function Toggle(m: SortMode): (r: SortMode)
    ensures r != m
  {
    match m
    case Unsorted => LowHigh
    case LowHigh => HighLow
    case HighLow => Unsorted
  }

  lemma ToggleThriceIsIdentity(m: SortMode)
    ensures Toggle(Toggle(Toggle(m))) == m
    ensures Toggle(m) != m && Toggle(Toggle(m)) != m
  {
  }

  /** The search box: the lowercased name contains the lowercased term. */
  predicate NameMatches(p: ShopProduct, term: string) {
    Contains(Lower(p.name), Lower(term))
  }

  function Matching(term: string): ShopProduct -> bool {
    (p: ShopProduct) => NameMatches(p, term)
  }

  /**
   * The comparator as "may come first": the stable sort with `a.price - b.price`
   * puts `a` first when its price is not larger, `b.price - a.price` when it
   * is not smaller, and a constant 0 keeps every pair where it is.
   */
  function ModeOrder(m: SortMode): (ShopProduct, ShopProduct) -> bool {
    match m
    case Unsorted => (a: ShopProduct, b: ShopProduct) => true
    case LowHigh => (a: ShopProduct, b: ShopProduct) => a.price <= b.price
    case HighLow => (a: ShopProduct, b: ShopProduct) => a.price >= b.price
  }

  lemma ModeOrderIsTotalPreorder(m: SortMode)
    ensures TotalPreorder(ModeOrder(m))
  {
  }

  /** The constant-0 comparator leaves the list as it is. */
  lemma UnsortedKeepsOrder(s: seq<ShopProduct>)
    ensures SortBy(s, ModeOrder(Unsorted)) == s
  {
    SortBySortedIsIdentity(s, ModeOrder(Unsorted));
  }

  /** filteredProducts: the matching products, then stably sorted by the mode. */
  function Visible(products: seq<ShopProduct>, term: string, m: SortMode): (r: seq<ShopProduct>)
    ensures multiset(r) == multiset(Filter(products, Matching(term)))
    ensures forall p :: p in r <==> p in products && NameMatches(p, term)
    ensures m == Unsorted ==> r == Filter(products, Matching(term))
    ensures m == LowHigh ==> forall i, j :: 0 <= i < j < |r| ==> r[i].price <= r[j].price
    ensures m == HighLow ==> forall i, j :: 0 <= i < j < |r| ==> r[i].price >= r[j].price
  {
    var matching := Filter(products, Matching(term));
    var r := SortBy(matching, ModeOrder(m));
    ModeOrderIsTotalPreorder(m);
    SortBySorted(matching, ModeOrder(m));
    UnsortedKeepsOrder(matching);
    assert forall p :: p in r <==> p in multiset(r);
    assert forall p :: p in matching <==> p in multiset(matching);
    r
  }

  /** An empty search keeps everything. */
  lemma EmptyTermMatchesAll(products: seq<ShopProduct>, m: SortMode)
    ensures |Visible(products, "", m)| == |products|
  {
    forall p | p in products ensures NameMatches(p, "") {
      assert OccursAt(Lower(p.name), Lower(""), 0);
    }
    FilterEverything(products, Matching(""));
  }

  lemma {:induction false} FilterEverything<T(!new)>(s: seq<T>, p: T -> bool)
    requires forall x :: x in s ==> p(x)
    ensures Filter(s, p) == s
  {
    if s != [] {
      assert forall x :: x in s[1..] ==> x in s;
      FilterEverything(s[1..], p);
    }
  }

  // ---------------------------------------------------------------------------
  // Pager

  /** The Prev button: one page back, never below 1. */
  function Prev(page: int): (r: int)
    ensures r >= 1
    ensures page > 1 ==> r == page - 1
    ensures page <= 2 ==> r == 1
  {
    if page - 1 > 1 then page - 1 else 1
  }

  /** The Next button: one page on, never beyond the last. */
  function Next(page: int, totalPages: int): (r: int)
    ensures r <= totalPages
    ensures page < totalPages ==> r == page + 1
    ensures page >= totalPages ==> r == totalPages
  {
    if page + 1 < totalPages then page + 1 else totalPages
  }

  lemma PagerStaysInRange(page: int, totalPages: int)
    requires 1 <= page <= totalPages
    ensures 1 <= Prev(page) <= totalPages
    ensures 1 <= Next(page, totalPages) <= totalPages
    ensures Prev(Next(page, totalPages)) <= page && page <= Next(Prev(page), totalPages)
  {
  }

  /** The page's product state: what is shown, the pager, and the selected category. */
  datatype ShopState = ShopState(
    products: seq<ShopProduct>,
    currentPage: int,
    totalPages: int,
    selectedCategory: Option<string>)

  /**
   * The category filter as the page tests it: `!selectedCategoryName` holds
   * for no selection and for the empty name alike, since "" is falsy.
   */
  predicate NoCategory(selected: Option<string>) {
    selected.None? || selected.value == ""
  }

  /**
   * The pager is rendered when no category is selected in the page's sense
   * (none, or a name that trimmed to "") and there is more than one page.
   */
  function PagerShown(s: ShopState): (shown: bool)
    ensures shown ==> s.totalPages > 1
    ensures s.selectedCategory.Some? && s.selectedCategory.value != "" ==> !shown
    ensures s.selectedCategory.None? ==> (shown <==> s.totalPages > 1)
  {
    NoCategory(s.selectedCategory) && s.totalPages > 1
  }

  /**
   * Choosing a category, as evidently intended. The filter passes the
   * category's trimmed name. A name left empty by trimming is falsy, so the
   * page takes the "All" path with it: page 1 of the whole catalog, counter
   * reset as `SelectAll` does, the pager as for the unfiltered listing. Any
   * other name is selected and its products are shown on page 1 of 1,
   * whatever page the shop was on. The lookup never fails as far as the page
   * can tell: on an error it answers `[]`, so `fetched` is always a list.
   */
  function SelectCategory(s: ShopState, name: string, fetched: seq<ShopProduct>,
                          page1: Listing<ShopProduct>): (r: ShopState)
    ensures r.selectedCategory == Some(name) && r.currentPage == 1
    ensures name != "" ==> r.products == fetched && r.totalPages == 1
    ensures name == "" ==> r.products == page1.data && r.totalPages == page1.totalPages
    ensures PagerShown(r) <==> name == "" && page1.totalPages > 1
  {
    if name == "" then SelectAll(s, page1).(selectedCategory := Some(name))
    else ShopState(fetched, 1, 1, Some(name))
  }

  /**
   * Choosing a category as written. An empty name takes the "All" path,
   * which fetches page 1 and leaves the counter where it was. Otherwise the
   * lookup's answer is shown on page 1 of 1; when the shop was on a later
   * page, resetting the counter re-runs the page effect, whose
   * `fetchAllProducts(1)` answers after the lookup and replaces the
   * category's products with page 1 of the whole catalog.
   */
  function SelectCategoryAsWritten(s: ShopState, name: string, fetched: seq<ShopProduct>,
                                   page1: Listing<ShopProduct>): (r: ShopState)
    ensures r.selectedCategory == Some(name)
    ensures name == "" ==>
      && r.products == page1.data && r.totalPages == page1.totalPages && r.currentPage == s.currentPage
      && (PagerShown(r) <==> page1.totalPages > 1)
    ensures name != "" ==> !PagerShown(r) && r.currentPage == 1
    ensures name != "" && s.currentPage == 1 ==> r.products == fetched && r.totalPages == 1
    ensures name != "" && s.currentPage != 1 ==> r.products == page1.data && r.totalPages == page1.totalPages
  {
    if name == "" then SelectAllAsWritten(s, page1).(selectedCategory := Some(name))
    else
      var shown := SelectCategory(s, name, fetched, page1);
      if s.currentPage == 1 then shown
      else shown.(products := page1.data, totalPages := page1.totalPages)
  }

  /**
   * A category whose name trims to "" is, on screen, the "All" choice: the
   * same products, counter, page count and pager, as written and as corrected.
   */
  lemma BlankCategoryIsAll(s: ShopState, fetched: seq<ShopProduct>, page1: Listing<ShopProduct>)
    ensures var r := SelectCategoryAsWritten(s, "", fetched, page1);
      var a := SelectAllAsWritten(s, page1);
      r.products == a.products && r.currentPage == a.currentPage && r.totalPages == a.totalPages
      && PagerShown(r) == PagerShown(a)
    ensures var r := SelectCategory(s, "", fetched, page1);
      var a := SelectAll(s, page1);
      r.products == a.products && r.currentPage == a.currentPage && r.totalPages == a.totalPages
      && PagerShown(r) == PagerShown(a)
  {
  }

  /**
   * On page 2 of the catalog, choosing a non-empty category as written ends
   * with page 1 of the catalog on screen under the category's name; the
   * corrected step shows the category's products. From page 1 the two agree,
   * and for the empty name both show page 1 of the catalog.
   */
  lemma SelectCategoryFromLaterPageShowsCatalog(s: ShopState, name: string, fetched: seq<ShopProduct>,
                                                page1: Listing<ShopProduct>)
    requires s.currentPage == 2 && page1.data != fetched
    ensures SelectCategoryAsWritten(s, name, fetched, page1).products == page1.data
    ensures name != "" ==>
      SelectCategoryAsWritten(s, name, fetched, page1).products != SelectCategory(s, name, fetched, page1).products
    ensures name == "" ==>
      SelectCategoryAsWritten(s, name, fetched, page1).products == SelectCategory(s, name, fetched, page1).products
    ensures SelectCategoryAsWritten(s.(currentPage := 1), name, fetched, page1) == SelectCategory(s, name, fetched, page1)
  {
  }

  /**
   * After choosing a non-empty category the pager is hidden and both of its
   * buttons would stay on the one page; after the empty name it is the
   * unfiltered listing's pager.
   */
  lemma CategoryViewIsOnePage(s: ShopState, name: string, fetched: seq<ShopProduct>, page1: Listing<ShopProduct>)
    ensures var r := SelectCategory(s, name, fetched, page1);
      && (name != "" ==>
            && !PagerShown(r)
            && Prev(r.currentPage) == r.currentPage
            && Next(r.currentPage, r.totalPages) == r.currentPage)
      && (name == "" ==> (PagerShown(r) <==> page1.totalPages > 1))
  {
  }

  /**
   * Choosing "All" as written: page 1 of the listing is fetched and shown,
   * but the page counter is left where it was. The fetch never fails as far
   * as the page can tell: on an error the service answers an empty page 1 of 1.
   */
  function SelectAllAsWritten(s: ShopState, page1: Listing<ShopProduct>): (r: ShopState)
    ensures r.selectedCategory.None? && r.currentPage == s.currentPage
    ensures r.products == page1.data && r.totalPages == page1.totalPages
  {
    s.(products := page1.data, totalPages := page1.totalPages, selectedCategory := None)
  }

  /** Choosing "All" with the counter reset along with the fetch, so the label names the page shown. */
  function SelectAll(s: ShopState, page1: Listing<ShopProduct>): (r: ShopState)
    ensures r.selectedCategory.None?
    ensures r.products == page1.data && r.totalPages == page1.totalPages
    ensures r.currentPage == 1
  {
    ShopState(page1.data, 1, page1.totalPages, None)
  }

  /**
   * On page 3 of the unfiltered listing, choosing "All" as written shows
   * page 1's products under the label "Page 3"; with the reset it says page 1.
   */
  lemma SelectAllLabelsWrongPage(s: ShopState, l: Listing<ShopProduct>)
    requires s.currentPage == 3 && l.currentPage == 1
    ensures SelectAllAsWritten(s, l).currentPage != l.currentPage
    ensures SelectAll(s, l).currentPage == l.currentPage
  {
  }
}
