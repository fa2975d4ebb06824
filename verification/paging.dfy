/**
 * The paging arithmetic shared by the three listing endpoints:
 * `totalPages = ceil(totalItems / pageSize)` and `Skip((page - 1) * pageSize).Take(pageSize)`.
 * The controllers do not validate `page >= 1` or `pageSize > 0`: other values
 * reach the database as a negative OFFSET or a FETCH of no rows, which SQL
 * Server rejects, so the request fails (see `ValidPaging`).
 */
module Paging {
  import opened Seqs

  /** The envelope the listing endpoints return. */
  datatype Listing<T> = Listing(
    totalItems: nat,
    totalPages: nat,
    currentPage: int,
    pageSize: int,
    data: seq<T>)

  /** A page number and size whose OFFSET and FETCH SQL Server accepts. */
  predicate ValidPaging(page: int, pageSize: int) {
    page >= 1 && pageSize > 0
  }

  /** Packs page `page` of an already filtered and ordered listing into its envelope. */
  function Paginate<T>(s: seq<T>, page: int, pageSize: int): Listing<T>
    requires page >= 1 && pageSize > 0
  {
    Listing(|s|, TotalPages(|s|, pageSize), page, pageSize, Page(s, page, pageSize))
  }

  /** `pages` is the ceiling of `items / pageSize`: the pages hold every item, and one page fewer would not. */
  predicate IsPageCount(pages: nat, items: nat, pageSize: int) {
    pages * pageSize >= items && (pages == 0 || (pages - 1) * pageSize < items)
  }

  /** `(int)Math.Ceiling(totalItems / (double)pageSize)`, computed exactly. */
  function TotalPages(totalItems: nat, pageSize: int): (pages: nat)
    requires pageSize > 0
    ensures pages * pageSize >= totalItems
    ensures pages == 0 || (pages - 1) * pageSize < totalItems
    ensures IsPageCount(pages, totalItems, pageSize)
  {
    var q := (totalItems + pageSize - 1) / pageSize;
    assert q * pageSize >= totalItems;
    assert q > 0 ==> (q - 1) * pageSize < totalItems;
    q
  }

  /** Number of elements of an `n`-element listing that fall on `page`. */
  function PageLength(n: nat, page: int, pageSize: int): (len: nat)
    requires page >= 1 && pageSize > 0
    ensures len <= pageSize
    ensures len > 0 <==> (page - 1) * pageSize < n
  {
    var skip := (page - 1) * pageSize;
    MulMono(page - 1, 0, pageSize);
    if skip >= n then 0 else if n - skip < pageSize then n - skip else pageSize
  }

  /** One page of a listing: skip `(page - 1) * pageSize`, take `pageSize`. */
  function Page<T>(s: seq<T>, page: int, pageSize: int): (r: seq<T>)
    requires page >= 1 && pageSize > 0
    ensures |r| == PageLength(|s|, page, pageSize)
    ensures forall i :: 0 <= i < |r| ==> r[i] == s[(page - 1) * pageSize + i]
  {
    var skip := (page - 1) * pageSize;
    MulMono(page - 1, 0, pageSize);
    if skip >= |s| then [] else if |s| - skip < pageSize then s[skip..] else s[skip..skip + pageSize]
  }

  /** `data` is the skip/take slice of `s` for `page`: row `i` is row `(page - 1) * pageSize + i` of `s`. */
  ghost predicate IsPageOf<T>(data: seq<T>, s: seq<T>, page: int, pageSize: int) {
    forall i :: 0 <= i < |data| ==> 0 <= (page - 1) * pageSize + i < |s| && data[i] == s[(page - 1) * pageSize + i]
  }

  lemma PageIsPageOf<T>(s: seq<T>, page: int, pageSize: int)
    requires page >= 1 && pageSize > 0
    ensures IsPageOf(Page(s, page, pageSize), s, page, pageSize)
  {
  }

  /** Pages 1..k of a listing, concatenated. */
  function FirstPages<T>(s: seq<T>, pageSize: int, k: nat): seq<T>
    requires pageSize > 0
  {
    if k == 0 then [] else FirstPages(s, pageSize, k - 1) + Page(s, k, pageSize)
  }

  function Min(a: int, b: int): int { if a < b then a else b }

  /** Page `k` is the slice between the ends of pages `k - 1` and `k`. */
  lemma PageAsSlice<T>(s: seq<T>, k: nat, pageSize: int)
    requires k >= 1 && pageSize > 0
    ensures Min((k - 1) * pageSize, |s|) <= Min(k * pageSize, |s|)
    ensures Page(s, k, pageSize) == s[Min((k - 1) * pageSize, |s|)..Min(k * pageSize, |s|)]
  {
    var skip := (k - 1) * pageSize;
    var end := k * pageSize;
    assert end == skip + pageSize;
  }

  lemma {:induction false} FirstPagesArePrefix<T>(s: seq<T>, pageSize: int, k: nat)
    requires pageSize > 0
    ensures FirstPages(s, pageSize, k) == s[..Min(k * pageSize, |s|)]
  {
    if k > 0 {
      FirstPagesArePrefix(s, pageSize, k - 1);
      PageAsSlice(s, k, pageSize);
      var lo := Min((k - 1) * pageSize, |s|);
      var hi := Min(k * pageSize, |s|);
      assert s[..lo] + s[lo..hi] == s[..hi];
    }
  }

  /**
   * Reading pages 1..totalPages in order yields the whole listing: paging
   * neither drops nor repeats an element.
   */
  lemma PagesCoverListing<T>(s: seq<T>, pageSize: int)
    requires pageSize > 0
    ensures FirstPages(s, pageSize, TotalPages(|s|, pageSize)) == s
  {
    FirstPagesArePrefix(s, pageSize, TotalPages(|s|, pageSize));
  }

  /** Scaling by a positive page size keeps the order of page counts. */
  lemma MulMono(a: int, b: int, c: int)
    requires a >= b && c > 0
    ensures a * c >= b * c
  {
    assert a * c - b * c == (a - b) * c;
  }

  /** Pages past the last one are empty. */
  lemma PageBeyondLastIsEmpty<T>(s: seq<T>, page: int, pageSize: int)
    requires pageSize > 0 && page > TotalPages(|s|, pageSize) && page >= 1
    ensures Page(s, page, pageSize) == []
  {
    var t := TotalPages(|s|, pageSize);
    MulMono(page - 1, t, pageSize);
    assert (page - 1) * pageSize >= |s|;
    assert PageLength(|s|, page, pageSize) == 0;
  }

  /** A page of an ordered listing is ordered, and holds only elements of the listing. */
  lemma PageKeepsOrder<T>(s: seq<T>, page: int, pageSize: int, le: (T, T) -> bool)
    requires page >= 1 && pageSize > 0
    requires Sorted(s, le)
    ensures Sorted(Page(s, page, pageSize), le)
    ensures forall x :: x in Page(s, page, pageSize) ==> x in s
  {
    var r := Page(s, page, pageSize);
    var skip := (page - 1) * pageSize;
    forall i, j | 0 <= i < j < |r| ensures le(r[i], r[j]) {
      assert r[i] == s[skip + i] && r[j] == s[skip + j];
    }
    forall x | x in r ensures x in s {
      var i :| 0 <= i < |r| && r[i] == x;
      assert s[skip + i] == x;
    }
  }

  /**
   * The envelope of an ordered listing: whole-listing counts, the ceiling
   * page count, and a page that is the ordered skip/take slice.
   */
  lemma PaginateFacts<T>(s: seq<T>, page: int, pageSize: int, le: (T, T) -> bool)
    requires page >= 1 && pageSize > 0
    requires Sorted(s, le)
    ensures var l := Paginate(s, page, pageSize);
      && l.totalItems == |s| && l.currentPage == page && l.pageSize == pageSize
      && IsPageCount(l.totalPages, l.totalItems, pageSize)
      && |l.data| == PageLength(l.totalItems, page, pageSize)
      && Sorted(l.data, le)
      && (forall x :: x in l.data ==> x in s)
      && IsPageOf(l.data, s, page, pageSize)
  {
    PageKeepsOrder(s, page, pageSize, le);
    PageIsPageOf(s, page, pageSize);
  }
}
