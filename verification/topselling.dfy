/**
 * The admin dashboard's "Top Selling Products" card: the quantities of every
 * order line are summed per product name, the totals are sorted by units
 * sold (largest first, a stable sort), the first three are kept, and the bar
 * scale is the largest of them.
 */
module TopSelling {
  import opened Wrappers
  import opened Seqs

  /** The two fields of an order line the card reads. */
  datatype SaleLine = SaleLine(productName: string, quantity: int)

  datatype SaleOrder = SaleOrder(items: seq<SaleLine>)

  /** One entry of the tally: a product name and the units sold under it. */
  datatype ProductSales = ProductSales(name: string, sold: int)

  /** The order lines in the order the two nested `forEach` loops visit them. */
  function Lines(orders: seq<SaleOrder>): (r: seq<SaleLine>)
    ensures orders == [] ==> r == []
    ensures orders != [] ==> r == orders[0].items + Lines(orders[1..])
  {
    if orders == [] then [] else orders[0].items + Lines(orders[1..])
  }

  /** Some line carries the name `n`. */
  predicate Sells(lines: seq<SaleLine>, n: string) {
    exists j :: 0 <= j < |lines| && lines[j].productName == n
  }

  /** Reference definition: the sum of the quantities of the lines named `n`. */
  function Sold(lines: seq<SaleLine>, n: string): int {
    if lines == [] then 0
    else
      var last := lines[|lines| - 1];
      Sold(lines[..|lines| - 1], n) + (if last.productName == n then last.quantity else 0)
  }

  predicate HasEntry(entries: seq<ProductSales>, n: string) {
    exists i :: 0 <= i < |entries| && entries[i].name == n
  }

  /** No name appears twice: the entries of an object used as a map. */
  predicate DistinctNames(entries: seq<ProductSales>) {
    forall i, j :: 0 <= i < j < |entries| ==> entries[i].name != entries[j].name
  }

  /** Where `n` sits in the tally, or -1 when it has no entry yet. */
  function FindName(entries: seq<ProductSales>, n: string): (r: int)
    ensures -1 <= r < |entries|
    ensures r == -1 <==> !HasEntry(entries, n)
    ensures r >= 0 ==> entries[r].name == n
  {
    if entries == [] then -1
    else if entries[|entries| - 1].name == n then |entries| - 1
    else
      var r := FindName(entries[..|entries| - 1], n);
      assert r >= 0 ==> entries[r] == entries[..|entries| - 1][r];
      assert !HasEntry(entries[..|entries| - 1], n) ==> !HasEntry(entries, n) by {
        if !HasEntry(entries[..|entries| - 1], n) {
          forall i | 0 <= i < |entries| ensures entries[i].name != n {
            if i < |entries| - 1 {
              assert entries[i] == entries[..|entries| - 1][i];
            }
          }
        }
      }
      r
  }

  lemma SoldStep(lines: seq<SaleLine>, k: nat, n: string)
    requires k < |lines|
    ensures Sold(lines[..k + 1], n) == Sold(lines[..k], n) + (if lines[k].productName == n then lines[k].quantity else 0)
  {
    assert lines[..k + 1][..k] == lines[..k];
  }

  lemma SellsStep(lines: seq<SaleLine>, k: nat, n: string)
    requires k < |lines|
    ensures Sells(lines[..k + 1], n) <==> Sells(lines[..k], n) || lines[k].productName == n
  {
    if Sells(lines[..k + 1], n) {
      var j :| 0 <= j < k + 1 && lines[..k + 1][j].productName == n;
      if j < k {
        assert lines[..k][j] == lines[j];
      }
    }
    if Sells(lines[..k], n) {
      var j :| 0 <= j < k && lines[..k][j].productName == n;
      assert lines[..k + 1][j] == lines[j];
    }
    if lines[k].productName == n {
      assert lines[..k + 1][k] == lines[k];
    }
  }

  /**
   * The salesMap loop: each line adds its quantity to its name's entry, and a
   * name seen for the first time gets a new entry at the end. Entries come out
   * in first-appearance order, which is what `Object.entries` lists.
   */
  method Tally(lines: seq<SaleLine>) returns (entries: seq<ProductSales>)
    ensures DistinctNames(entries)
    ensures forall i :: 0 <= i < |entries| ==> entries[i].sold == Sold(lines, entries[i].name)
    ensures forall n :: HasEntry(entries, n) <==> Sells(lines, n)
  {
    entries := [];
    var k := 0;
    while k < |lines|
      invariant 0 <= k <= |lines|
      invariant DistinctNames(entries)
      invariant forall i :: 0 <= i < |entries| ==> entries[i].sold == Sold(lines[..k], entries[i].name)
      invariant forall n :: HasEntry(entries, n) <==> Sells(lines[..k], n)
    {
      var line := lines[k];
      var pos := FindName(entries, line.productName);
      var next: seq<ProductSales>;
      if pos >= 0 {
        next := entries[pos := ProductSales(line.productName, entries[pos].sold + line.quantity)];
        forall n ensures HasEntry(next, n) <==> HasEntry(entries, n) {
          if HasEntry(next, n) {
            var i :| 0 <= i < |next| && next[i].name == n;
            assert entries[i].name == n;
          }
          if HasEntry(entries, n) {
            var i :| 0 <= i < |entries| && entries[i].name == n;
            assert next[i].name == n;
          }
        }
      } else {
        next := entries + [ProductSales(line.productName, line.quantity)];
        forall n ensures HasEntry(next, n) <==> HasEntry(entries, n) || n == line.productName {
          if HasEntry(next, n) {
            var i :| 0 <= i < |next| && next[i].name == n;
            if i < |entries| {
              assert entries[i].name == n;
            }
          }
          if HasEntry(entries, n) {
            var i :| 0 <= i < |entries| && entries[i].name == n;
            assert next[i].name == n;
          }
          if n == line.productName {
            assert next[|entries|].name == n;
          }
        }
        SoldWithoutSale(lines[..k], line.productName);
      }
      forall i | 0 <= i < |next| ensures next[i].sold == Sold(lines[..k + 1], next[i].name) {
        SoldStep(lines, k, next[i].name);
      }
      forall n ensures HasEntry(next, n) <==> Sells(lines[..k + 1], n) {
        SellsStep(lines, k, n);
      }
      entries := next;
      k := k + 1;
    }
    assert lines[..k] == lines;
  }

  /** A name no line carries has sold nothing. */
  lemma {:induction false} SoldWithoutSale(lines: seq<SaleLine>, n: string)
    requires !Sells(lines, n)
    ensures Sold(lines, n) == 0
  {
    if lines != [] {
      var init := lines[..|lines| - 1];
      assert !Sells(init, n) by {
        forall j | 0 <= j < |init| ensures init[j].productName != n {
          assert init[j] == lines[j];
        }
      }
      SoldWithoutSale(init, n);
    }
  }

  /** The comparator `(a, b) => b.sold - a.sold`: `a` may come first when it sold at least as much. */
  predicate MoreSold(a: ProductSales, b: ProductSales) {
    a.sold >= b.sold
  }

  lemma MoreSoldIsTotalPreorder()
    ensures TotalPreorder(MoreSold)
  {
  }

  /** The tally without its element at `p`. */
  function DropAt(a: seq<ProductSales>, p: nat): (r: seq<ProductSales>)
    requires p < |a|
    ensures |r| == |a| - 1
    ensures forall i :: 0 <= i < |r| ==> r[i] == a[if i < p then i else i + 1]
    ensures multiset(r) == multiset(a) - multiset{a[p]}
  {
    assert a == a[..p] + [a[p]] + a[p + 1..];
    a[..p] + a[p + 1..]
  }

  lemma DropAtKeepsDistinct(a: seq<ProductSales>, p: nat)
    requires p < |a|
    requires DistinctNames(a)
    ensures DistinctNames(DropAt(a, p))
  {
    var r := DropAt(a, p);
    forall i, j | 0 <= i < j < |r| ensures r[i].name != r[j].name {
      assert r[i] == a[if i < p then i else i + 1];
      assert r[j] == a[if j < p then j else j + 1];
    }
  }

  /** Rearranging a tally keeps its names distinct. */
  lemma {:induction false} PermutationKeepsDistinct(a: seq<ProductSales>, b: seq<ProductSales>)
    requires multiset(a) == multiset(b)
    requires DistinctNames(a)
    ensures DistinctNames(b)
  {
    if b != [] {
      assert b[0] in multiset(a);
      var p :| 0 <= p < |a| && a[p] == b[0];
      var tail := b[1..];
      DropFirstMatch(a, b, p);
      DropAtKeepsDistinct(a, p);
      PermutationKeepsDistinct(DropAt(a, p), tail);
      forall j | 0 <= j < |tail| ensures b[0].name != tail[j].name {
        FirstDiffers(a, p, tail, j);
      }
      ConsDistinct(b);
    }
  }

  /** Taking the same element off both sides of a permutation leaves a permutation. */
  lemma DropFirstMatch(a: seq<ProductSales>, b: seq<ProductSales>, p: nat)
    requires multiset(a) == multiset(b)
    requires b != [] && p < |a| && a[p] == b[0]
    ensures multiset(DropAt(a, p)) == multiset(b[1..])
  {
    assert b == [b[0]] + b[1..];
  }

  /** A head whose name differs from every name of a distinct tail gives a distinct sequence. */
  lemma ConsDistinct(b: seq<ProductSales>)
    requires b != []
    requires DistinctNames(b[1..])
    requires forall j :: 0 <= j < |b[1..]| ==> b[0].name != b[1..][j].name
    ensures DistinctNames(b)
  {
    forall i, j | 0 <= i < j < |b| ensures b[i].name != b[j].name {
      assert b[j] == b[1..][j - 1];
      if i > 0 {
        assert b[i] == b[1..][i - 1];
      }
    }
  }

  lemma FirstDiffers(a: seq<ProductSales>, p: nat, tail: seq<ProductSales>, j: nat)
    requires p < |a| && DistinctNames(a)
    requires multiset(DropAt(a, p)) == multiset(tail)
    requires j < |tail|
    ensures a[p].name != tail[j].name
  {
    var rest := DropAt(a, p);
    assert tail[j] in multiset(rest);
    var q :| 0 <= q < |rest| && rest[q] == tail[j];
    assert rest[q] == a[if q < p then q else q + 1];
  }

  /** `.sort(...).slice(0, 3)`: the three best sellers, or all of them when there are fewer. */
  function TopThree(entries: seq<ProductSales>): (top: seq<ProductSales>)
    ensures |top| == if |entries| < 3 then |entries| else 3
    ensures multiset(top) <= multiset(entries)
    ensures forall i, j :: 0 <= i < j < |top| ==> top[i].sold >= top[j].sold
    ensures forall e :: e in entries && e !in top ==> forall i :: 0 <= i < |top| ==> top[i].sold >= e.sold
    ensures |entries| <= 3 ==> multiset(top) == multiset(entries)
  {
    var sorted := SortBy(entries, MoreSold);
    MoreSoldIsTotalPreorder();
    SortBySorted(entries, MoreSold);
    var top := TakeAtMost(sorted, 3);
    TopThreeFacts(entries, sorted, top);
    top
  }

  lemma TopThreeFacts(entries: seq<ProductSales>, sorted: seq<ProductSales>, top: seq<ProductSales>)
    requires multiset(sorted) == multiset(entries)
    requires Sorted(sorted, MoreSold)
    requires |top| <= |sorted| && top == sorted[..|top|]
    ensures multiset(top) <= multiset(entries)
    ensures forall e :: e in entries && e !in top ==> forall i :: 0 <= i < |top| ==> top[i].sold >= e.sold
    ensures |top| == |sorted| ==> multiset(top) == multiset(entries)
  {
    assert sorted == top + sorted[|top|..];
    assert multiset(sorted) == multiset(top) + multiset(sorted[|top|..]);
    forall e | e in entries && e !in top ensures forall i :: 0 <= i < |top| ==> top[i].sold >= e.sold {
      assert e in multiset(sorted);
      var q :| 0 <= q < |sorted| && sorted[q] == e;
      assert forall i :: 0 <= i < |top| ==> sorted[i] == top[i];
      assert |top| <= q;
      forall i | 0 <= i < |top| ensures top[i].sold >= e.sold {
        assert top[i] == sorted[i];
      }
    }
    if |top| == |sorted| {
      assert top == sorted;
    }
  }

  /** `Math.max(...products.map(p => p.sold))`, or 0 for an empty list. */
  function MaxSold(top: seq<ProductSales>): (m: int)
    ensures top == [] ==> m == 0
    ensures top != [] ==> (exists i :: 0 <= i < |top| && top[i].sold == m)
    ensures forall i :: 0 <= i < |top| ==> top[i].sold <= m
  {
    if top == [] then 0
    else if |top| == 1 then top[0].sold
    else
      var rest := MaxSold(top[1..]);
      assert forall i :: 1 <= i < |top| ==> top[i] == top[1..][i - 1];
      if top[0].sold >= rest then top[0].sold else rest
  }

  /** On a list sorted largest first, the bar scale is the first entry. */
  lemma MaxSoldOfSortedIsFirst(top: seq<ProductSales>)
    requires top != []
    requires forall i, j :: 0 <= i < j < |top| ==> top[i].sold >= top[j].sold
    ensures MaxSold(top) == top[0].sold
  {
    var m := MaxSold(top);
    var i :| 0 <= i < |top| && top[i].sold == m;
    assert top[0].sold >= top[i].sold;
  }

  /** The card as a whole: a failed fetch leaves the list empty. */
  method TopSellingProducts(fetched: Option<seq<SaleOrder>>) returns (top: seq<ProductSales>, maxSold: int)
    ensures fetched.None? ==> top == [] && maxSold == 0
    ensures |top| <= 3
    ensures DistinctNames(top)
    ensures fetched.Some? ==> forall i :: 0 <= i < |top| ==>
      Sells(Lines(fetched.value), top[i].name) && top[i].sold == Sold(Lines(fetched.value), top[i].name)
    ensures forall i, j :: 0 <= i < j < |top| ==> top[i].sold >= top[j].sold
    ensures fetched.Some? && |top| < 3 ==> forall n :: Sells(Lines(fetched.value), n) ==> HasEntry(top, n)
    ensures fetched.Some? ==> forall n :: Sells(Lines(fetched.value), n) && !HasEntry(top, n) ==>
      forall i :: 0 <= i < |top| ==> top[i].sold >= Sold(Lines(fetched.value), n)
    ensures top == [] ==> maxSold == 0
    ensures top != [] ==> maxSold == top[0].sold
  {
    if fetched.None? {
      return [], 0;
    }
    var lines := Lines(fetched.value);
    var entries := Tally(lines);
    top := TopThree(entries);
    TopSellingFacts(lines, entries, top);
    maxSold := MaxSold(top);
    if top != [] {
      MaxSoldOfSortedIsFirst(top);
    }
  }

  lemma TopSellingFacts(lines: seq<SaleLine>, entries: seq<ProductSales>, top: seq<ProductSales>)
    requires DistinctNames(entries)
    requires forall i :: 0 <= i < |entries| ==> entries[i].sold == Sold(lines, entries[i].name)
    requires forall n :: HasEntry(entries, n) <==> Sells(lines, n)
    requires top == TopThree(entries)
    ensures DistinctNames(top)
    ensures forall i :: 0 <= i < |top| ==> Sells(lines, top[i].name) && top[i].sold == Sold(lines, top[i].name)
    ensures |top| < 3 ==> forall n :: Sells(lines, n) ==> HasEntry(top, n)
    ensures forall n :: Sells(lines, n) && !HasEntry(top, n) ==>
      forall i :: 0 <= i < |top| ==> top[i].sold >= Sold(lines, n)
  {
    TopNamesDistinct(entries, top);
    forall i | 0 <= i < |top| ensures Sells(lines, top[i].name) && top[i].sold == Sold(lines, top[i].name) {
      assert top[i] in multiset(entries);
      var p :| 0 <= p < |entries| && entries[p] == top[i];
      assert HasEntry(entries, top[i].name);
    }
    forall n | Sells(lines, n) ensures (|top| < 3 ==> HasEntry(top, n)) && (!HasEntry(top, n) ==>
      forall i :: 0 <= i < |top| ==> top[i].sold >= Sold(lines, n)) {
      var p :| 0 <= p < |entries| && entries[p].name == n;
      TopEntry(entries, top, entries[p]);
    }
  }

  lemma TopNamesDistinct(entries: seq<ProductSales>, top: seq<ProductSales>)
    requires DistinctNames(entries)
    requires top == TopThree(entries)
    ensures DistinctNames(top)
  {
    var sorted := SortBy(entries, MoreSold);
    assert top == sorted[..|top|];
    PermutationKeepsDistinct(entries, sorted);
    forall i, j | 0 <= i < j < |top| ensures top[i].name != top[j].name {
      assert top[i] == sorted[i] && top[j] == sorted[j];
    }
  }

  /** Each tallied entry is either among the top three or sold no more than any of them. */
  lemma TopEntry(entries: seq<ProductSales>, top: seq<ProductSales>, e: ProductSales)
    requires e in entries
    requires top == TopThree(entries)
    ensures |top| < 3 ==> HasEntry(top, e.name)
    ensures !HasEntry(top, e.name) ==> forall i :: 0 <= i < |top| ==> top[i].sold >= e.sold
  {
    if |top| < 3 {
      assert multiset(top) == multiset(entries);
      assert e in multiset(top);
      var q :| 0 <= q < |top| && top[q] == e;
    }
    if !HasEntry(top, e.name) {
      assert forall q :: 0 <= q < |top| ==> top[q].name != e.name;
      assert e !in top;
    }
  }
}
