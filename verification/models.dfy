/**
 * The persisted entities of the backend and the store that holds them.
 * Money is `decimal(18,2)` in the database and is kept here as an integer
 * number of minor units (hundredths); `OrderDate` is an integer tick count.
 * Navigation properties (`OrderItem.Product`, `Product.Category`, ...) are
 * joins through the id fields and are not stored twice.
 */
module Models {
  import opened Wrappers
  import opened Seqs

  datatype OrderItem = OrderItem(
    id: int,
    productId: int,
    quantity: int,
    unitPrice: int,
    orderId: int)

  datatype Order = Order(
    id: int,
    orderDate: int,
    customerName: Option<string>,
    email: Option<string>,
    mobileNumber: Option<string>,
    address: Option<string>,
    totalAmount: int,
    status: string,
    userId: Option<string>,
    items: seq<OrderItem>)

  datatype Product = Product(
    id: int,
    name: Option<string>,
    brand: Option<string>,
    description: Option<string>,
    price: int,
    imageUrl: Option<string>,
    categoryId: int)

  datatype Category = Category(id: int, name: string, description: Option<string>)

  /** The relational store: one table per entity, keyed by primary key. */
  datatype Db = Db(
    orders: map<int, Order>,
    products: map<int, Product>,
    categories: map<int, Category>)

  /**
   * SQL Server's ascending order on a nullable string column: NULL before
   * every value, values by the column collation `collate`.
   */
  predicate NullsFirst(a: Option<string>, b: Option<string>, collate: (string, string) -> bool) {
    a.None? || (b.Some? && collate(a.value, b.value))
  }

  /** Sum of unit price times quantity over order lines. */
  function LineTotal(items: seq<OrderItem>): int {
    if items == [] then 0 else items[0].unitPrice * items[0].quantity + LineTotal(items[1..])
  }

  lemma {:induction false} LineTotalConcat(a: seq<OrderItem>, b: seq<OrderItem>)
    ensures LineTotal(a + b) == LineTotal(a) + LineTotal(b)
  {
    if a != [] {
      assert (a + b)[0] == a[0];
      assert (a + b)[1..] == a[1..] + b;
      LineTotalConcat(a[1..], b);
    } else {
      assert a + b == b;
    }
  }

  /**
   * Foreign keys hold: every order line names a stored product and every
   * product a stored category. `ProductId` and `CategoryId` are required
   * keys, so the database enforces this.
   */
  ghost predicate ReferencesHold(db: Db) {
    && (forall k, it :: k in db.orders && it in db.orders[k].items ==> it.productId in db.products)
    && (forall k :: k in db.products ==> db.products[k].categoryId in db.categories)
  }

  /** The largest magnitude a `decimal(18,2)` column holds, in minor units: 9999999999999999.99. */
  const MaxColumnMoney: int := 999_999_999_999_999_999

  /** `v` minor units can be written to a `decimal(18,2)` column; a save of anything else fails. */
  predicate FitsMoneyColumn(v: int) {
    -MaxColumnMoney <= v <= MaxColumnMoney
  }

  /** Every stored amount (product price, order total, line unit price) lies within its column. */
  ghost predicate MoneyInColumns(db: Db) {
    && (forall k :: k in db.products ==> FitsMoneyColumn(db.products[k].price))
    && (forall k :: k in db.orders ==> FitsMoneyColumn(db.orders[k].totalAmount))
    && (forall k, it :: k in db.orders && it in db.orders[k].items ==> FitsMoneyColumn(it.unitPrice))
  }

  /**
   * The cascade a required `ProductId` brings when products go: each order
   * loses the lines naming a product in `gone`, in place, and keeps every
   * other column, its stored total included.
   */
  function DropLinesOf(orders: map<int, Order>, gone: set<int>): (r: map<int, Order>)
    ensures r.Keys == orders.Keys
    ensures forall k :: k in r ==> r[k].(items := orders[k].items) == orders[k]
    ensures forall k, it :: k in r ==> (it in r[k].items <==> it in orders[k].items && it.productId !in gone)
  {
    map k | k in orders :: orders[k].(items := Filter(orders[k].items, (it: OrderItem) => it.productId !in gone))
  }

  /** When no line names a product in `gone`, the cascade leaves every order as it was. */
  lemma DropNoLines(orders: map<int, Order>, gone: set<int>)
    requires forall k, it :: k in orders && it in orders[k].items ==> it.productId !in gone
    ensures DropLinesOf(orders, gone) == orders
  {
    forall k | k in orders ensures DropLinesOf(orders, gone)[k] == orders[k] {
      FilterAllKept(orders[k].items, (it: OrderItem) => it.productId !in gone);
    }
  }

  /** Every stored row sits under its own primary key. */
  ghost predicate KeyedById(orders: map<int, Order>) {
    forall k :: k in orders ==> orders[k].id == k
  }

  predicate IsMinOf(k: int, keys: set<int>) {
    k in keys && forall x :: x in keys ==> k <= x
  }

  /** The smallest key of a non-empty key set. */
  function MinKey(keys: set<int>): (k: int)
    requires keys != {}
    ensures IsMinOf(k, keys)
  {
    MinKeyExists(keys);
    var k :| IsMinOf(k, keys);
    k
  }

  lemma MinOfAdd(y: int, m: int, keys: set<int>)
    requires y in keys && IsMinOf(m, keys - {y})
    ensures IsMinOf(if y < m then y else m, keys)
  {
    forall x | x in keys ensures (if y < m then y else m) <= x {
      if x != y {
        assert x in keys - {y};
      }
    }
  }

  /** Some element of a non-empty set. */
  lemma Pick(keys: set<int>) returns (y: int)
    requires keys != {}
    ensures y in keys
  {
    if forall z :: z !in keys {
      assert false;
    }
    y :| y in keys;
  }

  lemma {:induction false} MinKeyExists(keys: set<int>)
    requires keys != {}
    ensures exists k :: IsMinOf(k, keys)
    decreases |keys|
  {
    var y := Pick(keys);
    if keys == {y} {
      assert IsMinOf(y, keys);
    } else {
      MinKeyExists(keys - {y});
      var m :| IsMinOf(m, keys - {y});
      MinOfAdd(y, m, keys);
    }
  }

  /** The keys in ascending order: the enumeration order assumed for unordered queries. */
  function SortedKeys(keys: set<int>): (ks: seq<int>)
    ensures |ks| == |keys|
    ensures forall k :: k in ks <==> k in keys
    ensures forall i, j :: 0 <= i < j < |ks| ==> ks[i] < ks[j]
    decreases |keys|
  {
    if keys == {} then []
    else
      var k := MinKey(keys);
      var rest := SortedKeys(keys - {k});
      assert forall x :: x in rest ==> k < x;
      [k] + rest
  }

  function RowsOf<V>(ks: seq<int>, table: map<int, V>): (rows: seq<V>)
    requires forall i :: 0 <= i < |ks| ==> ks[i] in table
    ensures |rows| == |ks|
    ensures forall i :: 0 <= i < |ks| ==> rows[i] == table[ks[i]]
  {
    if ks == [] then [] else [table[ks[0]]] + RowsOf(ks[1..], table)
  }

  /** The rows of a table in ascending key order. */
  function Rows<V(==,!new)>(table: map<int, V>): (rows: seq<V>)
    ensures |rows| == |table|
    ensures forall v :: v in rows <==> v in table.Values
  {
    var ks := SortedKeys(table.Keys);
    var rows := RowsOf(ks, table);
    assert forall v :: v in rows ==> v in table.Values by {
      forall v | v in rows ensures v in table.Values {
        var i :| 0 <= i < |rows| && rows[i] == v;
        assert ks[i] in table;
      }
    }
    assert forall v :: v in table.Values ==> v in rows by {
      forall v | v in table.Values ensures v in rows {
        var k :| k in table && table[k] == v;
        var i :| 0 <= i < |ks| && ks[i] == k;
        assert rows[i] == v;
      }
    }
    rows
  }

  /** Keys whose row satisfies `p`. */
  function KeysWhere<V>(table: map<int, V>, p: V -> bool): set<int> {
    set k | k in table && p(table[k])
  }

  /** Keys of `ks` whose row satisfies `p`. */
  function ListedKeysWhere<V>(ks: seq<int>, table: map<int, V>, p: V -> bool): set<int>
    requires forall i :: 0 <= i < |ks| ==> ks[i] in table
  {
    set i | 0 <= i < |ks| && p(table[ks[i]]) :: ks[i]
  }

  lemma ListedKeysWhereStep<V>(ks: seq<int>, table: map<int, V>, p: V -> bool)
    requires ks != []
    requires forall i :: 0 <= i < |ks| ==> ks[i] in table
    ensures ListedKeysWhere(ks, table, p)
         == (if p(table[ks[0]]) then {ks[0]} else {}) + ListedKeysWhere(ks[1..], table, p)
  {
    var whole := ListedKeysWhere(ks, table, p);
    var tail := ListedKeysWhere(ks[1..], table, p);
    forall k | k in whole ensures k in (if p(table[ks[0]]) then {ks[0]} else {}) + tail {
      var i :| 0 <= i < |ks| && p(table[ks[i]]) && ks[i] == k;
      if i > 0 {
        assert ks[1..][i - 1] == k;
      }
    }
    forall k | k in tail ensures k in whole {
      var i :| 0 <= i < |ks[1..]| && p(table[ks[1..][i]]) && ks[1..][i] == k;
      assert ks[i + 1] == k;
    }
  }

  lemma {:induction false} FilterRowsOfCount<V(!new)>(ks: seq<int>, table: map<int, V>, p: V -> bool)
    requires forall i :: 0 <= i < |ks| ==> ks[i] in table
    requires forall i, j :: 0 <= i < j < |ks| ==> ks[i] != ks[j]
    ensures |Filter(RowsOf(ks, table), p)| == |ListedKeysWhere(ks, table, p)|
  {
    if ks != [] {
      var rows := RowsOf(ks, table);
      assert rows[1..] == RowsOf(ks[1..], table);
      FilterRowsOfCount(ks[1..], table, p);
      ListedKeysWhereStep(ks, table, p);
      var tail := ListedKeysWhere(ks[1..], table, p);
      assert ks[0] !in tail;
    }
  }

  lemma ListedKeysAreKeysWhere<V>(ks: seq<int>, table: map<int, V>, p: V -> bool)
    requires forall i :: 0 <= i < |ks| ==> ks[i] in table
    requires forall k :: k in table ==> k in ks
    ensures ListedKeysWhere(ks, table, p) == KeysWhere(table, p)
  {
    var listed := ListedKeysWhere(ks, table, p);
    forall k | k in KeysWhere(table, p) ensures k in listed {
      var i :| 0 <= i < |ks| && ks[i] == k;
    }
  }

  /** A filtered table scan holds exactly one row per matching key. */
  lemma FilterRowsCount<V(!new)>(table: map<int, V>, p: V -> bool)
    ensures |Filter(Rows(table), p)| == |KeysWhere(table, p)|
  {
    var ks := SortedKeys(table.Keys);
    RowsInKeyOrder(table);
    SortedKeysCount(table, ks, p);
  }

  lemma SortedKeysCount<V(!new)>(table: map<int, V>, ks: seq<int>, p: V -> bool)
    requires forall i :: 0 <= i < |ks| ==> ks[i] in table
    requires forall k :: k in table ==> k in ks
    requires forall i, j :: 0 <= i < j < |ks| ==> ks[i] < ks[j]
    ensures |Filter(RowsOf(ks, table), p)| == |KeysWhere(table, p)|
  {
    FilterRowsOfCount(ks, table, p);
    ListedKeysAreKeysWhere(ks, table, p);
  }

  lemma RowsInKeyOrder<V(!new)>(table: map<int, V>)
    ensures Rows(table) == RowsOf(SortedKeys(table.Keys), table)
  {
  }

  /**
   * An unordered `Where` query: every row satisfying `p`, each exactly once
   * (in primary-key order, the order the model fixes for an unordered scan).
   */
  function Where<V(==,!new)>(table: map<int, V>, p: V -> bool): (rs: seq<V>)
    ensures forall v :: v in rs <==> v in table.Values && p(v)
    ensures |rs| == |KeysWhere(table, p)|
  {
    FilterRowsCount(table, p);
    Filter(Rows(table), p)
  }
}
