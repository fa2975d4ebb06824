/**
 * The customer storefront's cart: a sequence of lines, one per product id,
 * with the add / remove / set-quantity / clear operations and the running
 * total. Prices are integers in minor units.
 */
module Cart {
  import opened Seqs

  datatype CartItem = CartItem(id: int, name: string, price: int, image: string, quantity: int)

  /** What the product card hands to the cart: a cart line without a quantity. */
  datatype NewItem = NewItem(id: int, name: string, price: int, image: string)

  /** The cart's invariant: no id twice, and no line with fewer than one unit. */
  ghost predicate Valid(cart: seq<CartItem>) {
    && (forall i, j :: 0 <= i < j < |cart| ==> cart[i].id != cart[j].id)
    && (forall i :: 0 <= i < |cart| ==> cart[i].quantity >= 1)
  }

  predicate HasId(cart: seq<CartItem>, id: int) {
    exists i :: 0 <= i < |cart| && cart[i].id == id
  }

  /** One line's contribution to the total. */
  function LineAmount(item: CartItem): int {
    item.price * item.quantity
  }

  /** The cart total: the sum of price times quantity over all lines. */
  function Total(cart: seq<CartItem>): int {
    if cart == [] then 0 else LineAmount(cart[0]) + Total(cart[1..])
  }

  lemma {:induction false} TotalAppend(cart: seq<CartItem>, item: CartItem)
    ensures Total(cart + [item]) == Total(cart) + LineAmount(item)
  {
    if cart != [] {
      assert (cart + [item])[1..] == cart[1..] + [item];
      TotalAppend(cart[1..], item);
    } else {
      assert cart + [item] == [item];
    }
  }

  /** Replacing one line changes the total by exactly the difference of the two line amounts. */
  lemma {:induction false} TotalReplace(cart: seq<CartItem>, i: int, item: CartItem)
    requires 0 <= i < |cart|
    ensures Total(cart[i := item]) == Total(cart) - LineAmount(cart[i]) + LineAmount(item)
  {
    if i > 0 {
      assert cart[i := item][1..] == cart[1..][i - 1 := item];
      TotalReplace(cart[1..], i - 1, item);
    } else {
      assert cart[i := item][1..] == cart[1..];
    }
  }

  /** Dropping one line lowers the total by that line's amount. */
  lemma {:induction false} TotalDropAt(cart: seq<CartItem>, i: int)
    requires 0 <= i < |cart|
    ensures Total(cart[..i] + cart[i + 1..]) == Total(cart) - LineAmount(cart[i])
  {
    if i > 0 {
      assert (cart[..i] + cart[i + 1..])[0] == cart[0];
      assert (cart[..i] + cart[i + 1..])[1..] == cart[1..][..i - 1] + cart[1..][i..];
      TotalDropAt(cart[1..], i - 1);
    } else {
      assert cart[..i] + cart[i + 1..] == cart[1..];
    }
  }

  /** With distinct ids, the line holding an id is unique. */
  lemma IdPosition(cart: seq<CartItem>, i: int, j: int)
    requires Valid(cart)
    requires 0 <= i < |cart| && 0 <= j < |cart| && cart[i].id == cart[j].id
    ensures i == j
  {
  }

  /**
   * addToCart: a known id gets one more unit (that line only, nothing else
   * of it is refreshed); a new id is appended with quantity 1.
   */
  function AddToCart(cart: seq<CartItem>, item: NewItem): (r: seq<CartItem>)
    ensures HasId(cart, item.id) ==>
      && |r| == |cart|
      && forall i :: 0 <= i < |cart| ==>
           r[i] == if cart[i].id == item.id then cart[i].(quantity := cart[i].quantity + 1) else cart[i]
    ensures !HasId(cart, item.id) ==>
      r == cart + [CartItem(item.id, item.name, item.price, item.image, 1)]
  {
    if HasId(cart, item.id) then
      seq(|cart|, i requires 0 <= i < |cart| =>
        if cart[i].id == item.id then cart[i].(quantity := cart[i].quantity + 1) else cart[i])
    else
      cart + [CartItem(item.id, item.name, item.price, item.image, 1)]
  }

  /** removeFromCart: every line with another id, in the original order. */
  function RemoveFromCart(cart: seq<CartItem>, id: int): (r: seq<CartItem>)
    ensures !HasId(r, id)
    ensures forall x :: x in r <==> x in cart && x.id != id
    ensures |r| <= |cart|
  {
    var r := Filter(cart, (x: CartItem) => x.id != id);
    assert forall i :: 0 <= i < |r| ==> r[i] in r;
    r
  }

  /** `max(1, qty)`. */
  function AtLeastOne(qty: int): (q: int)
    ensures q >= 1 && (q == qty || q == 1)
    ensures qty >= 1 ==> q == qty
  {
    if qty > 1 then qty else 1
  }

  /** updateQuantity: the line with `id` gets max(1, qty) units; every other line stays as it was. */
  function UpdateQuantity(cart: seq<CartItem>, id: int, qty: int): (r: seq<CartItem>)
    ensures |r| == |cart|
    ensures forall i :: 0 <= i < |cart| && cart[i].id != id ==> r[i] == cart[i]
    ensures forall i :: 0 <= i < |cart| && cart[i].id == id ==> r[i] == cart[i].(quantity := AtLeastOne(qty))
  {
    seq(|cart|, i requires 0 <= i < |cart| =>
      if cart[i].id == id then cart[i].(quantity := AtLeastOne(qty)) else cart[i])
  }

  /** clearCart. */
  function ClearCart(): (r: seq<CartItem>)
    ensures |r| == 0 && Total(r) == 0
  {
    []
  }

  // ---------------------------------------------------------------------------
  // The invariant is kept, and the total moves by exactly the line touched.

  lemma AddKeepsValid(cart: seq<CartItem>, item: NewItem)
    requires Valid(cart)
    ensures Valid(AddToCart(cart, item))
  {
  }

  lemma RemoveKeepsValid(cart: seq<CartItem>, id: int)
    requires Valid(cart)
    ensures Valid(RemoveFromCart(cart, id))
  {
    if HasId(cart, id) {
      var i :| 0 <= i < |cart| && cart[i].id == id;
      RemoveIsCut(cart, i);
      CutKeepsValid(cart, i);
    } else {
      FilterAllKept(cart, (x: CartItem) => x.id != id);
    }
  }

  /** Dropping one line keeps ids distinct and quantities positive. */
  lemma CutKeepsValid(cart: seq<CartItem>, i: int)
    requires Valid(cart) && 0 <= i < |cart|
    ensures Valid(cart[..i] + cart[i + 1..])
  {
    var r := cart[..i] + cart[i + 1..];
    assert forall k :: 0 <= k < |r| ==> r[k] == cart[if k < i then k else k + 1];
  }

  lemma UpdateKeepsValid(cart: seq<CartItem>, id: int, qty: int)
    requires Valid(cart)
    ensures Valid(UpdateQuantity(cart, id, qty))
  {
  }

  lemma Distribute(a: int, b: int, c: int)
    ensures a * b - a * c == a * (b - c)
  {
  }

  /** With distinct ids, adding a known product is a one-line replacement. */
  lemma AddExistingIsReplace(cart: seq<CartItem>, item: NewItem, i: int)
    requires Valid(cart) && 0 <= i < |cart| && cart[i].id == item.id
    ensures AddToCart(cart, item) == cart[i := cart[i].(quantity := cart[i].quantity + 1)]
  {
    var r := AddToCart(cart, item);
    var s := cart[i := cart[i].(quantity := cart[i].quantity + 1)];
    forall k | 0 <= k < |cart| ensures r[k] == s[k] {
      if k != i {
        assert cart[k].id != item.id;
      }
    }
  }

  /** Adding a known product raises the total by its stored price; a new one by the given price. */
  lemma AddRaisesTotal(cart: seq<CartItem>, item: NewItem)
    requires Valid(cart)
    ensures forall i :: 0 <= i < |cart| && cart[i].id == item.id ==>
      Total(AddToCart(cart, item)) == Total(cart) + cart[i].price
    ensures !HasId(cart, item.id) ==> Total(AddToCart(cart, item)) == Total(cart) + item.price
  {
    forall i | 0 <= i < |cart| && cart[i].id == item.id
      ensures Total(AddToCart(cart, item)) == Total(cart) + cart[i].price
    {
      var bumped := cart[i].(quantity := cart[i].quantity + 1);
      AddExistingIsReplace(cart, item, i);
      TotalReplace(cart, i, bumped);
      assert LineAmount(bumped) - LineAmount(cart[i]) == cart[i].price by {
        Distribute(cart[i].price, cart[i].quantity + 1, cart[i].quantity);
      }
    }
    if !HasId(cart, item.id) {
      TotalAppend(cart, CartItem(item.id, item.name, item.price, item.image, 1));
    }
  }

  /** With distinct ids, removing a present id cuts out exactly its line. */
  lemma RemoveIsCut(cart: seq<CartItem>, i: int)
    requires Valid(cart) && 0 <= i < |cart|
    ensures RemoveFromCart(cart, cart[i].id) == cart[..i] + cart[i + 1..]
  {
    var id := cart[i].id;
    FilterDropsOne(cart, (x: CartItem) => x.id != id, i);
  }

  /** Removing a present id lowers the total by that line's amount; an absent id changes nothing. */
  lemma RemoveLowersTotal(cart: seq<CartItem>, id: int)
    requires Valid(cart)
    ensures !HasId(cart, id) ==> RemoveFromCart(cart, id) == cart
    ensures forall i :: 0 <= i < |cart| && cart[i].id == id ==>
      Total(RemoveFromCart(cart, id)) == Total(cart) - LineAmount(cart[i])
  {
    if !HasId(cart, id) {
      FilterAllKept(cart, (x: CartItem) => x.id != id);
    }
    forall i | 0 <= i < |cart| && cart[i].id == id
      ensures Total(RemoveFromCart(cart, id)) == Total(cart) - LineAmount(cart[i])
    {
      RemoveIsCut(cart, i);
      TotalDropAt(cart, i);
    }
  }

  /** With distinct ids, setting a present line's quantity is a one-line replacement. */
  lemma UpdateIsReplace(cart: seq<CartItem>, i: int, qty: int)
    requires Valid(cart) && 0 <= i < |cart|
    ensures UpdateQuantity(cart, cart[i].id, qty) == cart[i := cart[i].(quantity := AtLeastOne(qty))]
  {
    var r := UpdateQuantity(cart, cart[i].id, qty);
    var s := cart[i := cart[i].(quantity := AtLeastOne(qty))];
    forall k | 0 <= k < |cart| ensures r[k] == s[k] {
      if k != i {
        assert cart[k].id != cart[i].id;
      }
    }
  }

  /** Setting the quantity of a present line changes the total by price times the quantity difference. */
  lemma UpdateChangesTotal(cart: seq<CartItem>, i: int, qty: int)
    requires Valid(cart) && 0 <= i < |cart|
    ensures Total(UpdateQuantity(cart, cart[i].id, qty))
         == Total(cart) + cart[i].price * (AtLeastOne(qty) - cart[i].quantity)
  {
    var updated := cart[i].(quantity := AtLeastOne(qty));
    UpdateIsReplace(cart, i, qty);
    TotalReplace(cart, i, updated);
    assert LineAmount(updated) - LineAmount(cart[i]) == cart[i].price * (AtLeastOne(qty) - cart[i].quantity) by {
      Distribute(cart[i].price, AtLeastOne(qty), cart[i].quantity);
    }
  }

  /** Adding one product priced 100 to an empty cart gives one line and a total of 100. */
  lemma AddToEmptyCart()
    ensures var c := AddToCart([], NewItem(1, "Product", 100, "img"));
      |c| == 1 && Total(c) == 100 && c[0].quantity == 1
  {
  }
}
