/** The plain cart context of the client (`context/CartContext.tsx`): meal
    lines only, each with an id and a quantity. */
module SimpleCart {
  import opened Seqs

  /** A cart line. */
  datatype CartItem = CartItem(id: int, name: string, price: string, quantity: int)

  /** What `addToCart` is given: a line without its quantity. */
  datatype NewItem = NewItem(id: int, name: string, price: string)

  /** Whether the cart holds a line with the id. */
  predicate HasItem(items: seq<CartItem>, id: int) {
    exists i :: 0 <= i < |items| && items[i].id == id
  }

  /** Line ids are distinct. */
  predicate UniqueIds(items: seq<CartItem>) {
    forall i, j :: 0 <= i < j < |items| ==> items[i].id != items[j].id
  }

  /** The quantity of a line. */
  function Quantity(item: CartItem): int {
    item.quantity
  }

  /** `cartCount`: the sum of the quantities. */
  function CartCount(items: seq<CartItem>): (n: int)
    ensures (forall i :: 0 <= i < |items| ==> items[i].quantity >= 0) ==> n >= 0
  {
    Sum(items, Quantity)
  }

  /** `addToCart`: one more of every line with the id, or a new line with
      quantity 1 at the end. */
  function AddToCart(items: seq<CartItem>, x: NewItem): (r: seq<CartItem>)
    ensures HasItem(items, x.id) ==> |r| == |items| && forall i :: 0 <= i < |items| ==>
      r[i] == (if items[i].id == x.id then items[i].(quantity := items[i].quantity + 1) else items[i])
    ensures !HasItem(items, x.id) ==> r == items + [CartItem(x.id, x.name, x.price, 1)]
    ensures forall i :: 0 <= i < |r| ==> HasItem(items, r[i].id) || r[i].id == x.id
  {
    if Any(items, (c: CartItem) => c.id == x.id) then
      Map(items, (c: CartItem) => if c.id == x.id then c.(quantity := c.quantity + 1) else c)
    else items + [CartItem(x.id, x.name, x.price, 1)]
  }

  /** `removeFromCart`: the lines with another id, in their order. */
  function RemoveFromCart(items: seq<CartItem>, id: int): (r: seq<CartItem>)
    ensures forall i :: 0 <= i < |r| ==> r[i] in items && r[i].id != id
    ensures forall i :: 0 <= i < |items| && items[i].id != id ==> items[i] in r
    ensures |r| <= |items|
  {
    Filter(items, (c: CartItem) => c.id != id)
  }

  /** With distinct ids, a line in the cart is matched exactly once. */
  lemma {:induction false} MatchedOnce(items: seq<CartItem>, id: int)
    requires UniqueIds(items) && HasItem(items, id)
    ensures Count(items, (c: CartItem) => c.id == id) == 1
    decreases |items|
  {
    if items[0].id == id {
      assert forall i :: 0 <= i < |items[1..]| ==> items[1..][i].id != id by {
        forall i | 0 <= i < |items[1..]| ensures items[1..][i].id != id {
          assert items[1..][i] == items[i + 1];
        }
      }
    } else {
      var j :| 0 <= j < |items| && items[j].id == id;
      assert items[1..][j - 1].id == id;
      MatchedOnce(items[1..], id);
    }
  }

  /** `addToCart` keeps ids distinct and raises the count by exactly one. */
  lemma AddKeepsUniqueAndCounts(items: seq<CartItem>, x: NewItem)
    requires UniqueIds(items)
    ensures UniqueIds(AddToCart(items, x))
    ensures CartCount(AddToCart(items, x)) == CartCount(items) + 1
  {
    AddKeepsUnique(items, x);
    var r := AddToCart(items, x);
    if HasItem(items, x.id) {
      SumPointwise(items, r, Quantity, (c: CartItem) => c.id == x.id, 1);
      MatchedOnce(items, x.id);
    } else {
      SumConcat(items, [CartItem(x.id, x.name, x.price, 1)], Quantity);
    }
  }

  /** The id part of the above. */
  lemma AddKeepsUnique(items: seq<CartItem>, x: NewItem)
    requires UniqueIds(items)
    ensures UniqueIds(AddToCart(items, x))
  {
    var r := AddToCart(items, x);
    forall i, j | 0 <= i < j < |r| ensures r[i].id != r[j].id {
      if HasItem(items, x.id) {
        assert r[i].id == items[i].id && r[j].id == items[j].id;
      } else if j < |items| {
        assert r[i] == items[i] && r[j] == items[j];
      } else {
        assert r[i] == items[i] && r[j].id == x.id;
      }
    }
  }

  /** Removing an id after adding it leaves what removing it alone
      leaves: the add touched no other line. */
  lemma RemoveAfterAdd(items: seq<CartItem>, x: NewItem)
    ensures RemoveFromCart(AddToCart(items, x), x.id) == RemoveFromCart(items, x.id)
  {
    var p := (c: CartItem) => c.id != x.id;
    if HasItem(items, x.id) {
      KeepPointwise(items, AddToCart(items, x), x.id);
    } else {
      FilterConcat(items, [CartItem(x.id, x.name, x.price, 1)], p);
    }
  }

  /** The id filter does not see lines that differ only where it drops
      them. */
  lemma {:induction false} KeepPointwise(xs: seq<CartItem>, ys: seq<CartItem>, id: int)
    requires |xs| == |ys|
    requires forall i :: 0 <= i < |xs| ==> (ys[i].id == id <==> xs[i].id == id)
    requires forall i :: 0 <= i < |xs| ==> (xs[i].id != id ==> ys[i] == xs[i])
    ensures Filter(ys, (c: CartItem) => c.id != id) == Filter(xs, (c: CartItem) => c.id != id)
    decreases |xs|
  {
    if xs != [] {
      KeepPointwise(xs[1..], ys[1..], id);
    }
  }

  /** Removing a line takes its quantity off the count. */
  lemma RemoveLowersCount(items: seq<CartItem>, k: nat)
    requires UniqueIds(items) && k < |items|
    ensures CartCount(RemoveFromCart(items, items[k].id)) == CartCount(items) - items[k].quantity
  {
    var id := items[k].id;
    var p := (c: CartItem) => c.id != id;
    var q := (c: CartItem) => c.id == id;
    SumFilterSplit(items, Quantity, p, q);
    OnlyLine(items, k, q);
    assert Sum([items[k]], Quantity) == items[k].quantity;
  }

  /** With distinct ids, the lines with one line's id are that line alone. */
  lemma {:induction false} OnlyLine(items: seq<CartItem>, k: nat, q: CartItem -> bool)
    requires UniqueIds(items) && k < |items|
    requires forall c :: q(c) == (c.id == items[k].id)
    ensures Filter(items, q) == [items[k]]
    decreases |items|
  {
    if k == 0 {
      assert forall i :: 0 <= i < |items[1..]| ==> !q(items[1..][i]) by {
        forall i | 0 <= i < |items[1..]| ensures !q(items[1..][i]) {
          assert items[1..][i] == items[i + 1];
        }
      }
    } else {
      assert items[1..][k - 1] == items[k];
      OnlyLine(items[1..], k - 1, q);
    }
  }
}
