/**
  The shopping cart held by the client: a reducer over an immutable cart value,
  the add-with-warning entry point the restaurant page uses, and the two totals
  the cart and checkout pages display.
*/
module CartState {
  import opened Common
  import opened Catalog

  /** One cart line. `restaurantId` is the id passed to the add action, not the menu item's own field. */
  datatype CartItem = CartItem(menuItem: MenuItem, quantity: int, restaurantId: string)

  datatype Cart = Cart(items: seq<CartItem>, restaurantId: Option<string>)

  /** The four actions of the reducer. */
  datatype Action =
    | AddItem(menuItem: MenuItem, restaurantId: string)
    | RemoveItem(itemId: string)
    | UpdateQuantity(itemId: string, quantity: int)
    | ClearCart
  {
    /** The reducer handles an update to a non-positive quantity by re-dispatching a removal. */
    function Rank(): nat {
      if UpdateQuantity? then 1 else 0
    }
  }

  const InitialCart: Cart := Cart([], None)

  /** JavaScript truthiness of `cart.restaurantId`: both `null` and the empty string are falsy. */
  predicate HasRestaurant(c: Cart) {
    c.restaurantId.Some? && c.restaurantId.value != ""
  }

  /** `items.findIndex(item => item.menuItem.id === id)`: the first matching position, or -1. */
  function FindIndex(items: seq<CartItem>, id: string): (i: int)
    ensures -1 <= i < |items|
    ensures i >= 0 ==> items[i].menuItem.id == id
    ensures i >= 0 ==> forall k :: 0 <= k < i ==> items[k].menuItem.id != id
    ensures i == -1 ==> forall k :: 0 <= k < |items| ==> items[k].menuItem.id != id
  {
    if |items| == 0 then -1
    else if items[0].menuItem.id == id then 0
    else
      var j := FindIndex(items[1..], id);
      if j == -1 then -1 else j + 1
  }

  /** Every line whose menu item id differs from `id`, in order. */
  function Without(items: seq<CartItem>, id: string): (r: seq<CartItem>) {
    Filter(items, (it: CartItem) => it.menuItem.id != id)
  }

  /** `items.map(...)`: the lines with menu item `id` get quantity `q`; the others are kept as they are. */
  function SetQuantity(items: seq<CartItem>, id: string, q: int): (r: seq<CartItem>)
    ensures |r| == |items|
  {
    seq(|items|, i requires 0 <= i < |items| =>
      if items[i].menuItem.id == id then items[i].(quantity := q) else items[i])
  }

  /** The cart reducer. */
  function Reduce(c: Cart, a: Action): Cart
    decreases a.Rank()
  {
    match a
    case AddItem(m, rid) =>
      if HasRestaurant(c) && c.restaurantId.value != rid then
        Cart([CartItem(m, 1, rid)], Some(rid))
      else
        var i := FindIndex(c.items, m.id);
        if i >= 0 then
          Cart(c.items[i := c.items[i].(quantity := c.items[i].quantity + 1)], Some(rid))
        else
          Cart(c.items + [CartItem(m, 1, rid)], Some(rid))
    case RemoveItem(id) =>
      var rest := Without(c.items, id);
      Cart(rest, if |rest| == 0 then None else c.restaurantId)
    case UpdateQuantity(id, q) =>
      if q <= 0 then Reduce(c, RemoveItem(id))
      else Cart(SetQuantity(c.items, id, q), c.restaurantId)
    case ClearCart =>
      InitialCart
  }

  /** The cart after dispatching `actions` in order. */
  function Run(c: Cart, actions: seq<Action>): Cart
    decreases |actions|
  {
    if |actions| == 0 then c else Run(Reduce(c, actions[0]), actions[1..])
  }

  // ---------------------------------------------------------------- invariant

  predicate DistinctIds(items: seq<CartItem>) {
    forall i, j :: 0 <= i < j < |items| ==> items[i].menuItem.id != items[j].menuItem.id
  }

  /**
    The cart invariant: distinct menu item ids, positive quantities, a restaurant
    id exactly when there are lines, every line tagged with that restaurant id,
    and never the empty string as restaurant id.
  */
  predicate Valid(c: Cart) {
    && DistinctIds(c.items)
    && (forall i :: 0 <= i < |c.items| ==> c.items[i].quantity >= 1)
    && (c.restaurantId.None? <==> |c.items| == 0)
    && (forall i :: 0 <= i < |c.items| ==> c.restaurantId == Some(c.items[i].restaurantId))
    && c.restaurantId != Some("")
  }

  /** The restaurant page always passes the (non-empty) id of the restaurant being viewed. */
  predicate WellFormedAction(a: Action) {
    a.AddItem? ==> a.restaurantId != ""
  }

  lemma {:induction false} WithoutKeepsDistinct(items: seq<CartItem>, id: string)
    requires DistinctIds(items)
    ensures DistinctIds(Without(items, id))
  {
    if |items| > 0 {
      WithoutKeepsDistinct(items[1..], id);
      var tail := Without(items[1..], id);
      if items[0].menuItem.id != id {
        assert Without(items, id) == [items[0]] + tail;
        forall k | 0 <= k < |tail| ensures items[0].menuItem.id != tail[k].menuItem.id {
          var m :| 0 <= m < |items[1..]| && items[1..][m] == tail[k];
          assert items[1..][m] == items[m + 1];
        }
      } else {
        assert Without(items, id) == tail;
      }
    }
  }

  /** Every action that names a non-empty restaurant id keeps a valid cart valid. */
  lemma ReducePreservesValid(c: Cart, a: Action)
    requires Valid(c) && WellFormedAction(a)
    ensures Valid(Reduce(c, a))
    decreases a.Rank()
  {
    match a
    case AddItem(m, rid) =>
      AddPreservesValid(c, m, rid);
    case RemoveItem(id) =>
      RemovePreservesValid(c, id);
    case UpdateQuantity(id, q) =>
      if q <= 0 {
        RemovePreservesValid(c, id);
      } else {
        assert Reduce(c, a) == Cart(SetQuantity(c.items, id, q), c.restaurantId);
      }
    case ClearCart =>
  }

  lemma AddPreservesValid(c: Cart, m: MenuItem, rid: string)
    requires Valid(c) && rid != ""
    ensures Valid(Reduce(c, AddItem(m, rid)))
  {
    var clash := HasRestaurant(c) && c.restaurantId.value != rid;
    if !clash {
      var i := FindIndex(c.items, m.id);
      if i < 0 {
        var items' := c.items + [CartItem(m, 1, rid)];
        assert Reduce(c, AddItem(m, rid)) == Cart(items', Some(rid));
        assert forall k :: 0 <= k < |c.items| ==> items'[k] == c.items[k];
      } else {
        assert Reduce(c, AddItem(m, rid)) == Cart(c.items[i := c.items[i].(quantity := c.items[i].quantity + 1)], Some(rid));
      }
    }
  }

  lemma RemovePreservesValid(c: Cart, id: string)
    requires Valid(c)
    ensures Valid(Reduce(c, RemoveItem(id)))
  {
    WithoutKeepsDistinct(c.items, id);
  }

  /** Starting from the initial cart, every sequence of well-formed actions leaves a valid cart. */
  lemma {:induction false} RunPreservesValid(c: Cart, actions: seq<Action>)
    requires Valid(c)
    requires forall k :: 0 <= k < |actions| ==> WellFormedAction(actions[k])
    ensures Valid(Run(c, actions))
    decreases |actions|
  {
    if |actions| > 0 {
      ReducePreservesValid(c, actions[0]);
      RunPreservesValid(Reduce(c, actions[0]), actions[1..]);
    }
  }

  lemma RunTwo(c: Cart, a: Action, b: Action)
    ensures Run(c, [a, b]) == Reduce(Reduce(c, a), b)
  {
    var c1 := Reduce(c, a);
    assert [a, b][1..] == [b];
    assert Run(c, [a, b]) == Run(c1, [b]);
    assert [b][1..] == [];
    assert Run(c1, [b]) == Run(Reduce(c1, b), []);
  }

  lemma InitialCartValid()
    ensures Valid(InitialCart)
  {
  }

  /** With an empty restaurant id the reducer does not clear the cart, and the single-restaurant invariant breaks. */
  lemma EmptyRestaurantIdBreaksInvariant(m1: MenuItem, m2: MenuItem)
    requires m1.id != m2.id
    ensures !Valid(Run(InitialCart, [AddItem(m1, ""), AddItem(m2, "2")]))
  {
    RunTwo(InitialCart, AddItem(m1, ""), AddItem(m2, "2"));
    var c1 := Reduce(InitialCart, AddItem(m1, ""));
    assert c1 == Cart([CartItem(m1, 1, "")], Some(""));
    assert !HasRestaurant(c1);
    assert FindIndex(c1.items, m2.id) == -1;
    var c2 := Reduce(c1, AddItem(m2, "2"));
    assert c2.items == [CartItem(m1, 1, ""), CartItem(m2, 1, "2")];
    assert c2.restaurantId == Some("2");
    assert c2.restaurantId != Some(c2.items[0].restaurantId);
  }

  // ---------------------------------------------------------------- action by action

  /** Adding from another restaurant discards every line and starts over with one line of quantity 1. */
  lemma AddFromOtherRestaurant(c: Cart, m: MenuItem, rid: string)
    requires HasRestaurant(c) && c.restaurantId.value != rid
    ensures Reduce(c, AddItem(m, rid)) == Cart([CartItem(m, 1, rid)], Some(rid))
  {
  }

  /** Adding an item already in the cart increments that line only; length and order are unchanged. */
  lemma AddExistingItem(c: Cart, m: MenuItem, rid: string, i: nat)
    requires !(HasRestaurant(c) && c.restaurantId.value != rid)
    requires DistinctIds(c.items)
    requires i < |c.items| && c.items[i].menuItem.id == m.id
    ensures var r := Reduce(c, AddItem(m, rid));
      && |r.items| == |c.items|
      && r.items[i] == c.items[i].(quantity := c.items[i].quantity + 1)
      && (forall k :: 0 <= k < |c.items| && k != i ==> r.items[k] == c.items[k])
      && r.restaurantId == Some(rid)
  {
    assert FindIndex(c.items, m.id) == i;
  }

  /** Adding a new item from the same restaurant, or to an empty cart, appends one line of quantity 1. */
  lemma AddNewItem(c: Cart, m: MenuItem, rid: string)
    requires !(HasRestaurant(c) && c.restaurantId.value != rid)
    requires forall k :: 0 <= k < |c.items| ==> c.items[k].menuItem.id != m.id
    ensures Reduce(c, AddItem(m, rid)) == Cart(c.items + [CartItem(m, 1, rid)], Some(rid))
  {
  }

  /** Removing deletes every line with that id and clears the restaurant exactly when nothing is left. */
  lemma RemoveItemEffect(c: Cart, id: string)
    ensures var r := Reduce(c, RemoveItem(id));
      && (forall k :: 0 <= k < |r.items| ==> r.items[k].menuItem.id != id && r.items[k] in c.items)
      && (forall k :: 0 <= k < |c.items| && c.items[k].menuItem.id != id ==> c.items[k] in r.items)
      && (|r.items| == 0 ==> r.restaurantId.None?)
      && (|r.items| > 0 ==> r.restaurantId == c.restaurantId)
  {
  }

  /** A non-positive quantity behaves exactly like a removal: decreasing from 1 empties a one-line cart. */
  lemma UpdateToZeroRemoves(c: Cart, id: string, q: int)
    requires q <= 0
    ensures Reduce(c, UpdateQuantity(id, q)) == Reduce(c, RemoveItem(id))
  {
  }

  lemma DecreaseLastItemEmptiesCart(m: MenuItem, rid: string)
    requires rid != ""
    ensures Run(InitialCart, [AddItem(m, rid), UpdateQuantity(m.id, 0)]) == InitialCart
  {
    RunTwo(InitialCart, AddItem(m, rid), UpdateQuantity(m.id, 0));
    var c1 := Reduce(InitialCart, AddItem(m, rid));
    assert c1.items == [CartItem(m, 1, rid)];
    assert Without(c1.items, m.id) == [];
  }

  /** A positive quantity changes only the matching line; an unknown id changes nothing. */
  lemma UpdateQuantityEffect(c: Cart, id: string, q: int)
    requires q > 0
    ensures var r := Reduce(c, UpdateQuantity(id, q));
      && r.restaurantId == c.restaurantId
      && |r.items| == |c.items|
      && (forall k :: 0 <= k < |c.items| ==>
            r.items[k] == if c.items[k].menuItem.id == id then c.items[k].(quantity := q) else c.items[k])
      && ((forall k :: 0 <= k < |c.items| ==> c.items[k].menuItem.id != id) ==> r == c)
  {
    var r := Reduce(c, UpdateQuantity(id, q));
    if forall k :: 0 <= k < |c.items| ==> c.items[k].menuItem.id != id {
      assert r.items == c.items;
    }
  }

  lemma ClearGivesInitial(c: Cart)
    ensures Reduce(c, ClearCart) == InitialCart
  {
  }

  // ---------------------------------------------------------------- totals

  function LineTotal(it: CartItem): real {
    it.menuItem.price * it.quantity as real
  }

  /** `getCartTotal`: the sum of price times quantity, accumulated left to right from 0. */
  function Total(items: seq<CartItem>): real {
    if |items| == 0 then 0.0 else Total(items[..|items| - 1]) + LineTotal(items[|items| - 1])
  }

  /** `getCartItemCount`: the sum of the quantities, accumulated left to right from 0. */
  function ItemCount(items: seq<CartItem>): int {
    if |items| == 0 then 0 else ItemCount(items[..|items| - 1]) + items[|items| - 1].quantity
  }

  lemma {:induction false} TotalUpdate(items: seq<CartItem>, i: nat, it: CartItem)
    requires i < |items|
    ensures Total(items[i := it]) == Total(items) - LineTotal(items[i]) + LineTotal(it)
    ensures ItemCount(items[i := it]) == ItemCount(items) - items[i].quantity + it.quantity
  {
    var n := |items|;
    var items' := items[i := it];
    if i < n - 1 {
      assert items'[..n - 1] == items[..n - 1][i := it];
      TotalUpdate(items[..n - 1], i, it);
    } else {
      assert items'[..n - 1] == items[..n - 1];
    }
  }

  lemma TotalAppend(items: seq<CartItem>, it: CartItem)
    ensures Total(items + [it]) == Total(items) + LineTotal(it)
    ensures ItemCount(items + [it]) == ItemCount(items) + it.quantity
  {
    assert (items + [it])[..|items|] == items;
  }

  /** Adding from another restaurant leaves exactly one unit, priced at the new item's price. */
  lemma AddFromOtherRestaurantTotals(c: Cart, m: MenuItem, rid: string)
    requires HasRestaurant(c) && c.restaurantId.value != rid
    ensures ItemCount(Reduce(c, AddItem(m, rid)).items) == 1
    ensures Total(Reduce(c, AddItem(m, rid)).items) == m.price
  {
    var r := Reduce(c, AddItem(m, rid));
    assert r.items[..0] == [];
  }

  lemma LineTotalIncrement(it: CartItem)
    ensures LineTotal(it.(quantity := it.quantity + 1)) == LineTotal(it) + it.menuItem.price
  {
    var p, q := it.menuItem.price, it.quantity;
    assert (q + 1) as real == q as real + 1.0;
    assert p * (q as real + 1.0) == p * (q as real) + p;
  }

  /** Adding one more unit of an item already in the cart adds its stored price to the total and one to the count. */
  lemma AddExistingItemTotals(c: Cart, m: MenuItem, rid: string, i: nat)
    requires !(HasRestaurant(c) && c.restaurantId.value != rid)
    requires i == FindIndex(c.items, m.id)
    ensures ItemCount(Reduce(c, AddItem(m, rid)).items) == ItemCount(c.items) + 1
    ensures Total(Reduce(c, AddItem(m, rid)).items) == Total(c.items) + c.items[i].menuItem.price
  {
    var it := c.items[i].(quantity := c.items[i].quantity + 1);
    assert Reduce(c, AddItem(m, rid)).items == c.items[i := it];
    TotalUpdate(c.items, i, it);
    LineTotalIncrement(c.items[i]);
  }

  /** Adding a new item from the cart's own restaurant, or to an empty cart, adds its price and one unit. */
  lemma AddNewItemTotals(c: Cart, m: MenuItem, rid: string)
    requires !(HasRestaurant(c) && c.restaurantId.value != rid)
    requires FindIndex(c.items, m.id) == -1
    ensures ItemCount(Reduce(c, AddItem(m, rid)).items) == ItemCount(c.items) + 1
    ensures Total(Reduce(c, AddItem(m, rid)).items) == Total(c.items) + m.price
  {
    var line := CartItem(m, 1, rid);
    assert Reduce(c, AddItem(m, rid)) == Cart(c.items + [line], Some(rid));
    TotalAppend(c.items, line);
    assert LineTotal(line) == m.price * 1.0;
  }

  /** Margherita Pizza as listed for Pizza Palace (restaurant "1"). */
  const Margherita: MenuItem :=
    MenuItem("1-1", "1", "Margherita Pizza", "Classic pizza with tomato sauce, mozzarella, and basil",
             16.99, "/margherita.jpg", "Pizza")

  /** Two Margheritas: two units, $33.98. */
  lemma TwoMargheritas()
    ensures var c := Run(InitialCart, [AddItem(Margherita, "1"), AddItem(Margherita, "1")]);
      ItemCount(c.items) == 2 && Total(c.items) == 33.98 && |c.items| == 1
  {
    RunTwo(InitialCart, AddItem(Margherita, "1"), AddItem(Margherita, "1"));
    var c1 := Reduce(InitialCart, AddItem(Margherita, "1"));
    assert c1.items == [CartItem(Margherita, 1, "1")];
    var c2 := Reduce(c1, AddItem(Margherita, "1"));
    assert FindIndex(c1.items, Margherita.id) == 0;
    assert c2.items == [CartItem(Margherita, 2, "1")];
    assert c2.items[..0] == [];
    assert Total(c2.items) == Total([]) + 16.99 * 2.0;
  }

  // ---------------------------------------------------------------- add with warning

  /** What `addItemWithWarning` does: call the warning callback with the current restaurant id, or dispatch the add. */
  datatype AddOutcome = Warned(currentRestaurantId: string) | Added(cart: Cart)

  /**
    `addItemWithWarning`: when the cart holds lines of another restaurant and a callback was supplied,
    the callback gets the current restaurant id and the cart is left alone; otherwise the item is added
    (which, without a callback, silently replaces the other restaurant's lines).
  */
  function AddItemWithWarning(c: Cart, m: MenuItem, rid: string, hasCallback: bool): (r: AddOutcome)
    ensures r.Added? ==> r.cart == Reduce(c, AddItem(m, rid))
  {
    if HasRestaurant(c) && c.restaurantId.value != rid && |c.items| > 0 && hasCallback then
      Warned(c.restaurantId.value)
    else
      Added(Reduce(c, AddItem(m, rid)))
  }

  /**
    On a valid cart the warning fires exactly when a callback is present and the plain add would
    discard lines; with no callback the add goes through; adding never discards without a warning
    when a callback is present.
  */
  lemma AddWithWarningDecision(c: Cart, m: MenuItem, rid: string, hasCallback: bool)
    requires Valid(c)
    ensures var r := AddItemWithWarning(c, m, rid, hasCallback);
      && (r.Warned? <==> hasCallback && c.restaurantId.Some? && c.restaurantId.value != rid)
      && (r.Warned? ==> Some(r.currentRestaurantId) == c.restaurantId)
      && (r.Added? && hasCallback ==>
            forall k :: 0 <= k < |c.items| ==>
              c.items[k].menuItem.id in (set j | 0 <= j < |r.cart.items| :: r.cart.items[j].menuItem.id))
  {
    var r := AddItemWithWarning(c, m, rid, hasCallback);
    if r.Added? && hasCallback {
      var i := FindIndex(c.items, m.id);
      forall k | 0 <= k < |c.items|
        ensures c.items[k].menuItem.id in (set j | 0 <= j < |r.cart.items| :: r.cart.items[j].menuItem.id)
      {
        assert r.cart.items[k].menuItem.id == c.items[k].menuItem.id;
      }
    }
  }
}
