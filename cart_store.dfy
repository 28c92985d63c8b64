/** The client's cart store: a list of cart entries keyed by product id,
    with two cached aggregates, the number of units (`itemCount`) and the
    amount (`total`), and an optional guest id. Amounts are integer cents.

    Each action replaces the store's fields the way its `set` callback
    does; the list operations (`find`, `map`, `filter`, `some`) are the
    functions below, and the lemmas say what they do to the list and to
    the two sums the aggregates must equal. */
module CartStore {
  import opened Common

  datatype Product = Product(id: string, name: string, price: int, image: string, category: string)

  datatype CartItem = CartItem(id: string, name: string, price: int, image: string, quantity: int, category: string)

  /** `addItem`'s default quantity. */
  const DefaultQuantity := 1

  function NewItem(p: Product, quantity: int): (it: CartItem)
    ensures it.id == p.id && it.price == p.price && it.quantity == quantity
  {
    CartItem(p.id, p.name, p.price, p.image, quantity, p.category)
  }

  // ---------------------------------------------------------------- list queries

  /** `items.find(item => item.id === id)`, as the index of the first match. */
  function Find(items: seq<CartItem>, id: string): (k: Option<nat>)
    ensures k.Some? ==> k.value < |items| && items[k.value].id == id
                        && forall j :: 0 <= j < k.value ==> items[j].id != id
    ensures k.None? <==> forall j :: 0 <= j < |items| ==> items[j].id != id
    decreases |items|
  {
    if items == [] then None
    else if items[0].id == id then Some(0)
    else match Find(items[1..], id)
      case None => None
      case Some(k) => assert items[k + 1] == items[1..][k]; Some(k + 1)
  }

  /** No two entries share a product id: the shape every cart action keeps. */
  predicate IdsUnique(items: seq<CartItem>) {
    forall i, j :: 0 <= i < |items| && 0 <= j < |items| && items[i].id == items[j].id ==> i == j
  }

  lemma FindUnique(items: seq<CartItem>, id: string, k: nat)
    requires IdsUnique(items) && k < |items| && items[k].id == id
    ensures Find(items, id) == Some(k)
  {
  }

  // ---------------------------------------------------------------- the two sums

  function Units(it: CartItem): int {
    it.quantity
  }

  function LineAmount(it: CartItem): int {
    it.price * it.quantity
  }

  function SumOf(items: seq<CartItem>, f: CartItem -> int): int
    decreases |items|
  {
    if items == [] then 0 else f(items[0]) + SumOf(items[1..], f)
  }

  lemma {:induction false} SumOfConcat(a: seq<CartItem>, b: seq<CartItem>, f: CartItem -> int)
    ensures SumOf(a + b, f) == SumOf(a, f) + SumOf(b, f)
    decreases |a|
  {
    if a == [] {
      assert a + b == b;
    } else {
      assert (a + b)[1..] == a[1..] + b;
      SumOfConcat(a[1..], b, f);
    }
  }

  /** A list is its prefix, one entry and its suffix. */
  lemma SplitAround(items: seq<CartItem>, k: nat)
    requires k < |items|
    ensures items == (items[..k] + [items[k]]) + items[k + 1..]
  {
  }

  /** A sum over a prefix, one entry and a suffix. */
  lemma SumOfAround(pre: seq<CartItem>, x: CartItem, post: seq<CartItem>, f: CartItem -> int)
    ensures SumOf((pre + [x]) + post, f) == SumOf(pre, f) + f(x) + SumOf(post, f)
  {
    SumOfConcat(pre + [x], post, f);
    SumOfConcat(pre, [x], f);
  }

  /** Replacing one entry shifts a sum by the difference of the two entries. */
  lemma SumOfUpdate(items: seq<CartItem>, k: nat, v: CartItem, f: CartItem -> int)
    requires k < |items|
    ensures SumOf(items[k := v], f) == SumOf(items, f) - f(items[k]) + f(v)
  {
    var pre, post := items[..k], items[k + 1..];
    SplitAround(items, k);
    assert items[k := v] == (pre + [v]) + post;
    SumOfAround(pre, items[k], post, f);
    SumOfAround(pre, v, post, f);
  }

  /** Removing one entry lowers a sum by that entry. */
  lemma SumOfRemove(items: seq<CartItem>, k: nat, f: CartItem -> int)
    requires k < |items|
    ensures SumOf(items[..k] + items[k + 1..], f) == SumOf(items, f) - f(items[k])
  {
    var pre, post := items[..k], items[k + 1..];
    SplitAround(items, k);
    SumOfAround(pre, items[k], post, f);
    SumOfConcat(pre, post, f);
  }

  // ---------------------------------------------------------------- the list updates

  /** The `items` an `addItem(product, quantity)` leaves: every entry with
      the product's id gains `quantity` units, or, when there is none, a
      new entry at the end. */
  function AddToItems(items: seq<CartItem>, p: Product, quantity: int): seq<CartItem> {
    if Find(items, p.id).Some? then
      Map(items, AddUnitsIf(p.id, quantity))
    else items + [NewItem(p, quantity)]
  }

  /** The map callback of `addItem`: the entry with that id gains `quantity` units. */
  function AddUnitsIf(id: string, quantity: int): CartItem -> CartItem {
    (it: CartItem) => if it.id == id then it.(quantity := it.quantity + quantity) else it
  }

  /** The map callback of `updateQuantity`: the entry with that id gets `quantity`. */
  function QuantityIf(id: string, quantity: int): CartItem -> CartItem {
    (it: CartItem) => if it.id == id then it.(quantity := quantity) else it
  }

  /** The filter predicate `item => item.id !== id`. */
  function KeepOthers(id: string): CartItem -> bool {
    (it: CartItem) => it.id != id
  }

  /** `items.filter(item => item.id !== id)`. */
  function RemoveFromItems(items: seq<CartItem>, id: string): seq<CartItem> {
    Filter(items, KeepOthers(id))
  }

  /** `items.map(...)` setting the quantity of every entry with that id. */
  function SetQuantityIn(items: seq<CartItem>, id: string, quantity: int): seq<CartItem> {
    Map(items, QuantityIf(id, quantity))
  }

  /** The product is new to the cart, or its price equals the stored entry's. */
  predicate PriceAgrees(items: seq<CartItem>, p: Product) {
    match Find(items, p.id)
    case Some(k) => items[k].price == p.price
    case None => true
  }

  /** A product not yet in the cart is appended as one new entry with the
      product's data and the requested quantity. */
  lemma AddNewProduct(items: seq<CartItem>, p: Product, quantity: int)
    requires Find(items, p.id).None?
    ensures var r := AddToItems(items, p, quantity);
      && |r| == |items| + 1 && r[..|items|] == items
      && r[|items|].id == p.id && r[|items|].quantity == quantity && r[|items|].price == p.price
    ensures IdsUnique(items) ==> IdsUnique(AddToItems(items, p, quantity))
  {
  }

  /** A product already in a well-formed cart keeps its place: only its
      entry's quantity grows, the length and the other entries stay. */
  lemma AddExistingProduct(items: seq<CartItem>, p: Product, quantity: int, k: nat)
    requires IdsUnique(items) && k < |items| && items[k].id == p.id
    ensures AddToItems(items, p, quantity) == items[k := items[k].(quantity := items[k].quantity + quantity)]
    ensures IdsUnique(AddToItems(items, p, quantity))
  {
    FindUnique(items, p.id, k);
    var r := Map(items, AddUnitsIf(p.id, quantity));
    var expected := items[k := items[k].(quantity := items[k].quantity + quantity)];
    forall j | 0 <= j < |items| ensures r[j] == expected[j] {
      assert r[j] == AddUnitsIf(p.id, quantity)(items[j]);
      if j != k {
        assert items[j].id != p.id;
      }
    }
    assert r == expected;
  }

  /** In a well-formed cart, setting the quantity of a present id changes
      that one entry; for an absent id nothing changes. */
  lemma SetQuantityEffect(items: seq<CartItem>, id: string, quantity: int)
    requires IdsUnique(items)
    ensures Find(items, id).None? ==> SetQuantityIn(items, id, quantity) == items
    ensures Find(items, id).Some? ==>
      var k := Find(items, id).value;
      SetQuantityIn(items, id, quantity) == items[k := items[k].(quantity := quantity)]
    ensures IdsUnique(SetQuantityIn(items, id, quantity))
  {
    var r := SetQuantityIn(items, id, quantity);
    if Find(items, id).Some? {
      var k := Find(items, id).value;
      forall j | 0 <= j < |items| ensures r[j] == items[k := items[k].(quantity := quantity)][j] {
      }
    } else {
      forall j | 0 <= j < |items| ensures r[j] == items[j] {
      }
    }
  }

  /** Removing a present id drops exactly its entry and keeps the others
      in order; an absent id changes nothing. */
  lemma RemoveEffect(items: seq<CartItem>, id: string)
    requires IdsUnique(items)
    ensures Find(items, id).None? ==> RemoveFromItems(items, id) == items
    ensures Find(items, id).Some? ==>
      var k := Find(items, id).value;
      RemoveFromItems(items, id) == items[..k] + items[k + 1..]
  {
    if Find(items, id).Some? {
      FilterDropsOne(items, id, Find(items, id).value);
    } else {
      FilterAll(items, KeepOthers(id));
    }
  }

  lemma FilterDropsOne(items: seq<CartItem>, id: string, k: nat)
    requires IdsUnique(items) && Find(items, id) == Some(k)
    ensures Filter(items, KeepOthers(id)) == items[..k] + items[k + 1..]
  {
    KeepsBefore(items, id, k);
    KeepsAfter(items, id, k);
    assert items == (items[..k] + [items[k]]) + items[k + 1..];
    FilterDropsMiddle(items[..k], items[k], items[k + 1..], KeepOthers(id));
  }

  lemma FilterDropsMiddle(pre: seq<CartItem>, x: CartItem, post: seq<CartItem>, keep: CartItem -> bool)
    requires Filter(pre, keep) == pre && Filter(post, keep) == post && !keep(x)
    ensures Filter((pre + [x]) + post, keep) == pre + post
  {
    FilterAppend(pre + [x], post, keep);
    FilterAppend(pre, [x], keep);
    assert Filter([x], keep) == [];
  }

  /** Every entry before the first match is kept. */
  lemma KeepsBefore(items: seq<CartItem>, id: string, k: nat)
    requires Find(items, id) == Some(k)
    ensures Filter(items[..k], KeepOthers(id)) == items[..k]
  {
    var pre := items[..k];
    forall i | 0 <= i < |pre| ensures KeepOthers(id)(pre[i]) {
      assert pre[i] == items[i];
    }
    FilterAll(pre, KeepOthers(id));
  }

  /** With unique ids, every entry after the match is kept. */
  lemma KeepsAfter(items: seq<CartItem>, id: string, k: nat)
    requires IdsUnique(items) && Find(items, id) == Some(k)
    ensures Filter(items[k + 1..], KeepOthers(id)) == items[k + 1..]
  {
    var post := items[k + 1..];
    forall i | 0 <= i < |post| ensures KeepOthers(id)(post[i]) {
      assert post[i] == items[k + 1 + i];
      assert items[k + 1 + i].id != items[k].id;
    }
    FilterAll(post, KeepOthers(id));
  }

  /** Dropping one entry keeps the ids unique. */
  lemma UniqueWithout(items: seq<CartItem>, k: nat)
    requires IdsUnique(items) && k < |items|
    ensures IdsUnique(items[..k] + items[k + 1..])
  {
    var r := items[..k] + items[k + 1..];
    forall i, j | 0 <= i < |r| && 0 <= j < |r| && r[i].id == r[j].id ensures i == j {
      var i' := if i < k then i else i + 1;
      var j' := if j < k then j else j + 1;
      assert r[i] == items[i'] && r[j] == items[j'];
    }
  }

  lemma RemoveKeepsUnique(items: seq<CartItem>, id: string)
    requires IdsUnique(items)
    ensures IdsUnique(RemoveFromItems(items, id))
  {
    RemoveEffect(items, id);
    if Find(items, id).Some? {
      UniqueWithout(items, Find(items, id).value);
    }
  }

  // ---------------------------------------------------------------- aggregates under the updates

  /** What `addItem` does to the two sums in a well-formed cart: the units
      grow by `quantity` and the amount by the stored price times
      `quantity` (the product's price for a new entry). */
  lemma AddToItemsSums(items: seq<CartItem>, p: Product, quantity: int)
    requires IdsUnique(items)
    ensures SumOf(AddToItems(items, p, quantity), Units) == SumOf(items, Units) + quantity
    ensures SumOf(AddToItems(items, p, quantity), LineAmount) == SumOf(items, LineAmount) +
      (match Find(items, p.id) case Some(k) => items[k].price case None => p.price) * quantity
  {
    match Find(items, p.id)
    case Some(k) =>
      AddExistingProduct(items, p, quantity, k);
      var v := items[k].(quantity := items[k].quantity + quantity);
      SumOfUpdate(items, k, v, Units);
      SumOfUpdate(items, k, v, LineAmount);
      assert LineAmount(v) == LineAmount(items[k]) + items[k].price * quantity;
    case None =>
      SumOfConcat(items, [NewItem(p, quantity)], Units);
      SumOfConcat(items, [NewItem(p, quantity)], LineAmount);
  }

  /** Removing a present id lowers the sums by its entry. */
  lemma RemoveFromItemsSums(items: seq<CartItem>, id: string, k: nat)
    requires IdsUnique(items) && Find(items, id) == Some(k)
    ensures SumOf(RemoveFromItems(items, id), Units) == SumOf(items, Units) - items[k].quantity
    ensures SumOf(RemoveFromItems(items, id), LineAmount) == SumOf(items, LineAmount) - items[k].price * items[k].quantity
    ensures IdsUnique(RemoveFromItems(items, id))
  {
    RemoveKeepsUnique(items, id);
    RemoveEffect(items, id);
    SumOfRemove(items, k, Units);
    SumOfRemove(items, k, LineAmount);
  }

  /** Setting a present id's quantity shifts the sums by the difference. */
  lemma SetQuantitySums(items: seq<CartItem>, id: string, quantity: int, k: nat)
    requires IdsUnique(items) && Find(items, id) == Some(k)
    ensures SumOf(SetQuantityIn(items, id, quantity), Units) == SumOf(items, Units) + (quantity - items[k].quantity)
    ensures SumOf(SetQuantityIn(items, id, quantity), LineAmount) ==
      SumOf(items, LineAmount) + items[k].price * (quantity - items[k].quantity)
  {
    SetQuantityEffect(items, id, quantity);
    var v := items[k].(quantity := quantity);
    SumOfUpdate(items, k, v, Units);
    SumOfUpdate(items, k, v, LineAmount);
    ScaledDifference(items[k].price, quantity, items[k].quantity);
  }

  lemma ScaledDifference(p: int, q: int, r: int)
    ensures p * q - p * r == p * (q - r)
  {
  }

  /** The aggregates equal the sums they cache, and ids are unique. */
  predicate Consistent(items: seq<CartItem>, itemCount: int, total: int) {
    && IdsUnique(items)
    && itemCount == SumOf(items, Units)
    && total == SumOf(items, LineAmount)
  }

  /** Setting a present entry's quantity and moving the aggregates by the
      difference keeps a consistent cart consistent. */
  lemma SetQuantityConsistent(items: seq<CartItem>, itemCount: int, total: int, id: string, quantity: int, k: nat)
    requires Consistent(items, itemCount, total) && Find(items, id) == Some(k)
    ensures Consistent(SetQuantityIn(items, id, quantity), itemCount + (quantity - items[k].quantity),
                       total + items[k].price * (quantity - items[k].quantity))
  {
    SetQuantitySums(items, id, quantity, k);
    SetQuantityEffect(items, id, quantity);
  }

  /** `addItem` adds `product.price * quantity` to `total` even for an entry
      already in the cart, whose own price is kept: when the two prices
      differ and the quantity is not zero, `total` stops equalling the sum
      of the entries' amounts. */
  lemma AddWithStalePriceDrifts(items: seq<CartItem>, p: Product, quantity: int, k: nat)
    requires IdsUnique(items) && k < |items| && items[k].id == p.id
    requires items[k].price != p.price && quantity != 0
    ensures SumOf(items, LineAmount) + p.price * quantity != SumOf(AddToItems(items, p, quantity), LineAmount)
  {
    FindUnique(items, p.id, k);
    AddToItemsSums(items, p, quantity);
    ScaledDiffers(p.price, items[k].price, quantity);
  }

  lemma ScaledDiffers(a: int, b: int, q: int)
    requires a != b && q != 0
    ensures a * q != b * q
  {
    ProductNonZero(a - b, q);
    assert a * q - b * q == (a - b) * q;
  }

  lemma ProductNonZero(a: int, b: int)
    requires a != 0 && b != 0
    ensures a * b != 0
  {
    var m := if a < 0 then -a else a;
    var n := if b < 0 then -b else b;
    PositiveProduct(m, n);
    assert a * b == m * n || a * b == -(m * n);
  }

  lemma {:induction false} PositiveProduct(m: nat, n: nat)
    requires m > 0 && n > 0
    ensures m * n >= n
    decreases m
  {
    if m > 1 {
      PositiveProduct(m - 1, n);
      assert m * n == (m - 1) * n + n;
    }
  }

  // ---------------------------------------------------------------- the store

  /** `` `guest_${Date.now()}_${random}` ``: the clock reading and the random
      suffix are parameters. */
  function GuestId(now: nat, randomSuffix: string): string {
    "guest_" + Decimal(now) + "_" + randomSuffix
  }

  class Cart {
    var items: seq<CartItem>
    var total: int
    var itemCount: int
    var guestId: Option<string>

    /** The aggregates equal the sums they cache, and ids are unique. */
    predicate Valid()
      reads this
    {
      Consistent(items, itemCount, total)
    }

    constructor()
      ensures items == [] && total == 0 && itemCount == 0 && guestId == None
      ensures Valid()
    {
      items := [];
      total := 0;
      itemCount := 0;
      guestId := None;
    }

    /** `addItem(product, quantity = 1)`. The aggregates move by `quantity`
        and `product.price * quantity`; the store stays valid when the
        product is new or its price equals the stored entry's. */
    method AddItem(product: Product, quantity: int := DefaultQuantity)
      modifies this
      ensures items == AddToItems(old(items), product, quantity)
      ensures itemCount == old(itemCount) + quantity
      ensures total == old(total) + product.price * quantity
      ensures guestId == old(guestId)
      ensures old(Valid()) && PriceAgrees(old(items), product) ==> Valid()
    {
      if old(Valid()) {
        AddToItemsSums(items, product, quantity);
        if Find(items, product.id).Some? {
          AddExistingProduct(items, product, quantity, Find(items, product.id).value);
        } else {
          AddNewProduct(items, product, quantity);
        }
      }
      items := AddToItems(items, product, quantity);
      itemCount := itemCount + quantity;
      total := total + product.price * quantity;
    }

    /** `removeItem(productId)`: an absent id leaves the state as it was;
        a present one is filtered out and the aggregates lowered by the
        first matching entry. */
    method RemoveItem(productId: string)
      modifies this
      ensures Find(old(items), productId).None? ==>
        items == old(items) && total == old(total) && itemCount == old(itemCount)
      ensures Find(old(items), productId).Some? ==>
        var gone := old(items)[Find(old(items), productId).value];
        && items == RemoveFromItems(old(items), productId)
        && itemCount == old(itemCount) - gone.quantity
        && total == old(total) - gone.price * gone.quantity
      ensures guestId == old(guestId)
      ensures old(Valid()) ==> Valid()
    {
      match Find(items, productId)
      case None =>
      case Some(k) =>
        var gone := items[k];
        if Valid() {
          RemoveFromItemsSums(items, productId, k);
        }
        items := RemoveFromItems(items, productId);
        itemCount := itemCount - gone.quantity;
        total := total - gone.price * gone.quantity;
    }

    /** `updateQuantity(productId, quantity)`: an absent id is a no-op; a
        present one gets the new quantity and the aggregates move by the
        difference. No sign check is made here. */
    method UpdateQuantity(productId: string, quantity: int)
      modifies this
      ensures match Find(old(items), productId)
        case None => items == old(items) && total == old(total) && itemCount == old(itemCount)
        case Some(k) =>
          && items == SetQuantityIn(old(items), productId, quantity)
          && itemCount == old(itemCount) + (quantity - old(items)[k].quantity)
          && total == old(total) + old(items)[k].price * (quantity - old(items)[k].quantity)
      ensures guestId == old(guestId)
      ensures old(Valid()) ==> Valid()
    {
      var its, count, sum := items, itemCount, total;
      match Find(its, productId)
      case None =>
      case Some(k) =>
        var nextItems := SetQuantityIn(its, productId, quantity);
        var nextCount := count + (quantity - its[k].quantity);
        var nextTotal := sum + its[k].price * (quantity - its[k].quantity);
        if Consistent(its, count, sum) {
          SetQuantityConsistent(its, count, sum, productId, quantity, k);
          assert Consistent(nextItems, nextCount, nextTotal);
        }
        items, itemCount, total := nextItems, nextCount, nextTotal;
    }

    /** `clearCart()`: an empty, valid cart; the guest id is kept. */
    method ClearCart()
      modifies this
      ensures items == [] && total == 0 && itemCount == 0
      ensures guestId == old(guestId)
      ensures Valid()
    {
      items := [];
      total := 0;
      itemCount := 0;
    }

    /** `initializeGuestCart()`: stores and returns a fresh guest id;
        nothing else changes. */
    method InitializeGuestCart(now: nat, randomSuffix: string) returns (id: string)
      modifies this
      ensures id == GuestId(now, randomSuffix) && guestId == Some(id)
      ensures items == old(items) && total == old(total) && itemCount == old(itemCount)
    {
      id := GuestId(now, randomSuffix);
      guestId := Some(id);
    }

    /** `getItemQuantity(productId)`: the first matching entry's quantity,
        or 0 when there is none. */
    function GetItemQuantity(productId: string): (q: int)
      reads this
      ensures (forall j :: 0 <= j < |items| ==> items[j].id != productId) ==> q == 0
      ensures forall j :: 0 <= j < |items| && items[j].id == productId && IdsUnique(items) ==> q == items[j].quantity
    {
      match Find(items, productId)
      case Some(k) => items[k].quantity
      case None => 0
    }

    /** `isInCart(productId)`: some entry has that id. */
    function IsInCart(productId: string): (r: bool)
      reads this
      ensures r <==> exists j :: 0 <= j < |items| && items[j].id == productId
      ensures r <==> Find(items, productId).Some?
    {
      Find(items, productId).Some?
    }
  }
}
