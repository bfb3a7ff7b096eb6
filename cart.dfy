/** The cart bookkeeping of the GoMarketplace cart provider: the list of
    products in the cart and the three rewrites of it, addToCart, increment
    and decrement, as functions over sequences, with the properties they keep.
 */
module Cart {
  import opened Wrappers

  /** What addToCart receives: a product without its quantity. */
  datatype ProductInfo = ProductInfo(id: string, title: string, imageUrl: string, price: real)

  /** One line of the cart. The price is a floating-point number that the
      cart only copies; `real` stands for it. */
  datatype Product = Product(id: string, title: string, imageUrl: string, price: real, quantity: int)
  {
    /** Every field but the quantity. */
    function Info(): ProductInfo {
      ProductInfo(id, title, imageUrl, price)
    }
  }

  /** The object `{ ...item, quantity: quantity }`. */
  function WithQuantity(item: ProductInfo, quantity: int): Product {
    Product(item.id, item.title, item.imageUrl, item.price, quantity)
  }

  /* ---------------- The array primitives the cart is written with ---------------- */

  predicate HasId(s: seq<Product>, id: string) {
    exists i :: 0 <= i < |s| && s[i].id == id
  }

  /** `s.find(p => p.id === id)`: a product with that id, if any.
      addToCart only tests whether one is found. */
  function Find(s: seq<Product>, id: string): (r: Option<Product>)
    ensures r.None? <==> !HasId(s, id)
    ensures r.Some? ==> r.value in s && r.value.id == id
  {
    if s == [] then None
    else if s[0].id == id then Some(s[0])
    else
      var r := Find(s[1..], id);
      assert forall j :: 1 <= j < |s| ==> s[1..][j - 1] == s[j];
      r
  }

  /** `s.findIndex(p => p.quantity === 0)`: the index of the first product
      whose quantity is zero, or -1 when there is none. */
  function FirstZeroIndex(s: seq<Product>): (k: int)
    ensures -1 <= k < |s|
    ensures k == -1 <==> forall i :: 0 <= i < |s| ==> s[i].quantity != 0
    ensures k != -1 ==> s[k].quantity == 0 && forall j :: 0 <= j < k ==> s[j].quantity != 0
  {
    if s == [] then -1
    else if s[0].quantity == 0 then 0
    else
      var k := FirstZeroIndex(s[1..]);
      assert forall j :: 1 <= j < |s| ==> s[1..][j - 1] == s[j];
      if k == -1 then -1 else k + 1
  }

  /** `s.splice(k, 1)`, as the list it leaves behind. */
  function Splice(s: seq<Product>, k: nat): (r: seq<Product>)
    requires k < |s|
    ensures |r| == |s| - 1
    ensures forall i :: 0 <= i < k ==> r[i] == s[i]
    ensures forall i :: k <= i < |r| ==> r[i] == s[i + 1]
  {
    s[..k] + s[k + 1..]
  }

  /* ---------------- The invariant a settled cart keeps ---------------- */

  /** No two lines share an id. */
  predicate UniqueIds(s: seq<Product>) {
    forall i, j :: 0 <= i < j < |s| ==> s[i].id != s[j].id
  }

  /** Every line holds at least one unit. */
  predicate AllPositive(s: seq<Product>) {
    forall i :: 0 <= i < |s| ==> s[i].quantity >= 1
  }

  predicate Settled(s: seq<Product>) {
    UniqueIds(s) && AllPositive(s)
  }

  /* ---------------- addToCart ---------------- */

  /** The callback of addToCart's `map`: the matching line takes the incoming
      fields and one more unit. */
  function Merged(p: Product, item: ProductInfo): Product {
    if p.id == item.id then WithQuantity(item, p.quantity + 1) else p
  }

  /** `s.map(p => Merged(p, item))` */
  function MergeEach(s: seq<Product>, item: ProductInfo): (r: seq<Product>)
    ensures |r| == |s|
    ensures forall i :: 0 <= i < |s| ==> r[i] == Merged(s[i], item)
  {
    if s == [] then [] else [Merged(s[0], item)] + MergeEach(s[1..], item)
  }

  /** addToCart: merge into the line with the same id, or append a new line
      holding one unit. */
  function AddToCart(s: seq<Product>, item: ProductInfo): (r: seq<Product>)
    ensures !HasId(s, item.id) ==> r == s + [WithQuantity(item, 1)]
    ensures HasId(s, item.id) ==>
      |r| == |s| &&
      forall i :: 0 <= i < |s| ==>
        r[i].id == s[i].id &&
        (s[i].id == item.id ==> r[i].Info() == item && r[i].quantity == s[i].quantity + 1) &&
        (s[i].id != item.id ==> r[i] == s[i])
  {
    if Find(s, item.id).Some? then MergeEach(s, item)
    else s + [WithQuantity(item, 1)]
  }

  lemma AddToCartPreservesSettled(s: seq<Product>, item: ProductInfo)
    requires Settled(s)
    ensures Settled(AddToCart(s, item))
  {
    var r := AddToCart(s, item);
    if !HasId(s, item.id) {
      forall i, j | 0 <= i < j < |r| ensures r[i].id != r[j].id {
        if j == |s| {
          assert r[i] == s[i];
        } else {
          assert r[i] == s[i] && r[j] == s[j];
        }
      }
    }
  }

  /** addToCart merging into an existing line changes the same things as
      increment, when the incoming fields are the ones already stored. */
  lemma AddToCartExistingIsIncrement(s: seq<Product>, item: ProductInfo)
    requires forall i :: 0 <= i < |s| && s[i].id == item.id ==> s[i].Info() == item
    requires HasId(s, item.id)
    ensures AddToCart(s, item) == Increment(s, item.id)
  {
    var r, q := AddToCart(s, item), Increment(s, item.id);
    forall i | 0 <= i < |s| ensures r[i] == q[i] {
      if s[i].id == item.id {
        assert s[i].Info() == item;
      }
    }
  }

  /** Adding the same id twice to a cart without it gives one line holding
      two units, with the fields of the second call. */
  lemma {:induction false} AddSameIdTwice(s: seq<Product>, first: ProductInfo, second: ProductInfo)
    requires first.id == second.id && !HasId(s, first.id)
    ensures AddToCart(AddToCart(s, first), second) == s + [WithQuantity(second, 2)]
  {
    var once := AddToCart(s, first);
    assert once[|s|].id == second.id;
    var twice := AddToCart(once, second);
    forall i | 0 <= i < |s| ensures twice[i] == s[i] {
      assert once[i] == s[i];
    }
  }

  /** A run of addToCart calls, one per item, in order. */
  function AddAll(s: seq<Product>, items: seq<ProductInfo>): (r: seq<Product>)
    decreases |items|
  {
    if items == [] then s else AddAll(AddToCart(s, items[0]), items[1..])
  }

  /** The lines a run of first-time adds appends: one unit of each item. */
  function NewLines(items: seq<ProductInfo>): (r: seq<Product>)
    ensures |r| == |items|
    ensures forall i :: 0 <= i < |items| ==> r[i] == WithQuantity(items[i], 1)
  {
    if items == [] then [] else [WithQuantity(items[0], 1)] + NewLines(items[1..])
  }

  /** Adding items with distinct ids, none already in the cart, appends one
      line per item, in call order, each holding one unit. */
  lemma {:induction false} AddDistinctAppends(s: seq<Product>, items: seq<ProductInfo>)
    requires DistinctIds(items) && AllAbsent(s, items)
    ensures AddAll(s, items) == s + NewLines(items)
    decreases |items|
  {
    if items != [] {
      var line := WithQuantity(items[0], 1);
      var s', rest := s + [line], items[1..];
      calc {
        AddAll(s, items);
        { AddAllStep(s, items); }
        AddAll(s', rest);
        { RestStaysAbsent(s, items); DistinctIdsTail(items); AddDistinctAppends(s', rest); }
        s' + NewLines(rest);
        { NewLinesCons(items); }
        s + NewLines(items);
      }
    }
  }

  lemma NewLinesCons(items: seq<ProductInfo>)
    requires items != []
    ensures NewLines(items) == [WithQuantity(items[0], 1)] + NewLines(items[1..])
  {
  }

  /** The first add of a run whose first item is new appends it. */
  lemma AddAllStep(s: seq<Product>, items: seq<ProductInfo>)
    requires items != [] && AllAbsent(s, items)
    ensures AddAll(s, items) == AddAll(s + [WithQuantity(items[0], 1)], items[1..])
  {
    assert !HasId(s, items[0].id);
  }

  /** None of the items' ids is in the cart. */
  predicate AllAbsent(s: seq<Product>, items: seq<ProductInfo>) {
    forall i :: 0 <= i < |items| ==> !HasId(s, items[i].id)
  }

  /** After the first item of a run is appended, the remaining items are
      still absent. */
  lemma RestStaysAbsent(s: seq<Product>, items: seq<ProductInfo>)
    requires items != [] && DistinctIds(items) && AllAbsent(s, items)
    ensures AllAbsent(s + [WithQuantity(items[0], 1)], items[1..])
  {
    forall i | 0 <= i < |items[1..]| ensures !HasId(s + [WithQuantity(items[0], 1)], items[1..][i].id) {
      assert items[1..][i] == items[i + 1];
      StillAbsentAfterAppend(s, WithQuantity(items[0], 1), items[i + 1].id);
    }
  }

  /** No two items share an id. */
  predicate DistinctIds(items: seq<ProductInfo>) {
    forall i, j :: 0 <= i < j < |items| ==> items[i].id != items[j].id
  }

  lemma DistinctIdsTail(items: seq<ProductInfo>)
    requires items != [] && DistinctIds(items)
    ensures DistinctIds(items[1..])
  {
    var rest := items[1..];
    forall i, j | 0 <= i < j < |rest| ensures rest[i].id != rest[j].id {
      assert rest[i] == items[i + 1] && rest[j] == items[j + 1];
    }
  }

  lemma StillAbsentAfterAppend(s: seq<Product>, line: Product, id: string)
    requires !HasId(s, id) && line.id != id
    ensures !HasId(s + [line], id)
  {
    var t := s + [line];
    forall k | 0 <= k < |t| ensures t[k].id != id {
      if k < |s| {
        assert t[k] == s[k];
      }
    }
  }

  /* ---------------- increment ---------------- */

  /** The callback of increment's `map`. */
  function Incremented(p: Product, id: string): Product {
    if p.id == id then p.(quantity := p.quantity + 1) else p
  }

  /** increment, `s.map(p => Incremented(p, id))`: one more unit on every
      line with that id. */
  function Increment(s: seq<Product>, id: string): (r: seq<Product>)
    ensures |r| == |s|
    ensures forall i :: 0 <= i < |s| ==>
      r[i].Info() == s[i].Info() &&
      r[i].quantity == if s[i].id == id then s[i].quantity + 1 else s[i].quantity
  {
    if s == [] then [] else [Incremented(s[0], id)] + Increment(s[1..], id)
  }

  lemma IncrementAbsentIsNoop(s: seq<Product>, id: string)
    requires !HasId(s, id)
    ensures Increment(s, id) == s
  {
    var r := Increment(s, id);
    forall i | 0 <= i < |s| ensures r[i] == s[i] {
      assert r[i] == Incremented(s[i], id);
    }
  }

  lemma IncrementPreservesSettled(s: seq<Product>, id: string)
    requires Settled(s)
    ensures Settled(Increment(s, id))
  {
    var r := Increment(s, id);
    assert forall i :: 0 <= i < |s| ==> r[i].id == s[i].Info().id;
  }

  /* ---------------- decrement ---------------- */

  /** The callback of decrement's `map`: only a line with units left loses one. */
  function Decremented(p: Product, id: string): Product {
    if p.id == id && p.quantity > 0 then p.(quantity := p.quantity - 1) else p
  }

  /** The list decrement builds with `s.map(p => Decremented(p, id))`,
      before it removes anything. */
  function DecrementEach(s: seq<Product>, id: string): (r: seq<Product>)
    ensures |r| == |s|
    ensures forall i :: 0 <= i < |s| ==> r[i] == Decremented(s[i], id)
  {
    if s == [] then [] else [Decremented(s[0], id)] + DecrementEach(s[1..], id)
  }

  /** decrement: one unit less on every line with that id that has units
      left, then the first line of the whole list whose quantity is zero,
      if any, is removed. */
  function Decrement(s: seq<Product>, id: string): (r: seq<Product>)
    ensures |s| - 1 <= |r| <= |s|
  {
    var updated := DecrementEach(s, id);
    var k := FirstZeroIndex(updated);
    if k != -1 then Splice(updated, k) else updated
  }

  /** decrement never takes a quantity below zero: only a line with units
      left loses one. */
  lemma DecrementNeverNegative(s: seq<Product>, id: string)
    requires forall i :: 0 <= i < |s| ==> s[i].quantity >= 0
    ensures forall i :: 0 <= i < |Decrement(s, id)| ==> Decrement(s, id)[i].quantity >= 0
  {
    var updated := DecrementEach(s, id);
    assert forall i :: 0 <= i < |updated| ==> updated[i].quantity >= 0;
  }

  /** decrement removes at most one line, one that the mapping step left at
      zero, and the lines that stay keep their relative order. */
  lemma DecrementRemovesAtMostOne(s: seq<Product>, id: string)
    ensures |Decrement(s, id)| == |s| ==> Decrement(s, id) == DecrementEach(s, id)
    ensures |Decrement(s, id)| < |s| ==>
      exists k :: 0 <= k < |s| && DecrementEach(s, id)[k].quantity == 0 &&
                  (forall j :: 0 <= j < k ==> DecrementEach(s, id)[j].quantity != 0) &&
                  Decrement(s, id) == DecrementEach(s, id)[..k] + DecrementEach(s, id)[k + 1..]
  {
    var updated, r := DecrementEach(s, id), Decrement(s, id);
    var k := FirstZeroIndex(updated);
    if k == -1 {
      assert r == updated;
    } else {
      assert r == Splice(updated, k);
      assert updated[k].quantity == 0 && r == updated[..k] + updated[k + 1..];
      assert forall j :: 0 <= j < k ==> updated[j].quantity != 0;
    }
  }

  /** Whether decrement removes a line depends only on the mapped list: it
      removes one exactly when some line of it is at zero. */
  lemma DecrementRemovesFirstZero(s: seq<Product>, id: string)
    ensures (forall i :: 0 <= i < |s| ==> DecrementEach(s, id)[i].quantity != 0) ==>
            Decrement(s, id) == DecrementEach(s, id)
    ensures (exists i :: 0 <= i < |s| && DecrementEach(s, id)[i].quantity == 0) ==>
            |Decrement(s, id)| == |s| - 1
  {
    var updated := DecrementEach(s, id);
    var k := FirstZeroIndex(updated);
    if k == -1 {
      assert Decrement(s, id) == updated;
    } else {
      assert Decrement(s, id) == Splice(updated, k);
    }
  }

  /** With the cart settled, decrementing a line holding one unit removes
      exactly that line. */
  lemma DecrementRemovesLastUnit(s: seq<Product>, id: string, k: nat)
    requires Settled(s)
    requires k < |s| && s[k].id == id && s[k].quantity == 1
    ensures Decrement(s, id) == s[..k] + s[k + 1..]
  {
    var updated := DecrementEach(s, id);
    calc {
      Decrement(s, id);
      { assert FirstZeroIndex(updated) == k by {
          forall i | 0 <= i < |s| && i != k ensures updated[i].quantity != 0 {
            assert s[i].id != id;
          }
        }
      }
      Splice(updated, k);
      { forall i | 0 <= i < |s| && i != k ensures updated[i] == s[i] {
          assert s[i].id != id;
        }
      }
      s[..k] + s[k + 1..];
    }
  }

  /** With the cart settled, decrementing a line holding more than one unit
      takes one unit off it and keeps it in place. */
  lemma DecrementReducesLine(s: seq<Product>, id: string, k: nat)
    requires Settled(s)
    requires k < |s| && s[k].id == id && s[k].quantity > 1
    ensures Decrement(s, id) == s[k := s[k].(quantity := s[k].quantity - 1)]
  {
    var updated := DecrementEach(s, id);
    forall i | 0 <= i < |s| && i != k ensures updated[i] == s[i] {
      assert s[i].id != id;
    }
    assert forall i :: 0 <= i < |s| ==> updated[i].quantity != 0;
    assert updated == s[k := s[k].(quantity := s[k].quantity - 1)];
  }

  /** Decrementing an id that is not in a cart whose lines all hold units
      changes nothing. */
  lemma DecrementAbsentIsNoop(s: seq<Product>, id: string)
    requires AllPositive(s) && !HasId(s, id)
    ensures Decrement(s, id) == s
  {
    var updated := DecrementEach(s, id);
    assert forall i :: 0 <= i < |s| ==> updated[i] == s[i];
  }

  /** The removal is not tied to the id: decrementing an id that is not in
      the cart removes the first line that already holds zero units. */
  lemma DecrementRemovesStrayZero(s: seq<Product>, id: string, k: nat)
    requires !HasId(s, id)
    requires k < |s| && s[k].quantity == 0
    requires forall j :: 0 <= j < k ==> s[j].quantity != 0
    ensures Decrement(s, id) == s[..k] + s[k + 1..]
  {
    var updated := DecrementEach(s, id);
    assert forall i :: 0 <= i < |s| ==> updated[i] == s[i];
    assert updated == s;
  }

  lemma DecrementPreservesSettled(s: seq<Product>, id: string)
    requires Settled(s)
    ensures Settled(Decrement(s, id))
  {
    if k :| 0 <= k < |s| && s[k].id == id {
      if s[k].quantity == 1 {
        DecrementRemovesLastUnit(s, id, k);
        RemovalKeepsSettled(s, k);
      } else {
        DecrementReducesLine(s, id, k);
        var r := s[k := s[k].(quantity := s[k].quantity - 1)];
        assert forall i :: 0 <= i < |s| ==> r[i].id == s[i].id;
      }
    } else {
      DecrementAbsentIsNoop(s, id);
    }
  }

  lemma RemovalKeepsSettled(s: seq<Product>, k: nat)
    requires Settled(s) && k < |s|
    ensures Settled(s[..k] + s[k + 1..])
  {
    var r := Splice(s, k);
    assert forall i :: 0 <= i < |r| ==> r[i] == s[if i < k then i else i + 1];
  }

  /** On a settled cart, decrement undoes increment of an id in the cart. */
  lemma DecrementUndoesIncrement(s: seq<Product>, id: string)
    requires Settled(s) && HasId(s, id)
    ensures Decrement(Increment(s, id), id) == s
  {
    var k :| 0 <= k < |s| && s[k].id == id;
    var up := s[k := s[k].(quantity := s[k].quantity + 1)];
    assert Increment(s, id) == up by {
      IncrementAt(s, id, k);
    }
    assert Settled(up) by {
      IncrementPreservesSettled(s, id);
    }
    DecrementReducesLine(up, id, k);
    assert up[k := up[k].(quantity := up[k].quantity - 1)] == s by {
      var back := up[k := up[k].(quantity := up[k].quantity - 1)];
      assert back[k] == s[k];
      forall i | 0 <= i < |s| ensures back[i] == s[i] {
      }
    }
  }

  /** With ids unique, increment changes only the line with the id. */
  lemma IncrementAt(s: seq<Product>, id: string, k: nat)
    requires UniqueIds(s) && k < |s| && s[k].id == id
    ensures Increment(s, id) == s[k := s[k].(quantity := s[k].quantity + 1)]
  {
    var up := Increment(s, id);
    forall i | 0 <= i < |s| && i != k ensures up[i] == s[i] {
      assert s[i].id != id;
    }
  }

  /** On a settled cart, decrement undoes the add of a product not yet in it. */
  lemma DecrementUndoesAdd(s: seq<Product>, item: ProductInfo)
    requires Settled(s) && !HasId(s, item.id)
    ensures Decrement(AddToCart(s, item), item.id) == s
  {
    var added := AddToCart(s, item);
    AddToCartPreservesSettled(s, item);
    DecrementRemovesLastUnit(added, item.id, |s|);
    assert added[..|s|] + added[|s| + 1..] == s;
  }

  /** addToCart always leaves a list different from the one it started from,
      so the pre-call list it writes to storage never records the call. */
  lemma AddToCartChangesCart(s: seq<Product>, item: ProductInfo)
    ensures AddToCart(s, item) != s
  {
    var r := AddToCart(s, item);
    if HasId(s, item.id) {
      var k :| 0 <= k < |s| && s[k].id == item.id;
      assert r[k].quantity != s[k].quantity;
    }
  }
}
