/**
 * The line-list transformations behind the POS screen's `addToOrder` and
 * `updateQuantity` handlers (project/src/components/POS/POSSystem.tsx), as pure
 * functions from the old line list to the new one, with the draft invariant they keep.
 */
module OrderLines {
  import opened Wrappers
  import opened Domain
  import Lists

  /**
   * The draft invariant: at most one line per product, every quantity at least one,
   * and every line total equal to quantity times unit price.
   */
  predicate WellFormed(items: seq<OrderItem>) {
    (forall i, j :: 0 <= i < j < |items| ==> items[i].productId != items[j].productId) &&
    (forall i :: 0 <= i < |items| ==> LineOk(items[i]))
  }

  predicate LineOk(item: OrderItem) {
    item.quantity >= 1 && item.total == item.quantity as real * item.unitPrice
  }

  predicate HasLine(items: seq<OrderItem>, productId: Id) {
    exists i :: 0 <= i < |items| && items[i].productId == productId
  }

  /** The catalog lookup `state.products.find(p => p.id === productId)`. */
  function LookUp(catalog: seq<Product>, productId: Id): (r: Option<Product>)
    ensures r.None? <==> forall i :: 0 <= i < |catalog| ==> catalog[i].id != productId
    ensures r.Some? ==> r.value in catalog && r.value.id == productId
  {
    Lists.Find(catalog, ProductId, productId)
  }

  /** A fresh line: quantity one, the product's final price snapshotted as the unit price. */
  function NewLine(p: Product): OrderItem {
    OrderItem(p.id, p.name, 1, p.finalPrice, p.finalPrice)
  }

  /** One more of an existing line; the unit price is kept. */
  function Bump(item: OrderItem): OrderItem {
    item.(quantity := item.quantity + 1, total := (item.quantity + 1) as real * item.unitPrice)
  }

  /** A line set to `quantity`; the unit price is kept. */
  function WithQuantity(item: OrderItem, quantity: int): OrderItem {
    item.(quantity := quantity, total := quantity as real * item.unitPrice)
  }

  /**
   * `addToOrder(productId)`: nothing happens when the catalog has no such product
   * (an inactive product is NOT refused); an existing line is incremented, otherwise
   * a new line is appended.
   */
  function AddToOrder(catalog: seq<Product>, items: seq<OrderItem>, productId: Id): (r: seq<OrderItem>)
    ensures LookUp(catalog, productId).None? ==> r == items
    ensures LookUp(catalog, productId).Some? && !HasLine(items, productId) ==>
              var p := LookUp(catalog, productId).value;
              && p.id == productId
              && |r| == |items| + 1 && r[..|items|] == items
              && r[|items|] == OrderItem(productId, p.name, 1, p.finalPrice, p.finalPrice)
    ensures LookUp(catalog, productId).Some? && HasLine(items, productId) ==>
              && |r| == |items|
              && forall i :: 0 <= i < |items| ==>
                   r[i] == if items[i].productId == productId
                           then items[i].(quantity := items[i].quantity + 1,
                                          total := (items[i].quantity + 1) as real * items[i].unitPrice)
                           else items[i]
  {
    match LookUp(catalog, productId)
    case None => items
    case Some(product) =>
      if HasLine(items, productId) then
        Lists.MapWhere(items, (item: OrderItem) => item.productId == productId, Bump)
      else
        assert (items + [NewLine(product)])[..|items|] == items;
        items + [NewLine(product)]
  }

  /** The tile handler does not check the active flag: an inactive catalog product is still added. */
  lemma InactiveProductIsAdded(catalog: seq<Product>, items: seq<OrderItem>, productId: Id)
    requires LookUp(catalog, productId).Some? && !Truthy(LookUp(catalog, productId).value.active)
    ensures HasLine(AddToOrder(catalog, items, productId), productId)
    ensures |AddToOrder(catalog, items, productId)| == if HasLine(items, productId) then |items| else |items| + 1
  {
    var r := AddToOrder(catalog, items, productId);
    if HasLine(items, productId) {
      var i :| 0 <= i < |items| && items[i].productId == productId;
      assert r[i].productId == productId;
    } else {
      assert r[|items|].productId == productId;
    }
  }

  /**
   * `updateQuantity(productId, quantity)`: a quantity of zero or less removes the
   * product's lines; otherwise the product's lines get the new quantity and total.
   */
  function UpdateQuantity(items: seq<OrderItem>, productId: Id, quantity: int): (r: seq<OrderItem>)
    ensures !HasLine(items, productId) ==> r == items
    ensures quantity <= 0 ==>
              && Lists.IsSubsequence(r, items)
              && (forall item :: item in r <==> item in items && item.productId != productId)
    ensures quantity > 0 ==>
              && |r| == |items|
              && forall i :: 0 <= i < |items| ==>
                   r[i] == if items[i].productId == productId
                           then items[i].(quantity := quantity, total := quantity as real * items[i].unitPrice)
                           else items[i]
  {
    if quantity <= 0 then
      Lists.RemoveByKey(items, LineProduct, productId)
    else
      Lists.MapWhere(items, (item: OrderItem) => item.productId == productId,
                     (item: OrderItem) => WithQuantity(item, quantity))
  }

  /** Every line of a subsequence of the draft is a line of the draft. */
  lemma {:induction false} SubsequenceMembers<T>(a: seq<T>, b: seq<T>)
    requires Lists.IsSubsequence(a, b)
    ensures forall x :: x in a ==> x in b
    decreases |b|
  {
    if a != [] {
      if a[0] == b[0] {
        SubsequenceMembers(a[1..], b[1..]);
        assert forall x :: x in a ==> x == a[0] || x in a[1..];
      } else {
        SubsequenceMembers(a, b[1..]);
      }
    }
  }

  /** Deleting lines keeps the draft invariant. */
  lemma {:induction false} SubsequenceWellFormed(a: seq<OrderItem>, b: seq<OrderItem>)
    requires Lists.IsSubsequence(a, b) && WellFormed(b)
    ensures WellFormed(a)
    decreases |b|
  {
    if a != [] {
      assert b != [];
      assert WellFormed(b[1..]) by {
        assert forall i :: 0 <= i < |b[1..]| ==> b[1..][i] == b[i + 1];
      }
      if a[0] == b[0] {
        SubsequenceWellFormed(a[1..], b[1..]);
        SubsequenceMembers(a[1..], b[1..]);
        forall j | 1 <= j < |a|
          ensures a[0].productId != a[j].productId
        {
          assert a[j] == a[1..][j - 1];
          assert a[j] in a[1..];
          var k :| 0 <= k < |b[1..]| && b[1..][k] == a[j];
          assert b[k + 1] == a[j];
        }
        forall i, j | 0 <= i < j < |a|
          ensures a[i].productId != a[j].productId
        {
          if i > 0 {
            assert a[i] == a[1..][i - 1] && a[j] == a[1..][j - 1];
          }
        }
        forall i | 0 <= i < |a|
          ensures LineOk(a[i])
        {
          if i > 0 {
            assert a[i] == a[1..][i - 1];
          }
        }
      } else {
        SubsequenceWellFormed(a, b[1..]);
      }
    }
  }

  lemma AddToOrderWellFormed(catalog: seq<Product>, items: seq<OrderItem>, productId: Id)
    requires WellFormed(items)
    ensures WellFormed(AddToOrder(catalog, items, productId))
  {
    var r := AddToOrder(catalog, items, productId);
    if LookUp(catalog, productId).Some? && !HasLine(items, productId) {
      forall i, j | 0 <= i < j < |r|
        ensures r[i].productId != r[j].productId
      {
        if j == |items| {
          assert r[i] == items[i];
        } else {
          assert r[i] == items[i] && r[j] == items[j];
        }
      }
      forall i | 0 <= i < |r|
        ensures LineOk(r[i])
      {
        if i < |items| {
          assert r[i] == items[i];
        }
      }
    }
  }

  lemma UpdateQuantityWellFormed(items: seq<OrderItem>, productId: Id, quantity: int)
    requires WellFormed(items)
    ensures WellFormed(UpdateQuantity(items, productId, quantity))
  {
    if quantity <= 0 {
      SubsequenceWellFormed(UpdateQuantity(items, productId, quantity), items);
    }
  }

  /** One handler call on the draft: a product tile click or a quantity button. */
  datatype DraftOp = Add(productId: Id) | SetQuantity(productId: Id, quantity: int)

  function Apply(catalog: seq<Product>, items: seq<OrderItem>, op: DraftOp): seq<OrderItem> {
    match op
    case Add(id) => AddToOrder(catalog, items, id)
    case SetQuantity(id, q) => UpdateQuantity(items, id, q)
  }

  function ApplyAll(catalog: seq<Product>, items: seq<OrderItem>, ops: seq<DraftOp>): seq<OrderItem>
    decreases |ops|
  {
    if ops == [] then items else ApplyAll(catalog, Apply(catalog, items, ops[0]), ops[1..])
  }

  /** Any sequence of add / update calls starting from the empty draft keeps the invariant. */
  lemma {:induction false} ApplyAllWellFormed(catalog: seq<Product>, items: seq<OrderItem>, ops: seq<DraftOp>)
    requires WellFormed(items)
    ensures WellFormed(ApplyAll(catalog, items, ops))
    decreases |ops|
  {
    if ops != [] {
      match ops[0] {
        case Add(id) => AddToOrderWellFormed(catalog, items, id);
        case SetQuantity(id, q) => UpdateQuantityWellFormed(items, id, q);
      }
      ApplyAllWellFormed(catalog, Apply(catalog, items, ops[0]), ops[1..]);
    }
  }

  /** Adding the same product twice in a row gives one line of quantity two. */
  lemma AddTwiceMerges(catalog: seq<Product>, productId: Id)
    requires LookUp(catalog, productId).Some?
    ensures var p := LookUp(catalog, productId).value;
            ApplyAll(catalog, [], [Add(productId), Add(productId)]) ==
              [OrderItem(productId, p.name, 2, p.finalPrice, 2.0 * p.finalPrice)]
  {
    var p := LookUp(catalog, productId).value;
    var ops := [Add(productId), Add(productId)];
    var once := AddToOrder(catalog, [], productId);
    assert |once| == 1 && once[0] == NewLine(p);
    assert HasLine(once, productId) by {
      assert once[0].productId == productId;
    }
    var twice := AddToOrder(catalog, once, productId);
    assert |twice| == 1 && twice[0] == Bump(once[0]);
    assert once[0] == OrderItem(productId, p.name, 1, p.finalPrice, p.finalPrice);
    assert twice[0] == OrderItem(productId, p.name, 2, p.finalPrice, 2.0 * p.finalPrice);
    assert twice == [twice[0]];
    assert ops[1..][1..] == [];
    calc {
      ApplyAll(catalog, [], ops);
      ApplyAll(catalog, once, ops[1..]);
      ApplyAll(catalog, twice, ops[1..][1..]);
      twice;
    }
  }
}
