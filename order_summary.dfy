/**
 * The order summary panel (project/src/components/POS/OrderSummary.tsx): the totals it
 * shows, the quantity its three line buttons request, and its header label.
 */
module OrderSummary {
  import opened Wrappers
  import opened Domain
  import opened OrderLines
  import Lists
  import Text

  /** The VAT rate applied to every order, 10 %. */
  const VatRate: real := 0.1

  datatype Totals = Totals(subtotal: real, vatAmount: real, total: real)

  function LineTotal(item: OrderItem): real { item.total }

  function LineValue(item: OrderItem): real { item.quantity as real * item.unitPrice }

  /** `order.reduce((sum, item) => sum + item.total, 0)`. */
  function Subtotal(order: seq<OrderItem>): real {
    Lists.Sum(order, LineTotal)
  }

  /**
   * The panel's three figures: subtotal, VAT at 10 % of it, and their sum; the total is the
   * subtotal marked up by the VAT rate, and an empty order shows zeros.
   */
  function ComputeTotals(order: seq<OrderItem>): (t: Totals)
    ensures t.subtotal == Subtotal(order)
    ensures t.total == t.subtotal * (1.0 + VatRate) && t.total - t.vatAmount == t.subtotal
    ensures order == [] ==> t == Totals(0.0, 0.0, 0.0)
  {
    var subtotal := Subtotal(order);
    var vatAmount := subtotal * VatRate;
    Totals(subtotal, vatAmount, subtotal + vatAmount)
  }

  /** The totals and the complete button are rendered only for a non-empty order. */
  predicate ShowsCheckout(order: seq<OrderItem>) {
    |order| > 0
  }

  /** When the checkout block is hidden there is nothing to charge. */
  lemma HiddenCheckoutIsZero(order: seq<OrderItem>)
    ensures !ShowsCheckout(order) <==> order == []
    ensures !ShowsCheckout(order) ==> ComputeTotals(order) == Totals(0.0, 0.0, 0.0)
  {
  }

  /** For a well-formed draft the subtotal is the sum of quantity times unit price. */
  lemma {:induction false} SubtotalRecomputed(order: seq<OrderItem>)
    requires WellFormed(order)
    ensures Subtotal(order) == Lists.Sum(order, LineValue)
    decreases |order|
  {
    if order != [] {
      var init := order[..|order| - 1];
      assert WellFormed(init) by {
        assert forall i :: 0 <= i < |init| ==> init[i] == order[i];
      }
      SubtotalRecomputed(init);
      assert LineOk(order[|order| - 1]);
    }
  }

  /** Totals are additive over concatenated line lists. */
  lemma TotalsConcat(a: seq<OrderItem>, b: seq<OrderItem>)
    ensures ComputeTotals(a + b).subtotal == ComputeTotals(a).subtotal + ComputeTotals(b).subtotal
    ensures ComputeTotals(a + b).vatAmount == ComputeTotals(a).vatAmount + ComputeTotals(b).vatAmount
    ensures ComputeTotals(a + b).total == ComputeTotals(a).total + ComputeTotals(b).total
  {
    Lists.SumConcat(a, b, LineTotal);
  }

  /** The index of the draft's only line for `productId`. */
  lemma LineIndex(order: seq<OrderItem>, k: nat)
    requires WellFormed(order) && k < |order|
    ensures forall i :: 0 <= i < |order| && order[i].productId == order[k].productId ==> i == k
  {
  }

  /** Adding a product that is not in the draft raises the subtotal by its final price. */
  lemma AddNewRaisesSubtotal(catalog: seq<Product>, order: seq<OrderItem>, productId: Id)
    requires LookUp(catalog, productId).Some? && !HasLine(order, productId)
    ensures Subtotal(AddToOrder(catalog, order, productId)) ==
            Subtotal(order) + LookUp(catalog, productId).value.finalPrice
  {
    var r := AddToOrder(catalog, order, productId);
    assert r == order + [r[|order|]];
    Lists.SumConcat(order, [r[|order|]], LineTotal);
    assert Lists.Sum([r[|order|]], LineTotal) == r[|order|].total by {
      assert [r[|order|]][..0] == [];
    }
  }

  /** Adding a product already in a well-formed draft raises the subtotal by its unit price. */
  lemma AddExistingRaisesSubtotal(catalog: seq<Product>, order: seq<OrderItem>, k: nat)
    requires WellFormed(order) && k < |order|
    requires LookUp(catalog, order[k].productId).Some?
    ensures AddToOrder(catalog, order, order[k].productId) == order[k := Bump(order[k])]
    ensures Subtotal(AddToOrder(catalog, order, order[k].productId)) ==
            Subtotal(order) + order[k].unitPrice
  {
    AddExistingBumps(catalog, order, k);
    Lists.SumUpdate(order, k, Bump(order[k]), LineTotal);
    BumpAddsUnitPrice(order[k]);
  }

  /** One more unit raises a consistent line's total by its unit price. */
  lemma BumpAddsUnitPrice(item: OrderItem)
    requires LineOk(item)
    ensures LineTotal(Bump(item)) == LineTotal(item) + item.unitPrice
  {
    assert (item.quantity + 1) as real * item.unitPrice == item.quantity as real * item.unitPrice + item.unitPrice;
  }

  /** Adding a product that already has a line bumps that line and no other. */
  lemma AddExistingBumps(catalog: seq<Product>, order: seq<OrderItem>, k: nat)
    requires WellFormed(order) && k < |order|
    requires LookUp(catalog, order[k].productId).Some?
    ensures AddToOrder(catalog, order, order[k].productId) == order[k := Bump(order[k])]
  {
    var id := order[k].productId;
    assert HasLine(order, id);
    LineIndex(order, k);
    var r := AddToOrder(catalog, order, id);
    var bumped := order[k := Bump(order[k])];
    forall i | 0 <= i < |order|
      ensures r[i] == bumped[i]
    {
    }
  }

  /** Setting a positive quantity on a line moves the subtotal by the change in that line. */
  lemma SetQuantityMovesSubtotal(order: seq<OrderItem>, k: nat, quantity: int)
    requires WellFormed(order) && k < |order| && quantity > 0
    ensures UpdateQuantity(order, order[k].productId, quantity) == order[k := WithQuantity(order[k], quantity)]
    ensures Subtotal(UpdateQuantity(order, order[k].productId, quantity)) ==
            Subtotal(order) + (quantity - order[k].quantity) as real * order[k].unitPrice
  {
    var id := order[k].productId;
    assert HasLine(order, id);
    LineIndex(order, k);
    var r := UpdateQuantity(order, id, quantity);
    assert r == order[k := WithQuantity(order[k], quantity)];
    Lists.SumUpdate(order, k, WithQuantity(order[k], quantity), LineTotal);
    assert LineOk(order[k]);
  }

  /** The quantity the trash button asks for: zero. */
  function TrashQuantity(item: OrderItem): int { 0 }

  /** The quantity the minus button asks for. */
  function MinusQuantity(item: OrderItem): int { item.quantity - 1 }

  /** The quantity the plus button asks for. */
  function PlusQuantity(item: OrderItem): int { item.quantity + 1 }

  /** Removing the only line of a product leaves the other lines, in order. */
  lemma RemoveOnlyLine(order: seq<OrderItem>, k: nat)
    requires WellFormed(order) && k < |order|
    ensures UpdateQuantity(order, order[k].productId, 0) == order[..k] + order[k + 1..]
  {
    LineIndex(order, k);
    Lists.RemoveByKeyOne(order, LineProduct, order[k].productId, k);
  }

  /** The trash button removes the line. */
  lemma TrashRemovesLine(order: seq<OrderItem>, k: nat)
    requires WellFormed(order) && k < |order|
    ensures UpdateQuantity(order, order[k].productId, TrashQuantity(order[k])) == order[..k] + order[k + 1..]
  {
    RemoveOnlyLine(order, k);
  }

  /** The minus button on a line of quantity one removes the line; on a larger quantity it decrements it. */
  lemma MinusButton(order: seq<OrderItem>, k: nat)
    requires WellFormed(order) && k < |order|
    ensures order[k].quantity == 1 ==>
              UpdateQuantity(order, order[k].productId, MinusQuantity(order[k])) == order[..k] + order[k + 1..]
    ensures order[k].quantity > 1 ==>
              UpdateQuantity(order, order[k].productId, MinusQuantity(order[k])) ==
              order[k := order[k].(quantity := order[k].quantity - 1,
                                   total := (order[k].quantity - 1) as real * order[k].unitPrice)]
  {
    if order[k].quantity == 1 {
      RemoveOnlyLine(order, k);
    } else {
      var q := MinusQuantity(order[k]);
      assert LineOk(order[k]) && q > 0;
      SetQuantityMovesSubtotal(order, k, q);
      assert WithQuantity(order[k], q) == order[k].(quantity := order[k].quantity - 1,
                                                   total := (order[k].quantity - 1) as real * order[k].unitPrice);
    }
  }

  /** The plus button has the same effect as picking the product again. */
  lemma PlusButtonIsAdd(catalog: seq<Product>, order: seq<OrderItem>, k: nat)
    requires WellFormed(order) && k < |order|
    requires LookUp(catalog, order[k].productId).Some?
    ensures UpdateQuantity(order, order[k].productId, PlusQuantity(order[k])) ==
            AddToOrder(catalog, order, order[k].productId)
  {
    var q := PlusQuantity(order[k]);
    assert LineOk(order[k]) && q > 0;
    SetQuantityMovesSubtotal(order, k, q);
    AddExistingRaisesSubtotal(catalog, order, k);
    assert WithQuantity(order[k], q) == Bump(order[k]);
  }

  /** The worked example: a 1.32 product added twice, then set to five. */
  lemma CoffeeScenario(catalog: seq<Product>)
    requires LookUp(catalog, "p1").Some? && LookUp(catalog, "p1").value.finalPrice == 1.32
    ensures var twice := ApplyAll(catalog, [], [Add("p1"), Add("p1")]);
            var five := UpdateQuantity(twice, "p1", 5);
            && |twice| == 1 && twice[0].quantity == 2 && twice[0].total == 2.64
            && |five| == 1 && five[0].quantity == 5 && five[0].total == 6.60
            && ComputeTotals(five) == Totals(6.60, 0.66, 7.26)
  {
    AddTwiceMerges(catalog, "p1");
    var p := LookUp(catalog, "p1").value;
    var twice := ApplyAll(catalog, [], [Add("p1"), Add("p1")]);
    assert twice == [OrderItem("p1", p.name, 2, 1.32, 2.64)];
    var five := UpdateQuantity(twice, "p1", 5);
    assert five == [OrderItem("p1", p.name, 5, 1.32, 6.60)];
    assert Subtotal(five) == 6.60 by {
      assert five[..|five| - 1] == [];
      assert Lists.Sum(five, LineTotal) == Lists.Sum([], LineTotal) + LineTotal(five[0]);
    }
  }

  function ZoneLabel(zone: Zone): string {
    match zone
    case Barra => "Barra"
    case Terraza => "Terraza"
  }

  /** What follows the table number in the header. */
  function ZoneTail(zone: Zone): string { " - " + ZoneLabel(zone) }

  function DigitChar(d: int): char
    requires 0 <= d < 10
  {
    "0123456789"[d]
  }

  /** Decimal rendering of a non-negative number, as a template literal shows it. */
  function NatToString(n: nat): (s: string)
    ensures |s| > 0 && forall i :: 0 <= i < |s| ==> '0' <= s[i] <= '9'
    decreases n
  {
    if n < 10 then [DigitChar(n)] else NatToString(n / 10) + [DigitChar(n % 10)]
  }

  /** Decimal rendering of any integer: the digits, after a minus sign when negative. */
  function IntToString(i: int): (s: string)
    ensures i >= 0 ==> s != [] && forall k :: 0 <= k < |s| ==> '0' <= s[k] <= '9'
    ensures i < 0 ==> |s| > 1 && s[0] == '-' && forall k :: 1 <= k < |s| ==> '0' <= s[k] <= '9'
  {
    if i < 0 then "-" + NatToString(-i) else NatToString(i)
  }

  /** Reads a decimal digit string back. */
  function DigitsValue(s: string): nat
    requires forall i :: 0 <= i < |s| ==> '0' <= s[i] <= '9'
    decreases |s|
  {
    if s == [] then 0 else DigitsValue(s[..|s| - 1]) * 10 + (s[|s| - 1] as int - '0' as int)
  }

  /** The table number in the header can be read back unchanged. */
  lemma {:induction false} NatToStringRoundTrip(n: nat)
    ensures DigitsValue(NatToString(n)) == n
    decreases n
  {
    if n >= 10 {
      var s := NatToString(n);
      assert s[..|s| - 1] == NatToString(n / 10);
      NatToStringRoundTrip(n / 10);
    }
  }

  /**
   * A table header starts with "Mesa ", holds the number between that and its own zone's
   * tail, and does not end with the other zone's tail.
   */
  lemma HeaderShape(number: string, zone: Zone)
    ensures var h := "Mesa " + number + ZoneTail(zone);
            && Text.IsPrefix("Mesa ", h)
            && 5 + |ZoneTail(zone)| <= |h| && h[5..|h| - |ZoneTail(zone)|] == number
            && (zone == Barra ==> Text.IsSuffix(" - Barra", h) && !Text.IsSuffix(" - Terraza", h))
            && (zone == Terraza ==> Text.IsSuffix(" - Terraza", h) && !Text.IsSuffix(" - Barra", h))
  {
    var tail := ZoneTail(zone);
    var h := "Mesa " + number + tail;
    assert h[..5] == "Mesa ";
    assert h[5..|h| - |tail|] == number;
    assert h[|h| - |tail|..] == tail;
    assert h[|h| - 2] == tail[|tail| - 2];
    if zone == Barra {
      assert tail == " - Barra";
      if |" - Terraza"| <= |h| {
        assert h[|h| - 10..][8] == h[|h| - 2];
      }
    } else {
      assert tail == " - Terraza";
      assert h[|h| - 8..][6] == h[|h| - 2];
    }
  }

  /**
   * The header line: with a table, "Mesa <number> - <zone>" (the zone shown is the
   * POS's active zone, not the table's own); without one, "Barra" at the bar and
   * "Para llevar" (take-away) on the terrace.
   */
  function HeaderLabel(table: Option<Table>, zone: Zone): (header: string)
    ensures table.Some? ==> Text.IsPrefix("Mesa ", header) &&
                            (zone == Barra <==> Text.IsSuffix(" - Barra", header)) &&
                            (zone == Terraza <==> Text.IsSuffix(" - Terraza", header))
    ensures table.Some? ==> 5 + |ZoneTail(zone)| <= |header| &&
                            header[5..|header| - |ZoneTail(zone)|] == IntToString(table.value.number)
    ensures table.None? ==> header == (if zone == Barra then "Barra" else "Para llevar")
  {
    match table
    case Some(t) =>
      var number := IntToString(t.number);
      HeaderShape(number, zone);
      "Mesa " + number + ZoneTail(zone)
    case None => if zone == Barra then "Barra" else "Para llevar"
  }

  /**
   * The number between "Mesa " and the zone reads back as the table's number: its digits
   * for a non-negative number, a minus sign and the digits of its magnitude otherwise.
   */
  lemma HeaderNumberReadsBack(table: Table, zone: Zone)
    ensures var h := HeaderLabel(Some(table), zone);
            var shown := h[5..|h| - |ZoneTail(zone)|];
            && (table.number >= 0 ==> (forall i :: 0 <= i < |shown| ==> '0' <= shown[i] <= '9') &&
                                      DigitsValue(shown) == table.number)
            && (table.number < 0 ==> |shown| > 1 && shown[0] == '-' &&
                                     (forall i :: 1 <= i < |shown| ==> '0' <= shown[i] <= '9') &&
                                     DigitsValue(shown[1..]) == -table.number)
  {
    if table.number >= 0 {
      NatToStringRoundTrip(table.number);
    } else {
      var s := IntToString(table.number);
      assert s[1..] == NatToString(-table.number);
      NatToStringRoundTrip(-table.number);
    }
  }
}
