/**
 * The sales report of the reports screen (project/src/components/Reports/ReportsPanel.tsx):
 * today's completed orders, their total, the per-product and per-waiter tallies the
 * screen fills into `Map`s with `forEach` loops, the top five products by revenue, the
 * average ticket and the daily-close VAT split. The clock and the ISO day extraction
 * are parameters: `now` and `dayKey`.
 */
module ReportsPanel {
  import opened Wrappers
  import opened Domain
  import Lists
  import OrderSummary
  import POSSystem

  /** The value a report `Map` holds for one key: the last name seen, a count and an amount. */
  datatype Stat = Stat(name: string, count: int, amount: real)

  /** A JavaScript `Map`: its keys in insertion order, and its table. */
  datatype Tally = Tally(keys: seq<Id>, stats: map<Id, Stat>)

  /** The keys are listed once each, and exactly the keys of the table are listed. */
  ghost predicate TallyOk(t: Tally) {
    Lists.Distinct(t.keys) && forall k :: k in t.keys <==> k in t.stats
  }

  /** How one `forEach` body reads an element: the key, the name stored, and the two increments. */
  datatype Measure<-T> = Measure(key: T -> Id, name: T -> string, count: T -> int, amount: T -> real)

  /**
   * One `map.set(k, { name, count: existing.count + c, amount: existing.amount + a })`,
   * with `existing` defaulting to zeros; a new key goes to the end of the insertion order,
   * an existing key keeps its place.
   */
  function Step(t: Tally, k: Id, name: string, c: int, a: real): Tally {
    var existing := if k in t.stats then t.stats[k] else Stat(name, 0, 0.0);
    Tally(if k in t.stats then t.keys else t.keys + [k],
          t.stats[k := Stat(name, existing.count + c, existing.amount + a)])
  }

  /**
   * The `map.get` / `map.set` pair of a `forEach` body, on the map's keys and table:
   * the result is the map after `Step`, and the insertion order lists each key once.
   */
  method Record(keys0: seq<Id>, stats0: map<Id, Stat>, k: Id, name: string, c: int, a: real)
    returns (keys: seq<Id>, stats: map<Id, Stat>)
    ensures Tally(keys, stats) == Step(Tally(keys0, stats0), k, name, c, a)
    ensures TallyOk(Tally(keys0, stats0)) ==> TallyOk(Tally(keys, stats))
    ensures k in stats && stats[k].count == (if k in stats0 then stats0[k].count else 0) + c
    ensures stats[k].amount == (if k in stats0 then stats0[k].amount else 0.0) + a
  {
    var existing := if k in stats0 then stats0[k] else Stat(name, 0, 0.0);
    keys := keys0;
    if k !in stats0 {
      keys := keys0 + [k];
      assert forall i :: 0 <= i < |keys0| ==> keys[i] == keys0[i];
    }
    stats := stats0[k := Stat(name, existing.count + c, existing.amount + a)];
  }

  function StepBy<T>(t: Tally, m: Measure<T>, x: T): Tally {
    Step(t, m.key(x), m.name(x), m.count(x), m.amount(x))
  }

  /** The `Map` after a `forEach` over `s`, starting from an empty map. */
  function Fold<T>(s: seq<T>, m: Measure<T>): Tally
    decreases |s|
  {
    if s == [] then Tally([], map[]) else StepBy(Fold(s[..|s| - 1], m), m, s[|s| - 1])
  }

  /** The insertion order lists every key of the map exactly once. */
  lemma {:induction false} FoldOk<T>(s: seq<T>, m: Measure<T>)
    ensures TallyOk(Fold(s, m))
    decreases |s|
  {
    if s != [] {
      var prev := Fold(s[..|s| - 1], m);
      var k := m.key(s[|s| - 1]);
      FoldOk(s[..|s| - 1], m);
      if k !in prev.stats {
        assert forall i :: 0 <= i < |prev.keys| ==> (prev.keys + [k])[i] == prev.keys[i];
      }
    }
  }

  lemma FoldAppend<T>(s: seq<T>, x: T, m: Measure<T>)
    ensures Fold(s + [x], m) == StepBy(Fold(s, m), m, x)
  {
    assert (s + [x])[..|s|] == s;
  }

  /** The key of every element, in order. */
  function KeysOf<T>(s: seq<T>, m: Measure<T>): (r: seq<Id>)
    ensures |r| == |s| && forall i :: 0 <= i < |s| ==> r[i] == m.key(s[i])
  {
    seq(|s|, i requires 0 <= i < |s| => m.key(s[i]))
  }

  /** The map's keys are the distinct keys of the elements, in first-occurrence order. */
  lemma {:induction false} FoldKeys<T>(s: seq<T>, m: Measure<T>)
    ensures Fold(s, m).keys == Lists.Dedupe(KeysOf(s, m))
    decreases |s|
  {
    if s != [] {
      var n := |s| - 1;
      FoldKeys(s[..n], m);
      FoldOk(s[..n], m);
      assert KeysOf(s, m)[..n] == KeysOf(s[..n], m);
    }
  }

  /** The element's count when its key is `k`, otherwise zero. */
  function CountIf<T>(m: Measure<T>, k: Id): T -> int {
    x => if m.key(x) == k then m.count(x) else 0
  }

  /** The element's amount when its key is `k`, otherwise zero. */
  function AmountIf<T>(m: Measure<T>, k: Id): T -> real {
    x => if m.key(x) == k then m.amount(x) else 0.0
  }

  /**
   * Each key's count and amount are the sums of the increments of the elements with that
   * key; a key that is not in the map has no such elements.
   */
  lemma {:induction false} FoldSums<T>(s: seq<T>, m: Measure<T>, k: Id)
    ensures var t := Fold(s, m);
            && (k in t.stats ==> t.stats[k].count == Lists.Count(s, CountIf(m, k)) &&
                                  t.stats[k].amount == Lists.Sum(s, AmountIf(m, k)))
            && (k !in t.stats ==> Lists.Count(s, CountIf(m, k)) == 0 && Lists.Sum(s, AmountIf(m, k)) == 0.0 &&
                                   forall i :: 0 <= i < |s| ==> m.key(s[i]) != k)
    decreases |s|
  {
    if s != [] {
      var n := |s| - 1;
      FoldSums(s[..n], m, k);
      if k !in Fold(s, m).stats {
        forall i | 0 <= i < |s|
          ensures m.key(s[i]) != k
        {
          if i < n {
            assert s[..n][i] == s[i];
          }
        }
      }
    }
  }

  /** The name a key stores is the name of the last element with that key. */
  lemma {:induction false} FoldName<T>(s: seq<T>, m: Measure<T>, k: Id)
    requires k in Fold(s, m).stats
    ensures exists i :: 0 <= i < |s| && LastWith(s, m, k, i) && Fold(s, m).stats[k].name == m.name(s[i])
    decreases |s|
  {
    var n := |s| - 1;
    var prev := Fold(s[..n], m);
    if m.key(s[n]) == k {
      assert LastWith(s, m, k, n);
    } else {
      assert k in prev.stats;
      FoldName(s[..n], m, k);
      var i :| 0 <= i < n && LastWith(s[..n], m, k, i) && prev.stats[k].name == m.name(s[..n][i]);
      assert s[..n][i] == s[i];
      assert forall j :: i < j < n ==> s[..n][j] == s[j];
      assert LastWith(s, m, k, i);
    }
  }

  /** `s[i]` is the last element of `s` with key `k`. */
  ghost predicate LastWith<T>(s: seq<T>, m: Measure<T>, k: Id, i: int) {
    0 <= i < |s| && m.key(s[i]) == k && forall j :: i < j < |s| ==> m.key(s[j]) != k
  }

  /** `name` is the name of the last element of `s` with key `k`. */
  ghost predicate NamedByLast<T>(s: seq<T>, m: Measure<T>, k: Id, name: string) {
    exists i :: LastWith(s, m, k, i) && m.name(s[i]) == name
  }

  /** Each key's amount, zero for a key not in the map. */
  function AmountIn(stats: map<Id, Stat>): Id -> real {
    k => if k in stats then stats[k].amount else 0.0
  }

  /** Each key's count, zero for a key not in the map. */
  function CountIn(stats: map<Id, Stat>): Id -> int {
    k => if k in stats then stats[k].count else 0
  }

  /** One `set` raises the sum of the per-key amounts by its increment. */
  lemma StepAddsAmount(t: Tally, k: Id, name: string, c: int, a: real)
    requires TallyOk(t)
    ensures var t' := Step(t, k, name, c, a);
            Lists.Sum(t'.keys, AmountIn(t'.stats)) == Lists.Sum(t.keys, AmountIn(t.stats)) + a
  {
    var t' := Step(t, k, name, c, a);
    if k in t.stats {
      Lists.SumBump(t.keys, AmountIn(t'.stats), AmountIn(t.stats), k, a);
    } else {
      assert forall i :: 0 <= i < |t.keys| ==> t.keys[i] != k;
      Lists.SumAgree(t.keys, AmountIn(t'.stats), AmountIn(t.stats));
      assert (t.keys + [k])[..|t.keys|] == t.keys;
    }
  }

  /** One `set` raises the sum of the per-key counts by its increment. */
  lemma StepAddsCount(t: Tally, k: Id, name: string, c: int, a: real)
    requires TallyOk(t)
    ensures var t' := Step(t, k, name, c, a);
            Lists.Count(t'.keys, CountIn(t'.stats)) == Lists.Count(t.keys, CountIn(t.stats)) + c
  {
    var t' := Step(t, k, name, c, a);
    if k in t.stats {
      Lists.CountBump(t.keys, CountIn(t'.stats), CountIn(t.stats), k, c);
    } else {
      assert forall i :: 0 <= i < |t.keys| ==> t.keys[i] != k;
      Lists.CountAgree(t.keys, CountIn(t'.stats), CountIn(t.stats));
      assert (t.keys + [k])[..|t.keys|] == t.keys;
    }
  }

  /** Nothing is lost by the grouping: the per-key amounts and counts add up to the totals. */
  lemma {:induction false} FoldConserves<T>(s: seq<T>, m: Measure<T>)
    ensures var t := Fold(s, m);
            && Lists.Sum(t.keys, AmountIn(t.stats)) == Lists.Sum(s, m.amount)
            && Lists.Count(t.keys, CountIn(t.stats)) == Lists.Count(s, m.count)
    decreases |s|
  {
    if s != [] {
      var n := |s| - 1;
      var x := s[n];
      var prev := Fold(s[..n], m);
      FoldConserves(s[..n], m);
      FoldOk(s[..n], m);
      StepAddsAmount(prev, m.key(x), m.name(x), m.count(x), m.amount(x));
      StepAddsCount(prev, m.key(x), m.name(x), m.count(x), m.amount(x));
    }
  }

  function ItemName(item: OrderItem): string { item.productName }
  function ItemQuantity(item: OrderItem): int { item.quantity }
  function OrderWaiter(o: Order): Id { o.waiterId }
  function OrderWaiterName(o: Order): string { o.waiterName }
  function OneOrder(o: Order): int { 1 }
  function OrderTotal(o: Order): real { o.total }
  function OrderVat(o: Order): real { o.vatAmount }
  function OrderSubtotal(o: Order): real { o.subtotal }

  /** The product tally: keyed by product id, counting quantities and summing line totals. */
  function ProductMeasure(): Measure<OrderItem> {
    Measure(LineProduct, ItemName, ItemQuantity, OrderSummary.LineTotal)
  }

  /** The waiter tally: keyed by waiter id, counting orders and summing order totals. */
  function WaiterMeasure(): Measure<Order> {
    Measure(OrderWaiter, OrderWaiterName, OneOrder, OrderTotal)
  }

  /** All lines of the orders, order by order. */
  function Lines(orders: seq<Order>): seq<OrderItem>
    decreases |orders|
  {
    if orders == [] then [] else Lines(orders[..|orders| - 1]) + orders[|orders| - 1].items
  }

  lemma LinesAppend(orders: seq<Order>, i: nat)
    requires i < |orders|
    ensures Lines(orders[..i + 1]) == Lines(orders[..i]) + orders[i].items
  {
    assert orders[..i + 1][..i] == orders[..i];
  }

  /** `productSales`, filled by the nested `forEach` over the orders and their lines. */
  method TallyProducts(orders: seq<Order>) returns (t: Tally)
    ensures t == Fold(Lines(orders), ProductMeasure())
  {
    var keys: seq<Id> := [];
    var stats: map<Id, Stat> := map[];
    var i := 0;
    while i < |orders|
      invariant 0 <= i <= |orders|
      invariant Tally(keys, stats) == Fold(Lines(orders[..i]), ProductMeasure())
    {
      keys, stats := TallyLines(keys, stats, Lines(orders[..i]), orders[i].items);
      LinesAppend(orders, i);
      i := i + 1;
    }
    assert orders[..i] == orders;
    t := Tally(keys, stats);
  }

  /** The inner `forEach` over one order's lines, continuing the tally of the lines `done` before them. */
  method TallyLines(keys0: seq<Id>, stats0: map<Id, Stat>, ghost done: seq<OrderItem>, items: seq<OrderItem>)
    returns (keys: seq<Id>, stats: map<Id, Stat>)
    requires Tally(keys0, stats0) == Fold(done, ProductMeasure())
    ensures Tally(keys, stats) == Fold(done + items, ProductMeasure())
  {
    keys, stats := keys0, stats0;
    var j := 0;
    assert done + items[..0] == done;
    while j < |items|
      invariant 0 <= j <= |items|
      invariant Tally(keys, stats) == Fold(done + items[..j], ProductMeasure())
    {
      var item := items[j];
      FoldAppend(done + items[..j], item, ProductMeasure());
      assert done + items[..j + 1] == (done + items[..j]) + [item];
      keys, stats := Record(keys, stats, item.productId, item.productName, item.quantity, item.total);
      j := j + 1;
    }
    assert items[..j] == items;
  }

  /** `waiterSales`, filled by the `forEach` over the orders. */
  method TallyWaiters(orders: seq<Order>) returns (t: Tally)
    ensures t == Fold(orders, WaiterMeasure())
  {
    var keys: seq<Id> := [];
    var stats: map<Id, Stat> := map[];
    var i := 0;
    while i < |orders|
      invariant 0 <= i <= |orders|
      invariant Tally(keys, stats) == Fold(orders[..i], WaiterMeasure())
    {
      var order := orders[i];
      FoldAppend(orders[..i], order, WaiterMeasure());
      assert orders[..i + 1] == orders[..i] + [order];
      keys, stats := Record(keys, stats, order.waiterId, order.waiterName, 1, order.total);
      i := i + 1;
    }
    assert orders[..i] == orders;
    t := Tally(keys, stats);
  }

  /** `order => dayKey(order.createdAt) === today && order.status === 'completed'`. */
  function CountedOn(dayKey: Timestamp -> string, today: string): Order -> bool {
    (o: Order) => dayKey(o.createdAt) == today && o.status == Completed
  }

  /** `todayOrders`: the completed orders created on `today`, in store order. */
  function TodayOrders(orders: seq<Order>, dayKey: Timestamp -> string, today: string): (r: seq<Order>)
    ensures Lists.IsSubsequence(r, orders)
    ensures forall o :: o in r <==> o in orders && dayKey(o.createdAt) == today && o.status == Completed
  {
    Lists.Filter(orders, CountedOn(dayKey, today))
  }

  datatype ProductEntry = ProductEntry(productId: Id, productName: string, quantity: int, revenue: real)

  datatype WaiterEntry = WaiterEntry(waiterId: Id, waiterName: string, orders: int, sales: real)

  /** The value stored for key `k`; only ever read for a key the map holds. */
  function StatOf(stats: map<Id, Stat>, k: Id): Stat {
    if k in stats then stats[k] else Stat("", 0, 0.0)
  }

  /** `Array.from(productSales.entries()).map(...)`: one entry per key, in insertion order. */
  function ProductEntries(keys: seq<Id>, stats: map<Id, Stat>): (r: seq<ProductEntry>)
    ensures |r| == |keys|
    ensures forall i :: 0 <= i < |r| ==>
              r[i] == ProductEntry(keys[i], StatOf(stats, keys[i]).name, StatOf(stats, keys[i]).count,
                                   StatOf(stats, keys[i]).amount)
  {
    seq(|keys|, i requires 0 <= i < |keys| =>
      ProductEntry(keys[i], StatOf(stats, keys[i]).name, StatOf(stats, keys[i]).count, StatOf(stats, keys[i]).amount))
  }

  /** `Array.from(waiterSales.entries()).map(...)`: one entry per key, in insertion order. */
  function WaiterEntries(keys: seq<Id>, stats: map<Id, Stat>): (r: seq<WaiterEntry>)
    ensures |r| == |keys|
    ensures forall i :: 0 <= i < |r| ==>
              r[i] == WaiterEntry(keys[i], StatOf(stats, keys[i]).name, StatOf(stats, keys[i]).count,
                                  StatOf(stats, keys[i]).amount)
  {
    seq(|keys|, i requires 0 <= i < |keys| =>
      WaiterEntry(keys[i], StatOf(stats, keys[i]).name, StatOf(stats, keys[i]).count, StatOf(stats, keys[i]).amount))
  }

  function EntrySales(w: WaiterEntry): real { w.sales }
  function EntryOrders(w: WaiterEntry): int { w.orders }

  /** The waiter rows add up to the per-key sums of the tally. */
  lemma {:induction false} WaiterEntriesSum(keys: seq<Id>, stats: map<Id, Stat>)
    requires forall i :: 0 <= i < |keys| ==> keys[i] in stats
    ensures Lists.Sum(WaiterEntries(keys, stats), EntrySales) == Lists.Sum(keys, AmountIn(stats))
    ensures Lists.Count(WaiterEntries(keys, stats), EntryOrders) == Lists.Count(keys, CountIn(stats))
    decreases |keys|
  {
    if keys != [] {
      var n := |keys| - 1;
      WaiterEntriesSum(keys[..n], stats);
      assert WaiterEntries(keys, stats)[..n] == WaiterEntries(keys[..n], stats);
    }
  }

  /** The revenue comparison of `sort((a, b) => b.revenue - a.revenue)`: non-increasing. */
  ghost predicate ByRevenue(s: seq<ProductEntry>) {
    forall i, j :: 0 <= i < j < |s| ==> s[i].revenue >= s[j].revenue
  }

  /** The head of a list sorted by revenue earns at least as much as every entry, and the tail is sorted. */
  lemma HeadIsMax(s: seq<ProductEntry>)
    requires ByRevenue(s) && s != []
    ensures forall y :: y in s ==> s[0].revenue >= y.revenue
    ensures forall y :: y in s[1..] ==> y in s
    ensures ByRevenue(s[1..])
  {
    forall y | y in s
      ensures s[0].revenue >= y.revenue
    {
      var i :| 0 <= i < |s| && s[i] == y;
    }
  }

  /** An entry earning at least as much as every entry of a sorted list can go first. */
  lemma ConsByRevenue(h: ProductEntry, rest: seq<ProductEntry>)
    requires ByRevenue(rest) && forall y :: y in rest ==> h.revenue >= y.revenue
    ensures ByRevenue([h] + rest)
  {
    var s := [h] + rest;
    forall i, j | 0 <= i < j < |s|
      ensures s[i].revenue >= s[j].revenue
    {
      assert s[j] == rest[j - 1];
      if i == 0 {
        assert rest[j - 1] in rest;
      } else {
        assert s[i] == rest[i - 1];
      }
    }
  }

  /** One step of a stable insertion sort: `x` goes after every entry with at least its revenue. */
  function Insert(sorted: seq<ProductEntry>, x: ProductEntry): (r: seq<ProductEntry>)
    requires ByRevenue(sorted)
    ensures ByRevenue(r)
    ensures forall y :: y in r <==> y in sorted || y == x
    decreases |sorted|
  {
    if sorted == [] then [x]
    else if sorted[0].revenue >= x.revenue then
      HeadIsMax(sorted);
      var rest := Insert(sorted[1..], x);
      ConsByRevenue(sorted[0], rest);
      assert sorted == [sorted[0]] + sorted[1..];
      [sorted[0]] + rest
    else
      HeadIsMax(sorted);
      ConsByRevenue(x, sorted);
      [x] + sorted
  }

  /** Inserting adds one occurrence of `x` and keeps every other occurrence. */
  lemma {:induction false} InsertPermutes(sorted: seq<ProductEntry>, x: ProductEntry)
    requires ByRevenue(sorted)
    ensures multiset(Insert(sorted, x)) == multiset(sorted) + multiset{x}
    decreases |sorted|
  {
    if sorted != [] && sorted[0].revenue >= x.revenue {
      assert ByRevenue(sorted[1..]);
      InsertPermutes(sorted[1..], x);
      assert sorted == [sorted[0]] + sorted[1..];
    }
  }

  /** `.sort((a, b) => b.revenue - a.revenue)`, a stable sort by revenue, highest first. */
  function SortByRevenue(s: seq<ProductEntry>): (r: seq<ProductEntry>)
    ensures ByRevenue(r)
    ensures multiset(r) == multiset(s)
    ensures forall y :: y in r <==> y in s
    decreases |s|
  {
    if s == [] then []
    else
      var n := |s| - 1;
      assert s == s[..n] + [s[n]];
      InsertPermutes(SortByRevenue(s[..n]), s[n]);
      Insert(SortByRevenue(s[..n]), s[n])
  }

  /** No product id is listed twice. */
  ghost predicate DistinctProducts(s: seq<ProductEntry>) {
    forall i, j :: 0 <= i < j < |s| ==> s[i].productId != s[j].productId
  }

  /** The tail of a list with distinct ids has distinct ids, none of them the head's. */
  lemma DistinctTail(s: seq<ProductEntry>)
    requires DistinctProducts(s) && s != []
    ensures DistinctProducts(s[1..])
    ensures forall y :: y in s[1..] ==> y.productId != s[0].productId
  {
    forall y | y in s[1..]
      ensures y.productId != s[0].productId
    {
      var i :| 0 <= i < |s[1..]| && s[1..][i] == y;
      assert s[i + 1] == y;
    }
  }

  /** An entry whose id no entry of a list with distinct ids has can go first. */
  lemma ConsDistinct(h: ProductEntry, rest: seq<ProductEntry>)
    requires DistinctProducts(rest) && forall y :: y in rest ==> y.productId != h.productId
    ensures DistinctProducts([h] + rest)
  {
    var s := [h] + rest;
    forall i, j | 0 <= i < j < |s|
      ensures s[i].productId != s[j].productId
    {
      assert s[j] == rest[j - 1];
      if i == 0 {
        assert rest[j - 1] in rest;
      } else {
        assert s[i] == rest[i - 1];
      }
    }
  }

  lemma {:induction false} InsertDistinct(sorted: seq<ProductEntry>, x: ProductEntry)
    requires ByRevenue(sorted) && DistinctProducts(sorted)
    requires forall y :: y in sorted ==> y.productId != x.productId
    ensures DistinctProducts(Insert(sorted, x))
    decreases |sorted|
  {
    if sorted != [] && sorted[0].revenue >= x.revenue {
      HeadIsMax(sorted);
      DistinctTail(sorted);
      InsertDistinct(sorted[1..], x);
      assert sorted[0] in sorted;
      ConsDistinct(sorted[0], Insert(sorted[1..], x));
    } else if sorted != [] {
      ConsDistinct(x, sorted);
    }
  }

  /** Sorting keeps product ids distinct. */
  lemma {:induction false} SortDistinct(s: seq<ProductEntry>)
    requires DistinctProducts(s)
    ensures DistinctProducts(SortByRevenue(s))
    decreases |s|
  {
    if s != [] {
      var n := |s| - 1;
      assert DistinctProducts(s[..n]);
      SortDistinct(s[..n]);
      forall y | y in SortByRevenue(s[..n])
        ensures y.productId != s[n].productId
      {
        var i :| 0 <= i < n && s[..n][i] == y;
      }
      InsertDistinct(SortByRevenue(s[..n]), s[n]);
    }
  }

  /** `.slice(0, 5)` of the sorted entries. */
  function TopFive(entries: seq<ProductEntry>): seq<ProductEntry> {
    Lists.Take(SortByRevenue(entries), 5)
  }

  /** The sorted list is as long as the entries. */
  lemma SortLength(entries: seq<ProductEntry>)
    ensures |SortByRevenue(entries)| == |entries|
  {
    var sorted := SortByRevenue(entries);
    assert |multiset(sorted)| == |multiset(entries)|;
  }

  /** The top list has at most five entries, highest revenue first, all drawn from the entries. */
  lemma TopFiveShape(entries: seq<ProductEntry>)
    ensures var top := TopFive(entries);
            && |top| == (if |entries| < 5 then |entries| else 5)
            && ByRevenue(top)
            && (forall e :: e in top ==> e in entries)
  {
    var sorted := SortByRevenue(entries);
    var top := TopFive(entries);
    SortLength(entries);
    forall e | e in top
      ensures e in entries
    {
      var i :| 0 <= i < |top| && top[i] == e;
      assert sorted[i] == e;
    }
  }

  /** A sorted entry at a position the top list reaches is in the top list. */
  lemma TopFiveHas(entries: seq<ProductEntry>, p: nat)
    requires p < |SortByRevenue(entries)|
    ensures p < |TopFive(entries)| ==> TopFive(entries)[p] == SortByRevenue(entries)[p]
    ensures p < |TopFive(entries)| ==> SortByRevenue(entries)[p] in TopFive(entries)
  {
  }

  /** Every entry left out of the top list has no more revenue than any entry in it. */
  lemma TopFiveLargest(entries: seq<ProductEntry>)
    ensures var top := TopFive(entries);
            forall e, t :: e in entries && e !in top && t in top ==> t.revenue >= e.revenue
  {
    var sorted := SortByRevenue(entries);
    var top := TopFive(entries);
    forall e, t | e in entries && e !in top && t in top
      ensures t.revenue >= e.revenue
    {
      assert e in sorted;
      var p :| 0 <= p < |sorted| && sorted[p] == e;
      var q :| 0 <= q < |top| && top[q] == t;
      assert sorted[q] == t;
      TopFiveHas(entries, p);
    }
  }

  /** The top list lists no product twice when the entries do not. */
  lemma TopFiveDistinct(entries: seq<ProductEntry>)
    requires DistinctProducts(entries)
    ensures DistinctProducts(TopFive(entries))
  {
    SortDistinct(entries);
  }

  function ProductIds(s: seq<ProductEntry>): (r: seq<Id>)
    ensures |r| == |s| && forall i :: 0 <= i < |s| ==> r[i] == s[i].productId
  {
    seq(|s|, i requires 0 <= i < |s| => s[i].productId)
  }

  function WaiterIds(s: seq<WaiterEntry>): (r: seq<Id>)
    ensures |r| == |s| && forall i :: 0 <= i < |s| ==> r[i] == s[i].waiterId
  {
    seq(|s|, i requires 0 <= i < |s| => s[i].waiterId)
  }

  /** The quantity of product `k` over the lines. */
  function ProductQuantity(lines: seq<OrderItem>, k: Id): int {
    Lists.Count(lines, CountIf(ProductMeasure(), k))
  }

  /** The revenue of product `k` over the lines. */
  function ProductRevenue(lines: seq<OrderItem>, k: Id): real {
    Lists.Sum(lines, AmountIf(ProductMeasure(), k))
  }

  /** The number of orders of waiter `k`. */
  function WaiterOrders(orders: seq<Order>, k: Id): int {
    Lists.Count(orders, CountIf(WaiterMeasure(), k))
  }

  /** The sales of waiter `k`. */
  function WaiterSales(orders: seq<Order>, k: Id): real {
    Lists.Sum(orders, AmountIf(WaiterMeasure(), k))
  }

  /**
   * The product rows before sorting: one per distinct product id of the lines, in
   * first-occurrence order, each holding that product's quantity and revenue.
   */
  lemma ProductRows(lines: seq<OrderItem>)
    ensures var t := Fold(lines, ProductMeasure());
            var rows := ProductEntries(t.keys, t.stats);
            && ProductIds(rows) == Lists.Dedupe(KeysOf(lines, ProductMeasure()))
            && DistinctProducts(rows)
            && forall e :: e in rows ==> e.quantity == ProductQuantity(lines, e.productId) &&
                                         e.revenue == ProductRevenue(lines, e.productId) &&
                                         NamedByLast(lines, ProductMeasure(), e.productId, e.productName)
  {
    var t := Fold(lines, ProductMeasure());
    var rows := ProductEntries(t.keys, t.stats);
    FoldOk(lines, ProductMeasure());
    FoldKeys(lines, ProductMeasure());
    assert ProductIds(rows) == t.keys;
    forall e | e in rows
      ensures e.quantity == ProductQuantity(lines, e.productId) && e.revenue == ProductRevenue(lines, e.productId)
      ensures NamedByLast(lines, ProductMeasure(), e.productId, e.productName)
    {
      var i :| 0 <= i < |rows| && rows[i] == e;
      ProductRow(lines, i);
    }
  }

  /**
   * The `i`-th product row holds the `i`-th key's quantity and revenue over the lines, and
   * the name of that product's last line.
   */
  lemma ProductRow(lines: seq<OrderItem>, i: nat)
    requires i < |Fold(lines, ProductMeasure()).keys|
    ensures var t := Fold(lines, ProductMeasure());
            var e := ProductEntries(t.keys, t.stats)[i];
            && e.quantity == ProductQuantity(lines, e.productId) && e.revenue == ProductRevenue(lines, e.productId)
            && NamedByLast(lines, ProductMeasure(), e.productId, e.productName)
  {
    var t := Fold(lines, ProductMeasure());
    FoldOk(lines, ProductMeasure());
    assert t.keys[i] in t.keys;
    FoldSums(lines, ProductMeasure(), t.keys[i]);
    FoldName(lines, ProductMeasure(), t.keys[i]);
  }

  /**
   * The waiter rows: one per distinct waiter of the orders, in first-occurrence order,
   * each with that waiter's order count and sales.
   */
  lemma WaiterRows(orders: seq<Order>)
    ensures var t := Fold(orders, WaiterMeasure());
            var rows := WaiterEntries(t.keys, t.stats);
            && WaiterIds(rows) == Lists.Dedupe(KeysOf(orders, WaiterMeasure()))
            && (forall w :: w in rows ==> w.orders == WaiterOrders(orders, w.waiterId) &&
                                          w.sales == WaiterSales(orders, w.waiterId) &&
                                          NamedByLast(orders, WaiterMeasure(), w.waiterId, w.waiterName))
  {
    var t := Fold(orders, WaiterMeasure());
    var rows := WaiterEntries(t.keys, t.stats);
    FoldKeys(orders, WaiterMeasure());
    assert WaiterIds(rows) == t.keys;
    forall w | w in rows
      ensures w.orders == WaiterOrders(orders, w.waiterId) && w.sales == WaiterSales(orders, w.waiterId)
      ensures NamedByLast(orders, WaiterMeasure(), w.waiterId, w.waiterName)
    {
      var i :| 0 <= i < |rows| && rows[i] == w;
      WaiterRow(orders, i);
    }
  }

  /**
   * The `i`-th waiter row holds the `i`-th key's order count and sales, and the waiter name
   * of that waiter's last order.
   */
  lemma WaiterRow(orders: seq<Order>, i: nat)
    requires i < |Fold(orders, WaiterMeasure()).keys|
    ensures var t := Fold(orders, WaiterMeasure());
            var w := WaiterEntries(t.keys, t.stats)[i];
            && w.orders == WaiterOrders(orders, w.waiterId) && w.sales == WaiterSales(orders, w.waiterId)
            && NamedByLast(orders, WaiterMeasure(), w.waiterId, w.waiterName)
  {
    var t := Fold(orders, WaiterMeasure());
    FoldOk(orders, WaiterMeasure());
    assert t.keys[i] in t.keys;
    FoldSums(orders, WaiterMeasure(), t.keys[i]);
    FoldName(orders, WaiterMeasure(), t.keys[i]);
  }

  /** The waiter rows add up to the number of orders and to their total. */
  lemma WaiterRowsConserve(orders: seq<Order>)
    ensures var t := Fold(orders, WaiterMeasure());
            var rows := WaiterEntries(t.keys, t.stats);
            && Lists.Count(rows, EntryOrders) == |orders|
            && Lists.Sum(rows, EntrySales) == Lists.Sum(orders, OrderTotal)
  {
    var t := Fold(orders, WaiterMeasure());
    FoldOk(orders, WaiterMeasure());
    assert forall i :: 0 <= i < |t.keys| ==> t.keys[i] in t.stats;
    WaiterEntriesSum(t.keys, t.stats);
    FoldConserves(orders, WaiterMeasure());
    CountOnes(orders);
  }

  lemma {:induction false} CountOnes(orders: seq<Order>)
    ensures Lists.Count(orders, OneOrder) == |orders|
    decreases |orders|
  {
    if orders != [] {
      CountOnes(orders[..|orders| - 1]);
    }
  }

  /** The report object `generateSalesReport` returns. */
  datatype SalesReport = SalesReport(
    date: string,
    totalSales: real,
    totalOrders: int,
    topProducts: seq<ProductEntry>,
    waiterPerformance: seq<WaiterEntry>)

  /**
   * What the top-products list says about the lines: at most five rows (fewer only when
   * fewer products were sold), highest revenue first, no product twice, each row holding a
   * sold product's quantity and revenue and the name on its last line, and no product left
   * out earning more than a row kept.
   */
  ghost predicate TopProductsOk(lines: seq<OrderItem>, top: seq<ProductEntry>) {
    var ids := Lists.Dedupe(KeysOf(lines, ProductMeasure()));
    && |top| == (if |ids| < 5 then |ids| else 5)
    && ByRevenue(top)
    && DistinctProducts(top)
    && (forall e :: e in top ==> e.productId in ids && e.quantity == ProductQuantity(lines, e.productId) &&
                                 e.revenue == ProductRevenue(lines, e.productId) &&
                                 NamedByLast(lines, ProductMeasure(), e.productId, e.productName))
    && (forall k :: k in ids && k !in ProductIds(top) ==>
          forall e :: e in top ==> e.revenue >= ProductRevenue(lines, k))
  }

  /**
   * What the waiter list says about the counted orders: one row per waiter in
   * first-occurrence order, each with that waiter's order count and sales and the waiter
   * name on their last order, adding up to the report's totals.
   */
  ghost predicate WaitersOk(counted: seq<Order>, waiters: seq<WaiterEntry>, totalOrders: int, totalSales: real) {
    && WaiterIds(waiters) == Lists.Dedupe(KeysOf(counted, WaiterMeasure()))
    && (forall w :: w in waiters ==> w.orders == WaiterOrders(counted, w.waiterId) &&
                                     w.sales == WaiterSales(counted, w.waiterId) &&
                                     NamedByLast(counted, WaiterMeasure(), w.waiterId, w.waiterName))
    && Lists.Count(waiters, EntryOrders) == totalOrders
    && Lists.Sum(waiters, EntrySales) == totalSales
  }

  /** What the product rows before sorting say about the lines, as `ProductRows` proves. */
  ghost predicate RowsOk(lines: seq<OrderItem>, rows: seq<ProductEntry>) {
    && ProductIds(rows) == Lists.Dedupe(KeysOf(lines, ProductMeasure()))
    && DistinctProducts(rows)
    && forall e :: e in rows ==> e.quantity == ProductQuantity(lines, e.productId) &&
                                 e.revenue == ProductRevenue(lines, e.productId) &&
                                 NamedByLast(lines, ProductMeasure(), e.productId, e.productName)
  }

  /** Each kept row is a sold product with its quantity and revenue. */
  lemma TopRowsKept(lines: seq<OrderItem>, rows: seq<ProductEntry>)
    requires RowsOk(lines, rows)
    ensures forall e :: e in TopFive(rows) ==>
              && e.productId in Lists.Dedupe(KeysOf(lines, ProductMeasure()))
              && e.quantity == ProductQuantity(lines, e.productId)
              && e.revenue == ProductRevenue(lines, e.productId)
              && NamedByLast(lines, ProductMeasure(), e.productId, e.productName)
  {
    TopFiveShape(rows);
    forall e | e in TopFive(rows)
      ensures e.productId in ProductIds(rows)
    {
      var i :| 0 <= i < |rows| && rows[i] == e;
      assert ProductIds(rows)[i] == e.productId;
    }
  }

  /** A product left out of the top list earns no more than any kept row. */
  lemma TopRowsLeftOut(lines: seq<OrderItem>, rows: seq<ProductEntry>)
    requires RowsOk(lines, rows)
    ensures var ids := Lists.Dedupe(KeysOf(lines, ProductMeasure()));
            forall k :: k in ids && k !in ProductIds(TopFive(rows)) ==>
              forall e :: e in TopFive(rows) ==> e.revenue >= ProductRevenue(lines, k)
  {
    var top := TopFive(rows);
    var ids := Lists.Dedupe(KeysOf(lines, ProductMeasure()));
    TopFiveLargest(rows);
    forall k | k in ids && k !in ProductIds(top)
      ensures forall e :: e in top ==> e.revenue >= ProductRevenue(lines, k)
    {
      var i :| 0 <= i < |ids| && ids[i] == k;
      var row := rows[i];
      assert row.productId == k && row in rows;
    }
  }

  lemma TopProductsFromLines(lines: seq<OrderItem>)
    ensures var t := Fold(lines, ProductMeasure());
            TopProductsOk(lines, TopFive(ProductEntries(t.keys, t.stats)))
  {
    var t := Fold(lines, ProductMeasure());
    var rows := ProductEntries(t.keys, t.stats);
    ProductRows(lines);
    assert RowsOk(lines, rows);
    TopFiveShape(rows);
    TopFiveDistinct(rows);
    TopRowsKept(lines, rows);
    TopRowsLeftOut(lines, rows);
  }

  /**
   * `generateSalesReport()`: the completed orders of today, their total and number, the
   * top five products by revenue and the per-waiter figures.
   */
  method GenerateSalesReport(orders: seq<Order>, now: Timestamp, dayKey: Timestamp -> string)
    returns (report: SalesReport)
    ensures report.date == dayKey(now)
    ensures var counted := TodayOrders(orders, dayKey, dayKey(now));
            && report.totalSales == Lists.Sum(counted, OrderTotal)
            && report.totalOrders == |counted|
            && TopProductsOk(Lines(counted), report.topProducts)
            && WaitersOk(counted, report.waiterPerformance, report.totalOrders, report.totalSales)
  {
    var today := dayKey(now);
    var todayOrders := TodayOrders(orders, dayKey, today);
    var totalSales := Lists.Sum(todayOrders, OrderTotal);
    var totalOrders := |todayOrders|;
    var productSales := TallyProducts(todayOrders);
    var topProducts := TopFive(ProductEntries(productSales.keys, productSales.stats));
    var waiterSales := TallyWaiters(todayOrders);
    var waiterPerformance := WaiterEntries(waiterSales.keys, waiterSales.stats);
    TopProductsFromLines(Lines(todayOrders));
    WaiterRows(todayOrders);
    WaiterRowsConserve(todayOrders);
    report := SalesReport(today, totalSales, totalOrders, topProducts, waiterPerformance);
  }

  /** The average ticket: total sales over the number of orders, zero when there are none. */
  function AverageTicket(report: SalesReport): (a: real)
    ensures report.totalOrders > 0 ==> a * report.totalOrders as real == report.totalSales
    ensures report.totalOrders <= 0 ==> a == 0.0
  {
    if report.totalOrders > 0 then report.totalSales / report.totalOrders as real else 0.0
  }

  /** The daily close figures: gross takings, the VAT in them and the amount net of VAT. */
  datatype DailyClose = DailyClose(gross: real, vat: real, net: real)

  /**
   * The daily close as the screen computes it: VAT as 10 % of the gross and net as 90 %,
   * although the gross is a sum of order totals that already include the 10 % VAT.
   */
  function DailyCloseAsWritten(totalSales: real): (c: DailyClose)
    ensures c.gross == totalSales && c.vat + c.net == c.gross
  {
    DailyClose(totalSales, totalSales * 0.1, totalSales * 0.9)
  }

  /**
   * One completed order of subtotal 10 (VAT 1, total 11): the close as written reports
   * VAT 1.1 and net 9.9, not the stored VAT 1 and subtotal 10.
   */
  lemma DailyCloseAsWrittenOverstatesVat()
    ensures var o := POSSystem.BuildOrder([OrderItem("1", "Menu", 1, 10.0, 10.0)], None, Barra,
                                          User("2", "Waiter", Waiter, true), "1", 0);
            var c := DailyCloseAsWritten(Lists.Sum([o], OrderTotal));
            && Lists.Sum([o], OrderVat) == 1.0 && Lists.Sum([o], OrderSubtotal) == 10.0
            && c.vat == 1.1 && c.net == 9.9
  {
    var draft := [OrderItem("1", "Menu", 1, 10.0, 10.0)];
    var o := POSSystem.BuildOrder(draft, None, Barra, User("2", "Waiter", Waiter, true), "1", 0);
    assert OrderSummary.Subtotal(draft) == 10.0 by {
      assert draft[..0] == [];
    }
    assert [o][..0] == [];
  }

  /**
   * The daily close with the VAT taken out of VAT-inclusive takings: the net is the gross
   * over 1.1 and the VAT is the rest.
   */
  function DailyCloseOf(totalSales: real): (c: DailyClose)
    ensures c.gross == totalSales && c.vat + c.net == c.gross
    ensures c.net * (1.0 + OrderSummary.VatRate) == c.gross
    ensures c.vat == c.net * OrderSummary.VatRate
  {
    var net := totalSales / (1.0 + OrderSummary.VatRate);
    DailyClose(totalSales, totalSales - net, net)
  }

  /** An order's stored totals as `completeOrder` builds them. */
  ghost predicate StoredTotals(o: Order) {
    o.vatAmount == o.subtotal * OrderSummary.VatRate && o.total == o.subtotal + o.vatAmount
  }

  lemma BuiltOrderHasStoredTotals(draft: seq<OrderItem>, table: Option<Table>, zone: Zone, waiter: User,
                                  orderId: Id, now: Timestamp)
    ensures StoredTotals(POSSystem.BuildOrder(draft, table, zone, waiter, orderId, now))
  {
    POSSystem.StoredTotalsAreDisplayed(draft, table, zone, waiter, orderId, now);
  }

  lemma {:induction false} StoredSums(orders: seq<Order>)
    requires forall i :: 0 <= i < |orders| ==> StoredTotals(orders[i])
    ensures Lists.Sum(orders, OrderVat) == Lists.Sum(orders, OrderSubtotal) * OrderSummary.VatRate
    ensures Lists.Sum(orders, OrderTotal) == Lists.Sum(orders, OrderSubtotal) + Lists.Sum(orders, OrderVat)
    decreases |orders|
  {
    if orders != [] {
      StoredSums(orders[..|orders| - 1]);
    }
  }

  /**
   * For orders stored by `completeOrder`, the corrected close reports exactly the VAT and
   * the subtotals the orders carry.
   */
  lemma DailyCloseMatchesOrders(orders: seq<Order>)
    requires forall i :: 0 <= i < |orders| ==> StoredTotals(orders[i])
    ensures var c := DailyCloseOf(Lists.Sum(orders, OrderTotal));
            c.vat == Lists.Sum(orders, OrderVat) && c.net == Lists.Sum(orders, OrderSubtotal)
  {
    StoredSums(orders);
  }
}
