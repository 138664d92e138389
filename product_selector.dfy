/**
 * The product grid of the POS screen (project/src/components/POS/ProductSelector.tsx):
 * the category buttons, the search-and-category filter over the catalog and the tile
 * click that hands a product id to `addToOrder`.
 */
module ProductSelector {
  import opened Domain
  import Lists
  import Text
  import OrderLines

  /** The value of the category filter that shows every category. */
  const All: string := "all"

  function CategoryOf(p: Product): string { p.category }

  /** `products.map(p => p.category)`: each product's category, in catalog order. */
  function CategoryList(products: seq<Product>): (r: seq<string>)
    ensures |r| == |products| && forall i :: 0 <= i < |products| ==> r[i] == products[i].category
  {
    seq(|products|, i requires 0 <= i < |products| => CategoryOf(products[i]))
  }

  /**
   * `['all', ...new Set(products.map(p => p.category))]`: the "all" button first, then every
   * category that some product carries, once each, in catalog order.
   */
  function Categories(products: seq<Product>): (cs: seq<string>)
    ensures |cs| >= 1 && cs[0] == All
    ensures Lists.Distinct(cs[1..])
    ensures forall c :: c in cs[1..] <==> exists i :: 0 <= i < |products| && products[i].category == c
    ensures forall i :: 1 <= i < |cs| ==> cs[i] in CategoryList(products)
    ensures forall i, j :: 1 <= i < j < |cs| ==>
              Lists.FirstIndex(CategoryList(products), cs[i]) < Lists.FirstIndex(CategoryList(products), cs[j])
  {
    var used := CategoryList(products);
    var d := Lists.Dedupe(used);
    assert ([All] + d)[1..] == d;
    forall c | c in d
      ensures exists i :: 0 <= i < |products| && products[i].category == c
    {
      var i :| 0 <= i < |used| && used[i] == c;
    }
    forall i | 0 <= i < |products|
      ensures products[i].category in d
    {
      assert used[i] == products[i].category;
    }
    [All] + d
  }

  /** Two products of different categories give their buttons in catalog order, after "all". */
  lemma CategoriesFirstSeen(p: Product, q: Product)
    requires p.category != q.category
    ensures Categories([p, q]) == [All, p.category, q.category]
  {
    var used := CategoryList([p, q]);
    assert used == [p.category, q.category];
    assert used[..1] == [p.category] && [p.category][..0] == [];
    assert Lists.Dedupe([p.category]) == [p.category];
    assert Lists.Dedupe(used) == [p.category, q.category];
  }

  /**
   * The set that builds the buttons does not exclude "all": a product whose category is
   * literally "all" makes that button appear twice.
   */
  lemma AllButtonRepeats(products: seq<Product>, i: nat)
    requires i < |products| && products[i].category == All
    ensures var cs := Categories(products);
            exists j :: 1 <= j < |cs| && cs[j] == cs[0]
  {
    var cs := Categories(products);
    assert All in cs[1..];
    var j :| 0 <= j < |cs[1..]| && cs[1..][j] == All;
    assert cs[j + 1] == cs[0];
  }

  /**
   * The filter condition: the lower-cased name includes the lower-cased search term, the
   * category matches or is "all", and the product is active.
   */
  predicate Shown(p: Product, searchTerm: string, selectedCategory: string) {
    && Text.Includes(Text.Lower(p.name), Text.Lower(searchTerm))
    && (selectedCategory == All || p.category == selectedCategory)
    && Truthy(p.active)
  }

  function ShownBy(searchTerm: string, selectedCategory: string): Product -> bool {
    p => Shown(p, searchTerm, selectedCategory)
  }

  /** `filteredProducts`: the shown products in catalog order. */
  function FilteredProducts(products: seq<Product>, searchTerm: string, selectedCategory: string)
    : (r: seq<Product>)
    ensures Lists.IsSubsequence(r, products)
    ensures forall p :: p in r <==> p in products && Shown(p, searchTerm, selectedCategory)
  {
    Lists.Filter(products, ShownBy(searchTerm, selectedCategory))
  }

  /** With an empty search and the "all" category, the grid shows exactly the active products. */
  lemma EmptySearchShowsActive(products: seq<Product>)
    ensures forall p :: p in FilteredProducts(products, "", All) <==> p in products && Truthy(p.active)
  {
    forall p | p in products
      ensures Shown(p, "", All) <==> Truthy(p.active)
    {
      assert Text.Lower("") == "";
      Text.IncludesEmpty(Text.Lower(p.name));
    }
  }

  /** The search ignores the case of ASCII letters in the search term. */
  lemma SearchIgnoresCase(products: seq<Product>, searchTerm: string, selectedCategory: string)
    ensures FilteredProducts(products, Text.Lower(searchTerm), selectedCategory) ==
            FilteredProducts(products, searchTerm, selectedCategory)
  {
    Text.LowerIdempotent(searchTerm);
    Lists.FilterAgree(products, ShownBy(Text.Lower(searchTerm), selectedCategory),
                      ShownBy(searchTerm, selectedCategory));
  }

  /** Narrowing to one category shows a subset of what "all" shows for the same search. */
  lemma CategoryNarrows(products: seq<Product>, searchTerm: string, selectedCategory: string)
    ensures forall p :: p in FilteredProducts(products, searchTerm, selectedCategory) ==>
                        p in FilteredProducts(products, searchTerm, All)
  {
  }

  /**
   * The tile click: `onProductSelect(product.id)`. The id it hands over finds a product with
   * that id in every catalog that holds the tile's product, so `addToOrder` never ignores it.
   */
  function TileClick(p: Product): (id: Id)
    ensures id == p.id
    ensures forall catalog: seq<Product> :: p in catalog ==>
              OrderLines.LookUp(catalog, id).Some? && OrderLines.LookUp(catalog, id).value.id == p.id
  {
    p.id
  }

  /**
   * Every tile in the grid names a catalog product, so clicking it always puts a line for
   * that product in the draft: a new one at the end, or one more of the existing line.
   */
  lemma TileClickAddsLine(products: seq<Product>, searchTerm: string, selectedCategory: string,
                          p: Product, draft: seq<OrderItem>)
    requires p in FilteredProducts(products, searchTerm, selectedCategory)
    ensures var r := OrderLines.AddToOrder(products, draft, TileClick(p));
            && OrderLines.LookUp(products, p.id).Some?
            && OrderLines.HasLine(r, p.id)
            && |r| == if OrderLines.HasLine(draft, p.id) then |draft| else |draft| + 1
  {
    var i :| 0 <= i < |products| && products[i] == p;
    assert ProductId(products[i]) == p.id;
    var r := OrderLines.AddToOrder(products, draft, p.id);
    if OrderLines.HasLine(draft, p.id) {
      var j :| 0 <= j < |draft| && draft[j].productId == p.id;
      assert r[j].productId == p.id;
    } else {
      assert r[|draft|].productId == p.id;
    }
  }
}
