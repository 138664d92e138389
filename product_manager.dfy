/**
 * The catalog screen (project/src/components/Products/ProductManager.tsx): the search over
 * the product list, the removal of a deleted product, the defaults the product form starts
 * from and the record it saves, with the final price derived from the base price and VAT.
 */
module ProductManager {
  import opened Wrappers
  import opened Domain
  import Lists
  import Text

  /** `(field?.toLowerCase() || '')`: a missing optional field searches as the empty string. */
  function Searchable(field: Option<string>): (s: string)
    ensures field.None? ==> s == ""
    ensures field.Some? ==> s == Text.Lower(field.value)
  {
    match field
    case None => ""
    case Some(v) => Text.Lower(v)
  }

  /**
   * The search condition: the lower-cased term occurs in the name, description, SKU,
   * barcode or category name, each lower-cased.
   */
  predicate Matches(p: Product, searchTerm: string) {
    var term := Text.Lower(searchTerm);
    || Text.Includes(Text.Lower(p.name), term)
    || Text.Includes(Searchable(p.description), term)
    || Text.Includes(Searchable(p.sku), term)
    || Text.Includes(Searchable(p.barcode), term)
    || Text.Includes(Text.Lower(p.categoryName), term)
  }

  function MatchesTerm(searchTerm: string): Product -> bool {
    p => Matches(p, searchTerm)
  }

  /** `filteredProducts`: the products matching the search, in list order. */
  function FilteredProducts(products: seq<Product>, searchTerm: string): (r: seq<Product>)
    ensures Lists.IsSubsequence(r, products)
    ensures forall p :: p in r <==> p in products && Matches(p, searchTerm)
  {
    Lists.Filter(products, MatchesTerm(searchTerm))
  }

  /** An empty search keeps the whole list, in its order. */
  lemma EmptySearchKeepsAll(products: seq<Product>)
    ensures FilteredProducts(products, "") == products
  {
    forall i | 0 <= i < |products|
      ensures Matches(products[i], "")
    {
      assert Text.Lower("") == "";
      Text.IncludesEmpty(Text.Lower(products[i].name));
    }
    Lists.FilterKeepsAll(products, MatchesTerm(""));
  }

  /** A product whose SKU contains the term is found even when nothing else matches. */
  lemma SkuIsSearched(products: seq<Product>, p: Product, searchTerm: string)
    requires p in products && p.sku.Some?
    requires Text.Includes(Text.Lower(p.sku.value), Text.Lower(searchTerm))
    ensures p in FilteredProducts(products, searchTerm)
  {
  }

  /** `products.filter(p => p.id !== productId)` after a successful delete. */
  function DeleteProduct(products: seq<Product>, productId: Id): (r: seq<Product>)
    ensures Lists.IsSubsequence(r, products)
    ensures forall p :: p in r <==> p in products && p.id != productId
  {
    Lists.RemoveByKey(products, ProductId, productId)
  }

  /** Deleting keeps every other product as often as it occurred, and deleting again changes nothing. */
  lemma DeleteKeepsOthers(products: seq<Product>, productId: Id)
    ensures forall p: Product :: p.id != productId ==> multiset(DeleteProduct(products, productId))[p] == multiset(products)[p]
    ensures DeleteProduct(DeleteProduct(products, productId), productId) == DeleteProduct(products, productId)
  {
    Lists.RemoveByKeyCounts(products, ProductId, productId);
    Lists.RemoveByKeyIdempotent(products, ProductId, productId);
  }

  /** The product form's fields. */
  datatype FormData = FormData(
    name: string,
    categoryId: Id,
    categoryName: string,
    basePrice: real,
    vatRate: real,
    stock: int,
    description: string,
    active: bool,
    sku: string,
    barcode: string,
    costPrice: real,
    minStock: int,
    imageUrl: string)

  /** `s || fallback` on a string: the empty string is falsy. */
  function OrString(s: string, fallback: string): string {
    if s == "" then fallback else s
  }

  /** `field || fallback` on an optional string. */
  function OrOptString(field: Option<string>, fallback: string): string {
    if field.None? then fallback else OrString(field.value, fallback)
  }

  /** `x || fallback` on a number: zero is falsy. */
  function OrReal(x: real, fallback: real): real {
    if x == 0.0 then fallback else x
  }

  function OrOptReal(x: Option<real>, fallback: real): real {
    if x.None? then fallback else OrReal(x.value, fallback)
  }

  function OrOptInt(x: Option<int>, fallback: int): int {
    if x.None? || x.value == 0 then fallback else x.value
  }

  const NoCategory: string := "Sin categoría"
  const DefaultVatRate: real := 10.0

  /** The form a new product starts from. */
  const BlankForm: FormData := FormData("", "", NoCategory, 0.0, DefaultVatRate, 0, "", true, "", "", 0.0, 0, "")

  /**
   * `initialFormData`: the edited product's fields through the `||` fallbacks, or the blank
   * form when there is no product. A stored VAT rate of 0 and an empty category name are
   * falsy and start from 10 and "Sin categoría"; `active` starts true unless the flag is
   * exactly the boolean false, so a product whose stored flag is the number 0 opens active.
   */
  function InitialFormData(product: Option<Product>): (f: FormData)
    ensures product.None? ==> f == BlankForm
    ensures product.Some? ==>
              var p := product.value;
              && f.name == p.name && f.categoryId == p.categoryId && f.basePrice == p.basePrice
              && f.stock == p.stock && f.active == (p.active != Bool(false))
              && f.categoryName == (if p.categoryName == "" then NoCategory else p.categoryName)
              && f.vatRate == (if p.vatRate == 0.0 then DefaultVatRate else p.vatRate)
              && f.description == (if p.description.Some? then p.description.value else "")
              && f.sku == (if p.sku.Some? then p.sku.value else "")
              && f.barcode == (if p.barcode.Some? then p.barcode.value else "")
              && f.costPrice == (if p.costPrice.Some? then p.costPrice.value else 0.0)
              && f.minStock == (if p.minStock.Some? then p.minStock.value else 0)
              && f.imageUrl == (if p.imageUrl.Some? then p.imageUrl.value else "")
  {
    match product
    case None => BlankForm
    case Some(p) =>
      FormData(OrString(p.name, ""), OrString(p.categoryId, ""), OrString(p.categoryName, NoCategory),
               OrReal(p.basePrice, 0.0), OrReal(p.vatRate, DefaultVatRate), OrOptInt(Some(p.stock), 0),
               OrOptString(p.description, ""), p.active != Bool(false), OrOptString(p.sku, ""),
               OrOptString(p.barcode, ""), OrOptReal(p.costPrice, 0.0), OrOptInt(p.minStock, 0),
               OrOptString(p.imageUrl, ""))
  }

  /** The form never starts with a zero VAT rate or an empty category name. */
  lemma FormStartsWithRateAndCategory(product: Option<Product>)
    ensures InitialFormData(product).vatRate != 0.0
    ensures InitialFormData(product).categoryName != ""
  {
  }

  /** `basePrice * (1 + vatRate / 100)`: the base price plus its VAT at `vatRate` percent. */
  function FinalPrice(basePrice: real, vatRate: real): (r: real)
    ensures r - basePrice == basePrice * vatRate / 100.0
    ensures vatRate == 0.0 ==> r == basePrice
    ensures basePrice >= 0.0 && vatRate >= 0.0 ==> r >= basePrice
  {
    basePrice * (1.0 + vatRate / 100.0)
  }

  function SomeText(s: string): Option<string> { Some(s) }

  /**
   * `productData` in `handleSave`: the edited product (if any) overwritten by the form, the
   * derived final price, the creation date kept when the product has a non-empty one and
   * otherwise the current moment, and the current moment as the update date. A new product
   * carries no id (the server assigns one); it is modelled as the empty id, and the
   * undeclared `category` key is carried over from the product or left empty.
   */
  function SaveRecord(product: Option<Product>, form: FormData, now: string): (r: Product)
    ensures r.id == (if product.Some? then product.value.id else "")
    ensures r.name == form.name && r.categoryId == form.categoryId && r.categoryName == form.categoryName
    ensures r.basePrice == form.basePrice && r.vatRate == form.vatRate && r.stock == form.stock
    ensures r.active == Bool(form.active)
    ensures r.finalPrice == FinalPrice(form.basePrice, form.vatRate)
    ensures product.Some? && product.value.createdAt.Some? && product.value.createdAt.value != "" ==>
              r.createdAt == product.value.createdAt
    ensures (product.None? || product.value.createdAt.None? || product.value.createdAt.value == "") ==>
              r.createdAt == Some(now)
    ensures r.updatedAt == Some(now)
  {
    var createdAt := if product.Some? then OrOptString(product.value.createdAt, now) else now;
    Product(
      if product.Some? then product.value.id else "",
      form.name, SomeText(form.description), form.categoryId, form.categoryName,
      if product.Some? then product.value.category else "",
      form.basePrice, form.vatRate, FinalPrice(form.basePrice, form.vatRate), Some(form.costPrice),
      SomeText(form.sku), SomeText(form.barcode), form.stock, Some(form.minStock), Bool(form.active),
      SomeText(form.imageUrl), Some(createdAt), Some(now))
  }

  /** Every saved record's final price is its base price plus VAT at its own rate. */
  lemma SavedPriceIsConsistent(product: Option<Product>, form: FormData, now: string)
    ensures var r := SaveRecord(product, form, now);
            r.finalPrice - r.basePrice == r.basePrice * r.vatRate / 100.0
  {
  }

  /**
   * Opening a product and saving it unchanged keeps its id, name, category, prices and
   * stock when its VAT rate is non-zero and its category name non-empty; a stored VAT rate
   * of 0 comes back as 10. The saved flag is the boolean `active !== false`: a boolean flag
   * is kept, and every numeric flag, 0 included, is saved as true.
   */
  lemma SaveUnchangedForm(p: Product, now: string)
    ensures var r := SaveRecord(Some(p), InitialFormData(Some(p)), now);
            && r.id == p.id && r.name == p.name && r.categoryId == p.categoryId
            && r.basePrice == p.basePrice && r.stock == p.stock
            && r.active == Bool(p.active != Bool(false))
            && (p.active.Bool? ==> r.active == p.active)
            && (p.active.Num? ==> r.active == Bool(true))
            && (p.categoryName != "" ==> r.categoryName == p.categoryName)
            && (p.vatRate != 0.0 ==> r.vatRate == p.vatRate)
            && (p.vatRate == 0.0 ==> r.vatRate == DefaultVatRate)
            && r.finalPrice == FinalPrice(p.basePrice, r.vatRate)
  {
  }

  /**
   * A product the API lists as inactive (its flag is the number 0) is shown as inactive in
   * the list, yet its form opens with the checkbox ticked, and saving the form untouched
   * stores it as active.
   */
  lemma InactiveRowReactivated(p: Product, now: string)
    requires p.active == Num(0)
    ensures !Truthy(p.active)
    ensures InitialFormData(Some(p)).active
    ensures Truthy(SaveRecord(Some(p), InitialFormData(Some(p)), now).active)
  {
  }
}
