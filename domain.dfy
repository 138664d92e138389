/**
 * The record types of the point-of-sale application (project/src/types/index.ts and
 * project/src/types/category.ts). Money is exact (`real`); loosely typed string
 * fields with a fixed set of values become closed enumerations.
 */
module Domain {
  import opened Wrappers

  type Id = string

  /** Milliseconds since the epoch, as `Date.now()` and `Date` values carry them. */
  type Timestamp = int

  datatype Zone = Barra | Terraza

  /** A status string other than the three the declared type names. */
  type UnknownStatus = s: string | s != "available" && s != "occupied" && s != "reserved" witness "free"

  /**
   * A table's status. The declared type has three values; `OtherStatus` stands for any
   * other string the store may hold, which the table view's `default:` arms handle.
   */
  datatype TableStatus = Available | Occupied | Reserved | OtherStatus(raw: UnknownStatus)

  /** The status a raw status string stands for: each string has exactly one reading. */
  function StatusOf(raw: string): (st: TableStatus)
    ensures st == Available <==> raw == "available"
    ensures st == Occupied <==> raw == "occupied"
    ensures st == Reserved <==> raw == "reserved"
    ensures st.OtherStatus? ==> st.raw == raw
  {
    if raw == "available" then Available
    else if raw == "occupied" then Occupied
    else if raw == "reserved" then Reserved
    else OtherStatus(raw)
  }

  datatype OrderStatus = Pending | Completed | Cancelled

  datatype Role = Admin | Waiter

  /**
   * A product's `active` flag as the screens receive it: the seed data holds booleans,
   * while the API returns the SQLite rows as they are, whose `active` column is an
   * INTEGER holding 1 or 0, and the store loads them without converting the flag.
   */
  datatype Flag = Bool(b: bool) | Num(n: int)

  /** JavaScript truthiness of the flag, as a plain `product.active` test reads it. */
  predicate Truthy(f: Flag) {
    match f
    case Bool(b) => b
    case Num(n) => n != 0
  }

  /**
   * A catalog entry. `category` is the key the POS selector and the reports read
   * (`product.category`), which the declared type does not have; it is kept here as a
   * plain field beside `categoryId` and `categoryName`.
   */
  datatype Product = Product(
    id: Id,
    name: string,
    description: Option<string>,
    categoryId: Id,
    categoryName: string,
    category: string,
    basePrice: real,
    vatRate: real,
    finalPrice: real,
    costPrice: Option<real>,
    sku: Option<string>,
    barcode: Option<string>,
    stock: int,
    minStock: Option<int>,
    active: Flag,
    imageUrl: Option<string>,
    createdAt: Option<string>,
    updatedAt: Option<string>)

  datatype Table = Table(
    id: Id,
    number: int,
    zone: Zone,
    seats: int,
    status: TableStatus,
    currentOrder: Option<Id>)

  /** One line of a draft or of a stored order. */
  datatype OrderItem = OrderItem(
    productId: Id,
    productName: string,
    quantity: int,
    unitPrice: real,
    total: real)

  datatype Order = Order(
    id: Id,
    tableId: Option<Id>,
    zone: Zone,
    items: seq<OrderItem>,
    subtotal: real,
    vatAmount: real,
    total: real,
    status: OrderStatus,
    waiterId: Id,
    waiterName: string,
    createdAt: Timestamp,
    completedAt: Option<Timestamp>)

  datatype User = User(id: Id, name: string, role: Role, active: bool)

  /**
   * A category's parent pointer as the API delivers it: SQLite's `NULL` arrives as
   * `null`, a field that is absent is `undefined`, and the two compare unequal under `===`.
   */
  datatype ParentRef = NullParent | NoParent | ParentId(id: Id)

  datatype Category = Category(
    id: Id,
    name: string,
    description: Option<string>,
    isActive: bool,
    createdAt: string,
    updatedAt: Option<string>,
    parentId: ParentRef)

  function ProductId(p: Product): Id { p.id }
  function TableId(t: Table): Id { t.id }
  function OrderId(o: Order): Id { o.id }
  function UserId(u: User): Id { u.id }
  function CategoryId(c: Category): Id { c.id }
  function LineProduct(item: OrderItem): Id { item.productId }
}
