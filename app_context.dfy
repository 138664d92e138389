/**
 * The global store of the application (project/src/contexts/AppContext.tsx): the
 * `AppState` record, the `AppAction` union and `appReducer`, a pure function from a
 * state and an action to the next state.
 */
module AppContext {
  import opened Wrappers
  import opened Domain
  import Lists

  datatype AppState = AppState(
    currentUser: Option<User>,
    products: seq<Product>,
    categories: seq<Category>,
    tables: seq<Table>,
    orders: seq<Order>,
    users: seq<User>)

  /** `Partial<AppState>`: each field is either absent (`None`) or carries a new value. */
  datatype StatePatch = StatePatch(
    currentUser: Option<Option<User>>,
    products: Option<seq<Product>>,
    categories: Option<seq<Category>>,
    tables: Option<seq<Table>>,
    orders: Option<seq<Order>>,
    users: Option<seq<User>>)

  /**
   * The actions of the store. `Unknown` stands for an action object whose `type` is none
   * of the declared tags, which the reducer's `default:` arm receives.
   */
  datatype Action =
    | SetUser(currentUser: Option<User>)
    | AddProduct(product: Product)
    | UpdateProduct(product: Product)
    | DeleteProduct(productId: Id)
    | AddCategory(category: Category)
    | UpdateCategory(category: Category)
    | DeleteCategory(categoryId: Id)
    | AddTable(table: Table)
    | UpdateTable(table: Table)
    | DeleteTable(tableId: Id)
    | AddOrder(order: Order)
    | UpdateOrder(order: Order)
    | AddUser(user: User)
    | UpdateUser(user: User)
    | LoadInitialData(patch: StatePatch)
    | Unknown(tag: string)

  /** The six fields of the store. */
  datatype Field = CurrentUserField | ProductsField | CategoriesField | TablesField | OrdersField | UsersField

  /** Two states hold the same value in field `f`. */
  ghost predicate Agree(a: AppState, b: AppState, f: Field) {
    match f
    case CurrentUserField => a.currentUser == b.currentUser
    case ProductsField => a.products == b.products
    case CategoriesField => a.categories == b.categories
    case TablesField => a.tables == b.tables
    case OrdersField => a.orders == b.orders
    case UsersField => a.users == b.users
  }

  /** The patch carries a value for field `f`. */
  predicate Carries(p: StatePatch, f: Field) {
    match f
    case CurrentUserField => p.currentUser.Some?
    case ProductsField => p.products.Some?
    case CategoriesField => p.categories.Some?
    case TablesField => p.tables.Some?
    case OrdersField => p.orders.Some?
    case UsersField => p.users.Some?
  }

  /** The field an action's tag says it writes (a bulk load: the fields its payload carries). */
  predicate Writes(action: Action, f: Field) {
    match action
    case SetUser(_) => f == CurrentUserField
    case AddProduct(_) => f == ProductsField
    case UpdateProduct(_) => f == ProductsField
    case DeleteProduct(_) => f == ProductsField
    case AddCategory(_) => f == CategoriesField
    case UpdateCategory(_) => f == CategoriesField
    case DeleteCategory(_) => f == CategoriesField
    case AddTable(_) => f == TablesField
    case UpdateTable(_) => f == TablesField
    case DeleteTable(_) => f == TablesField
    case AddOrder(_) => f == OrdersField
    case UpdateOrder(_) => f == OrdersField
    case AddUser(_) => f == UsersField
    case UpdateUser(_) => f == UsersField
    case LoadInitialData(p) => Carries(p, f)
    case Unknown(_) => false
  }

  /** `after` is `before` with `x` appended: one longer, the old elements first and unchanged. */
  ghost predicate Appended<T>(before: seq<T>, after: seq<T>, x: T) {
    |after| == |before| + 1 && after[..|before|] == before && after[|before|] == x
  }

  /** `after` is `before` with exactly the elements whose key equals `key(x)` replaced by `x`. */
  ghost predicate Replaced<T, K>(before: seq<T>, after: seq<T>, key: T -> K, x: T) {
    |after| == |before| &&
    forall i :: 0 <= i < |before| ==> after[i] == if key(before[i]) == key(x) then x else before[i]
  }

  /** `after` is `before` without the elements whose key is `k`, the rest kept in order. */
  ghost predicate Removed<T(!new), K>(before: seq<T>, after: seq<T>, key: T -> K, k: K) {
    Lists.IsSubsequence(after, before) &&
    forall y :: y in after <==> y in before && key(y) != k
  }

  /** `appReducer(state, action)`. */
  function Reduce(state: AppState, action: Action): AppState {
    match action
    case SetUser(u) => state.(currentUser := u)
    case AddProduct(p) =>
      state.(products := state.products + [p])
    case UpdateProduct(p) => state.(products := Lists.ReplaceByKey(state.products, ProductId, p))
    case DeleteProduct(id) => state.(products := Lists.RemoveByKey(state.products, ProductId, id))
    case AddCategory(c) =>
      state.(categories := state.categories + [c])
    case UpdateCategory(c) => state.(categories := Lists.ReplaceByKey(state.categories, CategoryId, c))
    case DeleteCategory(id) => state.(categories := Lists.RemoveByKey(state.categories, CategoryId, id))
    case AddTable(t) =>
      state.(tables := state.tables + [t])
    case UpdateTable(t) => state.(tables := Lists.ReplaceByKey(state.tables, TableId, t))
    case DeleteTable(id) => state.(tables := Lists.RemoveByKey(state.tables, TableId, id))
    case AddOrder(o) =>
      state.(orders := state.orders + [o])
    case UpdateOrder(o) => state.(orders := Lists.ReplaceByKey(state.orders, OrderId, o))
    case AddUser(u) =>
      state.(users := state.users + [u])
    case UpdateUser(u) => state.(users := Lists.ReplaceByKey(state.users, UserId, u))
    case LoadInitialData(p) => Merge(state, p)
    case Unknown(_) => state
  }

  /** `{ ...state, ...patch }`: every field the patch carries wins, the others are kept. */
  function Merge(state: AppState, p: StatePatch): (next: AppState)
    ensures next.currentUser == if p.currentUser.Some? then p.currentUser.value else state.currentUser
    ensures next.products == if p.products.Some? then p.products.value else state.products
    ensures next.categories == if p.categories.Some? then p.categories.value else state.categories
    ensures next.tables == if p.tables.Some? then p.tables.value else state.tables
    ensures next.orders == if p.orders.Some? then p.orders.value else state.orders
    ensures next.users == if p.users.Some? then p.users.value else state.users
  {
    AppState(
      p.currentUser.GetOr(state.currentUser),
      p.products.GetOr(state.products),
      p.categories.GetOr(state.categories),
      p.tables.GetOr(state.tables),
      p.orders.GetOr(state.orders),
      p.users.GetOr(state.users))
  }

  /** Every `ADD_*` action appends its payload to its own collection. */
  lemma AddAppends(state: AppState, action: Action)
    requires action.AddProduct? || action.AddCategory? || action.AddTable? ||
             action.AddOrder? || action.AddUser?
    ensures var next := Reduce(state, action);
            && (action.AddProduct? ==> Appended(state.products, next.products, action.product))
            && (action.AddCategory? ==> Appended(state.categories, next.categories, action.category))
            && (action.AddTable? ==> Appended(state.tables, next.tables, action.table))
            && (action.AddOrder? ==> Appended(state.orders, next.orders, action.order))
            && (action.AddUser? ==> Appended(state.users, next.users, action.user))
  {
    match action
    case AddProduct(p) => assert (state.products + [p])[..|state.products|] == state.products;
    case AddCategory(c) => assert (state.categories + [c])[..|state.categories|] == state.categories;
    case AddTable(t) => assert (state.tables + [t])[..|state.tables|] == state.tables;
    case AddOrder(o) => assert (state.orders + [o])[..|state.orders|] == state.orders;
    case AddUser(u) => assert (state.users + [u])[..|state.users|] == state.users;
  }

  /** Every `UPDATE_*` action keeps the length and replaces exactly the elements with the payload's id. */
  lemma UpdateReplaces(state: AppState, action: Action)
    requires action.UpdateProduct? || action.UpdateCategory? || action.UpdateTable? ||
             action.UpdateOrder? || action.UpdateUser?
    ensures var next := Reduce(state, action);
            && (action.UpdateProduct? ==> Replaced(state.products, next.products, ProductId, action.product))
            && (action.UpdateCategory? ==> Replaced(state.categories, next.categories, CategoryId, action.category))
            && (action.UpdateTable? ==> Replaced(state.tables, next.tables, TableId, action.table))
            && (action.UpdateOrder? ==> Replaced(state.orders, next.orders, OrderId, action.order))
            && (action.UpdateUser? ==> Replaced(state.users, next.users, UserId, action.user))
  {
  }

  /** Every `DELETE_*` action removes exactly the elements with that id and keeps the rest in order. */
  lemma DeleteRemoves(state: AppState, action: Action)
    requires action.DeleteProduct? || action.DeleteCategory? || action.DeleteTable?
    ensures var next := Reduce(state, action);
            && (action.DeleteProduct? ==> Removed(state.products, next.products, ProductId, action.productId))
            && (action.DeleteCategory? ==> Removed(state.categories, next.categories, CategoryId, action.categoryId))
            && (action.DeleteTable? ==> Removed(state.tables, next.tables, TableId, action.tableId))
  {
  }

  /** Every field an action's tag does not name keeps its value. */
  lemma Frame(state: AppState, action: Action)
    ensures forall f :: !Writes(action, f) ==> Agree(state, Reduce(state, action), f)
  {
    var next := Reduce(state, action);
    forall f | !Writes(action, f)
      ensures Agree(state, next, f)
    {
      match f
      case CurrentUserField =>
      case ProductsField =>
      case CategoriesField =>
      case TablesField =>
      case OrdersField =>
      case UsersField =>
    }
  }

  /** Every action other than a bulk load changes at most one field of the store. */
  lemma AtMostOneField(state: AppState, action: Action)
    requires !action.LoadInitialData?
    ensures forall f, g :: Writes(action, f) && Writes(action, g) ==> f == g
    ensures forall f, g ::
              (!Agree(state, Reduce(state, action), f) && !Agree(state, Reduce(state, action), g)) ==> f == g
  {
    Frame(state, action);
  }

  /** `SET_USER` changes the current user and no collection. */
  lemma SetUserChangesOnlyUser(state: AppState, u: Option<User>)
    ensures var next := Reduce(state, SetUser(u));
            && next.currentUser == u
            && next.products == state.products && next.categories == state.categories
            && next.tables == state.tables && next.orders == state.orders && next.users == state.users
  {
  }

  /** The field `f` of `next` holds the value the patch carries for it. */
  ghost predicate TakesPatch(next: AppState, p: StatePatch, f: Field)
    requires Carries(p, f)
  {
    match f
    case CurrentUserField => next.currentUser == p.currentUser.value
    case ProductsField => next.products == p.products.value
    case CategoriesField => next.categories == p.categories.value
    case TablesField => next.tables == p.tables.value
    case OrdersField => next.orders == p.orders.value
    case UsersField => next.users == p.users.value
  }

  /** `LOAD_INITIAL_DATA` overwrites exactly the fields its payload carries. */
  lemma LoadOverwritesCarried(state: AppState, p: StatePatch)
    ensures var next := Reduce(state, LoadInitialData(p));
            && (forall f :: Carries(p, f) ==> TakesPatch(next, p, f))
            && (forall f :: !Carries(p, f) ==> Agree(state, next, f))
  {
    var next := Reduce(state, LoadInitialData(p));
    Frame(state, LoadInitialData(p));
    forall f | Carries(p, f)
      ensures TakesPatch(next, p, f)
    {
      match f
      case CurrentUserField =>
      case ProductsField =>
      case CategoriesField =>
      case TablesField =>
      case OrdersField =>
      case UsersField =>
    }
  }

  /** A bulk load with an empty payload changes nothing. */
  lemma EmptyLoadIsIdentity(state: AppState)
    ensures Reduce(state, LoadInitialData(StatePatch(None, None, None, None, None, None))) == state
  {
  }

  /** An action the reducer does not recognise returns the state unchanged. */
  lemma UnknownIsIdentity(state: AppState, tag: string)
    ensures Reduce(state, Unknown(tag)) == state
  {
  }

  /** The update and delete actions are idempotent: a second application changes nothing. */
  lemma UpdateDeleteIdempotent(state: AppState, action: Action)
    requires action.UpdateProduct? || action.UpdateCategory? || action.UpdateTable? ||
             action.UpdateOrder? || action.UpdateUser? ||
             action.DeleteProduct? || action.DeleteCategory? || action.DeleteTable?
    ensures Reduce(Reduce(state, action), action) == Reduce(state, action)
  {
    match action
    case UpdateProduct(p) => Lists.ReplaceByKeyIdempotent(state.products, ProductId, p);
    case UpdateCategory(c) => Lists.ReplaceByKeyIdempotent(state.categories, CategoryId, c);
    case UpdateTable(t) => Lists.ReplaceByKeyIdempotent(state.tables, TableId, t);
    case UpdateOrder(o) => Lists.ReplaceByKeyIdempotent(state.orders, OrderId, o);
    case UpdateUser(u) => Lists.ReplaceByKeyIdempotent(state.users, UserId, u);
    case DeleteProduct(id) => Lists.RemoveByKeyIdempotent(state.products, ProductId, id);
    case DeleteCategory(id) => Lists.RemoveByKeyIdempotent(state.categories, CategoryId, id);
    case DeleteTable(id) => Lists.RemoveByKeyIdempotent(state.tables, TableId, id);
  }
}
