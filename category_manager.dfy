/**
 * The category tree of the product screens (project/src/components/Products/CategoryManager.tsx):
 * `buildTree`, which turns the flat parent-pointer list into nested nodes, the
 * expand/collapse map, the parent options of the category form and the form defaults of
 * `handleAddNew`.
 */
module CategoryManager {
  import opened Wrappers
  import opened Domain
  import Lists

  /** A tree node: the category record with the `children` field `buildTree` adds. */
  datatype Node = Node(item: Category, children: seq<Node>)

  function ItemOf(n: Node): Category { n.item }

  /** The records of a list of nodes, in order. */
  function Items(nodes: seq<Node>): (r: seq<Category>)
    ensures |r| == |nodes|
    ensures forall i :: 0 <= i < |nodes| ==> r[i] == nodes[i].item
  {
    seq(|nodes|, i requires 0 <= i < |nodes| => ItemOf(nodes[i]))
  }

  /** The filter `item => item.parentId === parentId`, a strict comparison. */
  function ParentIs(parent: ParentRef): Category -> bool {
    (c: Category) => c.parentId == parent
  }

  /**
   * `buildTree(items, parentId)`: the items whose parent pointer is `parent`, in list order,
   * each with the tree below it. The recursion is bounded by `fuel`.
   */
  function Build(items: seq<Category>, parent: ParentRef, fuel: nat): (r: seq<Node>)
    ensures fuel == 0 ==> r == []
    ensures fuel > 0 ==> Items(r) == Lists.Filter(items, ParentIs(parent))
    decreases fuel
  {
    if fuel == 0 then []
    else
      var kids := Lists.Filter(items, ParentIs(parent));
      seq(|kids|, i requires 0 <= i < |kids| => Node(kids[i], Build(items, ParentId(kids[i].id), fuel - 1)))
  }

  /** `buildTree(data)`: the forest below the `null` parent, with one level of fuel per item. */
  function BuildTree(items: seq<Category>): seq<Node> {
    Build(items, NullParent, |items|)
  }

  /**
   * The top level of the tree is exactly the items whose `parentId` is `null`, in list
   * order; an item whose `parentId` is missing is not a root.
   */
  lemma RootsAreNullParent(items: seq<Category>)
    ensures Lists.IsSubsequence(Items(BuildTree(items)), items)
    ensures forall c :: c in Items(BuildTree(items)) <==> c in items && c.parentId == NullParent
    ensures forall c :: c in items && c.parentId == NoParent ==> c !in Items(BuildTree(items))
  {
    if items == [] {
      assert Items(BuildTree(items)) == [];
    }
  }

  /**
   * Every node below parent `parent` holds one of the items, points at `parent`, and its
   * children hold items pointing at the node's own id, all the way down.
   */
  ghost predicate Linked(nodes: seq<Node>, items: seq<Category>, parent: ParentRef)
    decreases nodes
  {
    forall i :: 0 <= i < |nodes| ==>
      && nodes[i].item in items
      && nodes[i].item.parentId == parent
      && Linked(nodes[i].children, items, ParentId(nodes[i].item.id))
  }

  /**
   * The `i`-th node below `parent`: the `i`-th item pointing at `parent`, with its own
   * subtree.
   */
  lemma BuildNode(items: seq<Category>, parent: ParentRef, fuel: nat, i: nat)
    requires fuel > 0 && i < |Build(items, parent, fuel)|
    ensures var kids := Lists.Filter(items, ParentIs(parent));
            && i < |kids|
            && Build(items, parent, fuel)[i] == Node(kids[i], Build(items, ParentId(kids[i].id), fuel - 1))
    ensures var n := Build(items, parent, fuel)[i];
            n.item in items && n.item.parentId == parent
  {
    var kids := Lists.Filter(items, ParentIs(parent));
    assert kids[i] in kids;
  }

  lemma {:induction false} BuildLinked(items: seq<Category>, parent: ParentRef, fuel: nat)
    ensures Linked(Build(items, parent, fuel), items, parent)
    decreases fuel, 2
  {
    var r := Build(items, parent, fuel);
    forall i | 0 <= i < |r|
      ensures r[i].item in items && r[i].item.parentId == parent
      ensures Linked(r[i].children, items, ParentId(r[i].item.id))
    {
      LinkOne(items, parent, fuel, i);
    }
  }

  /** The `i`-th node below `parent` is linked, and so is the tree below it. */
  lemma {:induction false} LinkOne(items: seq<Category>, parent: ParentRef, fuel: nat, i: nat)
    requires i < |Build(items, parent, fuel)|
    ensures var n := Build(items, parent, fuel)[i];
            n.item in items && n.item.parentId == parent && Linked(n.children, items, ParentId(n.item.id))
    decreases fuel, 1
  {
    BuildAt(items, parent, fuel, i);
    SubtreeLinked(items, Build(items, parent, fuel)[i], fuel - 1);
  }

  lemma {:induction false} SubtreeLinked(items: seq<Category>, n: Node, fuel: nat)
    requires n.children == Build(items, ParentId(n.item.id), fuel)
    ensures Linked(n.children, items, ParentId(n.item.id))
    decreases fuel, 3
  {
    BuildLinked(items, ParentId(n.item.id), fuel);
  }

  /** The `i`-th node below `parent`, stated without the filter it comes from. */
  lemma BuildAt(items: seq<Category>, parent: ParentRef, fuel: nat, i: nat)
    requires i < |Build(items, parent, fuel)|
    ensures var n := Build(items, parent, fuel)[i];
            && fuel > 0 && n.item in items && n.item.parentId == parent
            && n.children == Build(items, ParentId(n.item.id), fuel - 1)
  {
    BuildNode(items, parent, fuel, i);
  }

  /** Each node's children are the items pointing at it, in list order, when depth remains. */
  lemma ChildrenInOrder(items: seq<Category>, parent: ParentRef, fuel: nat, i: nat)
    requires fuel > 1 && i < |Build(items, parent, fuel)|
    ensures var n := Build(items, parent, fuel)[i];
            Items(n.children) == Lists.Filter(items, ParentIs(ParentId(n.item.id)))
  {
    var kids := Lists.Filter(items, ParentIs(parent));
    assert Items(Build(items, parent, fuel))[i] == kids[i];
  }

  /** `c` is the record of some node of the forest, at any depth. */
  ghost predicate InForest(nodes: seq<Node>, c: Category)
    decreases nodes
  {
    exists i :: 0 <= i < |nodes| && (nodes[i].item == c || InForest(nodes[i].children, c))
  }

  /**
   * `path` is a parent chain of items: its first item points at `parent` and each later
   * item points at the id of the one before.
   */
  ghost predicate ChainFrom(items: seq<Category>, parent: ParentRef, path: seq<Category>) {
    && |path| > 0
    && (forall j :: 0 <= j < |path| ==> path[j] in items)
    && path[0].parentId == parent
    && (forall j :: 1 <= j < |path| ==> path[j].parentId == ParentId(path[j - 1].id))
  }

  lemma ChainTail(items: seq<Category>, parent: ParentRef, path: seq<Category>)
    requires ChainFrom(items, parent, path) && |path| > 1
    ensures ChainFrom(items, ParentId(path[0].id), path[1..])
  {
  }

  /** Every record in a linked forest is reached by a parent chain from `parent`. */
  lemma {:induction false} LinkedSound(nodes: seq<Node>, items: seq<Category>, parent: ParentRef, c: Category)
    requires Linked(nodes, items, parent) && InForest(nodes, c)
    ensures exists path :: ChainFrom(items, parent, path) && path[|path| - 1] == c
    decreases nodes
  {
    var i :| 0 <= i < |nodes| && (nodes[i].item == c || InForest(nodes[i].children, c));
    var n := nodes[i];
    if n.item == c {
      assert ChainFrom(items, parent, [c]);
    } else {
      LinkedSound(n.children, items, ParentId(n.item.id), c);
      var path :| ChainFrom(items, ParentId(n.item.id), path) && path[|path| - 1] == c;
      var longer := [n.item] + path;
      assert longer[1..] == path;
      assert ChainFrom(items, parent, longer);
    }
  }

  /** Soundness: every record in the forest is reached by a parent chain from `parent`. */
  lemma BuildSound(items: seq<Category>, parent: ParentRef, fuel: nat, c: Category)
    requires InForest(Build(items, parent, fuel), c)
    ensures exists path :: ChainFrom(items, parent, path) && path[|path| - 1] == c
  {
    BuildLinked(items, parent, fuel);
    LinkedSound(Build(items, parent, fuel), items, parent, c);
  }

  /**
   * While depth remains, every item pointing at `parent` heads one of the nodes, whose
   * children cover the items pointing at it in turn.
   */
  ghost predicate Covers(nodes: seq<Node>, items: seq<Category>, parent: ParentRef, fuel: nat)
    decreases fuel
  {
    fuel > 0 ==>
      forall c :: c in items && c.parentId == parent ==>
        exists i :: 0 <= i < |nodes| && nodes[i].item == c && Covers(nodes[i].children, items, ParentId(c.id), fuel - 1)
  }

  /** An item pointing at `parent` heads one of the nodes built below `parent`. */
  lemma BuildHead(items: seq<Category>, parent: ParentRef, fuel: nat, c: Category)
    requires fuel > 0 && c in items && c.parentId == parent
    ensures exists i :: 0 <= i < |Build(items, parent, fuel)| &&
                        Build(items, parent, fuel)[i] == Node(c, Build(items, ParentId(c.id), fuel - 1))
  {
    var kids := Lists.Filter(items, ParentIs(parent));
    assert c in kids;
    var i :| 0 <= i < |kids| && kids[i] == c;
    assert |Build(items, parent, fuel)| == |kids| by {
      assert |Items(Build(items, parent, fuel))| == |kids|;
    }
    BuildNode(items, parent, fuel, i);
  }

  lemma {:induction false} BuildCovers(items: seq<Category>, parent: ParentRef, fuel: nat)
    ensures Covers(Build(items, parent, fuel), items, parent, fuel)
    decreases fuel, 1
  {
    if fuel > 0 {
      var r := Build(items, parent, fuel);
      forall c | c in items && c.parentId == parent
        ensures exists i :: 0 <= i < |r| && r[i].item == c && Covers(r[i].children, items, ParentId(c.id), fuel - 1)
      {
        CoverOne(items, parent, fuel, c);
      }
    }
  }

  /** The node an item pointing at `parent` heads covers the items below it. */
  lemma {:induction false} CoverOne(items: seq<Category>, parent: ParentRef, fuel: nat, c: Category)
    requires fuel > 0 && c in items && c.parentId == parent
    ensures exists i :: 0 <= i < |Build(items, parent, fuel)| && Build(items, parent, fuel)[i].item == c &&
                        Covers(Build(items, parent, fuel)[i].children, items, ParentId(c.id), fuel - 1)
    decreases fuel, 0
  {
    BuildHead(items, parent, fuel, c);
    BuildCovers(items, ParentId(c.id), fuel - 1);
  }

  /** The end of every chain no longer than `fuel` is in a covering forest. */
  lemma {:induction false} CoversComplete(nodes: seq<Node>, items: seq<Category>, parent: ParentRef, fuel: nat,
                                          path: seq<Category>)
    requires Covers(nodes, items, parent, fuel)
    requires ChainFrom(items, parent, path) && |path| <= fuel
    ensures InForest(nodes, path[|path| - 1])
    decreases |path|
  {
    assert path[0] in items;
    var i :| 0 <= i < |nodes| && nodes[i].item == path[0] &&
             Covers(nodes[i].children, items, ParentId(path[0].id), fuel - 1);
    if |path| > 1 {
      ChainTail(items, parent, path);
      CoversComplete(nodes[i].children, items, ParentId(path[0].id), fuel - 1, path[1..]);
      assert InForest(nodes[i].children, path[|path| - 1]);
    }
  }

  /** Completeness up to the depth bound: the end of every chain no longer than `fuel` is in the forest. */
  lemma BuildComplete(items: seq<Category>, parent: ParentRef, fuel: nat, path: seq<Category>)
    requires ChainFrom(items, parent, path) && |path| <= fuel
    ensures InForest(Build(items, parent, fuel), path[|path| - 1])
  {
    BuildCovers(items, parent, fuel);
    CoversComplete(Build(items, parent, fuel), items, parent, fuel, path);
  }

  /** No two items share an id. */
  ghost predicate DistinctIds(items: seq<Category>) {
    forall a, b :: 0 <= a < b < |items| ==> items[a].id != items[b].id
  }

  /** With distinct ids a chain from the `null` parent never visits an item twice. */
  lemma {:induction false} ChainNoRepeat(items: seq<Category>, path: seq<Category>, i: nat, j: nat)
    requires DistinctIds(items) && ChainFrom(items, NullParent, path)
    requires i < j < |path|
    ensures path[i] != path[j]
    decreases i
  {
    if i == 0 {
      assert path[j].parentId == ParentId(path[j - 1].id);
    } else if path[i] == path[j] {
      ChainNoRepeat(items, path, i - 1, j - 1);
      assert false;
    }
  }

  /** A list of distinct elements drawn from `items` is no longer than `items`. */
  lemma {:induction false} DistinctNoLonger<T>(path: seq<T>, items: seq<T>)
    requires Lists.Distinct(path) && forall j :: 0 <= j < |path| ==> path[j] in items
    ensures |path| <= |items|
    decreases |items|
  {
    if path != [] {
      assert path[0] in items;
      var x := items[0];
      if x in path {
        var k :| 0 <= k < |path| && path[k] == x;
        var rest := path[..k] + path[k + 1..];
        assert forall j :: 0 <= j < |rest| ==> rest[j] == if j < k then path[j] else path[j + 1];
        forall j | 0 <= j < |rest|
          ensures rest[j] in items[1..]
        {
          assert rest[j] != x && rest[j] in items;
          assert items == [x] + items[1..];
        }
        DistinctNoLonger(rest, items[1..]);
      } else {
        forall j | 0 <= j < |path|
          ensures path[j] in items[1..]
        {
          assert path[j] != x && path[j] in items;
          assert items == [x] + items[1..];
        }
        DistinctNoLonger(path, items[1..]);
      }
    }
  }

  /**
   * An item is in the tree exactly when its parent chain reaches a root: every node comes
   * from such a chain, and, when ids are distinct, every such chain ends in the tree.
   */
  lemma TreeIsReachable(items: seq<Category>, c: Category)
    requires DistinctIds(items)
    ensures InForest(BuildTree(items), c) <==> exists path :: ChainFrom(items, NullParent, path) && path[|path| - 1] == c
  {
    if InForest(BuildTree(items), c) {
      BuildSound(items, NullParent, |items|, c);
    }
    if exists path :: ChainFrom(items, NullParent, path) && path[|path| - 1] == c {
      var path :| ChainFrom(items, NullParent, path) && path[|path| - 1] == c;
      forall i, j | 0 <= i < j < |path|
        ensures path[i] != path[j]
      {
        ChainNoRepeat(items, path, i, j);
      }
      DistinctNoLonger(path, items);
      BuildComplete(items, NullParent, |items|, path);
    }
  }

  /** `expandedCategories[id] ?? false`: a category with no entry is collapsed. */
  function IsExpanded(expanded: map<Id, bool>, id: Id): (b: bool)
    ensures id !in expanded ==> !b
    ensures id in expanded ==> b == expanded[id]
  {
    if id in expanded then expanded[id] else false
  }

  /** `toggleCategory(id)`: the entry for `id` becomes the negation of its value, missing read as false. */
  function Toggle(expanded: map<Id, bool>, id: Id): (r: map<Id, bool>)
    ensures r.Keys == expanded.Keys + {id}
    ensures r[id] == !IsExpanded(expanded, id)
    ensures forall k :: k in expanded && k != id ==> r[k] == expanded[k]
  {
    expanded[id := !(if id in expanded then expanded[id] else false)]
  }

  /** Toggling flips the category's expansion and leaves every other category as it was. */
  lemma ToggleFlips(expanded: map<Id, bool>, id: Id)
    ensures IsExpanded(Toggle(expanded, id), id) == !IsExpanded(expanded, id)
    ensures forall k :: k != id ==> IsExpanded(Toggle(expanded, id), k) == IsExpanded(expanded, k)
  {
  }

  /** Toggling twice restores the category's expansion (the entry may now be explicit). */
  lemma ToggleTwice(expanded: map<Id, bool>, id: Id)
    ensures forall k :: IsExpanded(Toggle(Toggle(expanded, id), id), k) == IsExpanded(expanded, k)
    ensures id in expanded ==> Toggle(Toggle(expanded, id), id) == expanded
  {
  }

  /** The category form's state (`Partial<CategoryFormData>`): every field may be absent. */
  datatype CategoryForm = CategoryForm(
    id: Option<Id>,
    name: Option<string>,
    description: Option<string>,
    isActive: Option<bool>,
    parentId: Option<Id>)

  /** `currentCategory?.id` is truthy: a form is open and carries a non-empty id. */
  predicate EditsId(current: Option<CategoryForm>) {
    current.Some? && current.value.id.Some? && current.value.id.value != ""
  }

  function OfferedFor(current: Option<CategoryForm>): Node -> bool {
    (n: Node) => !EditsId(current) || n.item.id != current.value.id.value
  }

  /**
   * The parent options of the form: the top-level categories of the tree, less the one
   * being edited when the form carries an id.
   */
  function ParentOptions(categories: seq<Node>, current: Option<CategoryForm>): (r: seq<Node>)
    ensures Lists.IsSubsequence(r, categories)
    ensures EditsId(current) ==>
              forall n :: n in r <==> n in categories && n.item.id != current.value.id.value
    ensures !EditsId(current) ==> r == categories
  {
    var keep := OfferedFor(current);
    if !EditsId(current) then
      Lists.FilterKeepsAll(categories, keep);
      Lists.Filter(categories, keep)
    else
      Lists.Filter(categories, keep)
  }

  /** `handleAddNew(parentId)`: an empty name and description, active, under the given parent. */
  function HandleAddNew(parentId: Option<Id>): (f: CategoryForm)
    ensures f.id.None? && f.name == Some("") && f.description == Some("")
    ensures f.isActive == Some(true) && f.parentId == parentId
  {
    CategoryForm(None, Some(""), Some(""), Some(true), parentId)
  }

  /** A form opened by `handleAddNew` has no id, so every top-level category is offered as parent. */
  lemma AddNewOffersEveryRoot(categories: seq<Node>, parentId: Option<Id>)
    ensures ParentOptions(categories, Some(HandleAddNew(parentId))) == categories
  {
  }

  /** A category being edited is never offered as its own parent. */
  lemma EditedNotOffered(categories: seq<Node>, current: Option<CategoryForm>)
    requires EditsId(current)
    ensures forall n :: n in ParentOptions(categories, current) ==> n.item.id != current.value.id.value
  {
  }
}
