/**
 * The category queries of the storefront: turning the flat, ordered list of
 * categories into a tree (`buildCategoryTree`), the active-only tree served
 * to shoppers (`getCategoryTree`), and the breadcrumb walk from a category up
 * to its root (`getCategoryBreadcrumb`).  The database is an in-memory table
 * of rows in the order the query returns them.
 */
module Categories {
  import opened Common

  /** A category row together with its count of active products (`CategoryWithStats`). */
  datatype Category = Category(
    id: string,
    name: string,
    slug: string,
    description: Option<string>,
    parentId: Option<string>,
    sortOrder: int,
    isActive: bool,
    productCount: nat)

  /**
   * The object graph `buildCategoryTree` builds.  Every node object lives in
   * the id-keyed map; the `children` arrays and the root list hold references
   * to those objects, written here as the ids they are stored under.
   */
  datatype CategoryTree = CategoryTree(
    nodes: map<string, Category>,
    children: map<string, seq<string>>,
    roots: seq<string>)

  function Ids(cats: seq<Category>): set<string>
  {
    set c | c in cats :: c.id
  }

  predicate DistinctIds(cats: seq<Category>)
  {
    forall i, j :: 0 <= i < j < |cats| ==> cats[i].id != cats[j].id
  }

  predicate NoDuplicates(s: seq<string>)
  {
    forall i, j :: 0 <= i < j < |s| ==> s[i] != s[j]
  }

  /** `c` is the last record of `cats` carrying its id. */
  predicate LastWithItsId(cats: seq<Category>, c: Category)
  {
    exists j :: 0 <= j < |cats| && cats[j] == c && forall l :: j < l < |cats| ==> cats[l].id != c.id
  }

  lemma LastWithItsIdExtend(cats: seq<Category>, c: Category, x: Category)
    requires LastWithItsId(cats, x) && x.id != c.id
    ensures LastWithItsId(cats + [c], x)
  {
    var j :| 0 <= j < |cats| && cats[j] == x && forall l :: j < l < |cats| ==> cats[l].id != x.id;
    assert (cats + [c])[j] == x;
  }

  lemma LastWithItsIdAppended(cats: seq<Category>, c: Category)
    ensures LastWithItsId(cats + [c], c)
  {
    assert (cats + [c])[|cats|] == c;
  }

  /** `category.parentId` is truthy and names `p`. */
  predicate IsChildOf(c: Category, p: string)
  {
    TruthyStr(c.parentId) && c.parentId.value == p
  }

  /** Ids of the categories with a null or empty parent, in input order. */
  function RootIds(cats: seq<Category>): seq<string>
  {
    if |cats| == 0 then []
    else RootIds(cats[..|cats| - 1]) + (if TruthyStr(cats[|cats| - 1].parentId) then [] else [cats[|cats| - 1].id])
  }

  /** Ids of the categories whose parent is `p`, in input order. */
  function ChildIds(cats: seq<Category>, p: string): seq<string>
  {
    if |cats| == 0 then []
    else ChildIds(cats[..|cats| - 1], p) + (if IsChildOf(cats[|cats| - 1], p) then [cats[|cats| - 1].id] else [])
  }

  /**
   * `buildCategoryTree`: the first pass stores a copy of each record under its
   * id (a later record with the same id replaces the earlier one); the second
   * pass appends each category with a truthy parentId to its parent's
   * children when the parent is in the map, drops it otherwise, and appends
   * every other category to the roots.
   */
  method BuildCategoryTree(cats: seq<Category>) returns (tree: CategoryTree)
    ensures tree.nodes.Keys == Ids(cats)
    ensures forall k :: k in tree.nodes ==> tree.nodes[k].id == k && LastWithItsId(cats, tree.nodes[k])
    ensures tree.children.Keys == Ids(cats)
    ensures forall p :: p in tree.children ==> tree.children[p] == ChildIds(cats, p)
    ensures tree.roots == RootIds(cats)
  {
    var nodes: map<string, Category> := map[];
    var i := 0;
    while i < |cats|
      invariant 0 <= i <= |cats|
      invariant nodes.Keys == Ids(cats[..i])
      invariant forall k :: k in nodes ==> nodes[k].id == k && LastWithItsId(cats[..i], nodes[k])
    {
      var c := cats[i];
      assert cats[..i + 1] == cats[..i] + [c];
      forall k | k in nodes && k != c.id
        ensures LastWithItsId(cats[..i + 1], nodes[k])
      {
        LastWithItsIdExtend(cats[..i], c, nodes[k]);
      }
      LastWithItsIdAppended(cats[..i], c);
      nodes := nodes[c.id := c];
      i := i + 1;
    }
    assert cats[..|cats|] == cats;

    var children: map<string, seq<string>> := map p | p in nodes.Keys :: [];
    var roots: seq<string> := [];
    i := 0;
    while i < |cats|
      invariant 0 <= i <= |cats|
      invariant children.Keys == Ids(cats)
      invariant forall p :: p in children ==> children[p] == ChildIds(cats[..i], p)
      invariant roots == RootIds(cats[..i])
    {
      var c := cats[i];
      PrefixStep(cats, i);
      if c.parentId.Some? && c.parentId.value != "" {
        var pid := c.parentId.value;
        if pid in nodes {
          children := children[pid := children[pid] + [c.id]];
        }
      } else {
        roots := roots + [c.id];
      }
      i := i + 1;
    }
    assert cats[..|cats|] == cats;
    tree := CategoryTree(nodes, children, roots);
  }

  /** How the root and children lists grow by one input record. */
  lemma PrefixStep(cats: seq<Category>, i: nat)
    requires i < |cats|
    ensures RootIds(cats[..i + 1]) == RootIds(cats[..i]) + (if TruthyStr(cats[i].parentId) then [] else [cats[i].id])
    ensures forall p :: ChildIds(cats[..i + 1], p) == ChildIds(cats[..i], p) + (if IsChildOf(cats[i], p) then [cats[i].id] else [])
  {
    assert cats[..i + 1][..i] == cats[..i];
  }

  /** Rows of the table with `isActive = true`, in table order (the WHERE of `getAllCategoriesWithStats`). */
  function ActiveRows(table: seq<Category>): (r: seq<Category>)
    ensures forall c :: c in r <==> c in table && c.isActive
  {
    if |table| == 0 then []
    else ActiveRows(table[..|table| - 1]) + (if table[|table| - 1].isActive then [table[|table| - 1]] else [])
  }

  /** `getCategoryTree`: the tree built from the active categories only. */
  method GetCategoryTree(table: seq<Category>) returns (tree: CategoryTree)
    ensures tree.nodes.Keys == Ids(ActiveRows(table))
    ensures forall k :: k in tree.nodes ==> tree.nodes[k].isActive
    ensures forall p :: p in tree.children ==> tree.children[p] == ChildIds(ActiveRows(table), p)
    ensures tree.roots == RootIds(ActiveRows(table))
  {
    tree := BuildCategoryTree(ActiveRows(table));
    forall k | k in tree.nodes
      ensures tree.nodes[k].isActive
    {
      var j :| 0 <= j < |ActiveRows(table)| && ActiveRows(table)[j] == tree.nodes[k]
        && forall l :: j < l < |ActiveRows(table)| ==> ActiveRows(table)[l].id != k;
      assert tree.nodes[k] in ActiveRows(table);
    }
  }

  // ---------------------------------------------------------------------------
  // Where each category ends up

  /** Exactly the categories with a null or empty parent are roots. */
  lemma {:induction false} RootIdsExactly(cats: seq<Category>, x: string)
    ensures x in RootIds(cats) <==> exists c :: c in cats && c.id == x && !TruthyStr(c.parentId)
  {
    if |cats| > 0 {
      var init := cats[..|cats| - 1];
      RootIdsExactly(init, x);
      assert cats == init + [cats[|cats| - 1]];
      if exists c :: c in cats && c.id == x && !TruthyStr(c.parentId) {
        var c :| c in cats && c.id == x && !TruthyStr(c.parentId);
        if c != cats[|cats| - 1] {
          assert c in init;
        }
      }
    }
  }

  /** Exactly the categories whose truthy parentId is `p` are children of `p`. */
  lemma {:induction false} ChildIdsExactly(cats: seq<Category>, p: string, x: string)
    ensures x in ChildIds(cats, p) <==> exists c :: c in cats && c.id == x && IsChildOf(c, p)
  {
    if |cats| > 0 {
      var init := cats[..|cats| - 1];
      ChildIdsExactly(init, p, x);
      assert cats == init + [cats[|cats| - 1]];
      if exists c :: c in cats && c.id == x && IsChildOf(c, p) {
        var c :| c in cats && c.id == x && IsChildOf(c, p);
        if c != cats[|cats| - 1] {
          assert c in init;
        }
      }
    }
  }

  /**
   * A category whose parentId is set but names no category of the input is
   * dropped: it is neither a root nor anybody's child.
   */
  lemma MissingParentDropsCategory(cats: seq<Category>, c: Category)
    requires DistinctIds(cats) && c in cats
    requires TruthyStr(c.parentId) && c.parentId.value !in Ids(cats)
    ensures c.id !in RootIds(cats)
    ensures forall p :: p in Ids(cats) ==> c.id !in ChildIds(cats, p)
  {
    DistinctIdsAreKeys(cats);
    RootIdsExactly(cats, c.id);
    forall p | p in Ids(cats)
      ensures c.id !in ChildIds(cats, p)
    {
      ChildIdsExactly(cats, p, c.id);
    }
  }

  /** With distinct ids a record is determined by its id. */
  lemma DistinctIdsAreKeys(cats: seq<Category>)
    requires DistinctIds(cats)
    ensures forall c, d :: c in cats && d in cats && c.id == d.id ==> c == d
  {
    forall c, d | c in cats && d in cats && c.id == d.id
      ensures c == d
    {
      var i :| 0 <= i < |cats| && cats[i] == c;
      var j :| 0 <= j < |cats| && cats[j] == d;
      assert i == j;
    }
  }

  /** The id of the last record does not occur earlier. */
  lemma LastIdFresh(cats: seq<Category>)
    requires DistinctIds(cats) && |cats| > 0
    ensures cats[|cats| - 1].id !in Ids(cats[..|cats| - 1])
  {
    forall d | d in cats[..|cats| - 1]
      ensures d.id != cats[|cats| - 1].id
    {
      var j :| 0 <= j < |cats| - 1 && cats[..|cats| - 1][j] == d;
      assert cats[j] == d;
    }
  }

  /** A root list built from distinct ids repeats no id. */
  lemma {:induction false} RootIdsNoDuplicates(cats: seq<Category>)
    requires DistinctIds(cats)
    ensures NoDuplicates(RootIds(cats))
  {
    if |cats| > 0 {
      var init := cats[..|cats| - 1];
      var last := cats[|cats| - 1];
      assert DistinctIds(init);
      RootIdsNoDuplicates(init);
      LastIdFresh(cats);
      RootIdsExactly(init, last.id);
    }
  }

  /** A children list built from distinct ids repeats no id. */
  lemma {:induction false} ChildIdsNoDuplicates(cats: seq<Category>, p: string)
    requires DistinctIds(cats)
    ensures NoDuplicates(ChildIds(cats, p))
  {
    if |cats| > 0 {
      var init := cats[..|cats| - 1];
      var last := cats[|cats| - 1];
      assert DistinctIds(init);
      ChildIdsNoDuplicates(init, p);
      LastIdFresh(cats);
      ChildIdsExactly(init, p, last.id);
    }
  }

  /**
   * With distinct ids each category is placed at most once: it is never both
   * a root and a child, it is the child of at most one parent, and no list
   * holds it twice.
   */
  lemma PlacedAtMostOnce(cats: seq<Category>, x: string, p: string, q: string)
    requires DistinctIds(cats)
    ensures NoDuplicates(RootIds(cats)) && NoDuplicates(ChildIds(cats, p))
    ensures !(x in RootIds(cats) && x in ChildIds(cats, p))
    ensures x in ChildIds(cats, p) && x in ChildIds(cats, q) ==> p == q
  {
    RootIdsNoDuplicates(cats);
    ChildIdsNoDuplicates(cats, p);
    RootIdsExactly(cats, x);
    ChildIdsExactly(cats, p, x);
    ChildIdsExactly(cats, q, x);
    DistinctIdsAreKeys(cats);
  }

  // ---------------------------------------------------------------------------
  // Reachability from the roots

  /** The first row with the given id, as a `WHERE id = ? LIMIT 1` lookup returns it. */
  function Lookup(table: seq<Category>, id: string): (r: Option<Category>)
    ensures r.Some? ==> r.value in table && r.value.id == id
    ensures r.None? <==> id !in Ids(table)
  {
    if |table| == 0 then None
    else if table[0].id == id then Some(table[0])
    else Lookup(table[1..], id)
  }

  /** The parent walk from category `x` reaches a category without a parent in at most `n` steps. */
  predicate ParentWalkEnds(cats: seq<Category>, x: string, n: nat)
    decreases n
  {
    match Lookup(cats, x)
    case None => false
    case Some(c) => !TruthyStr(c.parentId) || (n > 0 && ParentWalkEnds(cats, c.parentId.value, n - 1))
  }

  /** The category `j` parent steps above `x`, if the walk gets that far. */
  function Walk(cats: seq<Category>, x: string, j: nat): Option<string>
    decreases j
  {
    if j == 0 then Some(x)
    else match Lookup(cats, x)
      case None => None
      case Some(c) => if TruthyStr(c.parentId) then Walk(cats, c.parentId.value, j - 1) else None
  }

  /** A downward path of the built tree: a root followed by successive children. */
  predicate IsTreePath(cats: seq<Category>, path: seq<string>)
  {
    |path| >= 1 && path[0] in RootIds(cats)
    && forall i :: 0 <= i < |path| - 1 ==> path[i] in Ids(cats) && path[i + 1] in ChildIds(cats, path[i])
  }

  /** Every node reachable from the roots has a parent walk that ends. */
  lemma {:induction false} TreePathWalkEnds(cats: seq<Category>, path: seq<string>)
    requires DistinctIds(cats) && IsTreePath(cats, path)
    ensures ParentWalkEnds(cats, path[|path| - 1], |path| - 1)
    decreases |path|
  {
    var x := path[|path| - 1];
    if |path| == 1 {
      RootIdsExactly(cats, x);
      DistinctIdsAreKeys(cats);
    } else {
      var init := path[..|path| - 1];
      assert IsTreePath(cats, init);
      TreePathWalkEnds(cats, init);
      ChildIdsExactly(cats, path[|path| - 2], x);
      DistinctIdsAreKeys(cats);
    }
  }

  lemma {:induction false} WalkEndsAfterSteps(cats: seq<Category>, x: string, n: nat, j: nat, y: string)
    requires ParentWalkEnds(cats, x, n) && Walk(cats, x, j) == Some(y)
    ensures j <= n && ParentWalkEnds(cats, y, n - j)
    decreases j
  {
    if j > 0 {
      var c := Lookup(cats, x).value;
      WalkEndsAfterSteps(cats, c.parentId.value, n - 1, j - 1, y);
    }
  }

  lemma {:induction false} CycleWalkNeverEnds(cats: seq<Category>, x: string, k: nat, n: nat)
    requires k >= 1 && Walk(cats, x, k) == Some(x)
    ensures !ParentWalkEnds(cats, x, n)
    decreases n
  {
    if ParentWalkEnds(cats, x, n) {
      WalkEndsAfterSteps(cats, x, n, k, x);
      CycleWalkNeverEnds(cats, x, k, n - k);
    }
  }

  /** A category on a parent cycle is not reachable from the roots. */
  lemma CycleNodeUnreachable(cats: seq<Category>, x: string, k: nat, path: seq<string>)
    requires DistinctIds(cats) && k >= 1 && Walk(cats, x, k) == Some(x)
    requires IsTreePath(cats, path)
    ensures path[|path| - 1] != x
  {
    TreePathWalkEnds(cats, path);
    if path[|path| - 1] == x {
      CycleWalkNeverEnds(cats, x, k, |path| - 1);
    }
  }

  // ---------------------------------------------------------------------------
  // The active-only tree

  lemma {:induction false} ActiveRowsDistinct(table: seq<Category>)
    requires DistinctIds(table)
    ensures DistinctIds(ActiveRows(table))
  {
    if |table| > 0 {
      var init := table[..|table| - 1];
      var last := table[|table| - 1];
      assert DistinctIds(init);
      ActiveRowsDistinct(init);
      if last.isActive {
        var a := ActiveRows(init);
        forall i | 0 <= i < |a|
          ensures a[i].id != last.id
        {
          assert a[i] in init;
          var j :| 0 <= j < |init| && init[j] == a[i];
          assert table[j].id != table[|table| - 1].id;
        }
      }
    }
  }

  /**
   * In the shopper-facing tree an active category under an inactive parent
   * disappears: the parent is filtered out before the tree is built, so the
   * child is neither a root nor anybody's child.
   */
  lemma InactiveParentHidesChild(table: seq<Category>, c: Category, parent: Category)
    requires DistinctIds(table) && c in table && parent in table
    requires c.isActive && !parent.isActive
    requires TruthyStr(c.parentId) && c.parentId.value == parent.id
    ensures c.id !in RootIds(ActiveRows(table))
    ensures forall p :: p in Ids(ActiveRows(table)) ==> c.id !in ChildIds(ActiveRows(table), p)
  {
    var act := ActiveRows(table);
    ActiveRowsDistinct(table);
    DistinctIdsAreKeys(table);
    MissingParentDropsCategory(act, c);
  }

  // ---------------------------------------------------------------------------
  // Breadcrumb

  /**
   * The breadcrumb for the id held in `key`, root first, when the parent walk
   * stops within `fuel` lookups: it stops at a falsy id or at an id with no
   * row.  `None` when the walk is longer than `fuel`.
   */
  function Ancestry(table: seq<Category>, key: Option<string>, fuel: nat): Option<seq<Category>>
    decreases fuel
  {
    if !TruthyStr(key) then Some([])
    else match Lookup(table, key.value)
      case None => Some([])
      case Some(c) =>
        if fuel == 0 then None
        else match Ancestry(table, c.parentId, fuel - 1)
          case None => None
          case Some(above) => Some(above + [c])
  }

  /**
   * `getCategoryBreadcrumb`: while the current id is truthy, look up its row,
   * stop if there is none, otherwise put the row in front and move to its
   * parent.  The source has no cycle guard, so the caller must ask about a
   * category whose parent walk ends (`fuel` bounds its length).
   */
  method GetCategoryBreadcrumb(table: seq<Category>, categoryId: string, ghost fuel: nat)
    returns (breadcrumb: seq<Category>)
    requires Ancestry(table, Some(categoryId), fuel).Some?
    ensures breadcrumb == Ancestry(table, Some(categoryId), fuel).value
  {
    breadcrumb := [];
    var currentId: Option<string> := Some(categoryId);
    ghost var f := fuel;
    while currentId.Some? && currentId.value != ""
      invariant Ancestry(table, currentId, f).Some?
      invariant Ancestry(table, Some(categoryId), fuel).value == Ancestry(table, currentId, f).value + breadcrumb
      decreases f
    {
      var row := Lookup(table, currentId.value);
      if row.None? {
        break;
      }
      breadcrumb := [row.value] + breadcrumb;
      currentId := row.value.parentId;
      f := f - 1;
    }
  }

  /** More fuel than the walk needs changes nothing. */
  lemma {:induction false} AncestryFuelIrrelevant(table: seq<Category>, key: Option<string>, n: nat, m: nat)
    requires Ancestry(table, key, n).Some? && n <= m
    ensures Ancestry(table, key, m) == Ancestry(table, key, n)
    decreases n
  {
    if TruthyStr(key) && Lookup(table, key.value).Some? {
      AncestryFuelIrrelevant(table, Lookup(table, key.value).value.parentId, n - 1, m - 1);
    }
  }

  /**
   * The breadcrumb of a known category ends with that category, is linked by
   * parentId from each entry to the next, starts at a category whose parent
   * is falsy or unknown, and holds the table rows themselves, active or not.
   */
  lemma {:induction false} BreadcrumbShape(table: seq<Category>, key: Option<string>, fuel: nat)
    requires Ancestry(table, key, fuel).Some?
    ensures var path := Ancestry(table, key, fuel).value;
      && (forall i :: 0 <= i < |path| ==> Lookup(table, path[i].id) == Some(path[i]))
      && (forall i :: 0 < i < |path| ==> path[i].parentId == Some(path[i - 1].id))
      && (|path| > 0 ==> !TruthyStr(path[0].parentId) || Lookup(table, path[0].parentId.value).None?)
      && (TruthyStr(key) && Lookup(table, key.value).Some? ==> |path| > 0 && path[|path| - 1] == Lookup(table, key.value).value)
      && (!TruthyStr(key) || Lookup(table, key.value).None? ==> path == [])
    decreases fuel
  {
    if TruthyStr(key) && Lookup(table, key.value).Some? {
      var c := Lookup(table, key.value).value;
      BreadcrumbShape(table, c.parentId, fuel - 1);
      var above := Ancestry(table, c.parentId, fuel - 1).value;
      var path := above + [c];
      assert Ancestry(table, key, fuel).value == path;
      if |above| > 0 {
        assert TruthyStr(c.parentId) && Lookup(table, c.parentId.value).Some?;
        assert path[|above|].parentId == Some(path[|above| - 1].id);
      }
    }
  }

  /** A breadcrumb for an id with no row is empty. */
  lemma UnknownIdGivesEmptyBreadcrumb(table: seq<Category>, id: string, fuel: nat)
    requires id !in Ids(table)
    ensures Ancestry(table, Some(id), fuel) == Some([])
  {
  }

  /** A category that is its own parent never finishes the walk. */
  lemma {:induction false} SelfParentNeverEnds(table: seq<Category>, id: string, fuel: nat)
    requires id != "" && Lookup(table, id).Some? && Lookup(table, id).value.parentId == Some(id)
    ensures Ancestry(table, Some(id), fuel).None?
  {
    if fuel > 0 {
      SelfParentNeverEnds(table, id, fuel - 1);
    }
  }
}
