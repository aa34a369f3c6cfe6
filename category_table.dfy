/**
 * The admin category table: each category of the hierarchy becomes one table
 * row, followed by the rows of its children one level deeper, indented by
 * 24 pixels per level.
 */
module CategoryTable {
  import opened Common
  import opened Categories

  /** A category as the hierarchy query hands it to the table, with its optional `children`. */
  datatype CategoryNode = CategoryNode(category: Category, children: Children)

  /** The optional `children` array of a node: absent, or present (possibly empty). */
  datatype Children = Absent | Present(nodes: seq<CategoryNode>)

  /** One rendered table row: the cells shown, its nesting level and the left padding in pixels. */
  datatype Row =
    | CategoryRow(categoryId: string, name: string, slug: string, description: string,
                  productCount: nat, isActive: bool, level: nat, paddingLeft: nat)
    | EmptyRow

  /** The row of one category at a level (`category.description || "No description"`). */
  function RowFor(c: Category, level: nat): (r: Row)
    ensures r.CategoryRow? && r.categoryId == c.id && r.level == level && r.paddingLeft == 24 * level
  {
    CategoryRow(c.id, c.name, c.slug, OrStr(c.description, "No description"), c.productCount, c.isActive, level, level * 24)
  }

  function Kids(node: CategoryNode): seq<CategoryNode>
  {
    match node.children
    case Absent => []
    case Present(nodes) => nodes
  }

  /** Number of categories in a subtree. */
  function Size(node: CategoryNode): nat
    decreases node, 1
  {
    match node.children
    case Absent => 1
    case Present(kids) => 1 + SizeAll(kids)
  }

  function SizeAll(nodes: seq<CategoryNode>): nat
    decreases nodes, 0
  {
    if |nodes| == 0 then 0 else SizeAll(nodes[..|nodes| - 1]) + Size(nodes[|nodes| - 1])
  }

  /** Ids of the categories in a subtree. */
  function SubtreeIds(node: CategoryNode): set<string>
    decreases node, 1
  {
    match node.children
    case Absent => {node.category.id}
    case Present(kids) => {node.category.id} + SubtreeIdsAll(kids)
  }

  function SubtreeIdsAll(nodes: seq<CategoryNode>): set<string>
    decreases nodes, 0
  {
    if |nodes| == 0 then {} else SubtreeIdsAll(nodes[..|nodes| - 1]) + SubtreeIds(nodes[|nodes| - 1])
  }

  /**
   * The rows of a subtree in pre-order: the category's own row first, then,
   * child by child in stored order, the rows of each child one level deeper.
   */
  function Flatten(node: CategoryNode, level: nat): (rows: seq<Row>)
    ensures |rows| == Size(node)
    ensures rows[0] == RowFor(node.category, level)
    ensures forall i :: 0 <= i < |rows| ==>
              rows[i].CategoryRow? && rows[i].level >= level
              && rows[i].paddingLeft == 24 * rows[i].level && rows[i].categoryId in SubtreeIds(node)
    ensures forall i :: 0 < i < |rows| ==> rows[i].level > level && rows[i].categoryId in SubtreeIdsAll(Kids(node))
    decreases node, 1
  {
    match node.children
    case Absent => [RowFor(node.category, level)]
    case Present(kids) => [RowFor(node.category, level)] + FlattenAll(kids, level + 1)
  }

  function FlattenAll(nodes: seq<CategoryNode>, level: nat): (rows: seq<Row>)
    ensures |rows| == SizeAll(nodes)
    ensures forall i :: 0 <= i < |rows| ==>
              rows[i].CategoryRow? && rows[i].level >= level
              && rows[i].paddingLeft == 24 * rows[i].level && rows[i].categoryId in SubtreeIdsAll(nodes)
    decreases nodes, 0
  {
    if |nodes| == 0 then []
    else FlattenAll(nodes[..|nodes| - 1], level) + Flatten(nodes[|nodes| - 1], level)
  }

  /** `renderCategoryRow(category, level)`: push the own row, then the rows of each child at `level + 1`. */
  method RenderCategoryRow(node: CategoryNode, level: nat) returns (rows: seq<Row>)
    ensures rows == Flatten(node, level)
    decreases node
  {
    rows := [RowFor(node.category, level)];
    if node.children.Present? && |node.children.nodes| > 0 {
      var kids := node.children.nodes;
      for k := 0 to |kids|
        invariant rows == [RowFor(node.category, level)] + FlattenAll(kids[..k], level + 1)
      {
        var childRows := RenderCategoryRow(kids[k], level + 1);
        assert kids[..k + 1][..k] == kids[..k];
        rows := rows + childRows;
      }
      assert kids[..|kids|] == kids;
    }
  }

  /** The table body: one placeholder row for an empty list, else every root's rows at level 0. */
  function TableRows(categories: seq<CategoryNode>): (rows: seq<Row>)
    ensures |categories| == 0 ==> rows == [EmptyRow]
    ensures |categories| > 0 ==> |rows| == SizeAll(categories) && forall i :: 0 <= i < |rows| ==> rows[i].CategoryRow?
  {
    if |categories| == 0 then [EmptyRow] else FlattenAll(categories, 0)
  }

  /** `categories.length === 0 ? <placeholder> : categories.flatMap(c => renderCategoryRow(c))`. */
  method TableBody(categories: seq<CategoryNode>) returns (rows: seq<Row>)
    ensures rows == TableRows(categories)
  {
    if |categories| == 0 {
      rows := [EmptyRow];
    } else {
      rows := [];
      for k := 0 to |categories|
        invariant rows == FlattenAll(categories[..k], 0)
      {
        var r := RenderCategoryRow(categories[k], 0);
        assert categories[..k + 1][..k] == categories[..k];
        rows := rows + r;
      }
      assert categories[..|categories|] == categories;
    }
  }

  /** The rows at a given level, in order. */
  function RowsAt(rows: seq<Row>, level: nat): seq<Row>
  {
    if |rows| == 0 then []
    else RowsAt(rows[..|rows| - 1], level) + (if rows[|rows| - 1].CategoryRow? && rows[|rows| - 1].level == level then [rows[|rows| - 1]] else [])
  }

  lemma {:induction false} RowsAtAppend(a: seq<Row>, b: seq<Row>, level: nat)
    ensures RowsAt(a + b, level) == RowsAt(a, level) + RowsAt(b, level)
    decreases |b|
  {
    if |b| == 0 {
      assert a + b == a;
    } else {
      RowsAtAppend(a, b[..|b| - 1], level);
      assert (a + b)[..|a + b| - 1] == a + b[..|b| - 1];
      assert (a + b)[|a + b| - 1] == b[|b| - 1];
    }
  }

  lemma {:induction false} RowsAtDeeperEmpty(rows: seq<Row>, level: nat)
    requires forall i :: 0 <= i < |rows| ==> rows[i].CategoryRow? && rows[i].level > level
    ensures RowsAt(rows, level) == []
  {
    if |rows| > 0 {
      RowsAtDeeperEmpty(rows[..|rows| - 1], level);
    }
  }

  /** Within its own subtree, a category is the only row at its level. */
  lemma OwnRowOnlyAtItsLevel(node: CategoryNode, level: nat)
    ensures RowsAt(Flatten(node, level), level) == [RowFor(node.category, level)]
  {
    var own := Flatten(node, level);
    assert own == [own[0]] + own[1..];
    RowsAtAppend([own[0]], own[1..], level);
    RowsAtDeeperEmpty(own[1..], level);
    assert [own[0]][..0] == [];
  }

  /**
   * The level-0 rows of a non-empty table are exactly the roots' own rows,
   * in the order the roots were given.
   */
  lemma {:induction false} RootsRenderAtLevelZero(categories: seq<CategoryNode>)
    ensures var top := RowsAt(FlattenAll(categories, 0), 0);
      |top| == |categories| && forall i :: 0 <= i < |categories| ==> top[i] == RowFor(categories[i].category, 0)
  {
    if |categories| > 0 {
      var init := categories[..|categories| - 1];
      var last := categories[|categories| - 1];
      RootsRenderAtLevelZero(init);
      RowsAtAppend(FlattenAll(init, 0), Flatten(last, 0), 0);
      OwnRowOnlyAtItsLevel(last, 0);
    }
  }

  /** A category without children renders as a single row. */
  lemma LeafRendersOneRow(node: CategoryNode, level: nat)
    requires node.children.Absent? || |node.children.nodes| == 0
    ensures Flatten(node, level) == [RowFor(node.category, level)]
  {
  }
}
