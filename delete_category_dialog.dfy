/**
 * The admin dialog that deletes a category: deletion is allowed only for a
 * category with no products and no subcategories, and the delete action
 * does nothing otherwise.
 */
module DeleteCategoryDialog {
  import opened Categories
  import opened CategoryTable

  /** The "Subcategories" figure the dialog shows: `children?.length || 0`. */
  function SubcategoriesShown(node: CategoryNode): nat
  {
    match node.children
    case Absent => 0
    case Present(kids) => |kids|
  }

  /** `hasChildren`: the children array is present and non-empty. */
  predicate HasChildren(node: CategoryNode)
  {
    node.children.Present? && |node.children.nodes| > 0
  }

  /**
   * `canDelete = !hasProducts && !hasChildren`: no active products and no
   * subcategory shown (an absent `children` field counts as none).
   */
  predicate CanDelete(node: CategoryNode)
    ensures CanDelete(node) <==> node.category.productCount == 0 && SubcategoriesShown(node) == 0
  {
    !(node.category.productCount > 0) && !HasChildren(node)
  }

  /** What pressing "Delete Category" does. */
  datatype DeleteOutcome = NothingDone | DeleteRequested(categoryId: string)

  /** `handleDelete`: return early unless the category can be deleted, else ask the server to delete it. */
  function HandleDelete(node: CategoryNode): (r: DeleteOutcome)
    ensures r.DeleteRequested? <==> CanDelete(node)
    ensures r.DeleteRequested? ==> r.categoryId == node.category.id
  {
    if !CanDelete(node) then NothingDone else DeleteRequested(node.category.id)
  }

  /** `disabled={!canDelete || isLoading}` on the delete button. */
  function DeleteButtonDisabled(node: CategoryNode, isLoading: bool): (disabled: bool)
    ensures !CanDelete(node) ==> disabled
    ensures isLoading ==> disabled
    ensures !disabled ==> HandleDelete(node) == DeleteRequested(node.category.id)
  {
    !CanDelete(node) || isLoading
  }

  /** A deletable category is a leaf of the table: it renders as exactly one row. */
  lemma DeletableRendersOneRow(node: CategoryNode, level: nat)
    requires CanDelete(node)
    ensures Flatten(node, level) == [RowFor(node.category, level)]
    ensures Size(node) == 1
  {
    LeafRendersOneRow(node, level);
  }
}
