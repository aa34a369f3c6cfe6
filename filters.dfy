/**
 * The faceted-search helpers: the base conditions every facet query shares,
 * the clean-up of variant facet rows, and the filter suggestions built from
 * the tag and category facets.
 */
module Filters {
  import opened Common

  /** A facet entry: an id, a label, the number of matching products, and a tag's type and colour. */
  datatype FilterOption = FilterOption(id: string, name: string, count: int, optionType: Option<string>,
                                       color: Option<string>)

  // ---------------------------------------------------------------------------
  // Base conditions

  /** A condition on a product row used by the facet queries. */
  datatype BaseCondition = CategoryIs(categoryId: string) | ActiveIs(active: bool)

  /** The product columns the base conditions read. */
  datatype ProductRow = ProductRow(id: string, categoryId: Option<string>, isActive: Option<bool>)

  predicate BaseHolds(c: BaseCondition, p: ProductRow)
  {
    match c
    case CategoryIs(id) => p.categoryId == Some(id)
    case ActiveIs(b) => p.isActive == Some(b)
  }

  predicate AllBaseHold(conds: seq<BaseCondition>, p: ProductRow)
  {
    forall i :: 0 <= i < |conds| ==> BaseHolds(conds[i], p)
  }

  /** `getFilterFacets`: the category (when truthy) and activity conditions. */
  function FacetBaseConditions(categoryId: Option<string>): (r: seq<BaseCondition>)
    ensures ActiveIs(true) in r
    ensures TruthyStr(categoryId) <==> |r| == 2
  {
    if TruthyStr(categoryId) then [CategoryIs(categoryId.value), ActiveIs(true)] else [ActiveIs(true)]
  }

  /** `getFilterSuggestions`: activity first, then the category when truthy. */
  function SuggestionBaseConditions(categoryId: Option<string>): (r: seq<BaseCondition>)
    ensures |r| > 0 && r[0] == ActiveIs(true)
    ensures TruthyStr(categoryId) <==> |r| == 2
  {
    [ActiveIs(true)] + (if TruthyStr(categoryId) then [CategoryIs(categoryId.value)] else [])
  }

  /** Both base condition lists admit exactly the active products, of the category when one is given. */
  lemma BaseConditionsMeaning(categoryId: Option<string>, p: ProductRow)
    ensures AllBaseHold(FacetBaseConditions(categoryId), p) <==>
            p.isActive == Some(true) && (TruthyStr(categoryId) ==> p.categoryId == categoryId)
    ensures AllBaseHold(SuggestionBaseConditions(categoryId), p) <==> AllBaseHold(FacetBaseConditions(categoryId), p)
  {
    var f := FacetBaseConditions(categoryId);
    var s := SuggestionBaseConditions(categoryId);
    assert BaseHolds(f[|f| - 1], p) <==> p.isActive == Some(true);
    assert BaseHolds(s[0], p) <==> p.isActive == Some(true);
    if TruthyStr(categoryId) {
      assert BaseHolds(f[0], p) <==> p.categoryId == categoryId;
      assert BaseHolds(s[1], p) <==> p.categoryId == categoryId;
    }
  }

  // ---------------------------------------------------------------------------
  // Variant facets

  /** A row of the variant facet query: a flavour, size or type value and its product count. */
  datatype VariantFacetRow = VariantFacetRow(value: Option<string>, count: int)

  function VariantOption(row: VariantFacetRow): FilterOption
  {
    FilterOption(row.value.GetOr(""), row.value.GetOr(""), row.count, None, None)
  }

  /** `getVariantFacets` after the query: drop falsy values, and use the value as both id and name. */
  function VariantFacets(rows: seq<VariantFacetRow>): (r: seq<FilterOption>)
    ensures |r| <= |rows|
    ensures forall o :: o in r ==> o.id == o.name && o.id != "" && o.optionType.None? && o.color.None?
    ensures forall o :: o in r <==> exists i :: 0 <= i < |rows| && TruthyStr(rows[i].value) && o == VariantOption(rows[i])
  {
    if |rows| == 0 then []
    else
      var rest := VariantFacets(rows[1..]);
      assert forall i :: 1 <= i < |rows| ==> rows[i] == rows[1..][i - 1];
      assert forall o :: o in rest ==> exists i :: 1 <= i < |rows| && TruthyStr(rows[i].value) && o == VariantOption(rows[i]);
      (if TruthyStr(rows[0].value) then [VariantOption(rows[0])] else []) + rest
  }

  /** The facets keep the order and counts of the rows whose value is truthy. */
  lemma {:induction false} VariantFacetsOrder(rows: seq<VariantFacetRow>, row: VariantFacetRow)
    ensures VariantFacets(rows + [row]) ==
            VariantFacets(rows) + (if TruthyStr(row.value) then [FilterOption(row.value.value, row.value.value, row.count, None, None)] else [])
  {
    if |rows| == 0 {
      assert [row][1..] == [];
    } else {
      assert (rows + [row])[1..] == rows[1..] + [row];
      VariantFacetsOrder(rows[1..], row);
    }
  }

  // ---------------------------------------------------------------------------
  // Suggestions

  datatype Suggestions = Suggestions(suggestedTags: seq<FilterOption>, relatedCategories: seq<FilterOption>)

  function NotSelected(tagIds: seq<string>): FilterOption -> bool
  {
    (tag: FilterOption) => tag.id !in tagIds
  }

  /** The tag facets without the selected tags (all of them when no tag list is given), in facet order. */
  function UnselectedTags(tagIds: Option<seq<string>>, tagFacets: seq<FilterOption>): (r: seq<FilterOption>)
    ensures tagIds.None? ==> r == tagFacets
    ensures forall t :: t in r <==> t in tagFacets && (tagIds.Some? ==> t.id !in tagIds.value)
  {
    if tagIds.Some? then Filter(NotSelected(tagIds.value), tagFacets) else tagFacets
  }

  /**
   * `getFilterSuggestions`: the tag facets of the matching products without
   * the selected tags, and the category facets unless a category is already
   * chosen, each cut to `limit` (5 when not given). `tagFacets` and
   * `categoryFacets` are what the two facet queries return under
   * `SuggestionBaseConditions(categoryId)`; `allergenFreeIds` is accepted and
   * never read.
   */
  function GetFilterSuggestions(categoryId: Option<string>, tagIds: Option<seq<string>>,
                                allergenFreeIds: Option<seq<string>>, limit: Option<int>,
                                tagFacets: seq<FilterOption>, categoryFacets: seq<FilterOption>): (r: Suggestions)
    ensures tagIds.Some? ==> forall t :: t in r.suggestedTags ==> t.id !in tagIds.value
    ensures forall t :: t in r.suggestedTags ==> t in tagFacets
    ensures forall c :: c in r.relatedCategories ==> c in categoryFacets
    ensures 0 <= limit.GetOr(5) ==> |r.suggestedTags| <= limit.GetOr(5) && |r.relatedCategories| <= limit.GetOr(5)
    ensures TruthyStr(categoryId) ==> r.relatedCategories == []
    // The suggestions are the leading unselected tags and the leading category facets, as many as the limit allows.
    ensures |r.suggestedTags| <= |UnselectedTags(tagIds, tagFacets)| && |r.relatedCategories| <= |categoryFacets|
    ensures r.suggestedTags == UnselectedTags(tagIds, tagFacets)[..|r.suggestedTags|]
    ensures 0 <= limit.GetOr(5) ==>
              |r.suggestedTags| == if limit.GetOr(5) < |UnselectedTags(tagIds, tagFacets)| then limit.GetOr(5)
                                   else |UnselectedTags(tagIds, tagFacets)|
    ensures !TruthyStr(categoryId) ==> r.relatedCategories == categoryFacets[..|r.relatedCategories|]
    ensures !TruthyStr(categoryId) && 0 <= limit.GetOr(5) ==>
              |r.relatedCategories| == if limit.GetOr(5) < |categoryFacets| then limit.GetOr(5) else |categoryFacets|
  {
    var filtered := UnselectedTags(tagIds, tagFacets);
    var related := if TruthyStr(categoryId) then [] else categoryFacets;
    var n := limit.GetOr(5);
    var tagsOut := SliceTo(filtered, n);
    assert forall t :: t in tagsOut ==> t in filtered;
    var catsOut := SliceTo(related, n);
    assert forall c :: c in catsOut ==> c in related;
    Suggestions(tagsOut, catsOut)
  }

  /** The allergen-free selection has no effect on the suggestions. */
  lemma AllergenFreeIgnored(categoryId: Option<string>, tagIds: Option<seq<string>>, a: Option<seq<string>>,
                            b: Option<seq<string>>, limit: Option<int>, tagFacets: seq<FilterOption>,
                            categoryFacets: seq<FilterOption>)
    ensures GetFilterSuggestions(categoryId, tagIds, a, limit, tagFacets, categoryFacets)
            == GetFilterSuggestions(categoryId, tagIds, b, limit, tagFacets, categoryFacets)
  {
  }

  /** Without a selection and within the limit, every tag facet is suggested, in order. */
  lemma NoSelectionSuggestsAllTags(categoryId: Option<string>, limit: int, tagFacets: seq<FilterOption>,
                                   categoryFacets: seq<FilterOption>)
    requires |tagFacets| <= limit
    ensures GetFilterSuggestions(categoryId, None, None, Some(limit), tagFacets, categoryFacets).suggestedTags == tagFacets
  {
  }
}
