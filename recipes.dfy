/**
 * The recipe queries, with each table as a sequence of records: the filter
 * conditions of a recipe search as predicates over one recipe row, the sort
 * key, the grouping of images and linked products onto a page of results, the
 * single-recipe and by-product lookups, and the admin delete guard and
 * duplication.
 */
module Recipes {
  import opened Common
  import opened Grouping

  /** A row of the recipes table; ingredients and instructions are JSON arrays, kept as opaque lists. */
  datatype RecipeRow = RecipeRow(id: string, title: string, description: Option<string>,
                                 ingredients: seq<string>, instructions: seq<string>,
                                 prepTime: Option<int>, cookTime: Option<int>, totalTime: Option<int>,
                                 difficulty: Option<string>, servings: Option<int>, notes: Option<string>,
                                 isPrivate: Option<bool>, createdBy: Option<string>)

  /** The recipe filters; `hasProducts` is declared but never used. */
  datatype RecipeFilters = RecipeFilters(difficulty: Option<string>, maxPrepTime: Option<real>,
                                         maxCookTime: Option<real>, maxTotalTime: Option<real>,
                                         minServings: Option<real>, maxServings: Option<real>,
                                         isPrivate: Option<bool>, createdBy: Option<string>,
                                         hasProducts: Option<bool>)

  /** No filter at all (`filters = {}`). */
  function NoFilters(): RecipeFilters
  {
    RecipeFilters(None, None, None, None, None, None, None, None, None)
  }

  // ---------------------------------------------------------------------------
  // Filter conditions

  /** One `WHERE` condition the search pushes. */
  datatype Condition =
    | TextMatches(term: string)
    | DifficultyIs(difficulty: string)
    | PrepTimeNullOrEq(minutes: real)
    | CookTimeNullOrEq(minutes: real)
    | TotalTimeNullOrEq(minutes: real)
    | ServingsNullOrEq(servings: real)
    | PrivateIs(isPrivate: bool)
    | CreatedByIs(userId: string)

  /** `column ILIKE '%term%'` on a nullable text column (the `%`/`_` wildcards inside the term are not modelled). */
  predicate ILike(column: Option<string>, term: string)
  {
    column.Some? && Contains(ToLower(column.value), ToLower(term))
  }

  /** `isNull(column) OR column = n` on a nullable integer column. */
  predicate NullOrEq(column: Option<int>, n: real)
  {
    column.None? || column.value as real == n
  }

  /** SQL meaning of one condition on one row. */
  predicate Holds(c: Condition, r: RecipeRow)
  {
    match c
    case TextMatches(term) => ILike(Some(r.title), term) || ILike(r.description, term) || ILike(r.notes, term)
    case DifficultyIs(d) => r.difficulty == Some(d)
    case PrepTimeNullOrEq(n) => NullOrEq(r.prepTime, n)
    case CookTimeNullOrEq(n) => NullOrEq(r.cookTime, n)
    case TotalTimeNullOrEq(n) => NullOrEq(r.totalTime, n)
    case ServingsNullOrEq(n) => NullOrEq(r.servings, n)
    case PrivateIs(b) => r.isPrivate == Some(b)
    case CreatedByIs(u) => r.createdBy == Some(u)
  }

  /** `and(...conditions)`, or no `WHERE` at all when there are none. */
  predicate AllHold(conds: seq<Condition>, r: RecipeRow)
  {
    All(conds, HoldsOn(r))
  }

  /** The condition test for one row, as the function `All` applies. */
  function HoldsOn(r: RecipeRow): Condition -> bool
  {
    c => Holds(c, r)
  }

  /** A case-insensitive substring hit on the title, the description or the notes. */
  predicate TextHit(r: RecipeRow, query: string)
  {
    var q := ToLower(query);
    Contains(ToLower(r.title), q)
    || (r.description.Some? && Contains(ToLower(r.description.value), q))
    || (r.notes.Some? && Contains(ToLower(r.notes.value), q))
  }

  /** A truthy query must hit the text. */
  predicate TextClause(query: Option<string>, r: RecipeRow)
  {
    TruthyStr(query) ==> TextHit(r, query.value)
  }

  /**
   * The field filters as the search applies them: a truthy difficulty or
   * creator must be equal, a given `isPrivate` must be equal, and each given
   * time or servings bound admits a null column or one EQUAL to the bound.
   */
  predicate FieldsMatch(f: RecipeFilters, r: RecipeRow)
  {
    (TruthyStr(f.difficulty) ==> r.difficulty == f.difficulty)
    && (f.maxPrepTime.Some? ==> NullOrEq(r.prepTime, f.maxPrepTime.value))
    && (f.maxCookTime.Some? ==> NullOrEq(r.cookTime, f.maxCookTime.value))
    && (f.maxTotalTime.Some? ==> NullOrEq(r.totalTime, f.maxTotalTime.value))
    && (f.minServings.Some? ==> NullOrEq(r.servings, f.minServings.value))
    && (f.maxServings.Some? ==> NullOrEq(r.servings, f.maxServings.value))
    && (f.isPrivate.Some? ==> r.isPrivate == f.isPrivate)
    && (TruthyStr(f.createdBy) ==> r.createdBy == f.createdBy)
  }

  /** Which recipes a search admits. */
  predicate RecipeMatches(f: RecipeFilters, query: Option<string>, r: RecipeRow)
  {
    TextClause(query, r) && FieldsMatch(f, r)
  }

  /** No filter that the search acts on is set. */
  predicate NoActiveFilter(f: RecipeFilters, query: Option<string>)
  {
    !TruthyStr(query) && !TruthyStr(f.difficulty) && f.maxPrepTime.None? && f.maxCookTime.None?
    && f.maxTotalTime.None? && f.minServings.None? && f.maxServings.None? && f.isPrivate.None?
    && !TruthyStr(f.createdBy)
  }

  /** The text condition, pushed when the query is truthy. */
  function TextCondition(query: Option<string>): seq<Condition>
  {
    When(TruthyStr(query), TextMatches(ToLower(query.GetOr(""))))
  }

  /** The conditions the search pushes, in the source's order: the text condition, then the field conditions. */
  function FilterConditions(f: RecipeFilters, query: Option<string>): seq<Condition>
  {
    TextCondition(query) + FieldConditions(f)
  }

  /** The conditions pushed for the field filters. */
  function FieldConditions(f: RecipeFilters): seq<Condition>
  {
    DifficultyAndTimeConditions(f) + ServingsAndOwnerConditions(f)
  }

  /** The difficulty and the three time conditions, in the source's order. */
  function DifficultyAndTimeConditions(f: RecipeFilters): seq<Condition>
  {
    When(TruthyStr(f.difficulty), DifficultyIs(f.difficulty.GetOr("")))
    + When(f.maxPrepTime.Some?, PrepTimeNullOrEq(f.maxPrepTime.GetOr(0.0)))
    + When(f.maxCookTime.Some?, CookTimeNullOrEq(f.maxCookTime.GetOr(0.0)))
    + When(f.maxTotalTime.Some?, TotalTimeNullOrEq(f.maxTotalTime.GetOr(0.0)))
  }

  /** The two servings conditions, the privacy condition and the creator condition, in the source's order. */
  function ServingsAndOwnerConditions(f: RecipeFilters): seq<Condition>
  {
    When(f.minServings.Some?, ServingsNullOrEq(f.minServings.GetOr(0.0)))
    + When(f.maxServings.Some?, ServingsNullOrEq(f.maxServings.GetOr(0.0)))
    + When(f.isPrivate.Some?, PrivateIs(f.isPrivate.GetOr(false)))
    + When(TruthyStr(f.createdBy), CreatedByIs(f.createdBy.GetOr("")))
  }

  /** The difficulty and time conditions hold exactly when those four filters admit the row. */
  lemma DifficultyAndTimeMeaning(f: RecipeFilters, r: RecipeRow)
    ensures AllHold(DifficultyAndTimeConditions(f), r) <==>
              (TruthyStr(f.difficulty) ==> r.difficulty == f.difficulty)
              && (f.maxPrepTime.Some? ==> NullOrEq(r.prepTime, f.maxPrepTime.value))
              && (f.maxCookTime.Some? ==> NullOrEq(r.cookTime, f.maxCookTime.value))
              && (f.maxTotalTime.Some? ==> NullOrEq(r.totalTime, f.maxTotalTime.value))
  {
    AllFour(When(TruthyStr(f.difficulty), DifficultyIs(f.difficulty.GetOr(""))),
            When(f.maxPrepTime.Some?, PrepTimeNullOrEq(f.maxPrepTime.GetOr(0.0))),
            When(f.maxCookTime.Some?, CookTimeNullOrEq(f.maxCookTime.GetOr(0.0))),
            When(f.maxTotalTime.Some?, TotalTimeNullOrEq(f.maxTotalTime.GetOr(0.0))), HoldsOn(r));
    AllWhen(TruthyStr(f.difficulty), DifficultyIs(f.difficulty.GetOr("")), HoldsOn(r));
    AllWhen(f.maxPrepTime.Some?, PrepTimeNullOrEq(f.maxPrepTime.GetOr(0.0)), HoldsOn(r));
    AllWhen(f.maxCookTime.Some?, CookTimeNullOrEq(f.maxCookTime.GetOr(0.0)), HoldsOn(r));
    AllWhen(f.maxTotalTime.Some?, TotalTimeNullOrEq(f.maxTotalTime.GetOr(0.0)), HoldsOn(r));
  }

  /** The servings, privacy and creator conditions hold exactly when those four filters admit the row. */
  lemma ServingsAndOwnerMeaning(f: RecipeFilters, r: RecipeRow)
    ensures AllHold(ServingsAndOwnerConditions(f), r) <==>
              (f.minServings.Some? ==> NullOrEq(r.servings, f.minServings.value))
              && (f.maxServings.Some? ==> NullOrEq(r.servings, f.maxServings.value))
              && (f.isPrivate.Some? ==> r.isPrivate == f.isPrivate)
              && (TruthyStr(f.createdBy) ==> r.createdBy == f.createdBy)
  {
    AllFour(When(f.minServings.Some?, ServingsNullOrEq(f.minServings.GetOr(0.0))),
            When(f.maxServings.Some?, ServingsNullOrEq(f.maxServings.GetOr(0.0))),
            When(f.isPrivate.Some?, PrivateIs(f.isPrivate.GetOr(false))),
            When(TruthyStr(f.createdBy), CreatedByIs(f.createdBy.GetOr(""))), HoldsOn(r));
    AllWhen(f.minServings.Some?, ServingsNullOrEq(f.minServings.GetOr(0.0)), HoldsOn(r));
    AllWhen(f.maxServings.Some?, ServingsNullOrEq(f.maxServings.GetOr(0.0)), HoldsOn(r));
    AllWhen(f.isPrivate.Some?, PrivateIs(f.isPrivate.GetOr(false)), HoldsOn(r));
    AllWhen(TruthyStr(f.createdBy), CreatedByIs(f.createdBy.GetOr("")), HoldsOn(r));
  }

  /** The field conditions hold exactly when the field filters admit the row. */
  lemma FieldConditionsMeaning(f: RecipeFilters, r: RecipeRow)
    ensures AllHold(FieldConditions(f), r) <==> FieldsMatch(f, r)
  {
    AllAppend(DifficultyAndTimeConditions(f), ServingsAndOwnerConditions(f), HoldsOn(r));
    DifficultyAndTimeMeaning(f, r);
    ServingsAndOwnerMeaning(f, r);
  }

  /** A row satisfies all pushed conditions exactly when the search admits it. */
  lemma FilterConditionsMeaning(f: RecipeFilters, query: Option<string>, r: RecipeRow)
    ensures AllHold(FilterConditions(f, query), r) <==> RecipeMatches(f, query, r)
  {
    AllAppend(TextCondition(query), FieldConditions(f), HoldsOn(r));
    FieldConditionsMeaning(f, r);
    AllWhen(TruthyStr(query), TextMatches(ToLower(query.GetOr(""))), HoldsOn(r));
    if TruthyStr(query) {
      ToLowerIdempotent(query.value);
    }
  }

  /** The pushed conditions admit exactly the matching recipes, and there are none exactly when no filter is active. */
  lemma FilterConditionsFacts(f: RecipeFilters, query: Option<string>)
    ensures forall r :: AllHold(FilterConditions(f, query), r) <==> RecipeMatches(f, query, r)
    ensures |FilterConditions(f, query)| == 0 <==> NoActiveFilter(f, query)
  {
    forall r
      ensures AllHold(FilterConditions(f, query), r) <==> RecipeMatches(f, query, r)
    {
      FilterConditionsMeaning(f, query, r);
    }
  }

  /** `buildFilterConditions`: push one condition per filter that is set, in source order. */
  method BuildFilterConditions(filters: RecipeFilters, searchQuery: Option<string>) returns (conditions: seq<Condition>)
    ensures conditions == FilterConditions(filters, searchQuery)
  {
    var f := filters;
    conditions := PushIf([], TruthyStr(searchQuery), TextMatches(ToLower(searchQuery.GetOr(""))));
    ghost var text := conditions;
    assert text == TextCondition(searchQuery);
    conditions := PushIf(conditions, TruthyStr(f.difficulty), DifficultyIs(f.difficulty.GetOr("")));
    conditions := PushIf(conditions, f.maxPrepTime.Some?, PrepTimeNullOrEq(f.maxPrepTime.GetOr(0.0)));
    conditions := PushIf(conditions, f.maxCookTime.Some?, CookTimeNullOrEq(f.maxCookTime.GetOr(0.0)));
    conditions := PushIf(conditions, f.maxTotalTime.Some?, TotalTimeNullOrEq(f.maxTotalTime.GetOr(0.0)));
    ghost var timed := conditions;
    conditions := PushIf(conditions, f.minServings.Some?, ServingsNullOrEq(f.minServings.GetOr(0.0)));
    conditions := PushIf(conditions, f.maxServings.Some?, ServingsNullOrEq(f.maxServings.GetOr(0.0)));
    conditions := PushIf(conditions, f.isPrivate.Some?, PrivateIs(f.isPrivate.GetOr(false)));
    conditions := PushIf(conditions, TruthyStr(f.createdBy), CreatedByIs(f.createdBy.GetOr("")));
    AppendFour(text, When(TruthyStr(f.difficulty), DifficultyIs(f.difficulty.GetOr(""))),
               When(f.maxPrepTime.Some?, PrepTimeNullOrEq(f.maxPrepTime.GetOr(0.0))),
               When(f.maxCookTime.Some?, CookTimeNullOrEq(f.maxCookTime.GetOr(0.0))),
               When(f.maxTotalTime.Some?, TotalTimeNullOrEq(f.maxTotalTime.GetOr(0.0))));
    assert timed == text + DifficultyAndTimeConditions(f);
    AppendFour(timed, When(f.minServings.Some?, ServingsNullOrEq(f.minServings.GetOr(0.0))),
               When(f.maxServings.Some?, ServingsNullOrEq(f.maxServings.GetOr(0.0))),
               When(f.isPrivate.Some?, PrivateIs(f.isPrivate.GetOr(false))),
               When(TruthyStr(f.createdBy), CreatedByIs(f.createdBy.GetOr(""))));
    assert conditions == timed + ServingsAndOwnerConditions(f);
    AppendAssoc(text, DifficultyAndTimeConditions(f), ServingsAndOwnerConditions(f));
  }

  /** With no filter and no query every recipe is admitted. */
  lemma NoFiltersAdmitAll(r: RecipeRow)
    ensures RecipeMatches(NoFilters(), None, r)
    ensures RecipeMatches(NoFilters(), Some(""), r)
  {
  }

  /** `hasProducts` never changes which recipes are admitted. */
  lemma HasProductsIgnored(f: RecipeFilters, query: Option<string>, r: RecipeRow, hasProducts: Option<bool>)
    ensures RecipeMatches(f, query, r) == RecipeMatches(f.(hasProducts := hasProducts), query, r)
  {
  }

  /**
   * A "max" time bound admits a recipe with a recorded time only when the
   * time equals the bound: a recipe that is quicker than the bound is
   * rejected.
   */
  lemma MaxTimeIsEquality(f: RecipeFilters, query: Option<string>, r: RecipeRow)
    requires RecipeMatches(f, query, r)
    ensures f.maxPrepTime.Some? && r.prepTime.Some? ==> r.prepTime.value as real == f.maxPrepTime.value
    ensures f.maxCookTime.Some? && r.cookTime.Some? ==> r.cookTime.value as real == f.maxCookTime.value
    ensures f.maxTotalTime.Some? && r.totalTime.Some? ==> r.totalTime.value as real == f.maxTotalTime.value
  {
  }

  /**
   * The servings bounds are equality tests on the same column, so two
   * different bounds together admit only recipes whose servings are null.
   */
  lemma ServingsBoundsAreEquality(f: RecipeFilters, query: Option<string>, r: RecipeRow)
    requires RecipeMatches(f, query, r)
    ensures f.minServings.Some? && r.servings.Some? ==> r.servings.value as real == f.minServings.value
    ensures f.maxServings.Some? && f.minServings.Some? && f.minServings.value != f.maxServings.value ==> r.servings.None?
  {
  }

  /** The text search covers the title, the description and the notes, ignoring ASCII case. */
  lemma QueryCaseIrrelevant(f: RecipeFilters, query: string, r: RecipeRow)
    ensures RecipeMatches(f, Some(query), r) == RecipeMatches(f, Some(ToLower(query)), r)
  {
    ToLowerIdempotent(query);
    assert |ToLower(query)| == |query|;
  }

  // ---------------------------------------------------------------------------
  // Sorting

  datatype SortColumn = TitleColumn | UpdatedAtColumn | TotalTimeColumn | DifficultyColumn | CreatedAtColumn
  datatype Direction = Asc | Desc
  datatype SortSpec = SortSpec(field: string, direction: string)

  /** `applySorting`: the column and direction the query is ordered by. */
  function ApplySorting(sort: Option<SortSpec>): (r: (SortColumn, Direction))
    ensures sort.None? ==> r == (CreatedAtColumn, Desc)
    ensures sort.Some? ==> (r.1 == Asc <==> sort.value.direction == "asc")
    ensures sort.Some? && sort.value.field !in {"title", "updatedAt", "totalTime", "difficulty"} ==> r.0 == CreatedAtColumn
  {
    if sort.None? then (CreatedAtColumn, Desc)
    else
      var dir := if sort.value.direction == "asc" then Asc else Desc;
      match sort.value.field
      case "title" => (TitleColumn, dir)
      case "updatedAt" => (UpdatedAtColumn, dir)
      case "totalTime" => (TotalTimeColumn, dir)
      case "difficulty" => (DifficultyColumn, dir)
      case _ => (CreatedAtColumn, dir)
  }

  /** Each known field selects its own column. */
  lemma SortFieldsSelectColumns(direction: string)
    ensures ApplySorting(Some(SortSpec("title", direction))).0 == TitleColumn
    ensures ApplySorting(Some(SortSpec("updatedAt", direction))).0 == UpdatedAtColumn
    ensures ApplySorting(Some(SortSpec("totalTime", direction))).0 == TotalTimeColumn
    ensures ApplySorting(Some(SortSpec("difficulty", direction))).0 == DifficultyColumn
    ensures ApplySorting(Some(SortSpec("createdAt", direction))).0 == CreatedAtColumn
  {
  }

  // ---------------------------------------------------------------------------
  // Result enhancement

  datatype ImageRow = ImageRow(id: string, recipeId: Option<string>, url: string, altText: Option<string>,
                               sortOrder: Option<int>)
  datatype RecipeImage = RecipeImage(id: string, url: string, altText: Option<string>, sortOrder: Option<int>)

  /** A `productRecipes` row joined with its product. */
  datatype ProductLinkRow = ProductLinkRow(recipeId: string, productId: string, productName: string,
                                           productSlug: string, isMainRecipe: Option<bool>)
  datatype LinkedProduct = LinkedProduct(id: string, name: string, slug: string, isMainRecipe: Option<bool>)

  /** A recipe of a result page with its images and linked products. */
  datatype RecipeWithDetails = RecipeWithDetails(recipe: RecipeRow, images: seq<RecipeImage>, products: seq<LinkedProduct>)

  function ImageOwner(i: ImageRow): Option<string> { i.recipeId }
  function ImageOf(i: ImageRow): RecipeImage { RecipeImage(i.id, i.url, i.altText, i.sortOrder) }
  function LinkOwner(l: ProductLinkRow): Option<string> { Some(l.recipeId) }
  function LinkedProductOf(l: ProductLinkRow): LinkedProduct
  {
    LinkedProduct(l.productId, l.productName, l.productSlug, l.isMainRecipe)
  }

  /**
   * `enhanceRecipeResults`: images are grouped by a truthy recipe id, product
   * links by their recipe id without a truthiness test, and each recipe takes
   * its groups, `[]` for a kind not requested or without rows. The related
   * rows are what the `inArray(recipeId, ids)` queries fetched, in fetched
   * order.
   */
  method EnhanceRecipeResults(recipes: seq<RecipeRow>, includeImages: bool, includeProducts: bool,
                              imageRows: seq<ImageRow>, linkRows: seq<ProductLinkRow>)
    returns (enhanced: seq<RecipeWithDetails>)
    ensures |enhanced| == |recipes|
    ensures forall i :: 0 <= i < |recipes| ==>
              var id := recipes[i].id;
              enhanced[i].recipe == recipes[i]
              && enhanced[i].images == (if includeImages then GroupOf(imageRows, ImageOwner, true, ImageOf, id) else [])
              && enhanced[i].products == (if includeProducts then GroupOf(linkRows, LinkOwner, false, LinkedProductOf, id) else [])
  {
    if |recipes| == 0 {
      return [];
    }
    var byImage: map<string, seq<RecipeImage>> := map[];
    var byProduct: map<string, seq<LinkedProduct>> := map[];
    if includeImages {
      byImage := GroupRows(imageRows, ImageOwner, true, ImageOf);
    }
    if includeProducts {
      byProduct := GroupRows(linkRows, LinkOwner, false, LinkedProductOf);
    }
    enhanced := seq(|recipes|, i requires 0 <= i < |recipes| =>
                      RecipeWithDetails(recipes[i], GroupFor(byImage, recipes[i].id), GroupFor(byProduct, recipes[i].id)));
  }

  // ---------------------------------------------------------------------------
  // Lookups

  /** `results.find(r => r.id === id) || null`: the first result with the id. */
  function FindById(results: seq<RecipeWithDetails>, id: string): (r: Option<RecipeWithDetails>)
    ensures r.None? <==> forall i :: 0 <= i < |results| ==> results[i].recipe.id != id
    ensures r.Some? ==> exists i :: 0 <= i < |results| && results[i] == r.value && r.value.recipe.id == id
                                   && forall j :: 0 <= j < i ==> results[j].recipe.id != id
  {
    if |results| == 0 then None
    else if results[0].recipe.id == id then Some(results[0])
    else
      var rest := FindById(results[1..], id);
      assert forall j :: 1 <= j < |results| ==> results[j] == results[1..][j - 1];
      rest
  }

  /**
   * `getRecipeById`: the search with no filter and `limit: 1` fetches only
   * the first recipe in the default order (newest first); it is returned
   * when it has the id, and null otherwise. `ordered` is the whole table in
   * that order, with its details attached.
   */
  function GetRecipeById(ordered: seq<RecipeWithDetails>, id: string): (r: Option<RecipeWithDetails>)
    ensures r.Some? <==> |ordered| > 0 && ordered[0].recipe.id == id
    ensures r.Some? ==> r.value == ordered[0]
  {
    FindById(SliceTo(ordered, 1), id)
  }

  /** Any recipe other than the newest is not found by id, even though it is in the table. */
  lemma OnlyNewestRecipeFound(ordered: seq<RecipeWithDetails>, k: nat)
    requires 0 < k < |ordered| && ordered[k].recipe.id != ordered[0].recipe.id
    ensures GetRecipeById(ordered, ordered[k].recipe.id).None?
  {
  }

  /** A `productRecipes` row. */
  datatype RecipeLink = RecipeLink(productId: string, recipeId: string)

  /** Whether the product links the recipe (`recipeIds.some(r => r.recipeId === recipe.id)`). */
  predicate IsLinked(links: seq<RecipeLink>, productId: string, recipeId: string)
  {
    exists i :: 0 <= i < |links| && links[i].productId == productId && links[i].recipeId == recipeId
  }

  /** Whether the product has any recipe link at all. */
  predicate HasLinks(links: seq<RecipeLink>, productId: string)
  {
    exists i :: 0 <= i < |links| && links[i].productId == productId
  }

  function LinkedTo(links: seq<RecipeLink>, productId: string): RecipeWithDetails -> bool
  {
    (x: RecipeWithDetails) => IsLinked(links, productId, x.recipe.id)
  }

  /**
   * `getRecipesByProduct`: `[]` when the product has no links; otherwise the
   * linked recipes among the first 100 of the search in default order.
   */
  function GetRecipesByProduct(links: seq<RecipeLink>, productId: string, ordered: seq<RecipeWithDetails>)
    : (r: seq<RecipeWithDetails>)
    ensures !HasLinks(links, productId) ==> r == []
    ensures |r| <= 100
    ensures HasLinks(links, productId) ==>
              forall x :: x in r <==> x in SliceTo(ordered, 100) && IsLinked(links, productId, x.recipe.id)
  {
    if !HasLinks(links, productId) then []
    else Filter(LinkedTo(links, productId), SliceTo(ordered, 100))
  }

  /** Every returned recipe is linked to the product and lies among the first 100 searched. */
  lemma RecipesByProductLinked(links: seq<RecipeLink>, productId: string, ordered: seq<RecipeWithDetails>, x: RecipeWithDetails)
    requires x in GetRecipesByProduct(links, productId, ordered)
    ensures IsLinked(links, productId, x.recipe.id)
    ensures exists i :: 0 <= i < |ordered| && i < 100 && ordered[i] == x
  {
    var page := SliceTo(ordered, 100);
    var i :| 0 <= i < |page| && page[i] == x;
    assert ordered[i] == x;
  }

  // ---------------------------------------------------------------------------
  // Deleting

  /** The number of product links of a recipe (the `count()` query). */
  function LinkCount(links: seq<RecipeLink>, recipeId: string): (n: nat)
    ensures n <= |links|
  {
    if |links| == 0 then 0
    else LinkCount(links[..|links| - 1], recipeId) + (if links[|links| - 1].recipeId == recipeId then 1 else 0)
  }

  /** The link count is zero exactly when no link names the recipe. */
  lemma {:induction false} LinkCountZeroIff(links: seq<RecipeLink>, recipeId: string)
    ensures LinkCount(links, recipeId) == 0 <==> forall i :: 0 <= i < |links| ==> links[i].recipeId != recipeId
  {
    if |links| > 0 {
      var init := links[..|links| - 1];
      LinkCountZeroIff(init, recipeId);
      assert forall i :: 0 <= i < |init| ==> init[i] == links[i];
    }
  }

  datatype DeleteResult = DeleteResult(success: bool, message: string)

  function OtherRecipe(id: string): RecipeRow -> bool
  {
    (x: RecipeRow) => x.id != id
  }

  /**
   * `deleteRecipe`: refuse, and leave the table as it is, while any product
   * links the recipe; otherwise delete every row with the id and report
   * success. A database error (the `catch` branch) is not modelled.
   */
  function DeleteRecipe(recipes: seq<RecipeRow>, links: seq<RecipeLink>, id: string): (r: (DeleteResult, seq<RecipeRow>))
    ensures r.0.success <==> forall i :: 0 <= i < |links| ==> links[i].recipeId != id
    ensures !r.0.success ==>
              r.1 == recipes
              && r.0.message == "Cannot delete recipe linked to " + NatToString(LinkCount(links, id)) + " products"
    ensures r.0.success ==> r.0.message == "Recipe deleted successfully"
    ensures r.0.success ==> forall x :: x in r.1 <==> x in recipes && x.id != id
  {
    LinkCountZeroIff(links, id);
    var n := LinkCount(links, id);
    if n > 0 then (DeleteResult(false, "Cannot delete recipe linked to " + NatToString(n) + " products"), recipes)
    else (DeleteResult(true, "Recipe deleted successfully"), Filter(OtherRecipe(id), recipes))
  }

  // ---------------------------------------------------------------------------
  // Duplicating

  /** `x || undefined` on a nullable number column: null and 0 both become undefined. */
  function IntOrUndefined(x: Option<int>): (r: Option<int>)
    ensures r.Some? <==> TruthyInt(x)
    ensures r.Some? ==> r == x
  {
    if x.Some? && x.value != 0 then x else None
  }

  /** `x || undefined` on a nullable text column: null and "" both become undefined. */
  function StrOrUndefined(x: Option<string>): (r: Option<string>)
    ensures r.Some? <==> TruthyStr(x)
    ensures r.Some? ==> r == x
  {
    if x.Some? && x.value != "" then x else None
  }

  /** The fields `duplicateRecipe` gives the copy. */
  datatype NewRecipeData = NewRecipeData(id: string, title: string, createdBy: Option<string>)

  /** The row `createRecipe` inserts for the copy. */
  function CopyOf(original: RecipeRow, newData: NewRecipeData): (r: RecipeRow)
    ensures r.id == newData.id && r.title == newData.title && r.createdBy == newData.createdBy
    ensures r.isPrivate == Some(true)
    ensures r.ingredients == original.ingredients && r.instructions == original.instructions
    ensures r.prepTime.Some? <==> TruthyInt(original.prepTime)
    ensures r.cookTime.Some? <==> TruthyInt(original.cookTime)
    ensures r.totalTime.Some? <==> TruthyInt(original.totalTime)
    ensures r.servings.Some? <==> TruthyInt(original.servings)
    ensures r.prepTime.Some? ==> r.prepTime == original.prepTime
    ensures r.cookTime.Some? ==> r.cookTime == original.cookTime
    ensures r.totalTime.Some? ==> r.totalTime == original.totalTime
    ensures r.servings.Some? ==> r.servings == original.servings
  {
    RecipeRow(newData.id, newData.title, StrOrUndefined(original.description),
              original.ingredients, original.instructions,
              IntOrUndefined(original.prepTime), IntOrUndefined(original.cookTime), IntOrUndefined(original.totalTime),
              StrOrUndefined(original.difficulty), IntOrUndefined(original.servings), StrOrUndefined(original.notes),
              Some(true), newData.createdBy)
  }

  /** The image row `addRecipeImage` inserts for the k-th image of the original. */
  function CopiedImage(image: RecipeImage, newRecipeId: string, imageId: string): ImageRow
  {
    ImageRow(imageId, Some(newRecipeId), image.url, StrOrUndefined(image.altText), IntOrUndefined(image.sortOrder))
  }

  /**
   * The image rows inserted for a list of images; `imageId(k)` stands for the
   * id generated for the k-th one from the clock and a random string.
   */
  function CopiedImages(images: seq<RecipeImage>, newRecipeId: string, imageId: nat -> string): (r: seq<ImageRow>)
    ensures |r| == |images|
    ensures forall k :: 0 <= k < |images| ==> r[k] == CopiedImage(images[k], newRecipeId, imageId(k))
  {
    if |images| == 0 then []
    else CopiedImages(images[..|images| - 1], newRecipeId, imageId)
         + [CopiedImage(images[|images| - 1], newRecipeId, imageId(|images| - 1))]
  }

  datatype Duplicate = Duplicate(recipe: RecipeRow, images: seq<ImageRow>)

  /**
   * `duplicateRecipe`: look the original up with `getRecipeById`, fail when
   * it is not found, else insert the copy and then one image row per image
   * of the original, in order.
   */
  method DuplicateRecipe(ordered: seq<RecipeWithDetails>, originalId: string, newData: NewRecipeData,
                         imageId: nat -> string)
    returns (r: Result<Duplicate, string>)
    ensures GetRecipeById(ordered, originalId).None? <==> r == Err("Original recipe not found")
    ensures r.Ok? ==>
              var original := GetRecipeById(ordered, originalId).value;
              r.value.recipe == CopyOf(original.recipe, newData)
              && r.value.images == CopiedImages(original.images, newData.id, imageId)
  {
    var original := GetRecipeById(ordered, originalId);
    if original.None? {
      return Err("Original recipe not found");
    }
    var newRecipe := CopyOf(original.value.recipe, newData);
    var added: seq<ImageRow> := [];
    var images := original.value.images;
    if |images| > 0 {
      for k := 0 to |images|
        invariant added == CopiedImages(images[..k], newRecipe.id, imageId)
      {
        assert images[..k + 1][..k] == images[..k];
        added := added + [CopiedImage(images[k], newRecipe.id, imageId(k))];
      }
      assert images[..|images|] == images;
    }
    return Ok(Duplicate(newRecipe, added));
  }

  /** Every copied image belongs to the copy and keeps its url; a 0 or null sort order is dropped. */
  lemma CopiedImagesBelongToCopy(images: seq<RecipeImage>, newRecipeId: string, imageId: nat -> string, k: nat)
    requires k < |images|
    ensures CopiedImages(images, newRecipeId, imageId)[k].recipeId == Some(newRecipeId)
    ensures CopiedImages(images, newRecipeId, imageId)[k].url == images[k].url
    ensures CopiedImages(images, newRecipeId, imageId)[k].sortOrder.Some? <==> TruthyInt(images[k].sortOrder)
  {
  }

  /** Only the newest recipe can be duplicated: any other one is "not found". */
  lemma DuplicateOnlyOfNewest(ordered: seq<RecipeWithDetails>, originalId: string)
    requires |ordered| > 0 && ordered[0].recipe.id != originalId
    ensures GetRecipeById(ordered, originalId).None?
  {
  }
}
