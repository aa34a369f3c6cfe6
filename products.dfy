/**
 * The product catalogue queries, with each table as a sequence of records:
 * the filter conditions of a product search as predicates over one product
 * row, the sort-key choice, the grouping of related rows onto each product of
 * a page of results, and the recommendation post-filter.
 */
module Products {
  import opened Common
  import opened Grouping

  /** A product row joined with its category's slug (null when the left join finds no category). */
  datatype Product = Product(id: string, name: string, description: Option<string>, shortDescription: Option<string>,
                             categoryId: Option<string>, categorySlug: Option<string>, basePrice: real,
                             isActive: Option<bool>, stockQuantity: Option<int>,
                             minSlices: Option<int>, maxSlices: Option<int>)

  /** The search filters; `tags`, `allergenFree`, `flavor`, `size` and `variantType` are declared but never used. */
  datatype ProductFilters = ProductFilters(categoryId: Option<string>, categorySlug: Option<string>,
                                           priceMin: Option<real>, priceMax: Option<real>,
                                           minSlices: Option<real>, maxSlices: Option<real>,
                                           tags: Option<seq<string>>, allergenFree: Option<seq<string>>,
                                           inStock: Option<bool>, isActive: Option<bool>,
                                           flavor: Option<string>, size: Option<string>, variantType: Option<string>)

  /** No filter at all (`filters = {}`). */
  function NoFilters(): ProductFilters
  {
    ProductFilters(None, None, None, None, None, None, None, None, None, None, None, None, None)
  }

  // ---------------------------------------------------------------------------
  // Filter conditions

  /** One `WHERE` condition the search pushes. */
  datatype Condition =
    | TextMatches(term: string)
    | CategoryIdIs(categoryId: string)
    | CategorySlugIs(slug: string)
    | PriceAtLeast(min: real)
    | PriceAtMost(max: real)
    | MinSlicesAtLeast(minSlices: real)
    | MaxSlicesAtMost(maxSlices: real)
    | StockAtLeastOne
    | ActiveIs(active: bool)

  /**
   * `column ILIKE '%term%'` on a nullable text column: a null column never
   * matches; otherwise a case-insensitive substring test (the `%`/`_`
   * wildcards inside the term are not modelled).
   */
  predicate ILike(column: Option<string>, term: string)
  {
    column.Some? && Contains(ToLower(column.value), ToLower(term))
  }

  /** SQL meaning of one condition on one row (a comparison with a null column is not true). */
  predicate Holds(c: Condition, p: Product)
  {
    match c
    case TextMatches(term) => ILike(Some(p.name), term) || ILike(p.description, term) || ILike(p.shortDescription, term)
    case CategoryIdIs(id) => p.categoryId == Some(id)
    case CategorySlugIs(slug) => p.categorySlug == Some(slug)
    case PriceAtLeast(min) => p.basePrice >= min
    case PriceAtMost(max) => p.basePrice <= max
    case MinSlicesAtLeast(n) => p.minSlices.None? || p.minSlices.value as real >= n
    case MaxSlicesAtMost(n) => p.maxSlices.None? || p.maxSlices.value as real <= n
    case StockAtLeastOne => p.stockQuantity.Some? && p.stockQuantity.value >= 1
    case ActiveIs(b) => p.isActive == Some(b)
  }

  /** `and(...conditions)`, or no `WHERE` at all when there are none. */
  predicate AllHold(conds: seq<Condition>, p: Product)
  {
    All(conds, HoldsOn(p))
  }

  /** The condition test for one row, as the function `All` applies. */
  function HoldsOn(p: Product): Condition -> bool
  {
    c => Holds(c, p)
  }

  /** A case-insensitive substring hit on the name, the description or the short description. */
  predicate TextHit(p: Product, query: string)
  {
    var q := ToLower(query);
    Contains(ToLower(p.name), q)
    || (p.description.Some? && Contains(ToLower(p.description.value), q))
    || (p.shortDescription.Some? && Contains(ToLower(p.shortDescription.value), q))
  }

  /**
   * Which products a search admits, filter by filter: a truthy query must hit
   * the text, truthy category id/slug must be equal, given price bounds are
   * inclusive, given slice bounds admit a null slice count, `inStock: true`
   * needs stock of at least one, and a given `isActive` must be equal.
   */
  predicate ProductMatches(f: ProductFilters, query: Option<string>, p: Product)
  {
    TextClause(query, p) && FieldsMatch(f, p)
  }

  /** A truthy query must hit the text. */
  predicate TextClause(query: Option<string>, p: Product)
  {
    TruthyStr(query) ==> TextHit(p, query.value)
  }

  /** The field filters of a search. */
  predicate FieldsMatch(f: ProductFilters, p: Product)
  {
    (TruthyStr(f.categoryId) ==> p.categoryId == f.categoryId)
    && (TruthyStr(f.categorySlug) ==> p.categorySlug == f.categorySlug)
    && (f.priceMin.Some? ==> f.priceMin.value <= p.basePrice)
    && (f.priceMax.Some? ==> p.basePrice <= f.priceMax.value)
    && (f.minSlices.Some? && p.minSlices.Some? ==> f.minSlices.value <= p.minSlices.value as real)
    && (f.maxSlices.Some? && p.maxSlices.Some? ==> p.maxSlices.value as real <= f.maxSlices.value)
    && (f.inStock == Some(true) ==> p.stockQuantity.Some? && p.stockQuantity.value > 0)
    && (f.isActive.Some? ==> p.isActive == f.isActive)
  }

  /** No filter that the search acts on is set. */
  predicate NoActiveFilter(f: ProductFilters, query: Option<string>)
  {
    !TruthyStr(query) && !TruthyStr(f.categoryId) && !TruthyStr(f.categorySlug)
    && f.priceMin.None? && f.priceMax.None? && f.minSlices.None? && f.maxSlices.None?
    && f.inStock != Some(true) && f.isActive.None?
  }

  /** The lowered search term hits a row exactly when the text filter does. */
  lemma TextConditionMeaning(query: string, p: Product)
    ensures Holds(TextMatches(ToLower(query)), p) <==> TextHit(p, query)
  {
    ToLowerIdempotent(query);
  }

  /** The text condition, pushed when the query is truthy. */
  function TextCondition(query: Option<string>): seq<Condition>
  {
    When(TruthyStr(query), TextMatches(ToLower(query.GetOr(""))))
  }

  /** The conditions the search pushes, in the source's order: the text condition, then the field conditions. */
  function FilterConditions(f: ProductFilters, query: Option<string>): seq<Condition>
  {
    TextCondition(query) + FieldConditions(f)
  }

  /** The conditions pushed for the field filters. */
  function FieldConditions(f: ProductFilters): seq<Condition>
  {
    CategoryAndPriceConditions(f) + SlicesStockActiveConditions(f)
  }

  /** The two category conditions and the two price bounds, in the source's order. */
  function CategoryAndPriceConditions(f: ProductFilters): seq<Condition>
  {
    When(TruthyStr(f.categoryId), CategoryIdIs(f.categoryId.GetOr("")))
    + When(TruthyStr(f.categorySlug), CategorySlugIs(f.categorySlug.GetOr("")))
    + When(f.priceMin.Some?, PriceAtLeast(f.priceMin.GetOr(0.0)))
    + When(f.priceMax.Some?, PriceAtMost(f.priceMax.GetOr(0.0)))
  }

  /** The two slice bounds, the stock condition and the active flag, in the source's order. */
  function SlicesStockActiveConditions(f: ProductFilters): seq<Condition>
  {
    When(f.minSlices.Some?, MinSlicesAtLeast(f.minSlices.GetOr(0.0)))
    + When(f.maxSlices.Some?, MaxSlicesAtMost(f.maxSlices.GetOr(0.0)))
    + When(f.inStock == Some(true), StockAtLeastOne)
    + When(f.isActive.Some?, ActiveIs(f.isActive.GetOr(false)))
  }

  /** The category and price conditions hold exactly when those four filters admit the row. */
  lemma CategoryAndPriceMeaning(f: ProductFilters, p: Product)
    ensures AllHold(CategoryAndPriceConditions(f), p) <==>
              (TruthyStr(f.categoryId) ==> p.categoryId == f.categoryId)
              && (TruthyStr(f.categorySlug) ==> p.categorySlug == f.categorySlug)
              && (f.priceMin.Some? ==> f.priceMin.value <= p.basePrice)
              && (f.priceMax.Some? ==> p.basePrice <= f.priceMax.value)
  {
    AllFour(When(TruthyStr(f.categoryId), CategoryIdIs(f.categoryId.GetOr(""))),
            When(TruthyStr(f.categorySlug), CategorySlugIs(f.categorySlug.GetOr(""))),
            When(f.priceMin.Some?, PriceAtLeast(f.priceMin.GetOr(0.0))),
            When(f.priceMax.Some?, PriceAtMost(f.priceMax.GetOr(0.0))), HoldsOn(p));
    AllWhen(TruthyStr(f.categoryId), CategoryIdIs(f.categoryId.GetOr("")), HoldsOn(p));
    AllWhen(TruthyStr(f.categorySlug), CategorySlugIs(f.categorySlug.GetOr("")), HoldsOn(p));
    AllWhen(f.priceMin.Some?, PriceAtLeast(f.priceMin.GetOr(0.0)), HoldsOn(p));
    AllWhen(f.priceMax.Some?, PriceAtMost(f.priceMax.GetOr(0.0)), HoldsOn(p));
  }

  /** The slice, stock and active conditions hold exactly when those four filters admit the row. */
  lemma SlicesStockActiveMeaning(f: ProductFilters, p: Product)
    ensures AllHold(SlicesStockActiveConditions(f), p) <==>
              (f.minSlices.Some? && p.minSlices.Some? ==> f.minSlices.value <= p.minSlices.value as real)
              && (f.maxSlices.Some? && p.maxSlices.Some? ==> p.maxSlices.value as real <= f.maxSlices.value)
              && (f.inStock == Some(true) ==> p.stockQuantity.Some? && p.stockQuantity.value > 0)
              && (f.isActive.Some? ==> p.isActive == f.isActive)
  {
    AllFour(When(f.minSlices.Some?, MinSlicesAtLeast(f.minSlices.GetOr(0.0))),
            When(f.maxSlices.Some?, MaxSlicesAtMost(f.maxSlices.GetOr(0.0))),
            When(f.inStock == Some(true), StockAtLeastOne),
            When(f.isActive.Some?, ActiveIs(f.isActive.GetOr(false))), HoldsOn(p));
    AllWhen(f.minSlices.Some?, MinSlicesAtLeast(f.minSlices.GetOr(0.0)), HoldsOn(p));
    AllWhen(f.maxSlices.Some?, MaxSlicesAtMost(f.maxSlices.GetOr(0.0)), HoldsOn(p));
    AllWhen(f.inStock == Some(true), StockAtLeastOne, HoldsOn(p));
    AllWhen(f.isActive.Some?, ActiveIs(f.isActive.GetOr(false)), HoldsOn(p));
  }

  /** A row satisfies the field conditions exactly when it passes the field filters. */
  lemma FieldConditionsMeaning(f: ProductFilters, p: Product)
    ensures AllHold(FieldConditions(f), p) <==> FieldsMatch(f, p)
  {
    AllAppend(CategoryAndPriceConditions(f), SlicesStockActiveConditions(f), HoldsOn(p));
    CategoryAndPriceMeaning(f, p);
    SlicesStockActiveMeaning(f, p);
  }

  /** A row satisfies all pushed conditions exactly when the search admits it. */
  lemma FilterConditionsMeaning(f: ProductFilters, query: Option<string>, p: Product)
    ensures AllHold(FilterConditions(f, query), p) <==> ProductMatches(f, query, p)
  {
    AllAppend(TextCondition(query), FieldConditions(f), HoldsOn(p));
    FieldConditionsMeaning(f, p);
    AllWhen(TruthyStr(query), TextMatches(ToLower(query.GetOr(""))), HoldsOn(p));
    if TruthyStr(query) {
      TextConditionMeaning(query.value, p);
    }
  }

  /** The pushed conditions admit exactly the matching products, and there are none exactly when no filter is active. */
  lemma FilterConditionsFacts(f: ProductFilters, query: Option<string>)
    ensures forall p :: AllHold(FilterConditions(f, query), p) <==> ProductMatches(f, query, p)
    ensures |FilterConditions(f, query)| == 0 <==> NoActiveFilter(f, query)
  {
    forall p
      ensures AllHold(FilterConditions(f, query), p) <==> ProductMatches(f, query, p)
    {
      FilterConditionsMeaning(f, query, p);
    }
  }

  /** `buildFilterConditions`: push one condition per filter that is set, in the source's order. */
  method BuildFilterConditions(filters: ProductFilters, searchQuery: Option<string>) returns (conditions: seq<Condition>)
    ensures conditions == FilterConditions(filters, searchQuery)
  {
    var f := filters;
    conditions := PushIf([], TruthyStr(searchQuery), TextMatches(ToLower(searchQuery.GetOr(""))));
    ghost var text := conditions;
    assert text == TextCondition(searchQuery);
    conditions := PushIf(conditions, TruthyStr(f.categoryId), CategoryIdIs(f.categoryId.GetOr("")));
    conditions := PushIf(conditions, TruthyStr(f.categorySlug), CategorySlugIs(f.categorySlug.GetOr("")));
    conditions := PushIf(conditions, f.priceMin.Some?, PriceAtLeast(f.priceMin.GetOr(0.0)));
    conditions := PushIf(conditions, f.priceMax.Some?, PriceAtMost(f.priceMax.GetOr(0.0)));
    ghost var priced := conditions;
    conditions := PushIf(conditions, f.minSlices.Some?, MinSlicesAtLeast(f.minSlices.GetOr(0.0)));
    conditions := PushIf(conditions, f.maxSlices.Some?, MaxSlicesAtMost(f.maxSlices.GetOr(0.0)));
    conditions := PushIf(conditions, f.inStock == Some(true), StockAtLeastOne);
    conditions := PushIf(conditions, f.isActive.Some?, ActiveIs(f.isActive.GetOr(false)));
    AppendFour(text, When(TruthyStr(f.categoryId), CategoryIdIs(f.categoryId.GetOr(""))),
               When(TruthyStr(f.categorySlug), CategorySlugIs(f.categorySlug.GetOr(""))),
               When(f.priceMin.Some?, PriceAtLeast(f.priceMin.GetOr(0.0))),
               When(f.priceMax.Some?, PriceAtMost(f.priceMax.GetOr(0.0))));
    assert priced == text + CategoryAndPriceConditions(f);
    AppendFour(priced, When(f.minSlices.Some?, MinSlicesAtLeast(f.minSlices.GetOr(0.0))),
               When(f.maxSlices.Some?, MaxSlicesAtMost(f.maxSlices.GetOr(0.0))),
               When(f.inStock == Some(true), StockAtLeastOne),
               When(f.isActive.Some?, ActiveIs(f.isActive.GetOr(false))));
    assert conditions == priced + SlicesStockActiveConditions(f);
    AppendAssoc(text, CategoryAndPriceConditions(f), SlicesStockActiveConditions(f));
  }

  /** With no filter and no query every product is admitted. */
  lemma NoFiltersAdmitAll(p: Product)
    ensures ProductMatches(NoFilters(), None, p)
    ensures ProductMatches(NoFilters(), Some(""), p)
  {
  }

  /** The declared-but-unused filters never change which products are admitted. */
  lemma UnusedFiltersIgnored(f: ProductFilters, query: Option<string>, p: Product,
                             tags: Option<seq<string>>, allergenFree: Option<seq<string>>,
                             flavor: Option<string>, size: Option<string>, variantType: Option<string>)
    ensures ProductMatches(f, query, p) ==
            ProductMatches(f.(tags := tags, allergenFree := allergenFree, flavor := flavor, size := size,
                              variantType := variantType), query, p)
  {
  }

  /** The text search does not depend on the case of the query's ASCII letters. */
  lemma QueryCaseIrrelevant(f: ProductFilters, query: string, p: Product)
    ensures ProductMatches(f, Some(query), p) == ProductMatches(f, Some(ToLower(query)), p)
  {
    ToLowerIdempotent(query);
    assert |ToLower(query)| == |query|;
  }

  // ---------------------------------------------------------------------------
  // Sorting

  datatype SortColumn = BasePriceColumn | NameColumn | CreatedAtColumn
  datatype Direction = Asc | Desc

  /** `applySorting`: the column and direction the query is ordered by. */
  function ApplySorting(field: string, direction: string): (r: (SortColumn, Direction))
    ensures field !in {"price", "name", "createdAt", "popularity"} ==> r == (CreatedAtColumn, Desc)
    ensures direction != "asc" ==> r.1 == Desc
  {
    var dir := if direction == "asc" then Asc else Desc;
    if field == "price" then (BasePriceColumn, dir)
    else if field == "name" then (NameColumn, dir)
    else if field == "createdAt" then (CreatedAtColumn, dir)
    else if field == "popularity" then (CreatedAtColumn, dir)
    else (CreatedAtColumn, Desc)
  }

  /** Sorting by popularity is sorting by creation date, in either direction. */
  lemma PopularityIsCreatedAt(direction: string)
    ensures ApplySorting("popularity", direction) == ApplySorting("createdAt", direction)
    ensures ApplySorting("price", direction).0 == BasePriceColumn
    ensures ApplySorting("name", direction).0 == NameColumn
  {
  }

  // ---------------------------------------------------------------------------
  // Result enhancement

  datatype Variant = Variant(id: string, productId: Option<string>, name: string, price: real)
  datatype Image = Image(id: string, productId: Option<string>, url: string, sortOrder: Option<int>, isMain: Option<bool>)
  datatype TagRow = TagRow(productId: string, tagId: string, tagName: string, tagType: string, tagColor: Option<string>)
  datatype Tag = Tag(id: string, name: string, tagType: string, color: Option<string>)
  datatype AllergenRow = AllergenRow(productId: string, allergenId: string, name: string, description: Option<string>,
                                     severity: Option<string>, containsAllergen: Option<bool>, mayContain: Option<bool>)
  datatype Allergen = Allergen(id: string, name: string, description: Option<string>, severity: Option<string>,
                               containsAllergen: Option<bool>, mayContain: Option<bool>)

  datatype Includes = Includes(variants: bool, images: bool, tags: bool, allergens: bool)

  /** A product of a result page with its related rows attached. */
  datatype EnhancedProduct = EnhancedProduct(product: Product, variants: seq<Variant>, images: seq<Image>,
                                             tags: seq<Tag>, allergens: seq<Allergen>)

  function VariantOwner(v: Variant): Option<string> { v.productId }
  function ImageOwner(i: Image): Option<string> { i.productId }
  function TagOwner(t: TagRow): Option<string> { Some(t.productId) }
  function AllergenOwner(a: AllergenRow): Option<string> { Some(a.productId) }
  function SameVariant(v: Variant): Variant { v }
  function SameImage(i: Image): Image { i }
  function TagOf(t: TagRow): Tag { Tag(t.tagId, t.tagName, t.tagType, t.tagColor) }
  function AllergenOf(a: AllergenRow): Allergen
  {
    Allergen(a.allergenId, a.name, a.description, a.severity, a.containsAllergen, a.mayContain)
  }

  /**
   * `enhanceProductResults`: group each requested kind of related row by
   * product id (variants and images only when the id is truthy) and give each
   * product its groups, `[]` for a kind not requested or without rows. The
   * related rows are what the `inArray(productId, ids)` queries fetched, in
   * fetched order.
   */
  method EnhanceProductResults(products: seq<Product>, wanted: Includes, variants: seq<Variant>, images: seq<Image>,
                               tagRows: seq<TagRow>, allergenRows: seq<AllergenRow>)
    returns (enhanced: seq<EnhancedProduct>)
    ensures |enhanced| == |products|
    ensures forall i :: 0 <= i < |products| ==>
              var id := products[i].id;
              enhanced[i].product == products[i]
              && enhanced[i].variants == (if wanted.variants then GroupOf(variants, VariantOwner, true, SameVariant, id) else [])
              && enhanced[i].images == (if wanted.images then GroupOf(images, ImageOwner, true, SameImage, id) else [])
              && enhanced[i].tags == (if wanted.tags then GroupOf(tagRows, TagOwner, false, TagOf, id) else [])
              && enhanced[i].allergens == (if wanted.allergens then GroupOf(allergenRows, AllergenOwner, false, AllergenOf, id) else [])
  {
    if |products| == 0 {
      return [];
    }
    var byVariant: map<string, seq<Variant>> := map[];
    var byImage: map<string, seq<Image>> := map[];
    var byTag: map<string, seq<Tag>> := map[];
    var byAllergen: map<string, seq<Allergen>> := map[];
    if wanted.variants {
      byVariant := GroupRows(variants, VariantOwner, true, SameVariant);
    }
    if wanted.images {
      byImage := GroupRows(images, ImageOwner, true, SameImage);
    }
    if wanted.tags {
      byTag := GroupRows(tagRows, TagOwner, false, TagOf);
    }
    if wanted.allergens {
      byAllergen := GroupRows(allergenRows, AllergenOwner, false, AllergenOf);
    }
    enhanced := seq(|products|, i requires 0 <= i < |products| =>
                      EnhancedProduct(products[i], GroupFor(byVariant, products[i].id), GroupFor(byImage, products[i].id),
                                      GroupFor(byTag, products[i].id), GroupFor(byAllergen, products[i].id)));
  }

  // ---------------------------------------------------------------------------
  // Recommendations

  /** What the first recommendation query returns for the source product: its category and aggregated tag ids. */
  datatype ProductInfo = ProductInfo(categoryId: Option<string>, tagIds: Option<seq<Option<string>>>)

  /** The truthy entries of an aggregated id list (`filter(Boolean)`). */
  function PresentIds(ids: seq<Option<string>>): (r: seq<string>)
    ensures forall x :: x in r ==> x != "" && Some(x) in ids
  {
    if |ids| == 0 then []
    else (if TruthyStr(ids[0]) then [ids[0].value] else []) + PresentIds(ids[1..])
  }

  /** The filters of the similar-products search: same category when it has one, active and in stock. */
  function RecommendationFilters(info: ProductInfo): ProductFilters
  {
    NoFilters().(categoryId := if TruthyStr(info.categoryId) then info.categoryId else None,
                 tags := if info.tagIds.Some? then Some(PresentIds(info.tagIds.value)) else None,
                 isActive := Some(true), inStock := Some(true))
  }

  /** Every product the similar-products search admits is active, in stock and, if the source has a category, in it. */
  lemma RecommendationCandidatesQualify(info: ProductInfo, p: Product)
    requires ProductMatches(RecommendationFilters(info), None, p)
    ensures p.isActive == Some(true)
    ensures p.stockQuantity.Some? && p.stockQuantity.value >= 1
    ensures TruthyStr(info.categoryId) ==> p.categoryId == info.categoryId
  {
  }

  /** The test `p.id !== productId`. */
  function OtherThan(productId: string): EnhancedProduct -> bool
  {
    (x: EnhancedProduct) => x.product.id != productId
  }

  /** `results.filter(p => p.id !== productId).slice(0, limit)`: a prefix of the other products, at most `limit` long. */
  function RecommendationPostFilter(results: seq<EnhancedProduct>, productId: string, limit: int): (r: seq<EnhancedProduct>)
    ensures forall x :: x in r ==> x in results && x.product.id != productId
    ensures 0 <= limit ==> |r| <= limit
    ensures |r| <= |Filter(OtherThan(productId), results)| && r == Filter(OtherThan(productId), results)[..|r|]
    ensures 0 <= limit <= |Filter(OtherThan(productId), results)| ==> |r| == limit
    ensures 0 <= limit ==> |r| == if limit <= |Filter(OtherThan(productId), results)| then limit
                                  else |Filter(OtherThan(productId), results)|
    ensures limit < 0 ==> |r| == if |Filter(OtherThan(productId), results)| + limit < 0 then 0
                                 else |Filter(OtherThan(productId), results)| + limit
  {
    var kept := Filter(OtherThan(productId), results);
    assert forall x :: x in kept ==> x in results && x.product.id != productId;
    SliceTo(kept, limit)
  }

  /**
   * `getRecommendedProducts`: `[]` when the source product is not found;
   * otherwise the similar-products search (asked for `limit + 1` rows, the
   * query itself being outside this model) post-filtered.
   */
  function GetRecommendedProducts(info: Option<ProductInfo>, search: (ProductFilters, int) -> seq<EnhancedProduct>,
                                  productId: string, limit: int): (r: seq<EnhancedProduct>)
    ensures info.None? ==> r == []
    ensures forall x :: x in r ==> x.product.id != productId
    ensures 0 <= limit ==> |r| <= limit
    ensures info.Some? ==>
              var kept := Filter(OtherThan(productId), search(RecommendationFilters(info.value), limit + 1));
              |r| <= |kept| && r == kept[..|r|] && (0 <= limit ==> |r| == if limit <= |kept| then limit else |kept|)
  {
    if info.None? then [] else RecommendationPostFilter(search(RecommendationFilters(info.value), limit + 1), productId, limit)
  }
}
