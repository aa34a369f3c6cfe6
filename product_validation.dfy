/**
 * The catalogue input schemas: categories, products, variants, images, tags,
 * allergens, their links, the product filter and the bulk update. Each schema
 * is a predicate over a record whose absent fields are `None`; a schema with
 * defaults also has a `Parse` function that fills them. A `create` schema is
 * the same check without the id, an `update` schema makes every field
 * optional.
 */
module ProductValidation {
  import opened Common
  import opened Zod

  // ---------------------------------------------------------------------------
  // Categories

  datatype CategoryInput = CategoryInput(id: Option<string>, name: Option<string>, slug: Option<string>,
                                         description: Option<string>, parentId: Option<string>,
                                         sortOrder: Option<real>, isActive: Option<bool>)

  const NoCategoryFields := CategoryInput(None, None, None, None, None, None, None)

  /** The category checks other than the id's. */
  predicate CategoryFieldsValid(c: CategoryInput)
  {
    ReqStr(c.name, 1, 255) && ReqSlug(c.slug) && OptStr(c.description, 1000) && OptIntAtLeast(c.sortOrder, 0)
  }

  /** `categorySchema`. */
  predicate CategoryValid(c: CategoryInput)
  {
    ReqId(c.id) && CategoryFieldsValid(c)
  }

  /** `createCategorySchema`: the category checks without the id. */
  predicate CreateCategoryValid(c: CategoryInput)
  {
    CategoryFieldsValid(c)
  }

  /** `updateCategorySchema`: each category field checked only when present. */
  predicate UpdateCategoryValid(c: CategoryInput)
  {
    (c.name.None? || LenIn(c.name.value, 1, 255)) && (c.slug.None? || ReqSlug(c.slug))
    && OptStr(c.description, 1000) && OptIntAtLeast(c.sortOrder, 0)
  }

  /** `categorySchema.parse`: the sort order defaults to 0 and the category is active unless told otherwise. */
  function ParseCategory(c: CategoryInput): (r: Option<CategoryInput>)
    ensures r.Some? <==> CategoryValid(c)
    ensures r.Some? ==> CategoryValid(r.value) && r.value.sortOrder.Some? && r.value.isActive.Some?
    ensures r.Some? ==> r.value.sortOrder.value >= 0.0 && IsInt(r.value.sortOrder.value)
    ensures r.Some? && c.sortOrder.None? ==> r.value.sortOrder == Some(0.0)
    ensures r.Some? && c.isActive.None? ==> r.value.isActive == Some(true)
    ensures r.Some? ==> r.value.(sortOrder := c.sortOrder, isActive := c.isActive) == c
  {
    if CategoryValid(c) then Some(c.(sortOrder := Some(c.sortOrder.GetOr(0.0)), isActive := Some(c.isActive.GetOr(true))))
    else None
  }

  /** A parsed category parses to itself. */
  lemma ParseCategoryIdempotent(c: CategoryInput)
    requires ParseCategory(c).Some?
    ensures ParseCategory(ParseCategory(c).value) == ParseCategory(c)
  {
  }

  /** Creating checks exactly what the full schema checks, whatever non-empty id the row later gets. */
  lemma CreateCategoryIsCategoryWithoutId(c: CategoryInput, id: string)
    requires |id| >= 1
    ensures CreateCategoryValid(c) <==> CategoryValid(c.(id := Some(id)))
  {
  }

  /** An update accepts every valid category, and the empty update. */
  lemma UpdateCategoryAcceptsLess(c: CategoryInput)
    ensures CategoryValid(c) ==> UpdateCategoryValid(c)
    ensures UpdateCategoryValid(NoCategoryFields)
  {
  }

  // ---------------------------------------------------------------------------
  // Products

  datatype ProductInput = ProductInput(id: Option<string>, name: Option<string>, slug: Option<string>,
                                       description: Option<string>, shortDescription: Option<string>,
                                       categoryId: Option<string>, basePrice: Option<string>,
                                       isActive: Option<bool>, stockQuantity: Option<real>,
                                       minSlices: Option<real>, maxSlices: Option<real>,
                                       servingSize: Option<string>, preparationTime: Option<string>)

  const NoProductFields := ProductInput(None, None, None, None, None, None, None, None, None, None, None, None, None)

  /** The product field checks other than the id's, before the refinement. */
  predicate ProductFieldsValid(p: ProductInput)
  {
    ReqStr(p.name, 1, 255) && ReqSlug(p.slug) && OptStr(p.description, 5000) && OptStr(p.shortDescription, 500)
    && ReqPrice(p.basePrice) && OptIntAtLeast(p.stockQuantity, 0)
    && OptIntAtLeast(p.minSlices, 1) && OptIntAtLeast(p.maxSlices, 1)
    && OptStr(p.servingSize, 100) && OptStr(p.preparationTime, 100)
  }

  /** `productSchema`, with its slice refinement. */
  predicate ProductValid(p: ProductInput)
  {
    ReqId(p.id) && ProductFieldsValid(p) && RangeOk(p.minSlices, p.maxSlices)
  }

  /** `createProductSchema`: the product checks without the id. */
  predicate CreateProductValid(p: ProductInput)
  {
    ProductFieldsValid(p) && RangeOk(p.minSlices, p.maxSlices)
  }

  /** `updateProductSchema`: each field checked only when present, and the slice refinement. */
  predicate UpdateProductValid(p: ProductInput)
  {
    (p.name.None? || LenIn(p.name.value, 1, 255)) && (p.slug.None? || ReqSlug(p.slug))
    && OptStr(p.description, 5000) && OptStr(p.shortDescription, 500) && OptPrice(p.basePrice)
    && OptIntAtLeast(p.stockQuantity, 0) && OptIntAtLeast(p.minSlices, 1) && OptIntAtLeast(p.maxSlices, 1)
    && OptStr(p.servingSize, 100) && OptStr(p.preparationTime, 100) && RangeOk(p.minSlices, p.maxSlices)
  }

  /** `productSchema.parse`: active by default, with a stock of 0 when none is given. */
  function ParseProduct(p: ProductInput): (r: Option<ProductInput>)
    ensures r.Some? <==> ProductValid(p)
    ensures r.Some? ==> ProductValid(r.value) && r.value.isActive.Some? && r.value.stockQuantity.Some?
    ensures r.Some? ==> r.value.stockQuantity.value >= 0.0 && IsInt(r.value.stockQuantity.value)
    ensures r.Some? && p.stockQuantity.None? ==> r.value.stockQuantity == Some(0.0)
    ensures r.Some? && p.isActive.None? ==> r.value.isActive == Some(true)
    ensures r.Some? ==> r.value.(isActive := p.isActive, stockQuantity := p.stockQuantity) == p
  {
    if ProductValid(p) then Some(p.(isActive := Some(p.isActive.GetOr(true)), stockQuantity := Some(p.stockQuantity.GetOr(0.0))))
    else None
  }

  lemma ParseProductIdempotent(p: ProductInput)
    requires ParseProduct(p).Some?
    ensures ParseProduct(ParseProduct(p).value) == ParseProduct(p)
  {
  }

  /**
   * Slice counts are at least 1 and so always truthy: a product whose fields
   * pass is rejected exactly when both counts are given and the minimum
   * exceeds the maximum.
   */
  lemma ProductSlicesRejection(p: ProductInput)
    requires ReqId(p.id) && ProductFieldsValid(p)
    ensures !ProductValid(p) <==> p.minSlices.Some? && p.maxSlices.Some? && p.minSlices.value > p.maxSlices.value
  {
  }

  /** A product's slug is 1 to 255 characters of lower-case letters, digits and hyphens, and its price matches the price grammar. */
  lemma ProductSlugAndPrice(p: ProductInput)
    requires ProductValid(p)
    ensures 1 <= |p.slug.value| <= 255 && forall i :: 0 <= i < |p.slug.value| ==> IsSlugChar(p.slug.value[i])
    ensures exists whole, fraction :: p.basePrice.value == whole + fraction && PriceParts(whole, fraction)
  {
    PriceGrammar(p.basePrice.value);
  }

  lemma CreateProductIsProductWithoutId(p: ProductInput, id: string)
    requires |id| >= 1
    ensures CreateProductValid(p) <==> ProductValid(p.(id := Some(id)))
  {
  }

  lemma UpdateProductAcceptsLess(p: ProductInput)
    ensures ProductValid(p) ==> UpdateProductValid(p)
    ensures UpdateProductValid(NoProductFields)
  {
  }

  // ---------------------------------------------------------------------------
  // Variants

  datatype Dimensions = Dimensions(length: Option<real>, width: Option<real>, height: Option<real>)

  datatype Nutrition = Nutrition(calories: Option<real>, protein: Option<real>, carbs: Option<real>,
                                 fat: Option<real>, sugar: Option<real>)

  /** `variantAttributesSchema` without `customOptions`, which accepts any record. */
  datatype VariantAttributes = VariantAttributes(weight: Option<string>, dimensions: Option<Dimensions>,
                                                 nutritionalInfo: Option<Nutrition>, ingredients: Option<seq<string>>)

  predicate AttributesValid(a: Option<VariantAttributes>)
  {
    a.None? ||
    ((a.value.dimensions.None? ||
      (OptPositive(a.value.dimensions.value.length) && OptPositive(a.value.dimensions.value.width)
       && OptPositive(a.value.dimensions.value.height)))
     && (a.value.nutritionalInfo.None? ||
         (OptNumAtLeast(a.value.nutritionalInfo.value.calories, 0.0) && OptNumAtLeast(a.value.nutritionalInfo.value.protein, 0.0)
          && OptNumAtLeast(a.value.nutritionalInfo.value.carbs, 0.0) && OptNumAtLeast(a.value.nutritionalInfo.value.fat, 0.0)
          && OptNumAtLeast(a.value.nutritionalInfo.value.sugar, 0.0))))
  }

  datatype VariantInput = VariantInput(id: Option<string>, productId: Option<string>, name: Option<string>,
                                       sku: Option<string>, price: Option<string>, stockQuantity: Option<real>,
                                       isDefault: Option<bool>, flavor: Option<string>, size: Option<string>,
                                       variantType: Option<string>, attributes: Option<VariantAttributes>,
                                       description: Option<string>, isAvailable: Option<bool>)

  const NoVariantFields := VariantInput(None, None, None, None, None, None, None, None, None, None, None, None, None)

  predicate VariantFieldsValid(v: VariantInput)
  {
    ReqId(v.productId) && ReqStr(v.name, 1, 255) && OptStr(v.sku, 100) && ReqPrice(v.price)
    && OptIntAtLeast(v.stockQuantity, 0) && OptStr(v.flavor, 100) && OptStr(v.size, 100)
    && OptStr(v.variantType, 100) && AttributesValid(v.attributes) && OptStr(v.description, 1000)
  }

  /** `productVariantSchema`. */
  predicate VariantValid(v: VariantInput)
  {
    ReqId(v.id) && VariantFieldsValid(v)
  }

  /** `createProductVariantSchema`. */
  predicate CreateVariantValid(v: VariantInput)
  {
    VariantFieldsValid(v)
  }

  /** `updateProductVariantSchema`. */
  predicate UpdateVariantValid(v: VariantInput)
  {
    (v.productId.None? || ReqId(v.productId)) && (v.name.None? || LenIn(v.name.value, 1, 255))
    && OptStr(v.sku, 100) && OptPrice(v.price) && OptIntAtLeast(v.stockQuantity, 0) && OptStr(v.flavor, 100)
    && OptStr(v.size, 100) && OptStr(v.variantType, 100) && AttributesValid(v.attributes) && OptStr(v.description, 1000)
  }

  /** `productVariantSchema.parse`: stock 0, not the default variant, and available, unless given. */
  function ParseVariant(v: VariantInput): (r: Option<VariantInput>)
    ensures r.Some? <==> VariantValid(v)
    ensures r.Some? ==> VariantValid(r.value)
    ensures r.Some? ==> r.value.stockQuantity == Some(v.stockQuantity.GetOr(0.0))
    ensures r.Some? ==> r.value.isDefault == Some(v.isDefault.GetOr(false)) && r.value.isAvailable == Some(v.isAvailable.GetOr(true))
    ensures r.Some? ==> r.value.(stockQuantity := v.stockQuantity, isDefault := v.isDefault, isAvailable := v.isAvailable) == v
  {
    if VariantValid(v) then
      Some(v.(stockQuantity := Some(v.stockQuantity.GetOr(0.0)), isDefault := Some(v.isDefault.GetOr(false)),
              isAvailable := Some(v.isAvailable.GetOr(true))))
    else None
  }

  lemma ParseVariantIdempotent(v: VariantInput)
    requires ParseVariant(v).Some?
    ensures ParseVariant(ParseVariant(v).value) == ParseVariant(v)
  {
  }

  /** A zero or negative dimension is rejected; a zero nutrition figure is accepted. */
  lemma AttributeBounds(w: Option<string>)
    ensures !AttributesValid(Some(VariantAttributes(w, Some(Dimensions(Some(0.0), None, None)), None, None)))
    ensures AttributesValid(Some(VariantAttributes(w, None, Some(Nutrition(Some(0.0), Some(0.0), Some(0.0), Some(0.0), Some(0.0))), None)))
  {
  }

  lemma CreateVariantIsVariantWithoutId(v: VariantInput, id: string)
    requires |id| >= 1
    ensures CreateVariantValid(v) <==> VariantValid(v.(id := Some(id)))
  {
  }

  lemma UpdateVariantAcceptsLess(v: VariantInput)
    ensures VariantValid(v) ==> UpdateVariantValid(v)
    ensures UpdateVariantValid(NoVariantFields)
  {
  }

  // ---------------------------------------------------------------------------
  // Images

  /** `productImageSchema`; the URL's format is not checked here. */
  datatype ImageInput = ImageInput(id: Option<string>, productId: Option<string>, url: Option<string>,
                                   altText: Option<string>, sortOrder: Option<real>, isMain: Option<bool>)

  predicate ImageFieldsValid(m: ImageInput)
  {
    ReqId(m.productId) && m.url.Some? && OptStr(m.altText, 255) && OptIntAtLeast(m.sortOrder, 0)
  }

  predicate ImageValid(m: ImageInput)
  {
    ReqId(m.id) && ImageFieldsValid(m)
  }

  /** `createProductImageSchema`. */
  predicate CreateImageValid(m: ImageInput)
  {
    ImageFieldsValid(m)
  }

  /** `updateProductImageSchema`. */
  predicate UpdateImageValid(m: ImageInput)
  {
    (m.productId.None? || ReqId(m.productId)) && OptStr(m.altText, 255) && OptIntAtLeast(m.sortOrder, 0)
  }

  /** `productImageSchema.parse`: sort order 0 and not the main image unless given. */
  function ParseImage(m: ImageInput): (r: Option<ImageInput>)
    ensures r.Some? <==> ImageValid(m)
    ensures r.Some? ==> ImageValid(r.value)
    ensures r.Some? ==> r.value.sortOrder == Some(m.sortOrder.GetOr(0.0)) && r.value.isMain == Some(m.isMain.GetOr(false))
    ensures r.Some? ==> r.value.(sortOrder := m.sortOrder, isMain := m.isMain) == m
  {
    if ImageValid(m) then Some(m.(sortOrder := Some(m.sortOrder.GetOr(0.0)), isMain := Some(m.isMain.GetOr(false))))
    else None
  }

  lemma CreateImageIsImageWithoutId(m: ImageInput, id: string)
    requires |id| >= 1
    ensures CreateImageValid(m) <==> ImageValid(m.(id := Some(id)))
  {
  }

  lemma UpdateImageAcceptsLess(m: ImageInput)
    ensures ImageValid(m) ==> UpdateImageValid(m)
    ensures UpdateImageValid(ImageInput(None, None, None, None, None, None))
  {
  }

  // ---------------------------------------------------------------------------
  // Tags and allergens

  const TagTypes: seq<string> := ["dietary", "occasion", "flavor", "texture", "style", "other"]

  datatype TagInput = TagInput(id: Option<string>, name: Option<string>, tagType: Option<string>, color: Option<string>)

  predicate TagFieldsValid(t: TagInput)
  {
    ReqStr(t.name, 1, 100) && ReqIn(t.tagType, TagTypes) && (t.color.None? || IsHexColor(t.color.value))
  }

  /** `tagSchema`. */
  predicate TagValid(t: TagInput)
  {
    ReqId(t.id) && TagFieldsValid(t)
  }

  /** `createTagSchema`. */
  predicate CreateTagValid(t: TagInput)
  {
    TagFieldsValid(t)
  }

  /** `updateTagSchema`. */
  predicate UpdateTagValid(t: TagInput)
  {
    (t.name.None? || LenIn(t.name.value, 1, 100)) && OptIn(t.tagType, TagTypes) && (t.color.None? || IsHexColor(t.color.value))
  }

  /** A tag's type is one of the six kinds, and its colour, when given, is `#` and six hex digits. */
  lemma TagTypeAndColor(t: TagInput)
    requires TagValid(t)
    ensures t.tagType.value == "dietary" || t.tagType.value == "occasion" || t.tagType.value == "flavor"
            || t.tagType.value == "texture" || t.tagType.value == "style" || t.tagType.value == "other"
    ensures t.color.Some? ==> |t.color.value| == 7 && t.color.value[0] == '#'
                              && forall i :: 1 <= i < 7 ==> IsHexDigit(t.color.value[i])
  {
  }

  lemma CreateTagIsTagWithoutId(t: TagInput, id: string)
    requires |id| >= 1
    ensures CreateTagValid(t) <==> TagValid(t.(id := Some(id)))
  {
  }

  lemma UpdateTagAcceptsLess(t: TagInput)
    ensures TagValid(t) ==> UpdateTagValid(t)
    ensures UpdateTagValid(TagInput(None, None, None, None))
  {
  }

  const Severities: seq<string> := ["mild", "moderate", "severe"]

  datatype AllergenInput = AllergenInput(id: Option<string>, name: Option<string>, description: Option<string>,
                                         severity: Option<string>)

  predicate AllergenFieldsValid(a: AllergenInput)
  {
    ReqStr(a.name, 1, 100) && OptStr(a.description, 500) && OptIn(a.severity, Severities)
  }

  /** `allergenSchema`. */
  predicate AllergenValid(a: AllergenInput)
  {
    ReqId(a.id) && AllergenFieldsValid(a)
  }

  /** `createAllergenSchema`. */
  predicate CreateAllergenValid(a: AllergenInput)
  {
    AllergenFieldsValid(a)
  }

  /** `updateAllergenSchema`. */
  predicate UpdateAllergenValid(a: AllergenInput)
  {
    (a.name.None? || LenIn(a.name.value, 1, 100)) && OptStr(a.description, 500) && OptIn(a.severity, Severities)
  }

  /** A severity, when given, is mild, moderate or severe; leaving it out is allowed. */
  lemma AllergenSeverity(a: AllergenInput)
    ensures AllergenValid(a) && a.severity.Some? ==>
              a.severity.value == "mild" || a.severity.value == "moderate" || a.severity.value == "severe"
    ensures AllergenValid(a.(severity := None)) <==> ReqId(a.id) && ReqStr(a.name, 1, 100) && OptStr(a.description, 500)
  {
  }

  lemma CreateAllergenIsAllergenWithoutId(a: AllergenInput, id: string)
    requires |id| >= 1
    ensures CreateAllergenValid(a) <==> AllergenValid(a.(id := Some(id)))
  {
  }

  lemma UpdateAllergenAcceptsLess(a: AllergenInput)
    ensures AllergenValid(a) ==> UpdateAllergenValid(a)
    ensures UpdateAllergenValid(AllergenInput(None, None, None, None))
  {
  }

  // ---------------------------------------------------------------------------
  // Product links

  /** `productTagSchema`. */
  predicate ProductTagValid(productId: Option<string>, tagId: Option<string>)
  {
    ReqId(productId) && ReqId(tagId)
  }

  datatype ProductAllergenInput = ProductAllergenInput(productId: Option<string>, allergenId: Option<string>,
                                                       containsAllergen: Option<bool>, mayContain: Option<bool>)

  /** `productAllergenSchema`: `containsAllergen` must be given. */
  predicate ProductAllergenValid(x: ProductAllergenInput)
  {
    ReqId(x.productId) && ReqId(x.allergenId) && x.containsAllergen.Some?
  }

  /** `productAllergenSchema.parse`: "may contain" is false unless given. */
  function ParseProductAllergen(x: ProductAllergenInput): (r: Option<ProductAllergenInput>)
    ensures r.Some? <==> ProductAllergenValid(x)
    ensures r.Some? ==> ProductAllergenValid(r.value) && r.value.mayContain == Some(x.mayContain.GetOr(false))
    ensures r.Some? ==> r.value.(mayContain := x.mayContain) == x
  {
    if ProductAllergenValid(x) then Some(x.(mayContain := Some(x.mayContain.GetOr(false)))) else None
  }

  // ---------------------------------------------------------------------------
  // Filtering, sorting, bulk updates

  datatype ProductFilterInput = ProductFilterInput(categoryId: Option<string>, minPrice: Option<real>,
                                                   maxPrice: Option<real>, tags: Option<seq<string>>,
                                                   allergens: Option<seq<string>>, excludeAllergens: Option<seq<string>>,
                                                   minSlices: Option<real>, maxSlices: Option<real>,
                                                   isActive: Option<bool>, search: Option<string>)

  predicate ProductFilterFieldsValid(f: ProductFilterInput)
  {
    OptNumAtLeast(f.minPrice, 0.0) && OptNumAtLeast(f.maxPrice, 0.0)
    && OptIntAtLeast(f.minSlices, 1) && OptIntAtLeast(f.maxSlices, 1) && OptStr(f.search, 255)
  }

  /** `productFilterSchema`, with its price and slice refinements. */
  predicate ProductFilterValid(f: ProductFilterInput)
  {
    ProductFilterFieldsValid(f) && RangeOk(f.minPrice, f.maxPrice) && RangeOk(f.minSlices, f.maxSlices)
  }

  /**
   * The price refinement needs both bounds truthy: a minimum of 0 never
   * triggers it, whatever the maximum; two positive bounds must be ordered.
   */
  lemma ProductFilterPriceRefinement(f: ProductFilterInput)
    requires ProductFilterFieldsValid(f) && RangeOk(f.minSlices, f.maxSlices)
    ensures f.minPrice == Some(0.0) ==> ProductFilterValid(f)
    ensures f.minPrice.None? || f.maxPrice.None? ==> ProductFilterValid(f)
    ensures f.minPrice.Some? && f.maxPrice.Some? && f.minPrice.value > 0.0 && f.maxPrice.value > 0.0 ==>
              (ProductFilterValid(f) <==> f.minPrice.value <= f.maxPrice.value)
  {
  }

  /** A zero maximum price is also falsy: a positive minimum with maximum 0 passes. */
  lemma ProductFilterZeroMaxPasses(f: ProductFilterInput)
    requires ProductFilterFieldsValid(f) && RangeOk(f.minSlices, f.maxSlices)
    requires f.maxPrice == Some(0.0)
    ensures ProductFilterValid(f)
  {
  }

  /** `productSortSchema`. */
  const ProductSorts: seq<string> := ["name-asc", "name-desc", "price-asc", "price-desc", "created-asc", "created-desc", "popularity"]

  predicate ProductSortValid(s: string)
  {
    s in ProductSorts
  }

  /**
   * The `updates` object: its three declared fields, and `keys`, the keys the
   * input object has (a key given as `undefined` is among them, its field `None`).
   */
  datatype ProductUpdates = ProductUpdates(isActive: Option<bool>, categoryId: Option<string>, basePrice: Option<string>,
                                           keys: set<string>)

  /** `Object.keys(data).length > 0` on the parsed updates: some declared key is kept. */
  predicate HasUpdateKey(u: ProductUpdates)
  {
    KeyKept(u.isActive, "isActive", u.keys) || KeyKept(u.categoryId, "categoryId", u.keys)
    || KeyKept(u.basePrice, "basePrice", u.keys)
  }

  /** What the refinement's message asks for: at least one field is updated, that is, holds a value. */
  predicate HasUpdateValue(u: ProductUpdates)
  {
    u.isActive.Some? || u.categoryId.Some? || u.basePrice.Some?
  }

  /** No declared key of the updates is given as `undefined`. */
  predicate NoUndefinedUpdate(u: ProductUpdates)
  {
    NotUndefined(u.isActive, "isActive", u.keys) && NotUndefined(u.categoryId, "categoryId", u.keys)
    && NotUndefined(u.basePrice, "basePrice", u.keys)
  }

  /** `bulkProductUpdateSchema` as written. */
  predicate BulkProductUpdateValid(productIds: Option<seq<string>>, updates: Option<ProductUpdates>)
  {
    IdList(productIds) && updates.Some? && OptPrice(updates.value.basePrice) && HasUpdateKey(updates.value)
  }

  /** `bulkProductUpdateSchema` as intended: some field must really be updated. */
  predicate BulkProductUpdateIntended(productIds: Option<seq<string>>, updates: Option<ProductUpdates>)
  {
    IdList(productIds) && updates.Some? && OptPrice(updates.value.basePrice) && HasUpdateValue(updates.value)
  }

  /**
   * A bulk update needs at least one non-empty id and at least one update
   * key; one id and one field suffice.
   */
  lemma BulkProductUpdateNeeds(productIds: Option<seq<string>>, updates: Option<ProductUpdates>, id: string, keys: set<string>)
    ensures productIds == Some([]) || productIds.None? ==> !BulkProductUpdateValid(productIds, updates)
    ensures "isActive" !in keys && "categoryId" !in keys && "basePrice" !in keys ==>
              !BulkProductUpdateValid(productIds, Some(ProductUpdates(None, None, None, keys)))
    ensures |id| >= 1 ==> BulkProductUpdateValid(Some([id]), Some(ProductUpdates(Some(false), None, None, keys)))
  {
  }

  /**
   * The intended schema accepts exactly the updates the schema as written
   * accepts that change some field, and the two agree on input without a key
   * given as `undefined`.
   */
  lemma BulkProductUpdateIntendedMeaning(productIds: Option<seq<string>>, updates: Option<ProductUpdates>)
    ensures BulkProductUpdateIntended(productIds, updates)
            <==> BulkProductUpdateValid(productIds, updates) && HasUpdateValue(updates.value)
    ensures updates.Some? && NoUndefinedUpdate(updates.value) ==>
              (BulkProductUpdateIntended(productIds, updates) <==> BulkProductUpdateValid(productIds, updates))
  {
  }

  /** `{ isActive: undefined }` passes the schema as written though it updates nothing. */
  lemma UndefinedKeyCountsAsProductUpdate()
    ensures BulkProductUpdateValid(Some(["p1"]), Some(ProductUpdates(None, None, None, {"isActive"})))
    ensures !BulkProductUpdateIntended(Some(["p1"]), Some(ProductUpdates(None, None, None, {"isActive"})))
  {
  }
}
