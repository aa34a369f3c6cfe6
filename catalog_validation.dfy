/**
 * The catalogue-management input schemas: recipes with their ingredients,
 * instructions and images, product–recipe links, the recipe filter and sort,
 * duplication, the admin category and product forms, reordering, bulk
 * product operations, image uploads, search, export/import and the audit
 * log filter.
 */
module CatalogValidation {
  import opened Common
  import opened Zod

  const Difficulties: seq<string> := ["easy", "medium", "hard"]

  // ---------------------------------------------------------------------------
  // Recipes

  datatype IngredientInput = IngredientInput(name: Option<string>, amount: Option<string>, unit: Option<string>,
                                             notes: Option<string>)

  /** `recipeIngredientSchema`. */
  predicate IngredientValid(g: IngredientInput)
  {
    ReqStr(g.name, 1, 255) && OptStr(g.amount, 100) && OptStr(g.unit, 50) && OptStr(g.notes, 500)
  }

  datatype InstructionInput = InstructionInput(step: Option<real>, instruction: Option<string>,
                                               duration: Option<string>, temperature: Option<string>,
                                               notes: Option<string>)

  /** `recipeInstructionSchema`. */
  predicate InstructionValid(s: InstructionInput)
  {
    s.step.Some? && IntAtLeast(s.step.value, 1) && ReqStr(s.instruction, 1, 2000)
    && OptStr(s.duration, 100) && OptStr(s.temperature, 100) && OptStr(s.notes, 500)
  }

  datatype RecipeInput = RecipeInput(id: Option<string>, title: Option<string>, description: Option<string>,
                                     ingredients: Option<seq<IngredientInput>>,
                                     instructions: Option<seq<InstructionInput>>,
                                     prepTime: Option<real>, cookTime: Option<real>, totalTime: Option<real>,
                                     difficulty: Option<string>, servings: Option<real>, notes: Option<string>,
                                     isPrivate: Option<bool>, createdBy: Option<string>)

  const NoRecipeFields := RecipeInput(None, None, None, None, None, None, None, None, None, None, None, None, None)

  predicate IngredientsValid(gs: seq<IngredientInput>)
  {
    forall i :: 0 <= i < |gs| ==> IngredientValid(gs[i])
  }

  predicate InstructionsValid(ss: seq<InstructionInput>)
  {
    forall i :: 0 <= i < |ss| ==> InstructionValid(ss[i])
  }

  /** The recipe field checks other than the id's, before the refinement. */
  predicate RecipeFieldsValid(r: RecipeInput)
  {
    ReqStr(r.title, 1, 255) && OptStr(r.description, 2000)
    && r.ingredients.Some? && |r.ingredients.value| >= 1 && IngredientsValid(r.ingredients.value)
    && r.instructions.Some? && |r.instructions.value| >= 1 && InstructionsValid(r.instructions.value)
    && OptIntAtLeast(r.prepTime, 0) && OptIntAtLeast(r.cookTime, 0) && OptIntAtLeast(r.totalTime, 0)
    && OptIn(r.difficulty, Difficulties) && OptIntAtLeast(r.servings, 1) && OptStr(r.notes, 2000)
  }

  /** The refinement: with prep, cook and total time all truthy, the total covers the other two. */
  predicate TimesOk(r: RecipeInput)
  {
    TruthyNum(r.prepTime) && TruthyNum(r.cookTime) && TruthyNum(r.totalTime) ==>
      r.totalTime.value >= r.prepTime.value + r.cookTime.value
  }

  /** `recipeSchema`. */
  predicate RecipeValid(r: RecipeInput)
  {
    ReqId(r.id) && RecipeFieldsValid(r) && TimesOk(r)
  }

  /** `createRecipeSchema`. */
  predicate CreateRecipeValid(r: RecipeInput)
  {
    RecipeFieldsValid(r) && TimesOk(r)
  }

  /** `updateRecipeSchema`: every field optional; lists, when given, still need an entry. */
  predicate UpdateRecipeValid(r: RecipeInput)
  {
    (r.title.None? || LenIn(r.title.value, 1, 255)) && OptStr(r.description, 2000)
    && (r.ingredients.None? || (|r.ingredients.value| >= 1 && IngredientsValid(r.ingredients.value)))
    && (r.instructions.None? || (|r.instructions.value| >= 1 && InstructionsValid(r.instructions.value)))
    && OptIntAtLeast(r.prepTime, 0) && OptIntAtLeast(r.cookTime, 0) && OptIntAtLeast(r.totalTime, 0)
    && OptIn(r.difficulty, Difficulties) && OptIntAtLeast(r.servings, 1) && OptStr(r.notes, 2000) && TimesOk(r)
  }

  /** `recipeSchema.parse`: a recipe is private unless told otherwise. */
  function ParseRecipe(r: RecipeInput): (res: Option<RecipeInput>)
    ensures res.Some? <==> RecipeValid(r)
    ensures res.Some? ==> RecipeValid(res.value) && res.value.isPrivate == Some(r.isPrivate.GetOr(true))
    ensures res.Some? ==> res.value.(isPrivate := r.isPrivate) == r
  {
    if RecipeValid(r) then Some(r.(isPrivate := Some(r.isPrivate.GetOr(true)))) else None
  }

  /**
   * With all three times positive the total must be at least prep plus cook;
   * a zero time is falsy, so it switches the check off even when the total
   * is then smaller than the other two.
   */
  lemma RecipeTimeRefinement(r: RecipeInput)
    requires ReqId(r.id) && RecipeFieldsValid(r)
    ensures r.prepTime.Some? && r.cookTime.Some? && r.totalTime.Some?
            && r.prepTime.value > 0.0 && r.cookTime.value > 0.0 && r.totalTime.value > 0.0 ==>
              (RecipeValid(r) <==> r.totalTime.value >= r.prepTime.value + r.cookTime.value)
    ensures r.prepTime.None? || r.cookTime.None? || r.totalTime.None? ==> RecipeValid(r)
    ensures r.totalTime == Some(0.0) || r.prepTime == Some(0.0) || r.cookTime == Some(0.0) ==> RecipeValid(r)
  {
  }

  /** A recipe has an ingredient and an instruction, and every step number is an integer of at least 1. */
  lemma RecipeHasSteps(r: RecipeInput)
    requires RecipeValid(r)
    ensures |r.ingredients.value| >= 1 && |r.instructions.value| >= 1
    ensures forall i :: 0 <= i < |r.instructions.value| ==>
              r.instructions.value[i].step.Some? && IsInt(r.instructions.value[i].step.value)
              && r.instructions.value[i].step.value >= 1.0
    ensures !RecipeValid(r.(ingredients := Some([]))) && !RecipeValid(r.(instructions := Some([])))
  {
    assert InstructionsValid(r.instructions.value);
  }

  lemma CreateRecipeIsRecipeWithoutId(r: RecipeInput, id: string)
    requires |id| >= 1
    ensures CreateRecipeValid(r) <==> RecipeValid(r.(id := Some(id)))
  {
  }

  lemma UpdateRecipeAcceptsLess(r: RecipeInput)
    ensures RecipeValid(r) ==> UpdateRecipeValid(r)
    ensures UpdateRecipeValid(NoRecipeFields)
  {
  }

  // ---------------------------------------------------------------------------
  // Recipe images and product links

  /** `recipeImageSchema`; the URL's format is not checked here. */
  datatype RecipeImageInput = RecipeImageInput(id: Option<string>, recipeId: Option<string>, url: Option<string>,
                                               altText: Option<string>, sortOrder: Option<real>)

  predicate RecipeImageFieldsValid(m: RecipeImageInput)
  {
    ReqId(m.recipeId) && m.url.Some? && OptStr(m.altText, 255) && OptIntAtLeast(m.sortOrder, 0)
  }

  predicate RecipeImageValid(m: RecipeImageInput)
  {
    ReqId(m.id) && RecipeImageFieldsValid(m)
  }

  /** `createRecipeImageSchema`. */
  predicate CreateRecipeImageValid(m: RecipeImageInput)
  {
    RecipeImageFieldsValid(m)
  }

  /** `updateRecipeImageSchema`. */
  predicate UpdateRecipeImageValid(m: RecipeImageInput)
  {
    (m.recipeId.None? || ReqId(m.recipeId)) && OptStr(m.altText, 255) && OptIntAtLeast(m.sortOrder, 0)
  }

  /** `recipeImageSchema.parse`: sort order 0 unless given. */
  function ParseRecipeImage(m: RecipeImageInput): (r: Option<RecipeImageInput>)
    ensures r.Some? <==> RecipeImageValid(m)
    ensures r.Some? ==> RecipeImageValid(r.value) && r.value.sortOrder == Some(m.sortOrder.GetOr(0.0))
    ensures r.Some? ==> r.value.(sortOrder := m.sortOrder) == m
  {
    if RecipeImageValid(m) then Some(m.(sortOrder := Some(m.sortOrder.GetOr(0.0)))) else None
  }

  lemma CreateRecipeImageIsImageWithoutId(m: RecipeImageInput, id: string)
    requires |id| >= 1
    ensures CreateRecipeImageValid(m) <==> RecipeImageValid(m.(id := Some(id)))
  {
  }

  lemma UpdateRecipeImageAcceptsLess(m: RecipeImageInput)
    ensures RecipeImageValid(m) ==> UpdateRecipeImageValid(m)
    ensures UpdateRecipeImageValid(RecipeImageInput(None, None, None, None, None))
  {
  }

  datatype ProductRecipeInput = ProductRecipeInput(productId: Option<string>, recipeId: Option<string>,
                                                   isMainRecipe: Option<bool>)

  /** `productRecipeSchema.parse`: both ids required; not the main recipe unless given. */
  function ParseProductRecipe(x: ProductRecipeInput): (r: Option<ProductRecipeInput>)
    ensures r.Some? <==> ReqId(x.productId) && ReqId(x.recipeId)
    ensures r.Some? ==> r.value.isMainRecipe == Some(x.isMainRecipe.GetOr(false))
    ensures r.Some? ==> r.value.(isMainRecipe := x.isMainRecipe) == x
  {
    if ReqId(x.productId) && ReqId(x.recipeId) then Some(x.(isMainRecipe := Some(x.isMainRecipe.GetOr(false)))) else None
  }

  // ---------------------------------------------------------------------------
  // Recipe filter, sort and duplication

  datatype RecipeFilterInput = RecipeFilterInput(difficulty: Option<string>, maxPrepTime: Option<real>,
                                                 maxCookTime: Option<real>, maxTotalTime: Option<real>,
                                                 minServings: Option<real>, maxServings: Option<real>,
                                                 isPrivate: Option<bool>, createdBy: Option<string>,
                                                 hasProducts: Option<bool>, search: Option<string>)

  predicate RecipeFilterFieldsValid(f: RecipeFilterInput)
  {
    OptIn(f.difficulty, Difficulties) && OptIntAtLeast(f.maxPrepTime, 0) && OptIntAtLeast(f.maxCookTime, 0)
    && OptIntAtLeast(f.maxTotalTime, 0) && OptIntAtLeast(f.minServings, 1) && OptIntAtLeast(f.maxServings, 1)
    && OptStr(f.search, 255)
  }

  /** `recipeFilterSchema`, with its servings refinement. */
  predicate RecipeFilterValid(f: RecipeFilterInput)
  {
    RecipeFilterFieldsValid(f) && RangeOk(f.minServings, f.maxServings)
  }

  /** Servings bounds are at least 1, so the refinement rejects exactly a minimum above a given maximum. */
  lemma RecipeFilterServings(f: RecipeFilterInput)
    requires RecipeFilterFieldsValid(f)
    ensures !RecipeFilterValid(f) <==> f.minServings.Some? && f.maxServings.Some? && f.minServings.value > f.maxServings.value
  {
  }

  /** `recipeSortSchema`. */
  const RecipeSorts: seq<string> := ["title-asc", "title-desc", "created-asc", "created-desc", "updated-asc",
                                     "updated-desc", "time-asc", "time-desc", "difficulty-asc", "difficulty-desc"]

  predicate RecipeSortValid(s: string)
  {
    s in RecipeSorts
  }

  /** `duplicateRecipeSchema`. */
  predicate DuplicateRecipeValid(originalId: Option<string>, title: Option<string>, createdBy: Option<string>)
  {
    ReqId(originalId) && ReqStr(title, 1, 255)
  }

  // ---------------------------------------------------------------------------
  // Admin categories and products

  datatype AdminCategoryInput = AdminCategoryInput(id: Option<string>, name: Option<string>, slug: Option<string>,
                                                   description: Option<string>, parentId: Option<string>,
                                                   sortOrder: Option<real>, isActive: Option<bool>)

  predicate AdminCategoryFieldsValid(c: AdminCategoryInput)
  {
    ReqStr(c.name, 1, 255) && ReqSlug(c.slug) && OptStr(c.description, 2000) && OptIntAtLeast(c.sortOrder, 0)
  }

  /** `adminCategorySchema`. */
  predicate AdminCategoryValid(c: AdminCategoryInput)
  {
    ReqId(c.id) && AdminCategoryFieldsValid(c)
  }

  /** `createAdminCategorySchema`. */
  predicate CreateAdminCategoryValid(c: AdminCategoryInput)
  {
    AdminCategoryFieldsValid(c)
  }

  /** `updateAdminCategorySchema`. */
  predicate UpdateAdminCategoryValid(c: AdminCategoryInput)
  {
    (c.name.None? || LenIn(c.name.value, 1, 255)) && (c.slug.None? || ReqSlug(c.slug))
    && OptStr(c.description, 2000) && OptIntAtLeast(c.sortOrder, 0)
  }

  /** `adminCategorySchema.parse`: sort order 0 and active unless given. */
  function ParseAdminCategory(c: AdminCategoryInput): (r: Option<AdminCategoryInput>)
    ensures r.Some? <==> AdminCategoryValid(c)
    ensures r.Some? ==> AdminCategoryValid(r.value)
    ensures r.Some? ==> r.value.sortOrder == Some(c.sortOrder.GetOr(0.0)) && r.value.isActive == Some(c.isActive.GetOr(true))
    ensures r.Some? ==> r.value.(sortOrder := c.sortOrder, isActive := c.isActive) == c
  {
    if AdminCategoryValid(c) then Some(c.(sortOrder := Some(c.sortOrder.GetOr(0.0)), isActive := Some(c.isActive.GetOr(true))))
    else None
  }

  lemma CreateAdminCategoryIsCategoryWithoutId(c: AdminCategoryInput, id: string)
    requires |id| >= 1
    ensures CreateAdminCategoryValid(c) <==> AdminCategoryValid(c.(id := Some(id)))
  {
  }

  lemma UpdateAdminCategoryAcceptsLess(c: AdminCategoryInput)
    ensures AdminCategoryValid(c) ==> UpdateAdminCategoryValid(c)
    ensures UpdateAdminCategoryValid(AdminCategoryInput(None, None, None, None, None, None, None))
  {
  }

  datatype AdminProductInput = AdminProductInput(id: Option<string>, name: Option<string>, slug: Option<string>,
                                                 description: Option<string>, shortDescription: Option<string>,
                                                 categoryId: Option<string>, basePrice: Option<string>,
                                                 isActive: Option<bool>, stockQuantity: Option<real>,
                                                 minSlices: Option<real>, maxSlices: Option<real>,
                                                 servingSize: Option<string>, preparationTime: Option<string>)

  predicate AdminProductFieldsValid(p: AdminProductInput)
  {
    ReqStr(p.name, 1, 255) && ReqSlug(p.slug) && OptStr(p.description, 10000) && OptStr(p.shortDescription, 1000)
    && ReqPrice(p.basePrice) && OptIntAtLeast(p.stockQuantity, 0)
    && OptIntAtLeast(p.minSlices, 1) && OptIntAtLeast(p.maxSlices, 1)
    && OptStr(p.servingSize, 200) && OptStr(p.preparationTime, 200)
  }

  /** `adminProductSchema`, with its slice refinement. */
  predicate AdminProductValid(p: AdminProductInput)
  {
    ReqId(p.id) && AdminProductFieldsValid(p) && RangeOk(p.minSlices, p.maxSlices)
  }

  /** `createAdminProductSchema`. */
  predicate CreateAdminProductValid(p: AdminProductInput)
  {
    AdminProductFieldsValid(p) && RangeOk(p.minSlices, p.maxSlices)
  }

  /** `updateAdminProductSchema`. */
  predicate UpdateAdminProductValid(p: AdminProductInput)
  {
    (p.name.None? || LenIn(p.name.value, 1, 255)) && (p.slug.None? || ReqSlug(p.slug))
    && OptStr(p.description, 10000) && OptStr(p.shortDescription, 1000) && OptPrice(p.basePrice)
    && OptIntAtLeast(p.stockQuantity, 0) && OptIntAtLeast(p.minSlices, 1) && OptIntAtLeast(p.maxSlices, 1)
    && OptStr(p.servingSize, 200) && OptStr(p.preparationTime, 200) && RangeOk(p.minSlices, p.maxSlices)
  }

  /** `adminProductSchema.parse`: active and a stock of 0 unless given. */
  function ParseAdminProduct(p: AdminProductInput): (r: Option<AdminProductInput>)
    ensures r.Some? <==> AdminProductValid(p)
    ensures r.Some? ==> AdminProductValid(r.value)
    ensures r.Some? ==> r.value.isActive == Some(p.isActive.GetOr(true)) && r.value.stockQuantity == Some(p.stockQuantity.GetOr(0.0))
    ensures r.Some? ==> r.value.(isActive := p.isActive, stockQuantity := p.stockQuantity) == p
  {
    if AdminProductValid(p) then Some(p.(isActive := Some(p.isActive.GetOr(true)), stockQuantity := Some(p.stockQuantity.GetOr(0.0))))
    else None
  }

  /** As for the storefront product, the slices refinement rejects exactly a minimum above a given maximum. */
  lemma AdminProductSlicesRejection(p: AdminProductInput)
    requires ReqId(p.id) && AdminProductFieldsValid(p)
    ensures !AdminProductValid(p) <==> p.minSlices.Some? && p.maxSlices.Some? && p.minSlices.value > p.maxSlices.value
  {
  }

  lemma CreateAdminProductIsProductWithoutId(p: AdminProductInput, id: string)
    requires |id| >= 1
    ensures CreateAdminProductValid(p) <==> AdminProductValid(p.(id := Some(id)))
  {
  }

  lemma UpdateAdminProductAcceptsLess(p: AdminProductInput)
    ensures AdminProductValid(p) ==> UpdateAdminProductValid(p)
    ensures UpdateAdminProductValid(AdminProductInput(None, None, None, None, None, None, None, None, None, None, None, None, None))
  {
  }

  // ---------------------------------------------------------------------------
  // Reordering and bulk operations

  datatype SortEntry = SortEntry(id: Option<string>, sortOrder: Option<real>)

  /** `reorderCategoriesSchema`: at least one entry, each with an id and an integer sort order of at least 0. */
  predicate ReorderValid(categories: Option<seq<SortEntry>>)
  {
    categories.Some? && |categories.value| >= 1
    && forall i :: 0 <= i < |categories.value| ==>
         ReqId(categories.value[i].id) && categories.value[i].sortOrder.Some?
         && IntAtLeast(categories.value[i].sortOrder.value, 0)
  }

  /** An empty reorder is rejected, and so is one negative position anywhere in the list. */
  lemma ReorderBounds(entries: seq<SortEntry>, k: nat)
    requires k < |entries| && entries[k].sortOrder.Some? && entries[k].sortOrder.value < 0.0
    ensures !ReorderValid(Some([])) && !ReorderValid(Some(entries))
  {
  }

  const BulkOperations: seq<string> := ["activate", "deactivate", "delete", "update-category", "update-price"]

  datatype BulkData = BulkData(isActive: Option<bool>, categoryId: Option<string>, basePrice: Option<string>)

  /** The refinement: `update-category` needs a truthy category id and `update-price` a truthy price. */
  predicate OperationDataOk(operation: string, data: Option<BulkData>)
  {
    (operation == "update-category" ==> data.Some? && TruthyStr(data.value.categoryId))
    && (operation == "update-price" ==> data.Some? && TruthyStr(data.value.basePrice))
  }

  /** `bulkProductOperationSchema`. */
  predicate BulkOperationValid(productIds: Option<seq<string>>, operation: Option<string>, data: Option<BulkData>)
  {
    IdList(productIds) && ReqIn(operation, BulkOperations) && (data.None? || OptPrice(data.value.basePrice))
    && OperationDataOk(operation.value, data)
  }

  /** Only the two update operations read `data`; the other three pass without it. */
  lemma BulkOperationData(productIds: Option<seq<string>>, operation: string, data: Option<BulkData>)
    requires IdList(productIds) && operation in BulkOperations && (data.None? || OptPrice(data.value.basePrice))
    ensures operation == "update-category" ==>
              (BulkOperationValid(productIds, Some(operation), data) <==> data.Some? && TruthyStr(data.value.categoryId))
    ensures operation == "update-price" ==>
              (BulkOperationValid(productIds, Some(operation), data) <==> data.Some? && TruthyStr(data.value.basePrice))
    ensures operation != "update-category" && operation != "update-price" ==>
              BulkOperationValid(productIds, Some(operation), data)
  {
  }

  // ---------------------------------------------------------------------------
  // Uploads, search, export/import, audit log

  /** The two fields of a `File` the schemas read. */
  datatype FileInfo = FileInfo(mimeType: string, size: int)

  const ImageTypes: seq<string> := ["image/jpeg", "image/jpg", "image/png", "image/webp"]

  const MaxImageBytes := 5 * 1024 * 1024

  /** `imageUploadSchema`: a file of an allowed type and at most 5 MiB. */
  predicate ImageUploadValid(file: Option<FileInfo>, altText: Option<string>, sortOrder: Option<real>)
  {
    file.Some? && OptStr(altText, 255) && OptIntAtLeast(sortOrder, 0)
    && file.value.mimeType in ImageTypes && file.value.size <= MaxImageBytes
  }

  /** An upload passes the file checks exactly for a JPEG, PNG or WebP image of at most 5242880 bytes. */
  lemma ImageUploadFile(f: FileInfo)
    ensures ImageUploadValid(Some(f), None, None) <==>
              (f.mimeType == "image/jpeg" || f.mimeType == "image/jpg" || f.mimeType == "image/png"
               || f.mimeType == "image/webp") && f.size <= 5242880
  {
  }

  const SearchTypes: seq<string> := ["all", "categories", "products", "recipes"]
  const SearchSortFields: seq<string> := ["name", "title", "createdAt", "updatedAt", "price"]
  const Directions: seq<string> := ["asc", "desc"]

  datatype SearchFilters = SearchFilters(categoryId: Option<string>, isActive: Option<bool>, isPrivate: Option<bool>,
                                         difficulty: Option<string>, priceMin: Option<real>, priceMax: Option<real>)
  datatype SearchSort = SearchSort(field: Option<string>, direction: Option<string>)
  datatype Pagination = Pagination(page: Option<real>, limit: Option<real>)
  datatype SearchInput = SearchInput(query: Option<string>, searchType: Option<string>, filters: Option<SearchFilters>,
                                     sort: Option<SearchSort>, pagination: Option<Pagination>)

  predicate PaginationValid(p: Pagination)
  {
    OptIntAtLeast(p.page, 1) && OptIntIn(p.limit, 1, 100)
  }

  /** `catalogSearchSchema`. */
  predicate SearchValid(s: SearchInput)
  {
    OptStr(s.query, 255) && OptIn(s.searchType, SearchTypes)
    && (s.filters.None? || (OptIn(s.filters.value.difficulty, Difficulties) && OptNumAtLeast(s.filters.value.priceMin, 0.0)
                            && OptNumAtLeast(s.filters.value.priceMax, 0.0)))
    && (s.sort.None? || (ReqIn(s.sort.value.field, SearchSortFields) && OptIn(s.sort.value.direction, Directions)))
    && (s.pagination.None? || PaginationValid(s.pagination.value))
  }

  /**
   * `catalogSearchSchema.parse`: the search type defaults to "all"; a sort
   * that is given sorts descending unless told otherwise; pagination that is
   * given starts on page 1 with 20 results unless told otherwise. Objects
   * that are absent stay absent.
   */
  function ParseSearch(s: SearchInput): (r: Option<SearchInput>)
    ensures r.Some? <==> SearchValid(s)
    ensures r.Some? ==> SearchValid(r.value) && r.value.searchType == Some(s.searchType.GetOr("all"))
    ensures r.Some? ==> r.value.query == s.query && r.value.filters == s.filters
    ensures r.Some? ==> (r.value.sort.Some? <==> s.sort.Some?) && (r.value.pagination.Some? <==> s.pagination.Some?)
    ensures r.Some? && s.sort.Some? ==>
              r.value.sort.value == SearchSort(s.sort.value.field, Some(s.sort.value.direction.GetOr("desc")))
    ensures r.Some? && s.pagination.Some? ==>
              r.value.pagination.value == Pagination(Some(s.pagination.value.page.GetOr(1.0)), Some(s.pagination.value.limit.GetOr(20.0)))
  {
    if !SearchValid(s) then None
    else
      Some(SearchInput(s.query, Some(s.searchType.GetOr("all")), s.filters,
                       if s.sort.Some? then Some(SearchSort(s.sort.value.field, Some(s.sort.value.direction.GetOr("desc")))) else None,
                       if s.pagination.Some? then Some(Pagination(Some(s.pagination.value.page.GetOr(1.0)), Some(s.pagination.value.limit.GetOr(20.0)))) else None))
  }

  /** Parsed pagination has a whole page number of at least 1 and a whole limit between 1 and 100. */
  lemma SearchPaginationBounds(s: SearchInput)
    requires ParseSearch(s).Some? && s.pagination.Some?
    ensures var p := ParseSearch(s).value.pagination.value;
            p.page.Some? && IsInt(p.page.value) && p.page.value >= 1.0
            && p.limit.Some? && IsInt(p.limit.value) && 1.0 <= p.limit.value <= 100.0
  {
  }

  const ExportTypes: seq<string> := ["categories", "products", "recipes", "all"]
  const ExportFormats: seq<string> := ["json", "csv"]

  datatype ExportInput = ExportInput(exportType: Option<string>, format: Option<string>, includeInactive: Option<bool>,
                                     includeImages: Option<bool>, categoryIds: Option<seq<string>>,
                                     dateFrom: Option<int>, dateTo: Option<int>)

  /** `catalogExportSchema.parse`: JSON, active rows only and with images, unless told otherwise. */
  function ParseExport(x: ExportInput): (r: Option<ExportInput>)
    ensures r.Some? <==> ReqIn(x.exportType, ExportTypes) && OptIn(x.format, ExportFormats)
    ensures r.Some? ==> r.value.format == Some(x.format.GetOr("json"))
                        && r.value.includeInactive == Some(x.includeInactive.GetOr(false))
                        && r.value.includeImages == Some(x.includeImages.GetOr(true))
    ensures r.Some? ==> r.value.(format := x.format, includeInactive := x.includeInactive, includeImages := x.includeImages) == x
  {
    if ReqIn(x.exportType, ExportTypes) && OptIn(x.format, ExportFormats) then
      Some(x.(format := Some(x.format.GetOr("json")), includeInactive := Some(x.includeInactive.GetOr(false)),
              includeImages := Some(x.includeImages.GetOr(true))))
    else None
  }

  const ImportTypes: seq<string> := ["categories", "products", "recipes"]
  const ImportFileTypes: seq<string> := ["application/json", "text/csv", "application/vnd.ms-excel"]

  datatype ImportOptions = ImportOptions(overwriteExisting: Option<bool>, skipDuplicates: Option<bool>, validateOnly: Option<bool>)

  /** The import options after defaults: overwrite nothing, skip duplicates, really import. */
  function ImportOptionsDefaults(o: Option<ImportOptions>): (r: ImportOptions)
    ensures r.overwriteExisting.Some? && r.skipDuplicates.Some? && r.validateOnly.Some?
    ensures o.None? ==> r == ImportOptions(Some(false), Some(true), Some(false))
    ensures o.Some? ==> r.overwriteExisting == Some(o.value.overwriteExisting.GetOr(false))
                        && r.skipDuplicates == Some(o.value.skipDuplicates.GetOr(true))
                        && r.validateOnly == Some(o.value.validateOnly.GetOr(false))
  {
    var v := o.GetOr(ImportOptions(None, None, None));
    ImportOptions(Some(v.overwriteExisting.GetOr(false)), Some(v.skipDuplicates.GetOr(true)), Some(v.validateOnly.GetOr(false)))
  }

  /** `catalogImportSchema`: a JSON, CSV or Excel file and an import type. */
  predicate ImportValid(file: Option<FileInfo>, importType: Option<string>)
  {
    file.Some? && ReqIn(importType, ImportTypes) && file.value.mimeType in ImportFileTypes
  }

  /** An absent options object and an empty one get the same defaults. */
  lemma ImportOptionsDefaultSame()
    ensures ImportOptionsDefaults(None) == ImportOptionsDefaults(Some(ImportOptions(None, None, None)))
  {
  }

  const AuditEntityTypes: seq<string> := ["category", "product", "recipe"]
  const AuditActions: seq<string> := ["create", "update", "delete", "activate", "deactivate"]

  datatype AuditFilterInput = AuditFilterInput(entityType: Option<string>, entityId: Option<string>, userId: Option<string>,
                                               action: Option<string>, dateFrom: Option<int>, dateTo: Option<int>,
                                               limit: Option<real>, offset: Option<real>)

  predicate AuditFilterValid(a: AuditFilterInput)
  {
    OptIn(a.entityType, AuditEntityTypes) && OptIn(a.action, AuditActions)
    && OptIntIn(a.limit, 1, 1000) && OptIntAtLeast(a.offset, 0)
  }

  /** `auditLogFilterSchema.parse`: 100 entries from offset 0 unless told otherwise. */
  function ParseAuditFilter(a: AuditFilterInput): (r: Option<AuditFilterInput>)
    ensures r.Some? <==> AuditFilterValid(a)
    ensures r.Some? ==> AuditFilterValid(r.value)
    ensures r.Some? ==> r.value.limit == Some(a.limit.GetOr(100.0)) && r.value.offset == Some(a.offset.GetOr(0.0))
    ensures r.Some? ==> var l := r.value.limit.value; IsInt(l) && 1.0 <= l <= 1000.0 && r.value.offset.value >= 0.0
    ensures r.Some? ==> r.value.(limit := a.limit, offset := a.offset) == a
  {
    if AuditFilterValid(a) then Some(a.(limit := Some(a.limit.GetOr(100.0)), offset := Some(a.offset.GetOr(0.0)))) else None
  }
}
