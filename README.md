# Dee's Delicious Bakes — a Dafny model of the storefront core

This project models the logic at the heart of the Dee's Delicious Bakes
storefront (a Next.js and TypeScript bakery shop with an admin dashboard) and
proves properties of it. The model covers:

- **The category hierarchy.** The database-backed categories (`getCategoryTree`
  builds the tree, `getCategoryBreadcrumb` walks up the parent links), the
  admin dialog that picks a parent and derives a slug, the indented category
  table, the delete dialog that refuses a category with products or
  sub-categories, and the static bakery category list with its slug lookups.
- **Catalogue queries.** The filter conditions, sort orders and result
  enhancement of the product and recipe queries, the recommendation
  post-filter, the recipe lookups, deletion and duplication, the message
  thread pages, unread counts and recent activity, and the filter suggestions.
  A query is modelled by the rows it can return from an in-memory table.
- **Domain guards.** The status guards, product availability and the cart item
  count.
- **Input validation.** The zod schemas for products, the admin catalogue,
  carts and wishlists, orders, messages and custom requests, and the
  newsletter. Each schema is a predicate over a record of optional fields,
  and `parse` fills the defaults. The create, update and filter variants are
  tied to the full schemas by lemmas. The validation helpers that wrap
  `parse` and `safeParse` and format issues are modelled too.
- **Email sending.** The unified email service and the newsletter sender:
  recipient checks, template lookup, branding, the request handed to Resend
  and the retry loop with its linear back-off. Resend's answer is a
  parameter of the model.

The code is followed wherever it differs from the documentation. The recipe
filters "maximum preparation time", "maximum cooking time", "minimum
servings" and "maximum servings" compare for *equality*, as
`src/lib/data/recipes.ts` does, and the model proves it
(`Recipes.MaxTimeIsEquality`, `Recipes.ServingsBoundsAreEquality`).
The custom-request search joins its raw `OR` fragment into the other
conditions without brackets, so a description hit bypasses the status and
quote filters. The model states that query as written
(`Messages.RequestMatchesAsWritten`) beside the intended one
(`Messages.RequestMatches`); see "## Findings". A parent cycle makes the
dialog's descendant check overflow the stack, which the dialog catches and
keeps its previous parent list (`CategoryDialog.LoadParents`).

Each source file is one Dafny module. `Common` holds the shared helpers:
`Option`, `Result`, JavaScript truthiness, ASCII lower-casing and number
formatting. `Zod` holds the building blocks of the schemas. Code that changes
things step by step is a method with loops, proved against a specification
function:

- the tree builder and the breadcrumb walk;
- the category table renderer;
- the filter-condition builders;
- the retry loops.

The recent-activity feed calls JavaScript's `sort`, not a loop of its own, so
it is a function: a recursive, stable insertion sort (`Messages.SortDesc`)
proved to return its input newest first.

## Model

| member | source | states |
|---|---|---|
| Categories.BuildCategoryTree | src/lib/data/categories.ts:248-273 | every id of the input has a node and a children list; each node is the last input record with its id; each children list is the ids of the records whose truthy parentId names that parent, in input order; the roots are the records with a falsy parentId, in input order; the input order stands for the query's ORDER BY sortOrder, name |
| Categories.PrefixStep | src/lib/data/categories.ts:258-270 | one more record adds its id at the end of the root list (falsy parentId) or of its parent's children list, and nowhere else |
| Categories.ActiveRows | src/lib/data/categories.ts:45 | a row is kept exactly when it is in the table and active |
| Categories.GetCategoryTree | src/lib/data/categories.ts:65-68 | the tree holds only active categories; roots and children lists are those of the active rows alone |
| Categories.RootIdsExactly | src/lib/data/categories.ts:258-270 | an id is a root exactly when some record with that id has a null or empty parentId |
| Categories.ChildIdsExactly | src/lib/data/categories.ts:258-270 | an id is listed under p exactly when some record with that id has the truthy parentId p |
| Categories.MissingParentDropsCategory | src/lib/data/categories.ts:261-269 | a record whose parentId names no category of the input is neither a root nor a child of any category |
| Categories.DistinctIdsAreKeys | src/lib/data/categories.ts:253-255 | with distinct ids, two records with the same id are the same record, so the id map loses nothing |
| Categories.RootIdsNoDuplicates | src/lib/data/categories.ts:258-270 | with distinct ids the root list repeats no id |
| Categories.ChildIdsNoDuplicates | src/lib/data/categories.ts:258-270 | with distinct ids no children list repeats an id |
| Categories.PlacedAtMostOnce | src/lib/data/categories.ts:258-270 | with distinct ids a category is never both a root and a child, and is the child of at most one parent |
| Categories.Lookup | src/lib/data/categories.ts:208-233 | the lookup by id returns a table row with that id, and returns nothing exactly when no row has that id |
| Categories.TreePathWalkEnds | src/lib/data/categories.ts:248-273 | every category reachable from the roots of the tree has a parent walk that ends |
| Categories.CycleNodeUnreachable | src/lib/data/categories.ts:258-270 | a category on a parent cycle cannot be reached from the roots, so the tree silently leaves it out |
| Categories.InactiveParentHidesChild | src/lib/data/categories.ts:45-68 | an active category whose parent is inactive is neither a root nor a child in the shopper-facing tree |
| Categories.GetCategoryBreadcrumb | src/lib/data/categories.ts:199-243 | the loop returns the ancestry of the category: the rows met by following parentId from the category upwards, root first |
| Categories.AncestryFuelIrrelevant | src/lib/data/categories.ts:203-240 | once the parent walk ends, how many steps it was allowed does not change the breadcrumb |
| Categories.BreadcrumbShape | src/lib/data/categories.ts:199-243 | each entry is the table row of its id; each entry's parentId is the id of the entry before it; the first entry has a falsy or unknown parent; a known category is the last entry; an unknown or falsy id gives an empty breadcrumb |
| Categories.UnknownIdGivesEmptyBreadcrumb | src/lib/data/categories.ts:233-235 | an id without a row gives an empty breadcrumb |
| Categories.SelfParentNeverEnds | src/lib/data/categories.ts:203-240 | a category that is its own parent makes the walk run forever, as the loop has no cycle guard |
| CategoryDialog.DescendantIffOnChain | src/components/dashboard/catalog/category-dialog.tsx:24-30 | isDescendantOf(d, a) holds exactly when a's id is on d's chain of ancestors |
| CategoryDialog.ChainStopsMeansNotDescendant | src/components/dashboard/catalog/category-dialog.tsx:25-29 | a missing parent, or a parent not in the list, means not a descendant unless that parent is a itself |
| CategoryDialog.ParentCandidates | src/components/dashboard/catalog/category-dialog.tsx:75-79 | where every descendant walk stops: all categories are offered when creating; when editing, exactly those that are not the edited one and not its descendants (a parent cycle is handled by LoadParents) |
| CategoryDialog.OfferedIffOffChain | src/components/dashboard/catalog/category-dialog.tsx:75-79 | when editing, a category is offered exactly when it is not the edited one and the edited id is not on its ancestor chain |
| CategoryDialog.AcyclicCandidatesComputable | src/components/dashboard/catalog/category-dialog.tsx:24-30 | on an acyclic category list the descendant check terminates for every category |
| CategoryDialog.WalkAvoidingEdited | src/components/dashboard/catalog/category-dialog.tsx:24-30 | a parent walk that never meets the edited category still ends after reparenting |
| CategoryDialog.WalkThroughEdited | src/components/dashboard/catalog/category-dialog.tsx:24-30 | a parent walk through the edited category ends after reparenting if the new parent's walk ends |
| CategoryDialog.OfferedParentKeepsAcyclic | src/components/dashboard/catalog/category-dialog.tsx:75-79 | saving the edited category under any offered parent keeps the parent relation acyclic |
| CategoryDialog.NewParentWalkEnds | src/components/dashboard/catalog/category-dialog.tsx:75-79 | the walk up from an offered parent never meets the edited category, so it still ends after saving |
| CategoryDialog.DefaultParentId | src/components/dashboard/catalog/category-dialog.tsx:64 | the category's own truthy parentId wins, then the preselected parent's id, else the empty string; the result is always one of these |
| CategoryDialog.KeepSlugChars | src/components/dashboard/catalog/category-dialog.tsx:101 | only lower-case letters, digits, whitespace and hyphens remain, and a string of those is unchanged |
| CategoryDialog.HyphenCollapseNoDouble | src/components/dashboard/catalog/category-dialog.tsx:103 | collapsing hyphen runs leaves no two hyphens in a row |
| CategoryDialog.HyphenCollapseFixes | src/components/dashboard/catalog/category-dialog.tsx:103 | collapsing hyphen runs changes nothing in a string without a double hyphen |
| CategoryDialog.SlugifyShape | src/components/dashboard/catalog/category-dialog.tsx:99-104 | a generated slug uses only [a-z0-9-] and has no double hyphen; the final trim removes nothing |
| CategoryDialog.SlugifyIdempotent | src/components/dashboard/catalog/category-dialog.tsx:99-104 | generating a slug from a generated slug gives it back |
| CategoryDialog.SlugKeepsOuterHyphens | src/components/dashboard/catalog/category-dialog.tsx:99-104 | outer blanks become hyphens before the trim, so " Ab " becomes "-ab-" |
| CategoryDialog.AutoSlug | src/components/dashboard/catalog/category-dialog.tsx:96-105 | when creating with a non-empty name the slug field becomes the well-shaped slug of the name; otherwise it is left as it was |
| CategoryDialog.IsDescendantOf | src/components/dashboard/catalog/category-dialog.tsx:24-30 | true when the parent id is the ancestor's id, false at a missing or empty parent id or a parent not in the list, else the answer for the parent; defined only where the recursion stops |
| CategoryDialog.FilterOffered | src/components/dashboard/catalog/category-dialog.tsx:75-79 | all the given categories when creating; when editing, exactly those the filter keeps |
| CategoryDialog.LoadParents | src/components/dashboard/catalog/category-dialog.tsx:68-86 | when creating, every category is a parent candidate; when editing, the filtered list if every descendant walk stops, otherwise the previous list, as the caught stack overflow leaves it |
| CategoryDialog.LoadParentsMeaning | src/components/dashboard/catalog/category-dialog.tsx:68-86 | if some descendant walk never stops the previous list is kept; otherwise a category is offered exactly when creating, or when it is not the edited one and the edited id is not on its ancestor chain |
| CategoryDialog.NotWithinLengthNeverStops | src/components/dashboard/catalog/category-dialog.tsx:24-30 | a descendant walk that has not stopped after as many steps as there are categories never stops |
| CategoryDialog.TwoCycleKeepsPrevious | src/components/dashboard/catalog/category-dialog.tsx:68-86 | with two categories that are each other's parent, editing a third keeps the previous parent list |
| CategoryDialog.Slugify | src/components/dashboard/catalog/category-dialog.tsx:99-104 | lower-case, drop all but [a-z0-9], whitespace and hyphens, turn whitespace runs and then hyphen runs into one hyphen, and trim |
| CategoryTable.RowFor | src/components/dashboard/catalog/category-table.tsx:37-52 | a category's own row carries its id, its level and a left indent of 24 pixels per level |
| CategoryTable.Flatten | src/components/dashboard/catalog/category-table.tsx:33-106 | a subtree renders one row per category in it, its own row first; every row is indented by its level, and every later row belongs to a descendant one level deeper or more |
| CategoryTable.FlattenAll | src/components/dashboard/catalog/category-table.tsx:98-103 | the children render one row per category in their subtrees, none above the level they start at |
| CategoryTable.RenderCategoryRow | src/components/dashboard/catalog/category-table.tsx:33-106 | the push loop yields exactly the pre-order rows of the subtree |
| CategoryTable.TableRows | src/components/dashboard/catalog/category-table.tsx:123-132 | an empty list gives the single placeholder row; otherwise one category row per category of the forest |
| CategoryTable.TableBody | src/components/dashboard/catalog/category-table.tsx:123-132 | the flatMap over the roots yields exactly the table rows of the forest |
| CategoryTable.OwnRowOnlyAtItsLevel | src/components/dashboard/catalog/category-table.tsx:98-103 | within its own subtree a category's row is the only one at its level |
| CategoryTable.RootsRenderAtLevelZero | src/components/dashboard/catalog/category-table.tsx:130 | the level-0 rows are exactly the roots' own rows, in the order the roots were given |
| CategoryTable.LeafRendersOneRow | src/components/dashboard/catalog/category-table.tsx:98-103 | a category without children renders as a single row |
| DeleteCategoryDialog.CanDelete | src/components/dashboard/catalog/delete-category-dialog.tsx:32-34 | a category can be deleted exactly when it has no active products and no subcategory listed |
| DeleteCategoryDialog.HandleDelete | src/components/dashboard/catalog/delete-category-dialog.tsx:36-38 | the delete request is sent, for this category's id, exactly when the category can be deleted |
| DeleteCategoryDialog.DeleteButtonDisabled | src/components/dashboard/catalog/delete-category-dialog.tsx:127 | the button is disabled while loading or when the category cannot be deleted; when enabled, clicking sends the delete request |
| DeleteCategoryDialog.DeletableRendersOneRow | src/components/dashboard/catalog/delete-category-dialog.tsx:32-34 | a deletable category is a leaf of the admin table and renders as exactly one row |
| BakeryCategories.GetAllCategorySlugs | src/lib/data/bakery-categories.ts:279-292 | the loop yields, category by category, the category's slug followed by its subcategories' slugs |
| BakeryCategories.SlugListLength | src/lib/data/bakery-categories.ts:279-292 | the list has one slug per category and one per subcategory |
| BakeryCategories.SlugListMembership | src/lib/data/bakery-categories.ts:279-292 | a slug is listed exactly when some category has it as its own or a subcategory's slug |
| BakeryCategories.FindSub | src/lib/data/bakery-categories.ts:301 | the first subcategory with the slug, or none exactly when no subcategory has it |
| BakeryCategories.GetCategoryBySlug | src/lib/data/bakery-categories.ts:295-308 | the loop with early returns gives the first match in declared order |
| BakeryCategories.FindBySlugNoneIff | src/lib/data/bakery-categories.ts:295-308 | the lookup returns null exactly when no category has the slug at either level |
| BakeryCategories.NullIffUnlisted | src/lib/data/bakery-categories.ts:279-308 | the lookup returns null exactly when the slug is missing from the slug list |
| BakeryCategories.EveryListedSlugResolves | src/lib/data/bakery-categories.ts:279-308 | every listed slug resolves to an entry with that slug |
| BakeryCategories.FoundHasSlug | src/lib/data/bakery-categories.ts:295-308 | a hit carries the requested slug; a top-level hit is a catalog category, a subcategory hit comes with the catalog category holding it |
| BakeryCategories.FirstListingCategoryWins | src/lib/data/bakery-categories.ts:296-306 | the first category listing the slug decides, its own slug tried before its subcategories |
| BakeryCategories.GetCategoryHierarchy | src/lib/data/bakery-categories.ts:262-276 | the forEach fills the record with each category's entry and its reduced subcategory record |
| BakeryCategories.SubMapLastWins | src/lib/data/bakery-categories.ts:267-270 | the subcategory record has exactly the subcategory slugs as keys, each holding the last subcategory with that slug |
| BakeryCategories.HierarchyKeys | src/lib/data/bakery-categories.ts:262-276 | the hierarchy's keys are exactly the categories' slugs |
| BakeryCategories.HierarchyLastWins | src/lib/data/bakery-categories.ts:265-271 | under each slug the hierarchy holds the entry of the last category with that slug |
| BakeryCategories.NoSubcategoriesEmptyRecord | src/lib/data/bakery-categories.ts:267-270 | a category without subcategories gets an empty subcategory record |
| BakeryCategories.StaticSlugList | src/lib/data/bakery-categories.ts:20-171 | for the declared catalog the slug list is the twenty static slugs |
| BakeryCategories.StaticSlugsAreIds | src/lib/data/bakery-categories.ts:20-171 | every declared category and subcategory uses its id as its slug |
| BakeryCategories.StaticSlugsDistinct | src/lib/data/bakery-categories.ts:20-171 | the twenty declared slugs are pairwise distinct, so every lookup and record key is unambiguous |
| TypeGuards.OrderStatusGuardExact | src/lib/utils/type-guards.ts:38-40 | a string passes the order-status guard exactly when it is the name of one of the six statuses, and the names are distinct |
| TypeGuards.PaymentStatusGuardExact | src/lib/utils/type-guards.ts:45-47 | a string passes the payment-status guard exactly when it names one of the five statuses, and the names are distinct |
| TypeGuards.ThreadStatusGuardExact | src/lib/utils/type-guards.ts:52-54 | a string passes the thread-status guard exactly when it names one of the three statuses, and the names are distinct |
| TypeGuards.RequestStatusGuardExact | src/lib/utils/type-guards.ts:59-61 | a string passes the custom-request-status guard exactly when it names one of the six statuses, and the names are distinct |
| TypeGuards.OrderGuardsNested | src/lib/utils/type-guards.ts:66-75 | an order can be cancelled exactly when pending or confirmed and modified exactly when pending, so a modifiable order is cancellable and a cancellable one has a valid status |
| TypeGuards.IsProductAvailable | src/lib/utils/type-guards.ts:80-82 | a product is available exactly when it is active and its stock is unknown or positive; zero stock is never available |
| TypeGuards.GetCartItemCount | src/lib/utils/type-guards.ts:94-97 | a cart without items counts 0; otherwise the count is the sum of the item quantities |
| TypeGuards.QuantitySumAppend | src/lib/utils/type-guards.ts:96 | the quantity sum of two item lists put together is the sum of their sums |
| TypeGuards.QuantitySumBounds | src/lib/utils/type-guards.ts:94-97 | with quantities between 1 and 100 the count lies between the number of lines and 100 times it |
| TypeGuards.CountZeroIffEmpty | src/lib/utils/type-guards.ts:87-97 | with positive quantities the item count is 0 exactly when the cart is empty |
| TypeGuards.CanCancelOrder | src/lib/utils/type-guards.ts:66-68 | an order can be cancelled exactly when it is pending or confirmed |
| TypeGuards.CanModifyOrder | src/lib/utils/type-guards.ts:73-75 | an order can be modified exactly when it is pending |
| TypeGuards.IsCartEmpty | src/lib/utils/type-guards.ts:87-89 | a cart is empty exactly when it has no item list or an empty one |
| Grouping.GroupRows | src/lib/data/products.ts:352-359 | the reduce gives each id the rows that belong to it, in fetched order, and has no key for an id without rows |
| Grouping.GroupForIsGroupOf | src/lib/data/products.ts:437-446 | looking a result up in the grouped record, with an empty list for a missing key, gives that result's group |
| Grouping.GroupOfMembership | src/lib/data/products.ts:352-359 | a value is in an id's group exactly when some row with a usable owner key equal to the id projects to it |
| Grouping.UngroupableRowDropped | src/lib/data/products.ts:354 | a row without a usable owner key joins no group |
| Products.TextConditionMeaning | src/lib/data/products.ts:248-257 | the search condition holds exactly when the lower-cased query occurs in the product's name, description or short description, ignoring case |
| Products.FilterConditionsMeaning | src/lib/data/products.ts:244-302 | a product satisfies every built condition exactly when it matches the search query and each filter that is set |
| Products.FilterConditionsFacts | src/lib/data/products.ts:244-302 | the conditions describe the matching products, and the list is empty exactly when no filter is set and the query is falsy |
| Products.BuildFilterConditions | src/lib/data/products.ts:244-302 | the pushes build exactly the condition list of the filters and query, in source order |
| Products.NoFiltersAdmitAll | src/lib/data/products.ts:244-302 | with no filters and no or an empty query every product matches |
| Products.UnusedFiltersIgnored | src/lib/data/products.ts:244-302 | the tag, allergen, flavour, size and variant-type filters never change which products match |
| Products.QueryCaseIrrelevant | src/lib/data/products.ts:249-250 | the case of the search query never changes which products match |
| Products.ApplySorting | src/lib/data/products.ts:308-325 | an unknown sort field orders by creation date descending; any direction other than "asc" sorts descending |
| Products.PopularityIsCreatedAt | src/lib/data/products.ts:312-322 | popularity sorts exactly as creation date does; price sorts by base price and name by name |
| Products.EnhanceProductResults | src/lib/data/products.ts:331-446 | one result per product, in order, each with its own product and, for each requested kind, exactly its variants, images, tags or allergens, and none for a kind not requested |
| Products.PresentIds | src/lib/data/products.ts:194 | the kept tag ids are the present, non-empty ones from the aggregated list |
| Products.RecommendationCandidatesQualify | src/lib/data/products.ts:192-198 | every candidate is active, has stock of at least one, and shares the product's category when it has one |
| Products.RecommendationPostFilter | src/lib/data/products.ts:203-205 | the result is the first `limit` results other than the product itself, in order: exactly `limit` of them when there are enough, and all of them when there are fewer (a negative limit drops that many from the end, as `slice` does) |
| Products.GetRecommendedProducts | src/lib/data/products.ts:170-206 | an unknown product gets no recommendations; otherwise the result is the prefix of the search results other than the product itself, of length `limit` or all of them when fewer; a product is never recommended to itself |
| Products.ILike | src/lib/data/products.ts:249-256 | a non-null column contains the search term, both lower-cased |
| Products.ProductMatches | src/lib/data/products.ts:244-302 | a product matches when a truthy query hits its text and every set filter holds |
| Recipes.FilterConditionsMeaning | src/lib/data/recipes.ts:205-280 | a recipe satisfies every built condition exactly when it matches the search query and each filter that is set |
| Recipes.FilterConditionsFacts | src/lib/data/recipes.ts:205-280 | the conditions describe the matching recipes, and the list is empty exactly when no filter is set and the query is falsy |
| Recipes.BuildFilterConditions | src/lib/data/recipes.ts:205-280 | the pushes build exactly the condition list of the filters and query, in source order |
| Recipes.NoFiltersAdmitAll | src/lib/data/recipes.ts:205-280 | with no filters and no or an empty query every recipe matches |
| Recipes.HasProductsIgnored | src/lib/data/recipes.ts:205-280 | the hasProducts filter never changes which recipes match |
| Recipes.MaxTimeIsEquality | src/lib/data/recipes.ts:226-249 | a matching recipe with a known prep, cook or total time has exactly the "max" time asked for: the condition compares for equality, not at most |
| Recipes.ServingsBoundsAreEquality | src/lib/data/recipes.ts:252-267 | a matching recipe with known servings has exactly the minimum asked for, and with two different bounds only recipes without servings match |
| Recipes.QueryCaseIrrelevant | src/lib/data/recipes.ts:209-218 | the case of the search query never changes which recipes match |
| Recipes.ApplySorting | src/lib/data/recipes.ts:286-305 | no sort orders by creation date descending; otherwise ascending exactly when the direction is "asc", and an unknown field orders by creation date |
| Recipes.SortFieldsSelectColumns | src/lib/data/recipes.ts:290-303 | each known sort field orders by its own column |
| Recipes.EnhanceRecipeResults | src/lib/data/recipes.ts:310-400 | one result per recipe, in order, each with exactly its own images and linked products when those are requested, and none otherwise |
| Recipes.FindById | src/lib/data/recipes.ts:143 | the first result with the id, or none exactly when no result has it |
| Recipes.GetRecipeById | src/lib/data/recipes.ts:128-148 | the search fetches one recipe, so a recipe is found exactly when the newest recipe has the requested id |
| Recipes.OnlyNewestRecipeFound | src/lib/data/recipes.ts:136-144 | any recipe other than the newest one is reported as not found |
| Recipes.GetRecipesByProduct | src/lib/data/recipes.ts:150-170 | no links gives no recipes; otherwise the result is exactly the recipes among the first hundred that are linked to the product, at most a hundred |
| Recipes.RecipesByProductLinked | src/lib/data/recipes.ts:156-168 | every recipe returned is linked to the product and is among the first hundred of the search |
| Recipes.LinkCountZeroIff | src/lib/data/recipes.ts:471-476 | the link count is zero exactly when no link names the recipe |
| Recipes.DeleteRecipe | src/lib/data/recipes.ts:469-490 | deleting succeeds exactly when no product links the recipe, and then removes exactly that recipe; otherwise the table is unchanged and the message gives the link count |
| Recipes.IntOrUndefined | src/lib/data/recipes.ts:583-587 | falling back to undefined keeps a truthy number and drops 0 and null |
| Recipes.StrOrUndefined | src/lib/data/recipes.ts:580 | falling back to undefined keeps a non-empty string and drops the empty one |
| Recipes.CopyOf | src/lib/data/recipes.ts:575-590 | the copy has the new id, title and creator, is private, keeps the ingredients and instructions, and keeps each time and the servings exactly when they are truthy |
| Recipes.CopiedImages | src/lib/data/recipes.ts:594-604 | one copied image per original image, in order, each built for the new recipe with its generated id |
| Recipes.DuplicateRecipe | src/lib/data/recipes.ts:562-610 | a missing original gives the "Original recipe not found" error; otherwise the new recipe is the copy of the original and its images are the copies of the original's images |
| Recipes.CopiedImagesBelongToCopy | src/lib/data/recipes.ts:596-602 | each copied image belongs to the new recipe, keeps its url, and keeps its sort order exactly when it is truthy |
| Recipes.DuplicateOnlyOfNewest | src/lib/data/recipes.ts:571-578 | only the newest recipe can be duplicated, since the lookup sees only it |
| Recipes.ILike | src/lib/data/recipes.ts:209-218 | a non-null column contains the search term, both lower-cased |
| Recipes.RecipeMatches | src/lib/data/recipes.ts:205-280 | a recipe matches when a truthy query hits its text and every set filter holds |
| Recipes.LinkCount | src/lib/data/recipes.ts:471-476 | the number of product links naming the recipe, never more than there are links |
| Messages.Page | src/lib/data/messages.ts:103-106 | the page holds at most `limit` rows: the rows from `offset` on, cut at `limit`, and none past the end |
| Messages.UserThreads | src/lib/data/messages.ts:53-112 | at most `limit` threads; the page itself unless unreadOnly, else exactly the threads of the page with unread messages |
| Messages.UnreadOnlyPageCanBeShort | src/lib/data/messages.ts:103-111 | with unreadOnly a full page of two can shrink to one thread although two unread threads exist, because the filter runs after the limit |
| Messages.HasQuoteMeaning | src/lib/data/messages.ts:245-251 | in the intended filter, hasQuote true keeps exactly the matching requests with a quoted price, false exactly those without, and never both |
| Messages.JoinCountPositive | src/lib/data/messages.ts:318-319 | a message joins at least one thread row exactly when it belongs to a thread of the user |
| Messages.UnreadCountZeroIff | src/lib/data/messages.ts:313-326 | the unread count is zero exactly when no unread message from the bakery lies in a thread of the user |
| Messages.CustomerMessagesNotCounted | src/lib/data/messages.ts:320-322 | a message from the customer, or one already read, never changes the unread count |
| Messages.Combined | src/lib/data/messages.ts:361-364 | the messages, tagged "message", followed by the requests, tagged "custom_request", each in its fetched order |
| Messages.InsertKeeps | src/lib/data/messages.ts:365-369 | inserting into a newest-first list keeps it newest-first and adds exactly that entry |
| Messages.SortDescKeeps | src/lib/data/messages.ts:365-369 | the sort keeps exactly the same entries and orders them newest first |
| Messages.RecentActivityFacts | src/lib/data/messages.ts:330-372 | the newest min(limit, total) entries of the merged lists, newest first: a front part of the sorted merge, a sub-multiset of it, and no entry left out is newer than an entry kept; each entry is a fetched message or request with the matching tag, and when everything fits it is exactly the combined entries |
| Messages.UserThreadMatches | src/lib/data/messages.ts:65-73 | a thread matches exactly when it belongs to the user and, for each non-empty status or priority list, its value is in that list |
| Messages.RequestTextHit | src/lib/data/messages.ts:253-257 | the search hits a request exactly when it occurs, ignoring case, in the title or in the description |
| Messages.RequestMatches | src/lib/data/messages.ts:239-263 | the intended filter: the status is in a non-empty status list, the quoted price is present or absent as hasQuote asks, and a truthy search hits the title or description |
| Messages.RequestMatchesAsWritten | src/lib/data/messages.ts:239-263 | the filter as the query is written: the status, quote and title-hit conditions joined by AND, then OR a description hit on its own |
| Messages.AsWrittenAddsDescriptionHits | src/lib/data/messages.ts:253-262 | the filter as written admits exactly the intended matches plus every request whose description contains a truthy search; without a search the two agree |
| Messages.UnquotedDescriptionHitLeaks | src/lib/data/messages.ts:245-262 | with hasQuote true and a non-empty search, an unquoted request whose description contains the search passes the filter as written and fails the intended one |
| Messages.UnquotedDescriptionHitExample | src/lib/data/messages.ts:245-262 | the unquoted request with title "Cake" and description "x" is listed for hasQuote true and search "x", though it has no quote |
| Messages.UnreadCount | src/lib/data/messages.ts:313-326 | the number of rows of the message-thread join that are unread, not from the customer, and in a thread of the user |
| Messages.GetRecentActivity | src/lib/data/messages.ts:330-372 | the tagged messages and requests, merged, sorted newest first and cut to `limit`, 10 by default |
| Filters.FacetBaseConditions | src/lib/data/filters.ts:35-38 | the facet conditions always require an active product, plus the category exactly when one is given |
| Filters.SuggestionBaseConditions | src/lib/data/filters.ts:303-306 | the suggestion conditions start with the active check, plus the category exactly when one is given |
| Filters.BaseConditionsMeaning | src/lib/data/filters.ts:35-38 | both condition lists admit exactly the active products of the given category, or all active products without one |
| Filters.VariantFacets | src/lib/data/filters.ts:171-196 | at most one option per row; the options are exactly the rows with a truthy value, each with its value as id and name and no type or colour |
| Filters.VariantFacetsOrder | src/lib/data/filters.ts:189-195 | one more row adds its option at the end exactly when its value is truthy |
| Filters.GetFilterSuggestions | src/lib/data/filters.ts:292-326 | the suggested tags are the first `limit` of the unselected tag facets, exactly min(limit, their number) of them for a limit of at least 0; without a selected category the related categories are the first `limit` category facets, and a selected category suppresses them |
| Filters.AllergenFreeIgnored | src/lib/data/filters.ts:292-326 | the allergen-free selection never changes the suggestions |
| Filters.NoSelectionSuggestsAllTags | src/lib/data/filters.ts:313-318 | with no tag selection and few enough facets every tag facet is suggested |
| Filters.UnselectedTags | src/lib/data/filters.ts:312-315 | all the tag facets when no tags are selected; otherwise exactly the facets whose id is not selected |
| Zod.SlugIsLowerCase | src/lib/validations/products.ts:6-8 | an accepted slug has 1 to 255 characters, no upper-case letter and no whitespace, so lower-casing leaves it unchanged |
| Zod.SlugExamples | src/lib/validations/products.ts:8 | "chocolate-cake-2" is a slug; a capital, a space or the empty string is refused |
| Zod.PriceGrammar | src/lib/validations/products.ts:32 | a price string is accepted exactly when it is a run of digits, optionally followed by a dot and one or two digits |
| Zod.PriceExamples | src/lib/validations/products.ts:32 | "12", "12.5", "12.50" and "0.99" are prices; "12.", ".5", "1.234", "-1" and "" are not |
| Zod.HexColorExamples | src/lib/validations/products.ts:123 | "#FFaa00" is a colour; a three-digit, hash-less or non-hex colour is not |
| ProductValidation.ParseCategory | src/lib/validations/products.ts:4-13 | a category parses exactly when it is valid; the sort order defaults to 0 and the active flag to true, every other field is kept |
| ProductValidation.ParseCategoryIdempotent | src/lib/validations/products.ts:4-13 | a parsed category parses to itself |
| ProductValidation.CreateCategoryIsCategoryWithoutId | src/lib/validations/products.ts:15-17 | the create schema accepts exactly what the full schema accepts once an id is supplied |
| ProductValidation.UpdateCategoryAcceptsLess | src/lib/validations/products.ts:19-21 | every valid category is a valid update, and so is an update that sets nothing |
| ProductValidation.ParseProduct | src/lib/validations/products.ts:24-47 | a product parses exactly when it is valid; stock defaults to 0 and the active flag to true, every other field is kept |
| ProductValidation.ParseProductIdempotent | src/lib/validations/products.ts:24-47 | a parsed product parses to itself |
| ProductValidation.ProductSlicesRejection | src/lib/validations/products.ts:39-47 | with valid fields, a product is refused exactly when both slice counts are set and the minimum exceeds the maximum |
| ProductValidation.ProductSlugAndPrice | src/lib/validations/products.ts:26-32 | an accepted product has a 1 to 255 character [a-z0-9-] slug and a base price of digits with at most two decimals |
| ProductValidation.CreateProductIsProductWithoutId | src/lib/validations/products.ts:49-51 | the create schema accepts exactly what the full schema accepts once an id is supplied |
| ProductValidation.UpdateProductAcceptsLess | src/lib/validations/products.ts:53-55 | every valid product is a valid update, and so is an update that sets nothing |
| ProductValidation.ParseVariant | src/lib/validations/products.ts:76-90 | a variant parses exactly when it is valid; stock defaults to 0, isDefault to false and isAvailable to true, every other field is kept |
| ProductValidation.ParseVariantIdempotent | src/lib/validations/products.ts:76-90 | a parsed variant parses to itself |
| ProductValidation.AttributeBounds | src/lib/validations/products.ts:58-75 | a zero dimension is refused while zero nutrition values are accepted |
| ProductValidation.CreateVariantIsVariantWithoutId | src/lib/validations/products.ts:92-94 | the create schema accepts exactly what the full schema accepts once an id is supplied |
| ProductValidation.UpdateVariantAcceptsLess | src/lib/validations/products.ts:96-98 | every valid variant is a valid update, and so is an update that sets nothing |
| ProductValidation.ParseImage | src/lib/validations/products.ts:101-108 | an image parses exactly when it is valid; the sort order defaults to 0 and isMain to false, every other field is kept |
| ProductValidation.CreateImageIsImageWithoutId | src/lib/validations/products.ts:110-112 | the create schema accepts exactly what the full schema accepts once an id is supplied |
| ProductValidation.UpdateImageAcceptsLess | src/lib/validations/products.ts:114-116 | every valid image is a valid update, and so is an update that sets nothing |
| ProductValidation.TagTypeAndColor | src/lib/validations/products.ts:119-124 | an accepted tag has one of the six tag types and, when coloured, a # followed by six hex digits |
| ProductValidation.CreateTagIsTagWithoutId | src/lib/validations/products.ts:126-128 | the create schema accepts exactly what the full schema accepts once an id is supplied |
| ProductValidation.UpdateTagAcceptsLess | src/lib/validations/products.ts:130-132 | every valid tag is a valid update, and so is an update that sets nothing |
| ProductValidation.AllergenSeverity | src/lib/validations/products.ts:135-140 | an accepted severity is mild, moderate or severe, and without a severity only the id, name and description bounds decide |
| ProductValidation.CreateAllergenIsAllergenWithoutId | src/lib/validations/products.ts:142-144 | the create schema accepts exactly what the full schema accepts once an id is supplied |
| ProductValidation.UpdateAllergenAcceptsLess | src/lib/validations/products.ts:146-148 | every valid allergen is a valid update, and so is an update that sets nothing |
| ProductValidation.ParseProductAllergen | src/lib/validations/products.ts:157-162 | a product-allergen link parses exactly when it is valid; mayContain defaults to false, the rest is kept |
| ProductValidation.ProductFilterPriceRefinement | src/lib/validations/products.ts:176-183 | a zero or missing price bound skips the check; with two positive bounds the filter is accepted exactly when the minimum is at most the maximum |
| ProductValidation.ProductFilterZeroMaxPasses | src/lib/validations/products.ts:176-183 | a maximum price of 0 is falsy, so any minimum passes the refinement |
| ProductValidation.BulkProductUpdateNeeds | src/lib/validations/products.ts:206-215 | a bulk update needs at least one product id, and an updates object without any of the three keys is refused; one id and one field suffice |
| ProductValidation.BulkProductUpdateIntendedMeaning | src/lib/validations/products.ts:206-215 | the intended schema accepts exactly what the schema as written accepts with at least one field set; the two agree when no key is given as undefined |
| ProductValidation.UndefinedKeyCountsAsProductUpdate | src/lib/validations/products.ts:212 | `{ isActive: undefined }` passes the schema as written, although it updates nothing, and the intended schema refuses it |
| ProductValidation.CategoryValid | src/lib/validations/products.ts:4-13 | a category needs a non-empty id, a 1 to 255 character name, a [a-z0-9-] slug of 1 to 255 characters, a description of at most 1000 characters and a whole sort order of at least 0 when given |
| ProductValidation.CreateCategoryValid | src/lib/validations/products.ts:15-17 | the category checks without the id |
| ProductValidation.UpdateCategoryValid | src/lib/validations/products.ts:19-21 | each category field is checked only when present |
| ProductValidation.ProductValid | src/lib/validations/products.ts:24-47 | a product needs an id, name and slug as a category does, descriptions of at most 5000 and 500 characters, a price of digits with at most two decimals, whole stock of at least 0, whole slice counts of at least 1, serving size and preparation time of at most 100 characters, and a minimum slice count at most the maximum when both are truthy |
| ProductValidation.CreateProductValid | src/lib/validations/products.ts:49-51 | the product checks and the slice refinement without the id |
| ProductValidation.UpdateProductValid | src/lib/validations/products.ts:53-55 | each product field is checked only when present, and the slice refinement still applies |
| ProductValidation.AttributesValid | src/lib/validations/products.ts:58-74 | given dimensions are positive and given nutrition values at least 0; any custom options pass |
| ProductValidation.VariantValid | src/lib/validations/products.ts:76-90 | a variant needs an id and product id, a 1 to 255 character name, a price, whole stock of at least 0, valid attributes, and sku, flavour, size and type of at most 100 characters and a description of at most 1000 |
| ProductValidation.CreateVariantValid | src/lib/validations/products.ts:92-94 | the variant checks without the id |
| ProductValidation.UpdateVariantValid | src/lib/validations/products.ts:96-98 | each variant field is checked only when present |
| ProductValidation.ImageValid | src/lib/validations/products.ts:101-108 | an image needs an id, a product id and a url, alt text of at most 255 characters and a whole sort order of at least 0 |
| ProductValidation.CreateImageValid | src/lib/validations/products.ts:110-112 | the image checks without the id |
| ProductValidation.UpdateImageValid | src/lib/validations/products.ts:114-116 | each image field is checked only when present |
| ProductValidation.TagValid | src/lib/validations/products.ts:119-124 | a tag needs an id, a 1 to 100 character name, one of the six tag types and, when given, a colour of # and six hex digits |
| ProductValidation.CreateTagValid | src/lib/validations/products.ts:126-128 | the tag checks without the id |
| ProductValidation.UpdateTagValid | src/lib/validations/products.ts:130-132 | each tag field is checked only when present |
| ProductValidation.AllergenValid | src/lib/validations/products.ts:135-140 | an allergen needs an id, a 1 to 100 character name, a description of at most 500 characters and, when given, a severity of mild, moderate or severe |
| ProductValidation.CreateAllergenValid | src/lib/validations/products.ts:142-144 | the allergen checks without the id |
| ProductValidation.UpdateAllergenValid | src/lib/validations/products.ts:146-148 | each allergen field is checked only when present |
| ProductValidation.ProductTagValid | src/lib/validations/products.ts:151-154 | a product-tag link needs a non-empty product id and tag id |
| ProductValidation.ProductAllergenValid | src/lib/validations/products.ts:157-162 | a product-allergen link needs both ids and the containsAllergen flag |
| ProductValidation.ProductFilterValid | src/lib/validations/products.ts:165-192 | prices at least 0, whole slice counts at least 1, a search of at most 255 characters, and each minimum at most its maximum when both are truthy |
| ProductValidation.ProductSortValid | src/lib/validations/products.ts:195-203 | a sort field is one of the listed product sort fields |
| ProductValidation.BulkProductUpdateValid | src/lib/validations/products.ts:206-215 | at least one non-empty product id, a well-formed price when given, and an updates object whose parsed form keeps at least one key (a key given as undefined is kept) |
| ProductValidation.BulkProductUpdateIntended | src/lib/validations/products.ts:206-215 | as above, but at least one of the active flag, category and price must hold a value |
| CatalogValidation.ParseRecipe | src/lib/validations/catalog.ts:19-41 | a recipe parses exactly when it is valid; isPrivate defaults to true, every other field is kept |
| CatalogValidation.RecipeTimeRefinement | src/lib/validations/catalog.ts:33-41 | with three positive times a recipe is accepted exactly when the total is at least prep plus cook; a missing or zero time skips the check |
| CatalogValidation.RecipeHasSteps | src/lib/validations/catalog.ts:11-24 | an accepted recipe has at least one ingredient and one instruction, each instruction with a whole step number of at least 1; empty lists are refused |
| CatalogValidation.CreateRecipeIsRecipeWithoutId | src/lib/validations/catalog.ts:43-45 | the create schema accepts exactly what the full schema accepts once an id is supplied |
| CatalogValidation.UpdateRecipeAcceptsLess | src/lib/validations/catalog.ts:47-49 | every valid recipe is a valid update, and so is an update that sets nothing |
| CatalogValidation.ParseRecipeImage | src/lib/validations/catalog.ts:52-58 | a recipe image parses exactly when it is valid; the sort order defaults to 0, the rest is kept |
| CatalogValidation.CreateRecipeImageIsImageWithoutId | src/lib/validations/catalog.ts:60-62 | the create schema accepts exactly what the full schema accepts once an id is supplied |
| CatalogValidation.UpdateRecipeImageAcceptsLess | src/lib/validations/catalog.ts:64-66 | every valid recipe image is a valid update, and so is an update that sets nothing |
| CatalogValidation.ParseProductRecipe | src/lib/validations/catalog.ts:69-74 | a product-recipe link parses exactly when both ids are non-empty; isMainRecipe defaults to false |
| CatalogValidation.RecipeFilterServings | src/lib/validations/catalog.ts:76-96 | with valid fields a recipe filter is refused exactly when both servings bounds are set and the minimum exceeds the maximum |
| CatalogValidation.ParseAdminCategory | src/lib/validations/catalog.ts:119-128 | an admin category parses exactly when it is valid; the sort order defaults to 0 and the active flag to true |
| CatalogValidation.CreateAdminCategoryIsCategoryWithoutId | src/lib/validations/catalog.ts:130-132 | the create schema accepts exactly what the full schema accepts once an id is supplied |
| CatalogValidation.UpdateAdminCategoryAcceptsLess | src/lib/validations/catalog.ts:134-136 | every valid admin category is a valid update, and so is an update that sets nothing |
| CatalogValidation.ParseAdminProduct | src/lib/validations/catalog.ts:147-170 | an admin product parses exactly when it is valid; the active flag defaults to true and stock to 0 |
| CatalogValidation.AdminProductSlicesRejection | src/lib/validations/catalog.ts:162-170 | with valid fields an admin product is refused exactly when both slice counts are set and the minimum exceeds the maximum |
| CatalogValidation.CreateAdminProductIsProductWithoutId | src/lib/validations/catalog.ts:172-174 | the create schema accepts exactly what the full schema accepts once an id is supplied |
| CatalogValidation.UpdateAdminProductAcceptsLess | src/lib/validations/catalog.ts:176-178 | every valid admin product is a valid update, and so is an update that sets nothing |
| CatalogValidation.ReorderBounds | src/lib/validations/catalog.ts:139-145 | a reorder needs at least one entry, and a negative sort order anywhere is refused |
| CatalogValidation.BulkOperationData | src/lib/validations/catalog.ts:181-202 | updating the category needs a truthy category id in the data, updating the price a truthy price; the other operations need no data |
| CatalogValidation.ImageUploadFile | src/lib/validations/catalog.ts:204-223 | an upload is accepted exactly when the file is a JPEG, PNG or WebP image of at most 5 MiB |
| CatalogValidation.ParseSearch | src/lib/validations/catalog.ts:225-245 | a search parses exactly when it is valid; the type defaults to "all", a given sort's direction to "desc", a given pagination's page to 1 and limit to 20 |
| CatalogValidation.SearchPaginationBounds | src/lib/validations/catalog.ts:240-243 | a parsed pagination has a whole page of at least 1 and a whole limit between 1 and 100 |
| CatalogValidation.ParseExport | src/lib/validations/catalog.ts:247-257 | an export parses exactly when its type and format are known; the format defaults to json, includeInactive to false and includeImages to true |
| CatalogValidation.ImportOptionsDefaults | src/lib/validations/catalog.ts:262-270 | the options are always complete: overwriteExisting false, skipDuplicates true and validateOnly false unless given |
| CatalogValidation.ImportOptionsDefaultSame | src/lib/validations/catalog.ts:262-270 | leaving the options out is the same as giving an empty options object |
| CatalogValidation.ParseAuditFilter | src/lib/validations/catalog.ts:281-290 | an audit filter parses exactly when it is valid; the limit defaults to 100 and the offset to 0, and a parsed limit is whole and between 1 and 1000 |
| CatalogValidation.IngredientValid | src/lib/validations/catalog.ts:4-9 | an ingredient needs a 1 to 255 character name, an amount of at most 100 characters, a unit of at most 50 and notes of at most 500 |
| CatalogValidation.InstructionValid | src/lib/validations/catalog.ts:11-17 | a step is a whole number of at least 1 with 1 to 2000 characters of text, duration and temperature of at most 100 and notes of at most 500 |
| CatalogValidation.RecipeValid | src/lib/validations/catalog.ts:19-41 | a recipe needs an id, a 1 to 255 character title, at least one valid ingredient and instruction, whole times of at least 0, a known difficulty, servings of at least 1, and a total time at least the prep plus cook time when all three are truthy |
| CatalogValidation.CreateRecipeValid | src/lib/validations/catalog.ts:43-45 | the recipe checks and the time refinement without the id |
| CatalogValidation.UpdateRecipeValid | src/lib/validations/catalog.ts:47-49 | each recipe field is checked only when present, a given list still needs an entry, and the time refinement still applies |
| CatalogValidation.RecipeImageValid | src/lib/validations/catalog.ts:52-58 | a recipe image needs an id, a recipe id and a url, alt text of at most 255 characters and a whole sort order of at least 0 |
| CatalogValidation.CreateRecipeImageValid | src/lib/validations/catalog.ts:60-62 | the recipe image checks without the id |
| CatalogValidation.UpdateRecipeImageValid | src/lib/validations/catalog.ts:64-66 | each recipe image field is checked only when present |
| CatalogValidation.RecipeFilterValid | src/lib/validations/catalog.ts:76-95 | a known difficulty, whole time limits of at least 0, whole servings of at least 1, a search of at most 255 characters, and the minimum servings at most the maximum when both are truthy |
| CatalogValidation.RecipeSortValid | src/lib/validations/catalog.ts:98-109 | a sort field is one of the listed recipe sort fields |
| CatalogValidation.DuplicateRecipeValid | src/lib/validations/catalog.ts:112-116 | a duplication needs the original's id and a 1 to 255 character title |
| CatalogValidation.AdminCategoryValid | src/lib/validations/catalog.ts:119-128 | an admin category needs an id, a 1 to 255 character name, a slug, a description of at most 2000 characters and a whole sort order of at least 0 |
| CatalogValidation.CreateAdminCategoryValid | src/lib/validations/catalog.ts:130-132 | the admin category checks without the id |
| CatalogValidation.UpdateAdminCategoryValid | src/lib/validations/catalog.ts:134-136 | each admin category field is checked only when present |
| CatalogValidation.ReorderValid | src/lib/validations/catalog.ts:139-144 | at least one entry, each with a non-empty id and a whole sort order of at least 0 |
| CatalogValidation.AdminProductValid | src/lib/validations/catalog.ts:147-170 | an admin product has the product checks with the longer bounds (descriptions of 10000 and 1000, serving size and preparation time of 200) and the slice refinement |
| CatalogValidation.CreateAdminProductValid | src/lib/validations/catalog.ts:172-174 | the admin product checks and the slice refinement without the id |
| CatalogValidation.UpdateAdminProductValid | src/lib/validations/catalog.ts:176-178 | each admin product field is checked only when present, and the slice refinement still applies |
| CatalogValidation.BulkOperationValid | src/lib/validations/catalog.ts:181-201 | at least one product id, a known operation, a well-formed price when given, a category for update-category and a price for update-price |
| CatalogValidation.ImageUploadValid | src/lib/validations/catalog.ts:204-222 | a file of type JPEG, PNG or WebP of at most 5242880 bytes, alt text of at most 255 characters and a whole sort order of at least 0 |
| CatalogValidation.SearchValid | src/lib/validations/catalog.ts:225-244 | a query of at most 255 characters, a known search type, filters with a known difficulty and prices of at least 0, a known sort field and direction, and a whole page of at least 1 with a limit from 1 to 100 |
| CatalogValidation.ImportValid | src/lib/validations/catalog.ts:259-278 | a JSON, CSV or Excel file and a known import type |
| CatalogValidation.AuditFilterValid | src/lib/validations/catalog.ts:281-290 | a known entity type and action, a whole limit from 1 to 1000 and a whole offset of at least 0 |
| CartValidation.CartOwner | src/lib/validations/cart.ts:4-11 | a cart with an id is accepted exactly when it has a non-empty user id or a non-empty session id; an empty user id alone is refused |
| CartValidation.CreateCartItemIsItemWithoutId | src/lib/validations/cart.ts:42-44 | the create schema accepts exactly what the full item schema accepts once an id is supplied |
| CartValidation.ParseAddToCart | src/lib/validations/cart.ts:52-57 | adding to the cart parses exactly when the product id is non-empty, a given quantity is in range and the customisations are valid; the quantity defaults to 1 |
| CartValidation.ParseMoveToCart | src/lib/validations/cart.ts:102-106 | moving to the cart parses exactly when the wishlist item id is non-empty, a given quantity is in range and the customisations are valid; the quantity defaults to 1 |
| CartValidation.QuantityBounds | src/lib/validations/cart.ts:37-104 | a quantity is accepted exactly when it is a whole number from 1 to 100, and every cart schema with a quantity applies that same bound |
| CartValidation.CartItemPrice | src/lib/validations/cart.ts:39 | an accepted unit price is digits with at most two decimals, and "12." is refused |
| CartValidation.ParseWishlist | src/lib/validations/cart.ts:60-65 | a wishlist parses exactly when it is valid; the name defaults to "My Wishlist" and isDefault to true, and the parsed name has 1 to 100 characters |
| CartValidation.ParseCreateWishlist | src/lib/validations/cart.ts:67-69 | the create schema has no id and fills the same defaults |
| CartValidation.CreateWishlistIsWishlistWithoutId | src/lib/validations/cart.ts:60-69 | creating a wishlist parses exactly when the full wishlist with an id does, to the same value without the id |
| CartValidation.WishlistName | src/lib/validations/cart.ts:63-72 | an empty name is refused while a missing one becomes "My Wishlist"; an update may leave the name out but not empty it |
| CartValidation.CreateWishlistItemIsItemWithoutId | src/lib/validations/cart.ts:77-91 | the create schema accepts exactly what the full item schema accepts once an id is supplied, and a valid item's notes are a valid update |
| CartValidation.BulkCartLists | src/lib/validations/cart.ts:109-118 | bulk updates and removals need at least one entry, and every updated quantity is in range |
| CartValidation.CartSummaryUnrelated | src/lib/validations/cart.ts:121-127 | the summary checks each amount on its own: a total unrelated to the subtotal passes, a negative tax does not |
| CartValidation.CartValid | src/lib/validations/cart.ts:4-11 | a cart needs an id and a non-empty user id or session id |
| CartValidation.CreateCartValid | src/lib/validations/cart.ts:13-15 | a new cart needs a non-empty user id or session id |
| CartValidation.CustomizationsValid | src/lib/validations/cart.ts:18-29 | custom text of at most 500 characters, decoration colour, design and message of at most 50, 100 and 200, and special and delivery instructions of at most 1000 and 500 |
| CartValidation.CartItemValid | src/lib/validations/cart.ts:32-40 | a cart item needs an id, a cart id, a product id, a whole quantity from 1 to 100, valid customisations and a well-formed unit price |
| CartValidation.CreateCartItemValid | src/lib/validations/cart.ts:42-44 | the cart item checks without the id |
| CartValidation.UpdateCartItemValid | src/lib/validations/cart.ts:46-49 | a given quantity is a whole number from 1 to 100 and the customisations are valid |
| CartValidation.WishlistValid | src/lib/validations/cart.ts:60-65 | a wishlist needs an id, a user id and, when given, a 1 to 100 character name |
| CartValidation.UpdateWishlistValid | src/lib/validations/cart.ts:71-74 | a given name has 1 to 100 characters |
| CartValidation.WishlistItemValid | src/lib/validations/cart.ts:77-83 | a wishlist item needs an id, a wishlist id, a product id and notes of at most 500 characters |
| CartValidation.UpdateWishlistItemValid | src/lib/validations/cart.ts:89-91 | notes of at most 500 characters |
| CartValidation.BulkCartUpdateValid | src/lib/validations/cart.ts:109-114 | at least one entry, each with a non-empty id and a whole quantity from 1 to 100 |
| CartValidation.BulkCartRemoveValid | src/lib/validations/cart.ts:116-118 | at least one non-empty item id |
| CartValidation.CartSummaryValid | src/lib/validations/cart.ts:121-127 | every amount is at least 0 and the item count is a whole number of at least 0 |
| OrderValidation.StatusEnums | src/lib/validations/orders.ts:4-20 | the order statuses are exactly the six names and the payment statuses exactly the five names, each without repeats |
| OrderValidation.AddressRequiredParts | src/lib/validations/orders.ts:23-35 | an accepted address has non-empty names, first line, city, state, postal code and country; emptying any of them is refused, dropping the optional parts is not |
| OrderValidation.ParseOrder | src/lib/validations/orders.ts:52-66 | an order parses exactly when it is valid; the tax amount and delivery fee default to "0", every other field is kept |
| OrderValidation.OrderMoneyFormat | src/lib/validations/orders.ts:57-60 | all four amounts of a parsed order are digits with at most two decimals; "9.999" and ".5" are refused |
| OrderValidation.CreateOrderIsOrderWithoutIds | src/lib/validations/orders.ts:68-71 | the create schema accepts exactly what the full schema accepts once an id and an order number are supplied |
| OrderValidation.OrderItemQuantity | src/lib/validations/orders.ts:88-101 | an item quantity is accepted exactly when whole and from 1 to 100; the update schema applies the same bound but may leave it out |
| OrderValidation.CreateOrderItemIsItemWithoutId | src/lib/validations/orders.ts:94-96 | the create schema accepts exactly what the full item schema accepts once an id is supplied |
| OrderValidation.OrderFilterRefinements | src/lib/validations/orders.ts:126-151 | a from date after the to date is refused; with two positive amounts the filter is accepted exactly when the minimum is at most the maximum, and a zero amount skips that check |
| OrderValidation.BulkOrderUpdateNeeds | src/lib/validations/orders.ts:164-172 | a bulk update needs at least one order id, and updates without a status or payment-status key are refused; either status alone suffices |
| OrderValidation.BulkOrderUpdateIntendedMeaning | src/lib/validations/orders.ts:164-172 | the intended schema accepts exactly what the schema as written accepts with a status set; the two agree when no key is given as undefined |
| OrderValidation.UndefinedKeyCountsAsOrderUpdate | src/lib/validations/orders.ts:169 | `{ status: undefined }` passes the schema as written, although it changes nothing, and the intended schema refuses it |
| OrderValidation.AddressValid | src/lib/validations/orders.ts:23-35 | first and last name, city, state and country of 1 to 50 characters, a first address line of 1 to 100, a postal code of 1 to 20, company and second line of at most 100, a phone of at most 20 and instructions of at most 500 |
| OrderValidation.CustomizationsValid | src/lib/validations/orders.ts:38-49 | custom text of at most 500 characters, decoration colour, design, message and frosting within 50, 100, 200 and 50, and special instructions of at most 1000 |
| OrderValidation.OrderValid | src/lib/validations/orders.ts:52-66 | an order needs an id, a 1 to 50 character order number, a known status and payment status, well-formed total and subtotal, well-formed tax and fee when given, instructions of at most 1000 characters and a valid address when given |
| OrderValidation.CreateOrderValid | src/lib/validations/orders.ts:68-71 | the order checks without the id and order number |
| OrderValidation.UpdateOrderValid | src/lib/validations/orders.ts:73-80 | a given status and payment status are known, instructions are at most 1000 characters and a given address is valid |
| OrderValidation.OrderItemValid | src/lib/validations/orders.ts:83-92 | an order item needs an id, an order id, a product id, a whole quantity from 1 to 100, well-formed unit and total prices and valid customisations |
| OrderValidation.CreateOrderItemValid | src/lib/validations/orders.ts:94-96 | the order item checks without the id |
| OrderValidation.UpdateOrderItemValid | src/lib/validations/orders.ts:98-101 | a given quantity is a whole number from 1 to 100 and the customisations are valid |
| OrderValidation.StatusHistoryValid | src/lib/validations/orders.ts:104-110 | a history entry needs an id, an order id, a known status and notes of at most 1000 characters |
| OrderValidation.CreateStatusHistoryValid | src/lib/validations/orders.ts:112-114 | the history checks without the id |
| OrderValidation.CheckoutValid | src/lib/validations/orders.ts:117-123 | a checkout needs a cart id, a valid address, instructions of at most 1000 characters and a payment method id |
| OrderValidation.OrderFilterValid | src/lib/validations/orders.ts:126-151 | known statuses and payment statuses, amounts of at least 0, a search of at most 255 characters, a start date not after the end date and a minimum amount at most the maximum when both are truthy |
| OrderValidation.OrderSortValid | src/lib/validations/orders.ts:154-161 | a sort field is one of the listed order sort fields |
| OrderValidation.BulkOrderUpdateValid | src/lib/validations/orders.ts:164-172 | at least one order id, known statuses when given, and a status or payment-status key kept in the parsed object (a key given as undefined is kept) |
| OrderValidation.BulkOrderUpdateIntended | src/lib/validations/orders.ts:164-172 | as above, but a status or a payment status must hold a value |
| MessageValidation.EnumSizes | src/lib/validations/messages.ts:4-36 | three thread statuses, four priorities, six request statuses and six request types, each without repeats; "resolved", "medium" and "cancelled" are not among them |
| MessageValidation.SpecificationServings | src/lib/validations/messages.ts:55-57 | accepted servings are whole and from 1 to 1000, and leaving them out is always accepted |
| MessageValidation.CreateThreadIsThreadWithoutId | src/lib/validations/messages.ts:90-107 | the create schema accepts exactly what the full thread schema accepts once an id is supplied, and a valid thread's fields are a valid update |
| MessageValidation.ParseMessage | src/lib/validations/messages.ts:110-118 | a message parses exactly when it is valid; isRead defaults to false, the rest is kept |
| MessageValidation.ParseCreateMessage | src/lib/validations/messages.ts:120-123 | creating a message parses exactly when its fields are valid, and the result carries neither an id nor a read flag |
| MessageValidation.CreateMessageIgnoresRead | src/lib/validations/messages.ts:120-123 | the read flag a caller sends when creating a message changes nothing |
| MessageValidation.ContentBounds | src/lib/validations/messages.ts:93-126 | message content has 1 to 5000 characters and a thread subject 1 to 200; empty content is refused on create and on update |
| MessageValidation.ParseCreateRequest | src/lib/validations/messages.ts:147-153 | a customer's request parses exactly when its customer fields are valid, and the result has no id, status, admin notes, quoted price or order id |
| MessageValidation.CreateRequestIgnoresAdminFields | src/lib/validations/messages.ts:147-153 | the status, admin notes, quoted price and order id a customer sends change nothing |
| MessageValidation.RequestIsCustomerPlusAdmin | src/lib/validations/messages.ts:131-153 | a valid full request has valid customer fields and a quoted price of digits with at most two decimals |
| MessageValidation.RequestFilterDates | src/lib/validations/messages.ts:193-209 | with valid lists and search, the filter is refused exactly when both event dates are set and the from date is later |
| MessageValidation.BulkUpdatesNeed | src/lib/validations/messages.ts:222-239 | bulk message and thread updates need at least one id, and updates without any of their keys are refused; one id and one field suffice |
| MessageValidation.BulkUpdatesIntendedMeaning | src/lib/validations/messages.ts:222-239 | each intended schema accepts exactly what the schema as written accepts with a field set; they agree when no key is given as undefined |
| MessageValidation.UndefinedKeyCountsAsMessageUpdate | src/lib/validations/messages.ts:226-236 | `{ isRead: undefined }` and `{ status: undefined }` pass the schemas as written, although they change nothing, and the intended schemas refuse them |
| MessageValidation.FileAttachmentValid | src/lib/validations/messages.ts:39-52 | a file needs a url, a 1 to 255 character name, a whole size of at least 1 and a 1 to 100 character type |
| MessageValidation.ImageAttachmentValid | src/lib/validations/messages.ts:39-52 | an image needs a url, alt text of at most 255 characters and whole dimensions of at least 1 when given |
| MessageValidation.AttachmentsValid | src/lib/validations/messages.ts:39-52 | every given file and image attachment is valid |
| MessageValidation.SpecificationsValid | src/lib/validations/messages.ts:55-78 | size of at most 100 characters, whole servings from 1 to 1000, flavours of at most 100 characters each, decoration theme, colours, text and design within 100, 50, 200 and 500, and a delivery location of at most 200 |
| MessageValidation.ReferenceImagesValid | src/lib/validations/messages.ts:81-87 | each reference image has a url, a description of at most 500 characters and a source of at most 200 |
| MessageValidation.ThreadValid | src/lib/validations/messages.ts:90-97 | a thread needs an id, a 1 to 200 character subject, a known status and a known priority |
| MessageValidation.CreateThreadValid | src/lib/validations/messages.ts:99-101 | the thread checks without the id |
| MessageValidation.UpdateThreadValid | src/lib/validations/messages.ts:103-107 | a given subject has 1 to 200 characters and a given status and priority are known |
| MessageValidation.MessageValid | src/lib/validations/messages.ts:110-118 | a message needs an id, a thread id, 1 to 5000 characters of content, the isFromCustomer flag and valid attachments |
| MessageValidation.UpdateMessageValid | src/lib/validations/messages.ts:125-128 | given content has 1 to 5000 characters |
| MessageValidation.RequestValid | src/lib/validations/messages.ts:131-145 | a request needs an id, a user id, a known type and status, a 1 to 200 character title, a 1 to 2000 character description, valid specifications and reference images, a budget of at most 50 characters, admin notes of at most 1000 and a well-formed quoted price when given |
| MessageValidation.UpdateRequestValid | src/lib/validations/messages.ts:155-162 | a given title and description are within their bounds and the specifications, images and budget are valid |
| MessageValidation.AdminUpdateRequestValid | src/lib/validations/messages.ts:165-170 | a given status is known, notes are at most 1000 characters and a given quoted price is well-formed |
| MessageValidation.ThreadFilterValid | src/lib/validations/messages.ts:173-180 | every listed status and priority is known and the search is at most 255 characters |
| MessageValidation.RequestFilterValid | src/lib/validations/messages.ts:193-209 | every listed status and type is known, the search is at most 255 characters and the event start date is not after the end date |
| MessageValidation.BulkMessageUpdateValid | src/lib/validations/messages.ts:222-229 | at least one message id and an isRead key kept in the parsed object (a key given as undefined is kept) |
| MessageValidation.BulkMessageUpdateIntended | src/lib/validations/messages.ts:222-229 | at least one message id and an isRead flag with a value |
| MessageValidation.BulkThreadUpdateValid | src/lib/validations/messages.ts:231-239 | at least one thread id, known values when given, and a status or priority key kept in the parsed object (a key given as undefined is kept) |
| MessageValidation.BulkThreadUpdateIntended | src/lib/validations/messages.ts:231-239 | as above, but a status or a priority must hold a value |
| SubscriptionValidation.ParseSubscribe | src/lib/validations/subscription.ts:4-17 | a subscription parses exactly when it is valid; the source defaults to "hero" and the email and first name are kept |
| SubscriptionValidation.SubscribeFields | src/lib/validations/subscription.ts:4-17 | the email needs 1 to 255 characters, the first name at most 100, and the source must be hero, inline, footer or popup |
| SubscriptionValidation.ParseSubscribeIdempotent | src/lib/validations/subscription.ts:4-17 | a parsed subscription parses to itself |
| SubscriptionValidation.UnsubscribeEitherOr | src/lib/validations/subscription.ts:21-34 | unsubscribing needs a non-empty email or token; either alone suffices, and empty strings count as missing |
| SubscriptionValidation.SubscribeValid | src/lib/validations/subscription.ts:4-18 | an email of 1 to 255 characters, a first name of at most 100 and a known source when given |
| SubscriptionValidation.UnsubscribeValid | src/lib/validations/subscription.ts:21-34 | an email of 1 to 255 characters or a non-empty token when given, and at least one of them truthy |
| ValidationUtils.SegmentText | src/lib/utils/validation.ts:16 | a key segment is its own text and an index segment a non-empty run of digits |
| ValidationUtils.PathTextExamples | src/lib/utils/validation.ts:15-17 | the path items, 0, quantity reads "items.0.quantity", and a root-level issue starts with ": " |
| ValidationUtils.ValidateData | src/lib/utils/validation.ts:7-23 | succeeds exactly when the schema does, with its value; on failure the error is a truthy custom message, or else "Validation failed: " followed by every issue text joined with ", " |
| ValidationUtils.SafeValidateData | src/lib/utils/validation.ts:29-44 | succeeds exactly when the schema does, with its value; on failure the errors are one issue text per issue, in order |
| ValidationUtils.IsValidData | src/lib/utils/validation.ts:80-85 | true exactly when the schema accepts the data |
| ValidationUtils.ValidatorsAgree | src/lib/utils/validation.ts:7-85 | the three entry points agree on validity and value, and the default error message is the safe variant's texts joined with ", " |
| ValidationUtils.EmptyCustomMessageIgnored | src/lib/utils/validation.ts:19 | an empty custom message is falsy, so the issue list is reported instead |
| ValidationUtils.GetValidationErrors | src/lib/utils/validation.ts:50-59 | the forEach builds the record in which each issue in turn writes its message under its dotted path |
| ValidationUtils.ErrorRecordKeys | src/lib/utils/validation.ts:50-59 | the record's keys are exactly the dotted paths of the issues |
| ValidationUtils.ErrorRecordLastWins | src/lib/utils/validation.ts:53-56 | under each path the record holds the message of the last issue on that path |
| ValidationUtils.ErrorRecordSize | src/lib/utils/validation.ts:50-59 | the record never has more entries than there are issues |
| ValidationUtils.CleanDataAsWrittenKeepsAll | src/lib/utils/validation.ts:70-72 | the filter as written tests the entry's key, never its value, so it removes nothing |
| ValidationUtils.UndefinedValueSurvives | src/lib/utils/validation.ts:70-72 | an entry whose value is undefined survives the clean-up as written |
| ValidationUtils.ValidatePartialData | src/lib/utils/validation.ts:65-75 | as written, validating partial data is exactly validating the data itself, undefined values included |
| ValidationUtils.CleanData | src/lib/utils/validation.ts:61-72 | the intended clean-up keeps exactly the entries whose value is defined, and never adds one |
| ValidationUtils.CleanDataRemovesUndefined | src/lib/utils/validation.ts:61-72 | after the intended clean-up no value is undefined, and data without an undefined value is unchanged |
| ValidationUtils.ValidatePartialDataIntendedMeaning | src/lib/utils/validation.ts:61-75 | with the intended clean-up, cleaning first changes nothing, and data without an undefined value is validated as it is |
| ValidationUtils.UndefinedValueRemoved | src/lib/utils/validation.ts:61-72 | the intended clean-up removes an undefined entry and keeps a defined one |
| ValidationUtils.CleanDataAsWritten | src/lib/utils/validation.ts:70-72 | the clean-up as written never adds an entry |
| ValidationUtils.ValidatePartialDataIntended | src/lib/utils/validation.ts:61-75 | with the intended clean-up, data without an undefined value is validated exactly as validateData validates it |
| EmailService.IndexOf | src/lib/email/unified-email-service.ts:250-253 | the position of the first occurrence of the character, or the length when there is none |
| EmailService.IsValidEmailMatchesRegex | src/lib/email/unified-email-service.ts:250-253 | the recipient check accepts exactly the strings the pattern of non-blank, @-free parts around an @ and a later dot matches |
| EmailService.ValidEmailMatchesRegex | src/lib/email/unified-email-service.ts:250-253 | every accepted address has a local part, an @ and a domain split by an inner dot, all free of blanks and further @ |
| EmailService.RegexMatchIsValidEmail | src/lib/email/unified-email-service.ts:250-253 | every string of that shape is accepted |
| EmailService.IsValidEmailCharacterised | src/lib/email/unified-email-service.ts:250-253 | an address is accepted exactly when it has no whitespace, exactly one @ with something before it, and a dot after the character following the @ that is not the last character |
| EmailService.ValidEmailExample | src/lib/email/unified-email-service.ts:250-253 | "jo@cake.uk" is accepted |
| EmailService.InvalidEmailExamples | src/lib/email/unified-email-service.ts:250-253 | "jo@cake" (no dot) and "jo@@cake.uk" (two @) are refused |
| EmailService.SpacedEmailExample | src/lib/email/unified-email-service.ts:250-253 | an address with a space is refused |
| EmailService.LookupTemplate | src/lib/email/unified-email-service.ts:63-119 | a found template carries the requested name |
| EmailService.LookupTemplateFindsEach | src/lib/email/unified-email-service.ts:63-119 | each of the seven templates is found under its own name |
| EmailService.LookupTemplateFails | src/lib/email/unified-email-service.ts:116-119 | the lookup fails exactly when no template has that name |
| EmailService.Branded | src/lib/email/unified-email-service.ts:199-205 | the data gains the bakery's name and email address, replacing any the caller gave, and keeps every other field |
| EmailService.BrandingOverwrites | src/lib/email/unified-email-service.ts:199-205 | branding twice is branding once, and caller-supplied brand fields make no difference |
| EmailService.ResponseResult | src/lib/email/unified-email-service.ts:136-153 | success exactly when Resend delivered, with its message id and no error; an API error gives the prefixed message and no id |
| EmailService.SendEmail | src/lib/email/unified-email-service.ts:108-168 | an email goes out exactly when the recipient passes the check and the template exists; the two refusals carry their messages; what goes out has the caller's truthy sender or the service's, the template's subject and the branded data |
| EmailService.SendEmailFromFallback | src/lib/email/unified-email-service.ts:129 | an empty or missing sender falls back to the service's address |
| EmailService.RetryFromMeaning | src/lib/email/unified-email-service.ts:258-288 | from any attempt on, the loop either stops at the first successful attempt with its result, or fails after all attempts with "Failed after N attempts: " and the last error |
| EmailService.RetryMeaning | src/lib/email/unified-email-service.ts:258-288 | a success is the first successful attempt's result after only failures; a failure means every attempt failed, all maxRetries were made, and the message names the count and the last error |
| EmailService.RetrySucceedsIff | src/lib/email/unified-email-service.ts:258-288 | the retry succeeds exactly when some attempt from 1 to maxRetries succeeds |
| EmailService.RetryWithoutAttempts | src/lib/email/unified-email-service.ts:263-287 | with maxRetries at most 0 nothing is sent and the result is the failure message with an empty last error |
| EmailService.Backoff | src/lib/email/unified-email-service.ts:277-280 | one wait fewer than the attempts made, the i-th of delayMs times i |
| EmailService.DefaultBackoff | src/lib/email/unified-email-service.ts:258-280 | with the defaults, three failing attempts wait 1000 ms and then 2000 ms |
| EmailService.SendEmailWithRetry | src/lib/email/unified-email-service.ts:258-288 | the loop returns exactly the retry run of the per-attempt send results, and requests exactly the backoff waits |
| EmailService.RetryInvalidRecipient | src/lib/email/unified-email-service.ts:258-288 | retrying an invalid recipient fails with the count and the invalid-recipient message |
| EmailService.IsValidEmail | src/lib/email/unified-email-service.ts:250-253 | a non-empty local part free of blanks and @ before the first @, then a domain free of blanks and @ with a dot that is neither its first nor its last character |
| EmailService.RetryFrom | src/lib/email/unified-email-service.ts:258-288 | from one attempt on: stop at the first success with its result, or fail after maxRetries attempts with the count and the last error |
| EmailService.Retry | src/lib/email/unified-email-service.ts:258-288 | the retry loop from the first attempt with an empty last error |
| CakeEmailSender.RenderCakeEmail | src/emails/utils/cake-email-sender.ts:45-67 | rendering succeeds exactly for the two cake templates, and otherwise fails with the wrapped unknown-template message |
| CakeEmailSender.SendCakeEmail | src/emails/utils/cake-email-sender.ts:141-200 | an email goes out exactly when the recipient passes the check and the template has a component; what goes out has the caller's sender or the default, the template's subject and the caller's data unchanged |
| CakeEmailSender.RecipientCheckAgrees | src/emails/utils/cake-email-sender.ts:149-151 | both senders refuse the same recipients with the same message and send nothing for them, and a valid recipient never draws that message |
| CakeEmailSender.EmptyFromDiffers | src/emails/utils/cake-email-sender.ts:145 | an empty sender is kept by the cake sender but replaced by the unified service; only a missing one gets the default |
| CakeEmailSender.WithCakeDefaults | src/emails/utils/cake-email-sender.ts:215-240 | the company name and support address are filled in only where the caller gave none, and every caller field is kept |
| CakeEmailSender.CallerValuesWin | src/emails/utils/cake-email-sender.ts:215-219 | filling the defaults twice changes nothing and a caller value, even undefined, wins, while the unified service's branding replaces it |
| CakeEmailSender.SendCakeEmailWithRetry | src/emails/utils/cake-email-sender.ts:255-285 | the loop returns exactly the retry run of the per-attempt cake send results, and requests exactly the backoff waits |
| CakeEmailSender.RetryUnknownCakeTemplate | src/emails/utils/cake-email-sender.ts:255-285 | retrying an unknown cake template makes every attempt and fails with the count and the rendering error |
| CakeEmailSender.HasCakeComponent | src/emails/utils/cake-email-sender.ts:31-34 | the templates with a component are exactly cake-welcome and cake-unsubscribe-confirmation |
| CakeEmailSender.CakeSubject | src/emails/utils/cake-email-sender.ts:37-40 | the subject of each of the two cake templates, as the file holds it |
| CakeEmailSender.SendCakeWithDefaults | src/emails/utils/cake-email-sender.ts:205-242 | the shared body of the two helpers: an email goes out exactly when the recipient passes the check and the template has a component, with that template's subject and the defaults filled into the data |
| CakeEmailSender.CakeHelpersSendTheirTemplates | src/emails/utils/cake-email-sender.ts:205-242 | each helper sends exactly when the recipient passes the check, with the welcome or the unsubscribe subject and the defaults filled into the caller's data |

## Left out

- SQL and the database. A query is the set of rows it can return from an in-memory table. The model leaves out the SQL text, joins beyond the rows they keep, aggregation, database errors, and how PostgreSQL's `ILIKE` treats non-ASCII letters (the model lower-cases ASCII only).
- Clocks and randomness. `Date.now()` and `Math.random()` in generated ids are a parameter (`imageId` in `Recipes.DuplicateRecipe`), and dates are integers.
- Floating point. Prices and amounts are exact reals. The `parseFloat` transforms after the price regexes are not modelled; a parsed price keeps its string.
- Format checks zod performs with code not part of this model: `.email()`, `.url()`, the future-date minimum (`new Date()`), and `z.instanceof(File)` beyond the type and size checks.
- `customOptions` fields, which accept any record. They are left unconstrained.
- Resend and React. The network call is a `ResendResponse` parameter. Rendering is modelled only where it fails on an unknown template; an exception thrown while rendering a known template, which `sendEmail` turns into a failure result, is left out. The plain-text bodies, the HTML and the `setTimeout` sleeps are left out; the requested waits are modelled.
- The exported convenience wrappers in `src/lib/email/unified-email-service.ts` (lines 295-370). Each is one `sendEmail` call with a fixed template name, which `EmailService.LookupTemplateFindsEach` covers. The two newsletter wrappers are modelled in `CakeEmailSender`.
- String lengths. zod counts UTF-16 code units; the model counts characters.
- Lookups by JavaScript object key. Prototype keys such as `constructor` in the template table, and a `__proto__` path in `getValidationErrors`, are not modelled.
- A non-integer `maxRetries`. Retry counts are integers.
- Email template data. Values are optional strings.
- The keys of a bulk `updates` object. They are a `set<string>` parameter beside the parsed fields, so a key given as `undefined` is told apart from a missing one. Which callers can send such an object (a JSON body cannot carry `undefined`; a direct call can) is not modelled.
- Query order. A query's `orderBy` is not computed: the input sequence of `Categories.GetCategoryTree`, `Categories.BuildCategoryTree` and the other fetched-row functions stands for the rows in the order the query returns them (for categories, by sort order and then name; src/lib/data/categories.ts:57).
- Concurrency. `Promise.all` lookups are modelled as sequential ones.
- The in-memory cart helpers in `src/lib/data/cart.ts`. They are not part of this model.
- User-interface state. Dialog open/close state, toasts, form state and routing are left out. Only what decides the rendered rows and the submitted values is modelled.
- Categories.GetCategoryBreadcrumb: proved for categories whose parent walk ends. It is given as a ghost bound on its length. The source has no cycle guard and loops on a cycle (`Categories.SelfParentNeverEnds`).
- CategoryDialog.OfferedParentKeepsAcyclic: the parent walk of the edited category is assumed to end before the change.
- SubscriptionValidation.ParseSubscribe: the `.email()` format check is not modelled, only the length bounds. The source's default of "hero" sits inside `.optional()`, and whether zod applies it to a missing value depends on the zod version. The model applies it.
- ProductValidation.ParseImage: the `.url()` check is not modelled; a present string is accepted.
- CatalogValidation.ParseRecipeImage: the `.url()` check is not modelled; a present string is accepted.
- MessageValidation.ParseMessage: the `.url()` checks on file and image attachments are not modelled.
- MessageValidation.ParseCreateRequest: the `.url()` check on reference images and the future-date check on the event date are not modelled.
- OrderValidation.CheckoutValid: the future-date check on the delivery date is not modelled.
- The create and update schemas built with `.omit` and `.partial` on a refined schema. What zod does here depends on its version: a refined schema may have no `.omit`, `.omit` may refuse it, or the refinement may be dropped or kept. The model keeps the base schema's refinement on every derived schema, as the rows below say.
- ProductValidation.CreateProductValid: keeps the slice refinement of `productSchema` (src/lib/validations/products.ts:39-47); whether zod keeps it after `.omit` depends on its version.
- ProductValidation.UpdateProductValid: keeps the slice refinement of `productSchema` after `.partial().omit(...)`; this depends on the zod version.
- CatalogValidation.CreateRecipeValid: keeps the time refinement of `recipeSchema` (src/lib/validations/catalog.ts:33-41); whether zod keeps it after `.omit` depends on its version.
- CatalogValidation.UpdateRecipeValid: keeps the time refinement of `recipeSchema` after `.partial().omit(...)`; this depends on the zod version.
- CatalogValidation.CreateAdminProductValid: keeps the slice refinement of `adminProductSchema`; whether zod keeps it after `.omit` depends on its version.
- CatalogValidation.UpdateAdminProductValid: keeps the slice refinement of `adminProductSchema` after `.partial().omit(...)`; this depends on the zod version.
- CartValidation.CreateCartValid: keeps the owner refinement of `cartSchema` (a truthy user id or session id); whether zod keeps it after `.omit` depends on its version.
- Products.TextConditionMeaning: PostgreSQL `ILIKE` reads `%` and `_` in the pattern as wildcards and `\` as an escape. The source does not escape them in the search term, so a query containing them matches more (or, with a trailing `\`, differently) than the plain substring test the model states. The model treats every query character literally.
- Products.ILike: treats the search term literally; `%`, `_` and `\` in it are wildcards or escapes to `ILIKE` and are not modelled.
- Recipes.ILike: treats the search term literally; `%`, `_` and `\` in it are wildcards or escapes to `ILIKE` and are not modelled.
- Messages.RequestTextHit: treats the search term literally; `%`, `_` and `\` in it are wildcards or escapes to `ILIKE` and are not modelled.
- CategoryDialog.Slugify: lower-cases ASCII letters only (`Common.ToLower`). JavaScript's `toLowerCase` maps all of Unicode, so for example the Kelvin sign U+212A becomes "k" and survives the filter, and U+0130 becomes "i" followed by U+0307. The model drops such characters instead.
- CategoryDialog.KeepSlugChars: sees the ASCII-only lower-casing described for `CategoryDialog.Slugify`; the character filter itself is exact.
- ValidationUtils.CleanDataAsWritten: its own contract only bounds the length; that it keeps every entry is `ValidationUtils.CleanDataAsWrittenKeepsAll`.
- Numbers that are NaN or infinite. A number is a finite real. zod 3 accepts `Infinity` for `z.number()` unless `.finite()` or `.int()` is used, and the model does not represent it.
- `getAllThreads` (src/lib/data/messages.ts:119-182) builds its search with the same raw `OR` fragment inside `and(...)`. It is not part of this model.
- CakeEmailSender.CakeSubject: the welcome subject is kept exactly as the source file holds it, including the mis-decoded emoji characters.

## Findings

| source | as written | input that shows it | evidently intended | confidence | as-written member | corrected member |
|---|---|---|---|---|---|---|
| src/lib/utils/validation.ts:70-72 | `validatePartialData` filters the entries with `([value]) => value !== undefined`. That destructures the key, so every entry is kept. | `{ name: undefined }` reaches the schema with its `undefined` value | drop the entries whose value is `undefined` before validating | not executed | ValidationUtils.CleanDataAsWrittenKeepsAll | ValidationUtils.CleanDataRemovesUndefined |
| src/lib/data/messages.ts:253-262 | `getAllCustomRequests` pushes the raw fragment `title ILIKE p OR description ILIKE p` into the conditions, and `and(...)` joins them without parenthesising it, so the WHERE reads `(status AND quote AND title ILIKE p) OR description ILIKE p` | hasQuote true, search "x", and an unquoted request whose description contains "x": it is listed | the search ANDed with the other filters as one group | not executed | Messages.UnquotedDescriptionHitLeaks | Messages.HasQuoteMeaning |
| src/lib/validations/products.ts:212 | the refinement `Object.keys(data).length > 0` counts keys, and zod keeps a declared key given as `undefined` | `updates: { isActive: undefined }` with one product id passes, and the update sets nothing | at least one of the three fields holds a value | not executed | ProductValidation.UndefinedKeyCountsAsProductUpdate | ProductValidation.BulkProductUpdateIntendedMeaning |
| src/lib/validations/orders.ts:169 | the same key-count refinement on the order updates | `updates: { status: undefined }` with one order id passes | a status or a payment status holds a value | not executed | OrderValidation.UndefinedKeyCountsAsOrderUpdate | OrderValidation.BulkOrderUpdateIntendedMeaning |
| src/lib/validations/messages.ts:226-236 | the same key-count refinement on the message and thread updates | `updates: { isRead: undefined }` or `updates: { status: undefined }` with one id passes | the read flag, or a status or priority, holds a value | not executed | MessageValidation.UndefinedKeyCountsAsMessageUpdate | MessageValidation.BulkUpdatesIntendedMeaning |
