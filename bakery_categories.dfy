/**
 * The static two-level bakery taxonomy: five top-level categories, each with
 * its subcategories, and the three lookups over it (all slugs in declared
 * order, lookup by slug, and the slug-keyed hierarchy).
 */
module BakeryCategories {
  import opened Common

  datatype Subcategory = Subcategory(id: string, name: string, slug: string, description: string, sortOrder: int)

  /** A top-level category; `subcategories` is an optional field. */
  datatype BakeryCategory = BakeryCategory(id: string, name: string, slug: string, description: string,
                                           sortOrder: int, subcategories: Option<seq<Subcategory>>)

  /** `BAKERY_CATEGORIES`, in declared order. */
  function Catalog(): seq<BakeryCategory>
  {
    [CakesCategory(), PastriesCategory(), CookiesCategory(), BreadCategory(), SeasonalCategory()]
  }

  function CakesCategory(): BakeryCategory
  {
    BakeryCategory("cakes", "Cakes", "cakes",
      "Custom and ready-made cakes for all occasions", 1,
      Some([
        Subcategory("birthday-cakes", "Birthday Cakes", "birthday-cakes", "Celebration cakes perfect for birthdays", 1),
        Subcategory("wedding-cakes", "Wedding Cakes", "wedding-cakes", "Elegant wedding cakes for your special day", 2),
        Subcategory("cupcakes", "Cupcakes", "cupcakes", "Individual portion cakes perfect for any occasion", 3),
        Subcategory("celebration-cakes", "Celebration Cakes", "celebration-cakes", "Special occasion cakes for graduations, anniversaries, and more", 4)
      ]))
  }

  function PastriesCategory(): BakeryCategory
  {
    BakeryCategory("pastries", "Pastries", "pastries",
      "Fresh baked pastries and sweet treats", 2,
      Some([
        Subcategory("croissants", "Croissants", "croissants", "Buttery, flaky croissants baked fresh daily", 1),
        Subcategory("danish-pastries", "Danish Pastries", "danish-pastries", "Sweet Danish pastries with various fillings", 2),
        Subcategory("eclairs", "\U{00C9}clairs", "eclairs", "Classic French \U{00E9}clairs with cream filling", 3)
      ]))
  }

  function CookiesCategory(): BakeryCategory
  {
    BakeryCategory("cookies", "Cookies", "cookies",
      "Homemade cookies and biscuits", 3,
      Some([
        Subcategory("chocolate-chip", "Chocolate Chip", "chocolate-chip", "Classic chocolate chip cookies", 1),
        Subcategory("sugar-cookies", "Sugar Cookies", "sugar-cookies", "Decorated sugar cookies for special occasions", 2),
        Subcategory("shortbread", "Shortbread", "shortbread", "Traditional buttery shortbread cookies", 3)
      ]))
  }

  function BreadCategory(): BakeryCategory
  {
    BakeryCategory("bread", "Bread", "bread",
      "Fresh baked breads and rolls", 4,
      Some([
        Subcategory("artisan-loaves", "Artisan Loaves", "artisan-loaves", "Handcrafted artisan bread loaves", 1),
        Subcategory("dinner-rolls", "Dinner Rolls", "dinner-rolls", "Soft dinner rolls perfect for any meal", 2),
        Subcategory("specialty-breads", "Specialty Breads", "specialty-breads", "Unique and seasonal bread varieties", 3)
      ]))
  }

  function SeasonalCategory(): BakeryCategory
  {
    BakeryCategory("seasonal", "Seasonal Specials", "seasonal",
      "Limited-time seasonal baked goods", 5,
      Some([
        Subcategory("holiday-treats", "Holiday Treats", "holiday-treats", "Special treats for holidays and celebrations", 1),
        Subcategory("seasonal-flavors", "Seasonal Flavors", "seasonal-flavors", "Limited-time flavors using seasonal ingredients", 2)
      ]))
  }

  // ---------------------------------------------------------------------------
  // All slugs

  /** The subcategories of a category, `[]` when the field is absent. */
  function Subs(c: BakeryCategory): seq<Subcategory>
  {
    if c.subcategories.Some? then c.subcategories.value else []
  }

  function SubSlugs(subs: seq<Subcategory>): (r: seq<string>)
    ensures |r| == |subs|
    ensures forall j :: 0 <= j < |subs| ==> r[j] == subs[j].slug
  {
    if |subs| == 0 then [] else SubSlugs(subs[..|subs| - 1]) + [subs[|subs| - 1].slug]
  }

  /** The slugs one category contributes: its own, then its subcategories'. */
  function CategorySlugs(c: BakeryCategory): seq<string>
  {
    [c.slug] + SubSlugs(Subs(c))
  }

  /** Every slug of a catalog: each category's slug immediately followed by its subcategories' slugs. */
  function SlugList(cats: seq<BakeryCategory>): seq<string>
  {
    if |cats| == 0 then [] else SlugList(cats[..|cats| - 1]) + CategorySlugs(cats[|cats| - 1])
  }

  /** Number of subcategories over the whole catalog. */
  function SubCount(cats: seq<BakeryCategory>): nat
  {
    if |cats| == 0 then 0 else SubCount(cats[..|cats| - 1]) + |Subs(cats[|cats| - 1])|
  }

  /** `getAllCategorySlugs`: push each category's slug, then each of its subcategories' slugs. */
  method GetAllCategorySlugs(cats: seq<BakeryCategory>) returns (slugs: seq<string>)
    ensures slugs == SlugList(cats)
  {
    slugs := [];
    for i := 0 to |cats|
      invariant slugs == SlugList(cats[..i])
    {
      var category := cats[i];
      assert cats[..i + 1][..i] == cats[..i];
      slugs := slugs + [category.slug];
      if category.subcategories.Some? {
        var subs := category.subcategories.value;
        for j := 0 to |subs|
          invariant slugs == SlugList(cats[..i]) + [category.slug] + SubSlugs(subs[..j])
        {
          assert subs[..j + 1][..j] == subs[..j];
          slugs := slugs + [subs[j].slug];
        }
        assert subs[..|subs|] == subs;
      }
    }
    assert cats[..|cats|] == cats;
  }

  /** The slug list has one entry per category and one per subcategory. */
  lemma {:induction false} SlugListLength(cats: seq<BakeryCategory>)
    ensures |SlugList(cats)| == |cats| + SubCount(cats)
  {
    if |cats| > 0 {
      SlugListLength(cats[..|cats| - 1]);
    }
  }

  /** A slug is listed exactly when some category lists it among its own slugs. */
  lemma {:induction false} SlugListMembership(cats: seq<BakeryCategory>, slug: string)
    ensures slug in SlugList(cats) <==> exists i :: 0 <= i < |cats| && slug in CategorySlugs(cats[i])
  {
    if |cats| > 0 {
      var init := cats[..|cats| - 1];
      SlugListMembership(init, slug);
      if exists i :: 0 <= i < |init| && slug in CategorySlugs(init[i]) {
        var i :| 0 <= i < |init| && slug in CategorySlugs(init[i]);
        assert cats[i] == init[i];
      }
    }
  }

  // ---------------------------------------------------------------------------
  // Lookup by slug

  /** What `getCategoryBySlug` returns: the category itself, or a subcategory with its `parent` attached. */
  datatype Found =
    | TopLevel(category: BakeryCategory)
    | WithParent(sub: Subcategory, parent: BakeryCategory)
  {
    function Slug(): string
    {
      if TopLevel? then category.slug else sub.slug
    }
  }

  /** `subcategories.find(sub => sub.slug === slug)`: the first subcategory with that slug. */
  function FindSub(subs: seq<Subcategory>, slug: string): (r: Option<Subcategory>)
    ensures r.None? <==> forall j :: 0 <= j < |subs| ==> subs[j].slug != slug
    ensures r.Some? ==> exists j :: 0 <= j < |subs| && subs[j] == r.value && r.value.slug == slug
                                    && forall m :: 0 <= m < j ==> subs[m].slug != slug
  {
    if |subs| == 0 then None
    else if subs[0].slug == slug then Some(subs[0])
    else
      var r := FindSub(subs[1..], slug);
      assert forall j :: 1 <= j < |subs| ==> subs[j] == subs[1..][j - 1];
      r
  }

  /**
   * The reference lookup: categories in declared order; a category's own
   * slug is tried before its subcategories, and the first match wins.
   */
  function FindBySlug(cats: seq<BakeryCategory>, slug: string): Option<Found>
  {
    if |cats| == 0 then None
    else if cats[0].slug == slug then Some(TopLevel(cats[0]))
    else if cats[0].subcategories.Some? && FindSub(cats[0].subcategories.value, slug).Some? then
      Some(WithParent(FindSub(cats[0].subcategories.value, slug).value, cats[0]))
    else FindBySlug(cats[1..], slug)
  }

  /** `getCategoryBySlug`: a `for` loop over the categories with early returns. */
  method GetCategoryBySlug(cats: seq<BakeryCategory>, slug: string) returns (r: Option<Found>)
    ensures r == FindBySlug(cats, slug)
  {
    for i := 0 to |cats|
      invariant FindBySlug(cats, slug) == FindBySlug(cats[i..], slug)
    {
      var category := cats[i];
      if category.slug == slug {
        return Some(TopLevel(category));
      }
      if category.subcategories.Some? {
        var subcategory := FindSub(category.subcategories.value, slug);
        if subcategory.Some? {
          return Some(WithParent(subcategory.value, category));
        }
      }
      assert cats[i..][1..] == cats[i + 1..];
    }
    return None;
  }

  /** The lookup comes back empty exactly when no category lists the slug at either level. */
  lemma {:induction false} FindBySlugNoneIff(cats: seq<BakeryCategory>, slug: string)
    ensures FindBySlug(cats, slug).None? <==> forall i :: 0 <= i < |cats| ==> slug !in CategorySlugs(cats[i])
  {
    if |cats| > 0 {
      FindBySlugNoneIff(cats[1..], slug);
      assert forall i :: 1 <= i < |cats| ==> cats[i] == cats[1..][i - 1];
      if FindBySlug(cats, slug).None? {
        assert slug !in CategorySlugs(cats[0]);
      }
    }
  }

  /** `getCategoryBySlug` returns null iff the slug is missing from `getAllCategorySlugs`. */
  lemma NullIffUnlisted(cats: seq<BakeryCategory>, slug: string)
    ensures FindBySlug(cats, slug).None? <==> slug !in SlugList(cats)
  {
    FindBySlugNoneIff(cats, slug);
    SlugListMembership(cats, slug);
  }

  /** Round trip: every listed slug resolves. */
  lemma EveryListedSlugResolves(cats: seq<BakeryCategory>, slug: string)
    requires slug in SlugList(cats)
    ensures FindBySlug(cats, slug).Some? && FindBySlug(cats, slug).value.Slug() == slug
  {
    NullIffUnlisted(cats, slug);
    FoundHasSlug(cats, slug);
  }

  /**
   * A hit carries the requested slug; a top-level hit is a category of the
   * catalog, and a subcategory hit comes with the catalog category it belongs to.
   */
  lemma {:induction false} FoundHasSlug(cats: seq<BakeryCategory>, slug: string)
    requires FindBySlug(cats, slug).Some?
    ensures var f := FindBySlug(cats, slug).value;
      f.Slug() == slug
      && (f.TopLevel? ==> f.category in cats)
      && (f.WithParent? ==> f.parent in cats && f.sub in Subs(f.parent))
  {
    if cats[0].slug != slug && !(cats[0].subcategories.Some? && FindSub(cats[0].subcategories.value, slug).Some?) {
      FoundHasSlug(cats[1..], slug);
    }
  }

  /**
   * The first category (in declared order) that lists the slug decides the
   * answer, and its own slug is tried before its subcategories.
   */
  lemma {:induction false} FirstListingCategoryWins(cats: seq<BakeryCategory>, slug: string, i: nat)
    requires i < |cats| && slug in CategorySlugs(cats[i])
    requires forall j :: 0 <= j < i ==> slug !in CategorySlugs(cats[j])
    ensures cats[i].slug == slug ==> FindBySlug(cats, slug) == Some(TopLevel(cats[i]))
    ensures cats[i].slug != slug ==> FindBySlug(cats, slug) == Some(WithParent(FindSub(Subs(cats[i]), slug).value, cats[i]))
  {
    if i > 0 {
      assert slug !in CategorySlugs(cats[0]);
      assert forall j :: 0 <= j < i - 1 ==> cats[1..][j] == cats[j + 1];
      FirstListingCategoryWins(cats[1..], slug, i - 1);
    }
  }

  // ---------------------------------------------------------------------------
  // Slug-keyed hierarchy

  /** One entry of `getCategoryHierarchy`: the category's fields, its subcategories keyed by slug. */
  datatype HierarchyEntry = HierarchyEntry(id: string, name: string, slug: string, description: string,
                                           sortOrder: int, subcategories: map<string, Subcategory>)

  /** The `reduce` that keys subcategories by slug (a later one with the same slug replaces an earlier one). */
  function SubMap(subs: seq<Subcategory>): map<string, Subcategory>
  {
    if |subs| == 0 then map[] else SubMap(subs[..|subs| - 1])[subs[|subs| - 1].slug := subs[|subs| - 1]]
  }

  /** The hierarchy entry of one category; an absent subcategory list becomes `{}`. */
  function EntryOf(c: BakeryCategory): HierarchyEntry
  {
    HierarchyEntry(c.id, c.name, c.slug, c.description, c.sortOrder,
                   if c.subcategories.Some? then SubMap(c.subcategories.value) else map[])
  }

  /** The hierarchy: each category's entry under its slug, a later category replacing an earlier one. */
  function Hierarchy(cats: seq<BakeryCategory>): map<string, HierarchyEntry>
  {
    if |cats| == 0 then map[] else Hierarchy(cats[..|cats| - 1])[cats[|cats| - 1].slug := EntryOf(cats[|cats| - 1])]
  }

  /** `getCategoryHierarchy`: fill the record category by category, each with its reduced subcategory record. */
  method GetCategoryHierarchy(cats: seq<BakeryCategory>) returns (hierarchy: map<string, HierarchyEntry>)
    ensures hierarchy == Hierarchy(cats)
  {
    hierarchy := map[];
    for i := 0 to |cats|
      invariant hierarchy == Hierarchy(cats[..i])
    {
      var category := cats[i];
      var subs: map<string, Subcategory> := map[];
      if category.subcategories.Some? {
        var list := category.subcategories.value;
        for j := 0 to |list|
          invariant subs == SubMap(list[..j])
        {
          assert list[..j + 1][..j] == list[..j];
          subs := subs[list[j].slug := list[j]];
        }
        assert list[..|list|] == list;
      }
      assert cats[..i + 1][..i] == cats[..i];
      hierarchy := hierarchy[category.slug := HierarchyEntry(category.id, category.name, category.slug,
                                                             category.description, category.sortOrder, subs)];
    }
    assert cats[..|cats|] == cats;
  }

  /** The subcategory record holds, under each slug, the last subcategory with that slug, and no other key. */
  lemma {:induction false} SubMapLastWins(subs: seq<Subcategory>)
    ensures forall k :: k in SubMap(subs) <==> k in SubSlugs(subs)
    ensures forall j :: 0 <= j < |subs| && (forall m :: j < m < |subs| ==> subs[m].slug != subs[j].slug) ==>
              SubMap(subs)[subs[j].slug] == subs[j]
  {
    if |subs| > 0 {
      var n := |subs| - 1;
      var init := subs[..n];
      SubMapLastWins(init);
      assert SubSlugs(subs) == SubSlugs(init) + [subs[n].slug];
      forall j | 0 <= j < |subs| && (forall m :: j < m < |subs| ==> subs[m].slug != subs[j].slug)
        ensures SubMap(subs)[subs[j].slug] == subs[j]
      {
        if j < n {
          assert init[j] == subs[j];
          assert forall m :: j < m < |init| ==> init[m].slug != init[j].slug by {
            forall m | j < m < |init|
              ensures init[m].slug != init[j].slug
            {
              assert init[m] == subs[m];
            }
          }
        }
      }
    }
  }

  /** The hierarchy's keys are exactly the categories' slugs. */
  lemma {:induction false} HierarchyKeys(cats: seq<BakeryCategory>)
    ensures forall k :: k in Hierarchy(cats) <==> exists i :: 0 <= i < |cats| && cats[i].slug == k
  {
    if |cats| > 0 {
      var init := cats[..|cats| - 1];
      HierarchyKeys(init);
      forall k | k in Hierarchy(cats)
        ensures exists i :: 0 <= i < |cats| && cats[i].slug == k
      {
        if k != cats[|cats| - 1].slug {
          assert k in Hierarchy(init);
          var i :| 0 <= i < |init| && init[i].slug == k;
          assert cats[i].slug == k;
        }
      }
      forall k | exists i :: 0 <= i < |cats| && cats[i].slug == k
        ensures k in Hierarchy(cats)
      {
        var i :| 0 <= i < |cats| && cats[i].slug == k;
        if i < |init| {
          assert init[i].slug == k;
        }
      }
    }
  }

  /** Under each slug the hierarchy holds the entry of the last category with that slug. */
  lemma {:induction false} HierarchyLastWins(cats: seq<BakeryCategory>, i: nat)
    requires i < |cats|
    requires forall m :: i < m < |cats| ==> cats[m].slug != cats[i].slug
    ensures cats[i].slug in Hierarchy(cats) && Hierarchy(cats)[cats[i].slug] == EntryOf(cats[i])
  {
    if i < |cats| - 1 {
      var init := cats[..|cats| - 1];
      HierarchyLastWins(init, i);
    }
  }

  /** A category without subcategories has an empty subcategory record. */
  lemma NoSubcategoriesEmptyRecord(c: BakeryCategory)
    requires c.subcategories.None? || |c.subcategories.value| == 0
    ensures EntryOf(c).subcategories == map[]
  {
  }

  // ---------------------------------------------------------------------------
  // The static catalog

  /** The twenty static slugs, in declared order. */
  function StaticSlugs(): seq<string>
  {
    ["cakes", "birthday-cakes", "wedding-cakes", "cupcakes", "celebration-cakes",
     "pastries", "croissants", "danish-pastries", "eclairs",
     "cookies", "chocolate-chip", "sugar-cookies", "shortbread",
     "bread", "artisan-loaves", "dinner-rolls", "specialty-breads",
     "seasonal", "holiday-treats", "seasonal-flavors"]
  }

  lemma CakesSlugs()
    ensures CategorySlugs(CakesCategory()) == StaticSlugs()[..5]
  {
  }

  lemma PastriesSlugs()
    ensures CategorySlugs(PastriesCategory()) == StaticSlugs()[5..9]
  {
  }

  lemma CookiesSlugs()
    ensures CategorySlugs(CookiesCategory()) == StaticSlugs()[9..13]
  {
  }

  lemma BreadSlugs()
    ensures CategorySlugs(BreadCategory()) == StaticSlugs()[13..17]
  {
  }

  lemma SeasonalSlugs()
    ensures CategorySlugs(SeasonalCategory()) == StaticSlugs()[17..]
  {
  }

  /** `getAllCategorySlugs()` lists the twenty static slugs, one per category and subcategory. */
  lemma StaticSlugList()
    ensures SlugList(Catalog()) == StaticSlugs()
    ensures |SlugList(Catalog())| == |Catalog()| + SubCount(Catalog()) == 20
  {
    var cats := Catalog();
    CakesSlugs();
    PastriesSlugs();
    CookiesSlugs();
    BreadSlugs();
    SeasonalSlugs();
    SlugListOfFive(cats);
    SlugListLength(cats);
    FiveParts(StaticSlugs());
  }

  lemma FiveParts(all: seq<string>)
    requires |all| == 20
    ensures all[..5] + all[5..9] + all[9..13] + all[13..17] + all[17..] == all
  {
  }

  /** The slugs of a five-category catalog, category by category. */
  lemma SlugListOfFive(cats: seq<BakeryCategory>)
    requires |cats| == 5
    ensures SlugList(cats) == CategorySlugs(cats[0]) + CategorySlugs(cats[1]) + CategorySlugs(cats[2])
                              + CategorySlugs(cats[3]) + CategorySlugs(cats[4])
  {
    var c0, c1, c2, c3, c4 := CategorySlugs(cats[0]), CategorySlugs(cats[1]), CategorySlugs(cats[2]),
                              CategorySlugs(cats[3]), CategorySlugs(cats[4]);
    SlugListPrefix(cats, 1);
    assert cats[..0] == [];
    assert SlugList(cats[..1]) == c0;
    SlugListPrefix(cats, 2);
    assert SlugList(cats[..2]) == c0 + c1;
    SlugListPrefix(cats, 3);
    assert SlugList(cats[..3]) == c0 + c1 + c2;
    SlugListPrefix(cats, 4);
    assert SlugList(cats[..4]) == c0 + c1 + c2 + c3;
    SlugListPrefix(cats, 5);
    assert cats[..5] == cats;
  }

  /** One more category of a prefix adds its own slugs at the end. */
  lemma SlugListPrefix(cats: seq<BakeryCategory>, k: nat)
    requires 0 < k <= |cats|
    ensures SlugList(cats[..k]) == SlugList(cats[..k - 1]) + CategorySlugs(cats[k - 1])
  {
    assert cats[..k][..k - 1] == cats[..k - 1];
  }

  /** Every static category and subcategory uses its id as its slug. */
  lemma StaticSlugsAreIds()
    ensures forall c :: c in Catalog() ==> SlugIsId(c)
  {
    CakesSlugIsId();
    PastriesSlugIsId();
    CookiesSlugIsId();
    BreadSlugIsId();
    SeasonalSlugIsId();
  }

  /** A category and each of its subcategories use their ids as slugs. */
  predicate SlugIsId(c: BakeryCategory)
  {
    c.slug == c.id && forall s :: s in Subs(c) ==> s.slug == s.id
  }

  lemma CakesSlugIsId()
    ensures SlugIsId(CakesCategory())
  {
    var subs := Subs(CakesCategory());
    assert forall k :: 0 <= k < |subs| ==> subs[k].slug == subs[k].id;
  }

  lemma PastriesSlugIsId()
    ensures SlugIsId(PastriesCategory())
  {
    var subs := Subs(PastriesCategory());
    assert forall k :: 0 <= k < |subs| ==> subs[k].slug == subs[k].id;
  }

  lemma CookiesSlugIsId()
    ensures SlugIsId(CookiesCategory())
  {
    var subs := Subs(CookiesCategory());
    assert forall k :: 0 <= k < |subs| ==> subs[k].slug == subs[k].id;
  }

  lemma BreadSlugIsId()
    ensures SlugIsId(BreadCategory())
  {
    var subs := Subs(BreadCategory());
    assert forall k :: 0 <= k < |subs| ==> subs[k].slug == subs[k].id;
  }

  lemma SeasonalSlugIsId()
    ensures SlugIsId(SeasonalCategory())
  {
    var subs := Subs(SeasonalCategory());
    assert forall k :: 0 <= k < |subs| ==> subs[k].slug == subs[k].id;
  }

  /** The twenty static slugs are pairwise distinct. */
  lemma StaticSlugsDistinct()
    ensures var s := SlugList(Catalog()); forall i, j :: 0 <= i < j < |s| ==> s[i] != s[j]
  {
    StaticSlugList();
    LiteralSlugsDistinct();
  }

  lemma LiteralSlugsDistinct()
    ensures forall i, j :: 0 <= i < j < |StaticSlugs()| ==> StaticSlugs()[i] != StaticSlugs()[j]
  {
  }
}
