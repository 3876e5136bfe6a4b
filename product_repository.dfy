/** The product search query: products left-joined with their category and
    brand, kept when the lower-cased product name contains the name filter
    and each non-null category or brand filter is contained in the
    lower-cased name of the joined row. */
module ProductRepository {
  import opened Common
  import opened Entities
  import opened Strings
  import opened Sequences

  /** `LOWER(column) LIKE %pattern%`. A null column (no joined row, or a
      null name) makes the comparison unknown, which a WHERE clause drops. */
  predicate LikeContains(column: Text, pattern: string) {
    column.Some? && Contains(Lower(column.value), pattern)
  }

  /** The WHERE clause, given the product's name and the names of its
      joined category and brand. */
  predicate Matches(
    productName: Text, categoryName: Text, brandName: Text,
    name: string, category: Option<string>, brand: Option<string>)
  {
    && LikeContains(productName, name)
    && (category.None? || LikeContains(categoryName, category.value))
    && (brand.None? || LikeContains(brandName, brand.value))
  }

  /** `LEFT JOIN p.brand b`, then `b.name`: null when the product has no brand. */
  function JoinedBrandName(p: Product, brands: map<int, Brand>): Text {
    if p.brandId.Some? && p.brandId.value in brands then brands[p.brandId.value].name else None
  }

  function JoinedCategoryName(p: Product, categories: map<int, Category>): Text {
    if p.categoryId.Some? && p.categoryId.value in categories then categories[p.categoryId.value].name else None
  }

  predicate ProductMatches(
    p: Product, brands: map<int, Brand>, categories: map<int, Category>,
    name: string, category: Option<string>, brand: Option<string>)
  {
    Matches(p.name, JoinedCategoryName(p, categories), JoinedBrandName(p, brands), name, category, brand)
  }

  /** `search(name, category, brand)` over the scanned products: the
      matching products, each as often as it was scanned, in scan order. */
  function Search(
    products: seq<Product>, brands: map<int, Brand>, categories: map<int, Category>,
    name: string, category: Option<string>, brand: Option<string>): (r: seq<Product>)
    ensures |r| <= |products|
    ensures forall p :: p in r <==> p in products && ProductMatches(p, brands, categories, name, category, brand)
    ensures IsSubsequence(r, products)
    ensures forall p ::
      multiset(r)[p] == (if ProductMatches(p, brands, categories, name, category, brand) then multiset(products)[p] else 0)
  {
    if products == [] then []
    else
      var rest := Search(products[1..], brands, categories, name, category, brand);
      assert products == [products[0]] + products[1..];
      assert forall p :: p in products <==> p == products[0] || p in products[1..];
      if ProductMatches(products[0], brands, categories, name, category, brand) then
        var r := [products[0]] + rest;
        assert r[1..] == rest;
        r
      else rest
  }

  // ------------------------------------------------------------- lemmas

  /** A product matches only if its lower-cased name contains the name filter. */
  lemma NameFilterAlwaysApplies(
    productName: Text, categoryName: Text, brandName: Text,
    name: string, category: Option<string>, brand: Option<string>)
    requires Matches(productName, categoryName, brandName, name, category, brand)
    ensures productName.Some? && Contains(Lower(productName.value), name)
  {
  }

  /** A null category filter imposes no constraint: whatever category the
      product has, or none, the outcome is the same. */
  lemma NullCategoryFilterIgnoresCategory(
    productName: Text, c1: Text, c2: Text, brandName: Text,
    name: string, brand: Option<string>)
    ensures Matches(productName, c1, brandName, name, None, brand)
        == Matches(productName, c2, brandName, name, None, brand)
  {
  }

  lemma NullBrandFilterIgnoresBrand(
    productName: Text, categoryName: Text, b1: Text, b2: Text,
    name: string, category: Option<string>)
    ensures Matches(productName, categoryName, b1, name, category, None)
        == Matches(productName, categoryName, b2, name, category, None)
  {
  }

  /** Because the join is an outer join, a product without a category (or
      brand) never matches a non-null category (or brand) filter. */
  lemma MissingAssociationNeverMatches(
    productName: Text, categoryName: Text, brandName: Text,
    name: string, category: Option<string>, brand: Option<string>)
    requires (category.Some? && categoryName.None?) || (brand.Some? && brandName.None?)
    ensures !Matches(productName, categoryName, brandName, name, category, brand)
  {
  }

  /** An empty category filter is not the same as a null one: it keeps
      exactly the products that have a (named) category. */
  lemma EmptyCategoryFilterNeedsCategory(
    productName: Text, categoryName: Text, brandName: Text,
    name: string, brand: Option<string>)
    ensures Matches(productName, categoryName, brandName, name, Some(""), brand)
        <==> categoryName.Some? && Matches(productName, categoryName, brandName, name, None, brand)
  {
    if categoryName.Some? {
      ContainsEmpty(Lower(categoryName.value));
    }
  }

  // ----------------------------------------------- the repository's cases

  const Yoplait := Brand(Some(1), Some("Yoplait"), Some("Yoplait is the world's largest franchise brand of yogurt."))
  const OrganicMilk := Brand(Some(2), Some("The Organic Milk Company"), Some("The Organic Milk Company is Australian owned and operated."))
  const Yogurt := Category(Some(3), Some("Yogurt"), Some("A dairy product."))
  const Butter := Category(Some(4), Some("Butter & margarine"), Some("A dairy product."))
  const SeedBrands: map<int, Brand> := map[1 := Yoplait, 2 := OrganicMilk]
  const SeedCategories: map<int, Category> := map[3 := Yogurt, 4 := Butter]

  const StrawberryYoghurt := Product(Some(5), Some("Yoplait Strawberry Yoghurt | 1kg"),
    Some("Made in Australia and available in 4 delicious flavours."), None, Some(1), Some(3))
  const PetitMiam := Product(Some(6), Some("Yoplait Petit Miam Strawberry & Banana | 70g"),
    Some("Made in Australia. 4.5 health star rating."), None, Some(1), Some(3))
  const SaltedButter := Product(Some(7), Some("The Organic Milk Company Salted Butter | 250g"),
    Some("No additives, antibiotics, or GMOs."), None, Some(2), Some(4))

  /** A column contains the pattern when one of its slices lowers to it. */
  lemma LikeContainsSlice(column: string, i: nat, j: nat, pattern: string)
    requires i <= j <= |column|
    requires Lower(column[i..j]) == pattern
    ensures LikeContains(Some(column), pattern)
  {
    LowerSlice(column, i, j);
    ContainsAt(Lower(column), pattern);
    assert OccursAt(Lower(column), pattern, i);
  }

  /** Every named column matches the empty pattern. */
  lemma LikeContainsEmpty(column: Text)
    requires column.Some?
    ensures LikeContains(column, "")
  {
    ContainsEmpty(Lower(column.value));
  }

  lemma StrawberryYoghurtNotBanana()
    ensures !LikeContains(StrawberryYoghurt.name, "banana")
  {
    var name := StrawberryYoghurt.name.value;
    LowerAvoids(name, 'n');
    AbsentCharRulesOut(Lower(name), "banana", 'n');
  }

  lemma StrawberryYoghurtIsStrawberry()
    ensures LikeContains(StrawberryYoghurt.name, "strawberry")
  {
    var name := StrawberryYoghurt.name.value;
    assert forall k :: 0 <= k < 10 ==> name[8..18][k] == name[8 + k];
    assert name[8..18] == "Strawberry";
    assert Lower("Strawberry") == "strawberry";
    LikeContainsSlice(name, 8, 18, "strawberry");
  }

  lemma PetitMiamIsStrawberry()
    ensures LikeContains(PetitMiam.name, "strawberry")
  {
    var name := PetitMiam.name.value;
    assert forall k :: 0 <= k < 10 ==> name[19..29][k] == name[19 + k];
    assert name[19..29] == "Strawberry";
    assert Lower("Strawberry") == "strawberry";
    LikeContainsSlice(name, 19, 29, "strawberry");
  }

  lemma PetitMiamIsBanana()
    ensures LikeContains(PetitMiam.name, "banana")
  {
    var name := PetitMiam.name.value;
    assert forall k :: 0 <= k < 6 ==> name[32..38][k] == name[32 + k];
    assert name[32..38] == "Banana";
    assert Lower("Banana") == "banana";
    LikeContainsSlice(name, 32, 38, "banana");
  }

  lemma YogurtIsYogurt()
    ensures LikeContains(Yogurt.name, "yogurt")
  {
    assert forall k :: 0 <= k < 6 ==> Yogurt.name.value[0..6][k] == Yogurt.name.value[0 + k];
    assert Yogurt.name.value[0..6] == "Yogurt";
    assert Lower("Yogurt") == "yogurt";
    LikeContainsSlice(Yogurt.name.value, 0, 6, "yogurt");
  }

  lemma YoplaitIsYoplait()
    ensures LikeContains(Yoplait.name, "yoplait")
  {
    assert forall k :: 0 <= k < 7 ==> Yoplait.name.value[0..7][k] == Yoplait.name.value[0 + k];
    assert Yoplait.name.value[0..7] == "Yoplait";
    assert Lower("Yoplait") == "yoplait";
    LikeContainsSlice(Yoplait.name.value, 0, 7, "yoplait");
  }

  lemma ButterNotYogurt()
    ensures !LikeContains(Butter.name, "yogurt")
  {
    LowerAvoids(Butter.name.value, 'y');
    AbsentCharRulesOut(Lower(Butter.name.value), "yogurt", 'y');
  }

  lemma ButterIsButter()
    ensures LikeContains(Butter.name, "butter")
  {
    assert forall k :: 0 <= k < 6 ==> Butter.name.value[0..6][k] == Butter.name.value[0 + k];
    assert Butter.name.value[0..6] == "Butter";
    assert Lower("Butter") == "butter";
    LikeContainsSlice(Butter.name.value, 0, 6, "butter");
  }

  lemma YogurtNotButter()
    ensures !LikeContains(Yogurt.name, "butter")
  {
    LowerAvoids(Yogurt.name.value, 'b');
    AbsentCharRulesOut(Lower(Yogurt.name.value), "butter", 'b');
  }

  /** The only 'y' in "The Organic Milk Company" is its last character, too
      late for "yoplait" to start. */
  lemma OrganicMilkNotYoplait()
    ensures !LikeContains(OrganicMilk.name, "yoplait")
  {
    var organic := OrganicMilk.name.value;
    LowerPrefix(organic, 18);
    LowerAvoids(organic[..18], 'y');
    FirstCharRulesOut(Lower(organic), "yoplait");
  }

  lemma OrganicMilkIsOrganicMilk()
    ensures LikeContains(OrganicMilk.name, "organic milk")
  {
    var name := OrganicMilk.name.value;
    assert forall k :: 0 <= k < 12 ==> name[4..16][k] == name[4 + k];
    assert name[4..16] == "Organic Milk";
    assert Lower("Organic Milk") == "organic milk";
    LikeContainsSlice(name, 4, 16, "organic milk");
  }

  /** Search keeps or drops the first product and goes on with the rest. */
  lemma SearchCons(
    p: Product, rest: seq<Product>, brands: map<int, Brand>, categories: map<int, Category>,
    name: string, category: Option<string>, brand: Option<string>)
    ensures Search([p] + rest, brands, categories, name, category, brand)
         == (if ProductMatches(p, brands, categories, name, category, brand) then [p] else [])
          + Search(rest, brands, categories, name, category, brand)
  {
    assert ([p] + rest)[1..] == rest;
  }

  /** Search over three products, unfolded. */
  lemma SearchThree(
    a: Product, b: Product, c: Product, brands: map<int, Brand>, categories: map<int, Category>,
    name: string, category: Option<string>, brand: Option<string>)
    ensures Search([a, b, c], brands, categories, name, category, brand)
         == (if ProductMatches(a, brands, categories, name, category, brand) then [a] else [])
          + ((if ProductMatches(b, brands, categories, name, category, brand) then [b] else [])
          + ((if ProductMatches(c, brands, categories, name, category, brand) then [c] else []) + []))
  {
    SearchCons(c, [], brands, categories, name, category, brand);
    SearchCons(b, [c], brands, categories, name, category, brand);
    SearchCons(a, [b, c], brands, categories, name, category, brand);
    assert [c] == [c] + [];
    assert [b, c] == [b] + [c];
    assert [a, b, c] == [a] + [b, c];
  }

  /** The strawberry yoghurt's name lacks "banana", so no category or brand
      filter lets it through a "banana" search. */
  lemma BananaSkipsStrawberryYoghurt(category: Option<string>, brand: Option<string>)
    ensures !ProductMatches(StrawberryYoghurt, SeedBrands, SeedCategories, "banana", category, brand)
  {
    StrawberryYoghurtNotBanana();
  }

  /** The seed products that ("banana", "yogurt", "yoplait") keeps. */

  lemma AllThreeFiltersPetitMiam()
    ensures ProductMatches(PetitMiam, SeedBrands, SeedCategories, "banana", Some("yogurt"), Some("yoplait"))
  {
    PetitMiamIsBanana();
    YogurtIsYogurt();
    YoplaitIsYoplait();
  }

  lemma AllThreeFiltersSaltedButter()
    ensures !ProductMatches(SaltedButter, SeedBrands, SeedCategories, "banana", Some("yogurt"), Some("yoplait"))
  {
    ButterNotYogurt();
  }

  lemma SearchAllThreeFilters()
    ensures Search([StrawberryYoghurt, PetitMiam, SaltedButter], SeedBrands, SeedCategories,
                   "banana", Some("yogurt"), Some("yoplait")) == [PetitMiam]
  {
    BananaSkipsStrawberryYoghurt(Some("yogurt"), Some("yoplait"));
    AllThreeFiltersPetitMiam();
    AllThreeFiltersSaltedButter();
    SearchThree(StrawberryYoghurt, PetitMiam, SaltedButter, SeedBrands, SeedCategories,
                "banana", Some("yogurt"), Some("yoplait"));
  }

  /** The seed products that ("banana", "", "yoplait") keeps. */

  lemma EmptyCategoryFilterPetitMiam()
    ensures ProductMatches(PetitMiam, SeedBrands, SeedCategories, "banana", Some(""), Some("yoplait"))
  {
    PetitMiamIsBanana();
    LikeContainsEmpty(Yogurt.name);
    YoplaitIsYoplait();
  }

  lemma EmptyCategoryFilterSaltedButter()
    ensures !ProductMatches(SaltedButter, SeedBrands, SeedCategories, "banana", Some(""), Some("yoplait"))
  {
    OrganicMilkNotYoplait();
  }

  lemma SearchEmptyCategoryFilter()
    ensures Search([StrawberryYoghurt, PetitMiam, SaltedButter], SeedBrands, SeedCategories,
                   "banana", Some(""), Some("yoplait")) == [PetitMiam]
  {
    BananaSkipsStrawberryYoghurt(Some(""), Some("yoplait"));
    EmptyCategoryFilterPetitMiam();
    EmptyCategoryFilterSaltedButter();
    SearchThree(StrawberryYoghurt, PetitMiam, SaltedButter, SeedBrands, SeedCategories,
                "banana", Some(""), Some("yoplait"));
  }

  /** The seed products that ("strawberry", "yogurt", null) keeps. */
  lemma WithoutBrandStrawberryYoghurt()
    ensures ProductMatches(StrawberryYoghurt, SeedBrands, SeedCategories, "strawberry", Some("yogurt"), None)
  {
    StrawberryYoghurtIsStrawberry();
    YogurtIsYogurt();
  }

  lemma WithoutBrandPetitMiam()
    ensures ProductMatches(PetitMiam, SeedBrands, SeedCategories, "strawberry", Some("yogurt"), None)
  {
    PetitMiamIsStrawberry();
    YogurtIsYogurt();
  }

  lemma WithoutBrandSaltedButter()
    ensures !ProductMatches(SaltedButter, SeedBrands, SeedCategories, "strawberry", Some("yogurt"), None)
  {
    ButterNotYogurt();
  }

  lemma SearchWithoutBrand()
    ensures Search([StrawberryYoghurt, PetitMiam, SaltedButter], SeedBrands, SeedCategories,
                   "strawberry", Some("yogurt"), None) == [StrawberryYoghurt, PetitMiam]
  {
    WithoutBrandStrawberryYoghurt();
    WithoutBrandPetitMiam();
    WithoutBrandSaltedButter();
    SearchThree(StrawberryYoghurt, PetitMiam, SaltedButter, SeedBrands, SeedCategories,
                "strawberry", Some("yogurt"), None);
  }

  /** The seed products that the empty name pattern with ("butter",
      "organic milk") keeps. */
  lemma EmptyNameStrawberryYoghurt()
    ensures !ProductMatches(StrawberryYoghurt, SeedBrands, SeedCategories, "", Some("butter"), Some("organic milk"))
  {
    YogurtNotButter();
  }

  lemma EmptyNamePetitMiam()
    ensures !ProductMatches(PetitMiam, SeedBrands, SeedCategories, "", Some("butter"), Some("organic milk"))
  {
    YogurtNotButter();
  }

  lemma EmptyNameSaltedButter()
    ensures ProductMatches(SaltedButter, SeedBrands, SeedCategories, "", Some("butter"), Some("organic milk"))
  {
    LikeContainsEmpty(SaltedButter.name);
    ButterIsButter();
    OrganicMilkIsOrganicMilk();
  }

  /** The empty name pattern (what the product service passes for a null
      name) with ("butter", "organic milk") finds only the butter. */
  lemma SearchWithoutName()
    ensures Search([StrawberryYoghurt, PetitMiam, SaltedButter], SeedBrands, SeedCategories,
                   "", Some("butter"), Some("organic milk")) == [SaltedButter]
  {
    EmptyNameStrawberryYoghurt();
    EmptyNamePetitMiam();
    EmptyNameSaltedButter();
    SearchThree(StrawberryYoghurt, PetitMiam, SaltedButter, SeedBrands, SeedCategories,
                "", Some("butter"), Some("organic milk"));
  }
}
