# prico catalogue — a Dafny model

prico is a price-comparison back end. It keeps a catalogue of brands,
categories, stores and products. A product can be sold at several stores;
each such listing is a *variation* (the `ProductStore` entity) with its own
name, url, image and price. This project models the service layer that
manages the catalogue:

- **Brand, category and store services.** `getAll`, `getById`, `create`,
  `update` and `delete` over one table each.
- **Product service.** The same CRUD operations, where a product may link to
  a brand and a category. Also the free-text `search` and
  `getVariationsByProduct`, which groups a product's variations by store.
- **Product-store service.** CRUD over variations. Create and update resolve
  the product first and then the store.
- **Older product service.** The earlier `service.ProductServiceImpl`, which
  handles only name and description.
- **Shared pieces.** The entity/response mapper (`ObjectMapper`), the search
  query (`ProductRepository.search`), and the search-request rule
  (`@AtLeastOneNotBlank` / `SearchRequestValidator`).

Layout:

- `common.dfy` and `entities.dfy` hold the value types. Nullable Java fields
  are `Option`. The exceptions a service throws are a `Failure`, returned
  as `Result.Err` or `Outcome.Fail`.
- `catalogue.dfy` holds the `Catalogue` class: five id-keyed tables plus the
  identity counter. Its `Valid()` says two things:
  - every row is stored under its own id, below the next id;
  - every foreign key resolves.
- Every service method takes the `Catalogue` and keeps it valid. A method
  that changes the tables states its whole new state in terms of the old.
  A method that only reads states its result in terms of the tables.
- The model's `findAll` lists rows in ascending id order. This order is
  the model's choice: the repositories' `findAll()` and `findAllByProduct`
  have no ORDER BY, so the source leaves the order to the database. Ids are
  handed out in increasing order, so the chosen order is also insertion
  order.
- `strings.dfy` models Java's `trim()`, `toLowerCase()` and substring
  `LIKE %x%`.
- `search_request_validator.dfy` models the request rule.
- `sequences.dfy` defines order-preserving selection from a list, the
  relation between a filtering query's result and the rows it scans.
- `product_repository.dfy` models the JPQL query and the repository test's
  seed data and cases.
- `store_grouping.dfy` defines what a correct grouping of variations by
  store is (`IsGrouping`), and proves that the grouping:
  - exists;
  - preserves the number of variations;
  - has one group per distinct store;
  - is unique up to order.

## Model

| member | source | states |
|---|---|---|
| Catalogues.SortedIds | src/main/java/com/prico/service/impl/BrandServiceImpl.java:27-31 | the ids of a table in strictly ascending order, each id exactly once and nothing else: the order `findAll` lists rows in |
| Catalogues.FindAll | src/main/java/com/prico/service/impl/BrandServiceImpl.java:27-31 | `findAll` returns one row per key, the i-th being the row under the i-th smallest id |
| Catalogues.FindAllValues | src/main/java/com/prico/service/impl/BrandServiceImpl.java:27-31 | a row is in `findAll`'s list exactly when it is in the table |
| Catalogues.FindAllInIdOrder | src/main/java/com/prico/service/impl/BrandServiceImpl.java:27-31 | for a table whose rows carry their own ids, every row is listed and the i-th listed row carries the i-th smallest id |
| Catalogues.Catalogue.NewId | src/main/java/com/prico/model/ProductStore.java:16-18 | the identity column hands out an id no table uses yet and advances the counter; nothing else changes |
| Catalogues.Catalogue.BrandInUse | src/main/java/com/prico/entity/Product.java:27-28 | definition: some product's brand join column refers to the brand; its use is in `BrandService.Delete` |
| Catalogues.Catalogue.CategoryInUse | src/main/java/com/prico/entity/Product.java:23-24 | definition: some product's category join column refers to the category; its use is in `CategoryService.Delete` |
| Catalogues.Catalogue.ProductInUse | src/main/java/com/prico/model/ProductStore.java:25-26 | definition: some variation's product join column refers to the product; its uses are in `ProductService.Delete` and `ProductService.GetVariationsByProduct` |
| Catalogues.Catalogue.StoreInUse | src/main/java/com/prico/model/ProductStore.java:29-30 | definition: some variation's store join column refers to the store; its use is in `StoreService.Delete` |
| BrandService.GetAll | src/main/java/com/prico/service/impl/BrandServiceImpl.java:26-32 | one response per brand and every brand's response present, in ascending id order |
| BrandService.GetById | src/main/java/com/prico/service/impl/BrandServiceImpl.java:35-43 | succeeds exactly when the id is present, with that brand's response; otherwise fails with not-found for that id |
| BrandService.Create | src/main/java/com/prico/service/impl/BrandServiceImpl.java:46-52 | the saved brand has the request's name and description under a fresh id; only the brand table and the counter change |
| BrandService.Update | src/main/java/com/prico/service/impl/BrandServiceImpl.java:55-66 | a present brand gets the request's name and description and keeps its id; an absent id fails and changes nothing |
| BrandService.Delete | src/main/java/com/prico/service/impl/BrandServiceImpl.java:69-76 | removes exactly that brand; an absent id fails with not-found, and a brand some product links to is refused; both leave the tables unchanged |
| CategoryService.GetAll | src/main/java/com/prico/service/impl/CategoryServiceImpl.java:26-32 | one response per category and every category present, in ascending id order |
| CategoryService.GetById | src/main/java/com/prico/service/impl/CategoryServiceImpl.java:35-43 | succeeds exactly when the id is present; otherwise fails with entity-not-found for that id |
| CategoryService.Create | src/main/java/com/prico/service/impl/CategoryServiceImpl.java:46-52 | the saved category has the request's fields under a fresh id; only the category table and the counter change |
| CategoryService.Update | src/main/java/com/prico/service/impl/CategoryServiceImpl.java:55-66 | a present category gets the request's name and description; an absent id fails with entity-not-found and changes nothing |
| CategoryService.Delete | src/main/java/com/prico/service/impl/CategoryServiceImpl.java:69-76 | removes exactly that category; absent or still linked from a product fails and changes nothing |
| StoreService.GetAll | src/main/java/com/prico/service/impl/StoreServiceImpl.java:26-32 | one response per store and every store present, in ascending id order |
| StoreService.GetById | src/main/java/com/prico/service/impl/StoreServiceImpl.java:35-43 | succeeds exactly when the id is present; otherwise fails with entity-not-found for that id |
| StoreService.Create | src/main/java/com/prico/service/impl/StoreServiceImpl.java:46-53 | the saved store has the request's name, location and website under a fresh id; only the store table and the counter change |
| StoreService.Update | src/main/java/com/prico/service/impl/StoreServiceImpl.java:56-68 | a present store gets the request's three fields and keeps its id; an absent id fails and changes nothing |
| StoreService.Delete | src/main/java/com/prico/service/impl/StoreServiceImpl.java:71-78 | removes exactly that store; absent or still listed by a variation fails and changes nothing |
| ProductService.GetAll | src/main/java/com/prico/service/impl/ProductServiceImpl.java:41-47 | one response per product and every product present, in ascending id order |
| ProductService.GetById | src/main/java/com/prico/service/impl/ProductServiceImpl.java:62-70 | succeeds exactly when the id is present, with that product's response; otherwise not-found for that id |
| ProductService.LinkFailure | src/main/java/com/prico/service/impl/ProductServiceImpl.java:79-97 | there is no failure exactly when each non-null brand and category id names a row; a bad brand id is reported before a bad category id |
| ProductService.Create | src/main/java/com/prico/service/impl/ProductServiceImpl.java:73-100 | with resolvable links, the saved product carries the request's name, description, image, brand and category under a fresh id; otherwise the first unresolved link's failure and no change |
| ProductService.Update | src/main/java/com/prico/service/impl/ProductServiceImpl.java:103-141 | an absent product fails first; then a full replace in which a null brand or category id clears the link; an unresolved link fails and saves nothing |
| ProductService.Delete | src/main/java/com/prico/service/impl/ProductServiceImpl.java:144-151 | removes exactly that product and returns; an absent id fails with not-found; a product with variations is refused; failures change nothing |
| ProductService.SearchArgumentsAsWritten | src/main/java/com/prico/service/impl/ProductServiceImpl.java:53-55 | the lower-cased arguments are produced exactly when all three request fields are non-null; any null field throws a null-pointer failure |
| ProductService.ValidRequestThrowsAsWritten | src/main/java/com/prico/service/impl/ProductServiceImpl.java:50-55 | the request ("name", "", null) passes the validator, yet the search as written throws on it |
| ProductService.SearchArguments | src/main/java/com/prico/service/impl/ProductServiceImpl.java:50-55 | the corrected arguments: a category or brand filter is absent exactly when the request's field is null, and the name pattern is as long as the name, or empty for a null name (the values themselves are pinned by `ProductService.SearchArgumentsAgree`) |
| ProductService.SearchArgumentsAgree | src/main/java/com/prico/service/impl/ProductServiceImpl.java:53-55 | wherever the code as written does not throw, it passes exactly the corrected arguments |
| ProductService.NullFieldsImposeNoConstraint | src/main/java/com/prico/repository/ProductRepository.java:17-19 | with null category and brand, a product is found exactly when its lower-cased name contains the name pattern |
| ProductService.FoundResponses | src/main/java/com/prico/service/impl/ProductServiceImpl.java:51-58 | the responses of what the repository finds in the scanned product table are exactly the responses of the matching products |
| ProductService.Search | src/main/java/com/prico/service/impl/ProductServiceImpl.java:50-59 | the result holds exactly the responses of the stored products that match the request's lower-cased fields, every response has an id and the ids strictly increase, so each matching product appears once; no longer than the product table |
| ProductService.IdsAscending | src/main/java/com/prico/repository/ProductRepository.java:14-22 | products picked in order out of the id-ordered scan all carry ids, and their ids strictly increase |
| ProductService.OfProduct | src/main/java/com/prico/repository/ProductStoreRepository.java:13 | `findAllByProduct`: exactly the scanned variations of that product, kept in scan order, each as many times as it was scanned |
| ProductService.ListingsOf | src/main/java/com/prico/service/impl/ProductServiceImpl.java:168 | the listings' variations are exactly the product's variations in scan order, each joined with the store it refers to |
| ProductService.Lookup | src/main/java/com/prico/service/impl/ProductServiceImpl.java:168 | definition: `findAllByProduct` over the scanned variation table, joined with the stores; its properties are in `ProductService.ListingsOf` and `ProductService.LookupEmptyIffUnused` |
| ProductService.GroupDtos | src/main/java/com/prico/service/impl/ProductServiceImpl.java:177-180 | one store entry per group, the i-th built from the i-th group's store and members; its properties are in `ProductService.TotalListedIsTotalSize` and `ProductService.GetVariationsByProduct` |
| ProductService.LookupEmptyIffUnused | src/main/java/com/prico/service/impl/ProductServiceImpl.java:168-172 | a product's lookup is empty exactly when no variation refers to it |
| ProductService.TotalListedIsTotalSize | src/main/java/com/prico/service/impl/ProductServiceImpl.java:174-182 | turning groups into store entries keeps every variation: the entries list as many variations as the groups hold |
| ProductService.GetVariationsByProduct | src/main/java/com/prico/service/impl/ProductServiceImpl.java:154-185 | succeeds exactly when the product exists, with its id, name and image. Stores are null exactly when the product has no variation. Otherwise there is one entry per distinct store, holding all of that store's variations, and together they hold all of the product's variations |
| ProductService.CreateThenCompare | src/main/java/com/prico/service/impl/ProductServiceImpl.java:154-172 | a product just created without links is found under the new id with its name and image and no stores |
| ProductStoreService.GetAll | src/main/java/com/prico/service/impl/ProductStoreServiceImpl.java:38-44 | one response per variation and every variation present, in ascending id order |
| ProductStoreService.GetById | src/main/java/com/prico/service/impl/ProductStoreServiceImpl.java:47-55 | succeeds exactly when the id is present; otherwise fails with the product-not-found message for that id |
| ProductStoreService.ResolutionFailure | src/main/java/com/prico/service/impl/ProductStoreServiceImpl.java:61-73 | no failure exactly when both the product and the store exist; a missing product is reported before a missing store |
| ProductStoreService.Create | src/main/java/com/prico/service/impl/ProductStoreServiceImpl.java:57-78 | with both references resolved, the saved variation has the request's fields, product and store under a fresh id; otherwise the first failure and no change |
| ProductStoreService.Update | src/main/java/com/prico/service/impl/ProductStoreServiceImpl.java:80-110 | an absent variation fails first; otherwise the request's fields, product and store replace the row under its id; an unresolved reference fails and saves nothing |
| ProductStoreService.Delete | src/main/java/com/prico/service/impl/ProductStoreServiceImpl.java:112-120 | removes exactly that variation; an absent id fails and changes nothing |
| ProductStoreService.CreateThenGet | src/main/java/com/prico/service/impl/ProductStoreServiceImpl.java:57-78 | a variation just created is found under the new id with the request's name, url, image and price |
| LegacyProductService.GetAll | src/main/java/com/prico/service/ProductServiceImpl.java:23-29 | one response per product and every product present, in ascending id order |
| LegacyProductService.GetById | src/main/java/com/prico/service/ProductServiceImpl.java:32-40 | succeeds exactly when the id is present; otherwise product-not-found for that id |
| LegacyProductService.Create | src/main/java/com/prico/service/ProductServiceImpl.java:43-49 | the saved product has only the request's name and description, under a fresh id |
| LegacyProductService.Update | src/main/java/com/prico/service/ProductServiceImpl.java:52-63 | a present product gets the request's name and description and keeps everything else; an absent id fails and changes nothing |
| LegacyProductService.Delete | src/main/java/com/prico/service/ProductServiceImpl.java:66-72 | never reports success: a present, unreferenced product is removed and the call still fails with product-not-found |
| LegacyProductService.DeleteJustCreated | src/main/java/com/prico/service/ProductServiceImpl.java:66-72 | deleting a product just created removes it, yet the caller is told it was not found |
| ObjectMapper.BrandToDto | src/main/java/com/prico/util/ObjectMapper.java:11-17 | definition: copies id, name and description; its properties are in `ObjectMapper.BrandToDtoInjective` and `ObjectMapper.BrandRoundTrip` |
| ObjectMapper.BrandToEntity | src/main/java/com/prico/util/ObjectMapper.java:19-24 | definition: copies name and description, no id; its property is in `ObjectMapper.BrandRoundTrip` |
| ObjectMapper.ProductToDto | src/main/java/com/prico/util/ObjectMapper.java:26-32 | definition: copies id, name and description only; its properties are in `ObjectMapper.ProductToDtoKeepsOnlyIdNameDescription` and `ObjectMapper.ProductRoundTrip` |
| ObjectMapper.ProductToEntity | src/main/java/com/prico/util/ObjectMapper.java:34-39 | definition: copies name and description only; its property is in `ObjectMapper.ProductRoundTrip` |
| ObjectMapper.CategoryToDto | src/main/java/com/prico/util/ObjectMapper.java:41-47 | definition: copies id, name and description; its properties are in `ObjectMapper.CategoryToDtoInjective` and `ObjectMapper.CategoryRoundTrip` |
| ObjectMapper.CategoryToEntity | src/main/java/com/prico/util/ObjectMapper.java:49-54 | definition: copies name and description, no id; its property is in `ObjectMapper.CategoryRoundTrip` |
| ObjectMapper.StoreToDto | src/main/java/com/prico/util/ObjectMapper.java:56-63 | definition: copies id, name, location and website; its properties are in `ObjectMapper.StoreToDtoInjective` and `ObjectMapper.StoreRoundTrip` |
| ObjectMapper.StoreToEntity | src/main/java/com/prico/util/ObjectMapper.java:65-71 | definition: copies name, location and website, no id; its property is in `ObjectMapper.StoreRoundTrip` |
| ObjectMapper.ProductStoreToDto | src/main/java/com/prico/service/impl/ProductStoreServiceImpl.java:42-51 | definition of the overload the source calls but does not define: copies id, name, url, image and price; its property is in `ObjectMapper.ProductStoreRoundTrip` |
| ObjectMapper.ProductStoreToEntity | src/main/java/com/prico/service/impl/ProductStoreServiceImpl.java:59 | definition of the overload the source calls but does not define: copies name, url, image and price, no id; its property is in `ObjectMapper.ProductStoreRoundTrip` |
| ObjectMapper.GroupToStoreDto | src/main/java/com/prico/service/impl/ProductServiceImpl.java:179 | definition of the overload the source calls but does not define: the store's id, name and website with its variations mapped in order; its properties are in `ProductService.TotalListedIsTotalSize` and `ProductService.GetVariationsByProduct` |
| ObjectMapper.BrandToDtoInjective | src/main/java/com/prico/util/ObjectMapper.java:11-17 | two brands give the same response exactly when they are equal |
| ObjectMapper.CategoryToDtoInjective | src/main/java/com/prico/util/ObjectMapper.java:41-47 | two categories give the same response exactly when they are equal |
| ObjectMapper.StoreToDtoInjective | src/main/java/com/prico/util/ObjectMapper.java:56-63 | two stores give the same response exactly when they are equal |
| ObjectMapper.ProductToDtoKeepsOnlyIdNameDescription | src/main/java/com/prico/util/ObjectMapper.java:26-32 | two products give the same response exactly when id, name and description agree; image, brand and category are never set |
| ObjectMapper.BrandRoundTrip | src/main/java/com/prico/util/ObjectMapper.java:11-24 | mapping a request to an entity and back keeps name and description, with no id |
| ObjectMapper.CategoryRoundTrip | src/main/java/com/prico/util/ObjectMapper.java:41-54 | mapping a request to an entity and back keeps name and description, with no id |
| ObjectMapper.StoreRoundTrip | src/main/java/com/prico/util/ObjectMapper.java:56-71 | mapping a request to an entity and back keeps name, location and website, with no id |
| ObjectMapper.ProductRoundTrip | src/main/java/com/prico/util/ObjectMapper.java:26-39 | only name and description survive; the entity gets no brand or category |
| ObjectMapper.ProductStoreRoundTrip | src/main/java/com/prico/service/impl/ProductStoreServiceImpl.java:59 | a variation request mapped to an entity and back keeps name, url, image and price, with no id |
| Strings.Trim | src/main/java/com/prico/validation/SearchRequestValidator.java:13-15 | definition: Java's `trim()`, dropping leading and trailing characters at or below U+0020; its property is in `Strings.TrimEmptyIffAllTrimmed` |
| Strings.Lower | src/main/java/com/prico/repository/ProductRepository.java:17-19 | `LOWER`/`toLowerCase()`: the result has the input's length and each character is that character lower-cased (ASCII letters only, see "## Left out") |
| Strings.Contains | src/main/java/com/prico/repository/ProductRepository.java:17-19 | definition: `LIKE %sub%`, `sub` occurs somewhere in `s`; its properties are in `Strings.ContainsAt` and `Strings.ContainsEmpty` |
| Strings.TrimEmptyIffAllTrimmed | src/main/java/com/prico/validation/SearchRequestValidator.java:13-15 | `trim()` yields the empty string exactly when every character is at or below U+0020 |
| Strings.ContainsEmpty | src/main/java/com/prico/repository/ProductRepository.java:18 | the empty pattern is contained in every string |
| Strings.ContainsAt | src/main/java/com/prico/repository/ProductRepository.java:17 | `LIKE %x%` holds exactly when x occurs at some position |
| SearchRequestValidator.NotBlank | src/main/java/com/prico/validation/SearchRequestValidator.java:13-15 | definition: a field is non-null and its trimmed value is not `""`; its property is in `SearchRequestValidator.NotBlankIffVisible` |
| SearchRequestValidator.IsValid | src/main/java/com/prico/validation/SearchRequestValidator.java:11-16 | definition: the request is non-null and name, brand or category is not blank; its properties are in `SearchRequestValidator.ValidIffSomeFieldVisible` and the lemmas below it |
| SearchRequestValidator.NotBlankIffVisible | src/main/java/com/prico/validation/SearchRequestValidator.java:13-15 | a field counts exactly when it is non-null and holds a character `trim()` keeps |
| SearchRequestValidator.ValidIffSomeFieldVisible | src/main/java/com/prico/validation/SearchRequestValidator.java:11-16 | a request is valid exactly when it is non-null and one of name, brand, category has a visible character |
| SearchRequestValidator.NullRequestInvalid | src/test/java/com/prico/validation/SearchRequestValidatorTest.java:49-52 | a null request is invalid |
| SearchRequestValidator.BlankFieldsInvalid | src/main/java/com/prico/validation/SearchRequestValidator.java:13-15 | null and whitespace-only fields never make a request valid |
| SearchRequestValidator.OneNonBlankFieldSuffices | src/main/java/com/prico/validation/SearchRequestValidator.java:13-15 | one non-blank field makes the request valid, whichever of the three it is |
| SearchRequestValidator.ValidityIsSymmetric | src/main/java/com/prico/validation/SearchRequestValidator.java:13-15 | permuting the three fields does not change validity |
| SearchRequestValidator.AllSpecifiedValid | src/test/java/com/prico/validation/SearchRequestValidatorTest.java:13-17 | ("name", "brand", "category") is valid |
| SearchRequestValidator.NameOnlyValid | src/test/java/com/prico/validation/SearchRequestValidatorTest.java:19-23 | ("name", "", null) is valid |
| SearchRequestValidator.BrandOnlyValid | src/test/java/com/prico/validation/SearchRequestValidatorTest.java:25-29 | (null, "brand", " ") is valid |
| SearchRequestValidator.CategoryOnlyValid | src/test/java/com/prico/validation/SearchRequestValidatorTest.java:31-35 | ("", null, "category") is valid |
| SearchRequestValidator.AllEmptyInvalid | src/test/java/com/prico/validation/SearchRequestValidatorTest.java:37-41 | ("", "", "") is invalid |
| SearchRequestValidator.AllNullInvalid | src/test/java/com/prico/validation/SearchRequestValidatorTest.java:43-47 | (null, null, null) is invalid |
| ProductRepository.LikeContains | src/main/java/com/prico/repository/ProductRepository.java:17-19 | definition: `LOWER(column) LIKE %pattern%`, false for a null column; its properties are in `ProductRepository.MissingAssociationNeverMatches` and `ProductRepository.EmptyCategoryFilterNeedsCategory` |
| ProductRepository.Matches | src/main/java/com/prico/repository/ProductRepository.java:17-19 | definition: the WHERE clause over the product name and the joined category and brand names; its properties are in `ProductRepository.NameFilterAlwaysApplies` and the filter lemmas below |
| ProductRepository.JoinedBrandName | src/main/java/com/prico/repository/ProductRepository.java:16 | definition: `LEFT JOIN p.brand b`, the brand's name or null when there is no brand; its properties are in `ProductRepository.NullBrandFilterIgnoresBrand` and `ProductRepository.MissingAssociationNeverMatches` |
| ProductRepository.JoinedCategoryName | src/main/java/com/prico/repository/ProductRepository.java:15 | definition: `LEFT JOIN p.category c`, the category's name or null when there is no category; its properties are in `ProductRepository.NullCategoryFilterIgnoresCategory` and `ProductRepository.MissingAssociationNeverMatches` |
| ProductRepository.ProductMatches | src/main/java/com/prico/repository/ProductRepository.java:14-19 | definition: the WHERE clause applied to one product and its left-joined rows; its properties are in `ProductRepository.Search` and the filter lemmas below |
| ProductRepository.Search | src/main/java/com/prico/repository/ProductRepository.java:14-22 | the result is the given products that satisfy the WHERE clause over the left-joined category and brand, kept in input order, each as many times as in the input, and nothing else |
| ProductRepository.NameFilterAlwaysApplies | src/main/java/com/prico/repository/ProductRepository.java:17 | every match has a non-null name containing the name pattern |
| ProductRepository.NullCategoryFilterIgnoresCategory | src/main/java/com/prico/repository/ProductRepository.java:18 | with a null category filter the outcome does not depend on the product's category |
| ProductRepository.NullBrandFilterIgnoresBrand | src/main/java/com/prico/repository/ProductRepository.java:19 | with a null brand filter the outcome does not depend on the product's brand |
| ProductRepository.MissingAssociationNeverMatches | src/main/java/com/prico/repository/ProductRepository.java:15-19 | a product with no category (or brand) never matches a non-null category (or brand) filter |
| ProductRepository.EmptyCategoryFilterNeedsCategory | src/main/java/com/prico/repository/ProductRepository.java:18 | an empty category filter keeps exactly the otherwise-matching products that have a named category |
| ProductRepository.SearchAllThreeFilters | src/test/java/com/prico/repository/ProductRepositoryTest.java:93-97 | over the seed data, ("banana", "yogurt", "yoplait") finds exactly the Petit Miam product |
| ProductRepository.SearchWithoutName | src/test/java/com/prico/repository/ProductRepositoryTest.java:99-103 | over the seed data, the empty name pattern (what `ProductService.SearchArguments` passes for a null name) with ("butter", "organic milk") finds exactly the salted butter |
| ProductRepository.SearchEmptyCategoryFilter | src/test/java/com/prico/repository/ProductRepositoryTest.java:105-109 | over the seed data, ("banana", "", "yoplait") finds exactly the Petit Miam product |
| ProductRepository.SearchWithoutBrand | src/test/java/com/prico/repository/ProductRepositoryTest.java:111-115 | over the seed data, ("strawberry", "yogurt", null) finds exactly the two strawberry products, in table order |
| StoreGrouping.Members | src/main/java/com/prico/service/impl/ProductServiceImpl.java:176 | definition: the variations listed at a store, in listing order (the list collector of `groupingBy`); its properties are in `StoreGrouping.MemberOfOwnStore` and `StoreGrouping.GroupingPreservesCount` |
| StoreGrouping.IsGrouping | src/main/java/com/prico/service/impl/ProductServiceImpl.java:176 | definition: distinct keys, exactly the listings' stores, each group holding `Members` of its store; its properties are in `StoreGrouping.GroupByStore` and `StoreGrouping.GroupingUniqueUpToOrder` |
| StoreGrouping.DistinctStores | src/main/java/com/prico/service/impl/ProductServiceImpl.java:176 | the grouping keys: each store of the listings exactly once and no other store |
| StoreGrouping.GroupByStore | src/main/java/com/prico/service/impl/ProductServiceImpl.java:174-180 | the result is a grouping by store: distinct stores, exactly the listings' stores, each with all of its variations in listing order |
| StoreGrouping.GroupingPreservesCount | src/main/java/com/prico/service/impl/ProductServiceImpl.java:174-182 | the groups together hold exactly as many variations as there are listings |
| StoreGrouping.GroupCountIsStoreCount | src/main/java/com/prico/service/impl/ProductServiceImpl.java:176 | there are exactly as many groups as distinct stores |
| StoreGrouping.EachListingInExactlyOneGroup | src/main/java/com/prico/service/impl/ProductServiceImpl.java:176 | each listing's variation is in the group of its store, and only one group has that store |
| StoreGrouping.MemberOfOwnStore | src/main/java/com/prico/service/impl/ProductServiceImpl.java:176 | a listing's variation is among its store's members |
| StoreGrouping.GroupingUniqueUpToOrder | src/main/java/com/prico/service/impl/ProductServiceImpl.java:176-177 | any two groupings of the same listings have the same groups and differ at most in order |
| StoreGrouping.TwoStoresExample | src/main/java/com/prico/service/impl/ProductServiceImpl.java:174-182 | three variations at Woolworths, Coles, Woolworths make two groups: Woolworths with its two in order, Coles with one |

## Left out

- Controllers, security, exception handlers, bean validation of request bodies and the HTTP layer: callers of the core, not part of this model.
- JPA mechanics: the persistence context, dirty checking, lazy loading and transactions. A `save` is a write of the row into its table; the identity column is the `Catalogue.nextId` counter, shared by all tables.
- Foreign keys. The `@ManyToOne` join columns become database foreign keys. Deleting a brand, category, product or store that a row still refers to therefore fails; the model returns `ForeignKeyViolation` for this, where the running system surfaces a database exception.
- Ids are Java `Long`; the model uses unbounded integers and does not model overflow of the counter.
- Prices are `Float` in the request and response and `Long` in the entity. The model carries one unbounded integer, so it does not model rounding or conversion between them.
- Strings.Lower: lower-cases ASCII letters only; Java's locale-dependent full Unicode case mapping is not modelled.
- Strings.Contains: the search patterns are taken literally. The SQL `LIKE` wildcards `%` and `_` inside a user's pattern are not modelled.
- SearchRequestValidator.NotBlank: compares the trimmed string with `""` by value. The source compares references; this agrees with values whenever `trim()` returns the interned empty literal, which the JVM does not guarantee.
- ProductService.Search: follows the corrected argument mapping, so a null name becomes the empty pattern and a null category or brand imposes no constraint. The repository test passes a null name and expects a match, so the empty pattern follows that test.
- ProductService.GetVariationsByProduct: the order of the store entries comes from a `HashMap` in the source. The contract fixes only which entries there are, not their order (`StoreGrouping.GroupingUniqueUpToOrder` shows that this determines them up to order).
- Stores as grouping keys are compared by value over id, name, location and website. The entity's `prices` list, which Lombok's `@Data` equality also compares, is not modelled.
- The mapper overloads for variations are not defined in `util/ObjectMapper.java`: `toDto(ProductStore)`, `toEntity(ProductStoreRequestDto)` and `toDto(Map.Entry<Store, List<ProductStore>>)` are called at `ProductStoreServiceImpl.java:42,51,59` and `ProductServiceImpl.java:179`. The model supplies them in `object_mapper.dfy` as field copies (`ObjectMapper.ProductStoreToDto`, `ObjectMapper.ProductStoreToEntity`, `ObjectMapper.GroupToStoreDto`):
  - a variation response carries id, name, url, image and price, without the nested product and store of `ProductStoreResponseDto`;
  - a store entry carries the store's id, name, website and its variations.
- ProductStoreService.GetById and ProductStoreService.Update report an absent variation with the product-not-found message the source uses, not with a variation kind.
- Catalogues.FindAll: lists rows in ascending id order. The repositories' `findAll()` has no ORDER BY, so the source's order is unspecified; the model fixes one, and the `GetAll` rows' "in ascending id order" is a consequence of that choice.
- ProductService.ListingsOf: keeps the scan order of the id-ordered variation table. `findAllByProduct` has no ORDER BY, so the source's order is unspecified.
- ProductService.Search: the ascending-id order of the result follows from the model's scan order; the JPQL query has no ORDER BY, so the source promises only which products are found, each once.
- Catalogues.Catalogue.NewId: one counter for all tables, where a database keeps one identity sequence per table. Only freshness and increase are relied on.

## Findings

| source | as written | input that shows it | evidently intended | confidence | as-written member | corrected member |
|---|---|---|---|---|---|---|
| src/main/java/com/prico/service/ProductServiceImpl.java:66-72 | after `deleteById` there is no `return`, so the not-found exception is thrown even when the product was found and removed | delete the id of a product that exists and has no variations | return normally after deleting, as the other services' `delete` does | high; not executed | LegacyProductService.DeleteJustCreated | ProductService.Delete |
| src/main/java/com/prico/service/impl/ProductServiceImpl.java:53-55 | every request field is lower-cased unconditionally, so a null field throws `NullPointerException` | the request ("name", "", null), which the validator accepts (its own test case) | a null category or brand means "no constraint", as the query's `:x IS NULL OR` arm expects | high; not executed | ProductService.ValidRequestThrowsAsWritten | ProductService.SearchArguments |
