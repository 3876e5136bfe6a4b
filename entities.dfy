/** The persisted entities (one row of each table) and the request and
    response shapes the services exchange with their callers. */
module Entities {
  import opened Common

  // ---------------------------------------------------------------- rows

  /** Every entity's `id` is null until the table assigns one on save. */
  datatype Brand = Brand(id: Option<int>, name: Text, description: Text)

  datatype Category = Category(id: Option<int>, name: Text, description: Text)

  /** Equality is structural over all fields (Lombok `@Data`); this is the
      key by which a product's variations are grouped. */
  datatype Store = Store(id: Option<int>, name: Text, location: Text, website: Text)

  /** A product's optional brand and category are foreign keys into the
      brand and category tables (nullable `@ManyToOne` columns). */
  datatype Product = Product(
    id: Option<int>, name: Text, description: Text, imageUrl: Text,
    brandId: Option<int>, categoryId: Option<int>)

  /** A "variation": a product's listing at one store. Its product and store
      are foreign keys, unset on a freshly mapped request. */
  datatype ProductStore = ProductStore(
    id: Option<int>, name: Text, url: Text, imageUrl: Text, price: int,
    productId: Option<int>, storeId: Option<int>)

  // ------------------------------------------------------------ requests

  datatype BrandRequest = BrandRequest(name: Text, description: Text)

  datatype CategoryRequest = CategoryRequest(name: Text, description: Text)

  datatype StoreRequest = StoreRequest(name: Text, location: Text, website: Text)

  datatype ProductRequest = ProductRequest(
    name: Text, description: Text, imageUrl: Text,
    brandId: Option<int>, categoryId: Option<int>)

  /** The request of the older product service: name and description only. */
  datatype LegacyProductRequest = LegacyProductRequest(name: Text, description: Text)

  /** Product and store ids are required request fields. */
  datatype ProductStoreRequest = ProductStoreRequest(
    name: Text, url: Text, imageUrl: Text, price: int, productId: int, storeId: int)

  /** Free-text search: each field optional. */
  datatype SearchRequest = SearchRequest(name: Text, brand: Text, category: Text)

  // ----------------------------------------------------------- responses

  datatype BrandResponse = BrandResponse(id: Option<int>, name: Text, description: Text)

  datatype CategoryResponse = CategoryResponse(id: Option<int>, name: Text, description: Text)

  datatype StoreResponse = StoreResponse(id: Option<int>, name: Text, location: Text, website: Text)

  /** The product response has room for an image and nested brand and
      category, which the mapper leaves null. */
  datatype ProductResponse = ProductResponse(
    id: Option<int>, name: Text, description: Text, imageUrl: Text,
    category: Option<CategoryResponse>, brand: Option<BrandResponse>)

  /** One variation as listed under its store. */
  datatype ProductStoreDto = ProductStoreDto(
    id: Option<int>, name: Text, url: Text, imageUrl: Text, price: int)

  /** One store and the product's variations sold there. */
  datatype StoreDto = StoreDto(
    id: Option<int>, name: Text, website: Text, variations: seq<ProductStoreDto>)

  /** Where a product is sold; `stores` stays null when it has no variation. */
  datatype ProductVariationResponse = ProductVariationResponse(
    productId: Option<int>, productName: Text, productImageUrl: Text,
    stores: Option<seq<StoreDto>>)
}
