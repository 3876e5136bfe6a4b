/** Field-copy conversions between entities and request/response shapes.
    Each fills a fresh value from its argument and shares nothing. */
module ObjectMapper {
  import opened Common
  import opened Entities

  function BrandToDto(entity: Brand): BrandResponse {
    BrandResponse(entity.id, entity.name, entity.description)
  }

  /** The new entity has no id until it is saved. */
  function BrandToEntity(dto: BrandRequest): Brand {
    Brand(None, dto.name, dto.description)
  }

  /** Only id, name and description are carried; the response's image and
      nested brand and category stay null. */
  function ProductToDto(product: Product): ProductResponse {
    ProductResponse(product.id, product.name, product.description, None, None, None)
  }

  function ProductToEntity(dto: ProductRequest): Product {
    Product(None, dto.name, dto.description, None, None, None)
  }

  function CategoryToDto(entity: Category): CategoryResponse {
    CategoryResponse(entity.id, entity.name, entity.description)
  }

  function CategoryToEntity(dto: CategoryRequest): Category {
    Category(None, dto.name, dto.description)
  }

  function StoreToDto(entity: Store): StoreResponse {
    StoreResponse(entity.id, entity.name, entity.location, entity.website)
  }

  function StoreToEntity(dto: StoreRequest): Store {
    Store(None, dto.name, dto.location, dto.website)
  }

  /** A variation reduced to the fields listed under its store. */
  function ProductStoreToDto(entity: ProductStore): ProductStoreDto {
    ProductStoreDto(entity.id, entity.name, entity.url, entity.imageUrl, entity.price)
  }

  /** The product and store are resolved by the caller afterwards. */
  function ProductStoreToEntity(dto: ProductStoreRequest): ProductStore {
    ProductStore(None, dto.name, dto.url, dto.imageUrl, dto.price, None, None)
  }

  function BrandDtos(brands: seq<Brand>): (r: seq<BrandResponse>)
    ensures |r| == |brands|
    ensures forall i :: 0 <= i < |r| ==> r[i] == BrandToDto(brands[i])
  {
    seq(|brands|, i requires 0 <= i < |brands| => BrandToDto(brands[i]))
  }

  function CategoryDtos(categories: seq<Category>): (r: seq<CategoryResponse>)
    ensures |r| == |categories|
    ensures forall i :: 0 <= i < |r| ==> r[i] == CategoryToDto(categories[i])
  {
    seq(|categories|, i requires 0 <= i < |categories| => CategoryToDto(categories[i]))
  }

  function StoreDtos(stores: seq<Store>): (r: seq<StoreResponse>)
    ensures |r| == |stores|
    ensures forall i :: 0 <= i < |r| ==> r[i] == StoreToDto(stores[i])
  {
    seq(|stores|, i requires 0 <= i < |stores| => StoreToDto(stores[i]))
  }

  function ProductDtos(products: seq<Product>): (r: seq<ProductResponse>)
    ensures |r| == |products|
    ensures forall i :: 0 <= i < |r| ==> r[i] == ProductToDto(products[i])
  {
    seq(|products|, i requires 0 <= i < |products| => ProductToDto(products[i]))
  }

  function ProductStoreDtos(entities: seq<ProductStore>): (r: seq<ProductStoreDto>)
    ensures |r| == |entities|
    ensures forall i :: 0 <= i < |r| ==> r[i] == ProductStoreToDto(entities[i])
  {
    seq(|entities|, i requires 0 <= i < |entities| => ProductStoreToDto(entities[i]))
  }

  /** One entry of the store-to-variations grouping: the store's id, name
      and website with its variations in order. */
  function GroupToStoreDto(store: Store, variations: seq<ProductStore>): StoreDto {
    StoreDto(store.id, store.name, store.website, ProductStoreDtos(variations))
  }

  // ------------------------------------------------------------- lemmas

  /** Brand, category and store responses lose nothing: two entities map to
      the same response exactly when they are equal. */
  lemma BrandToDtoInjective(a: Brand, b: Brand)
    ensures BrandToDto(a) == BrandToDto(b) <==> a == b
  {
  }

  lemma CategoryToDtoInjective(a: Category, b: Category)
    ensures CategoryToDto(a) == CategoryToDto(b) <==> a == b
  {
  }

  lemma StoreToDtoInjective(a: Store, b: Store)
    ensures StoreToDto(a) == StoreToDto(b) <==> a == b
  {
  }

  /** A product response depends on id, name and description only: brand,
      category and image are not carried. */
  lemma ProductToDtoKeepsOnlyIdNameDescription(a: Product, b: Product)
    ensures ProductToDto(a) == ProductToDto(b)
        <==> a.id == b.id && a.name == b.name && a.description == b.description
    ensures ProductToDto(a).imageUrl.None? && ProductToDto(a).brand.None? && ProductToDto(a).category.None?
  {
  }

  /** Mapping a request to an entity and back to a response gives back every
      field the request carries, and no id. */
  lemma BrandRoundTrip(r: BrandRequest)
    ensures BrandToDto(BrandToEntity(r)) == BrandResponse(None, r.name, r.description)
  {
  }

  lemma CategoryRoundTrip(r: CategoryRequest)
    ensures CategoryToDto(CategoryToEntity(r)) == CategoryResponse(None, r.name, r.description)
  {
  }

  lemma StoreRoundTrip(r: StoreRequest)
    ensures StoreToDto(StoreToEntity(r)) == StoreResponse(None, r.name, r.location, r.website)
  {
  }

  /** Only name and description survive: the request's image, brand id and
      category id are dropped by the entity mapping. */
  lemma ProductRoundTrip(r: ProductRequest)
    ensures ProductToDto(ProductToEntity(r)) == ProductResponse(None, r.name, r.description, None, None, None)
    ensures ProductToEntity(r).brandId.None? && ProductToEntity(r).categoryId.None?
  {
  }

  lemma ProductStoreRoundTrip(r: ProductStoreRequest)
    ensures ProductStoreToDto(ProductStoreToEntity(r)) == ProductStoreDto(None, r.name, r.url, r.imageUrl, r.price)
  {
  }
}
