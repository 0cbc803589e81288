/**
 * The product document of models/product.js: a unique, required `productId`,
 * required descriptive fields, boolean flags and numbers with defaults, and the
 * `stock` counter that payment confirmation decrements.
 */
module ProductSchema {
  import opened Wrappers

  /** Business key of a product; line items refer to products by it. */
  type ProductId = string

  datatype ShippingDetails = ShippingDetails(weight: Option<string>, deliveryTime: Option<string>)

  /** Numbers are modelled as exact reals; `stock` as an integer with no lower bound. */
  datatype Product = Product(
    productId: ProductId,
    title: string,
    category: string,
    subCategory: string,
    budget: bool,
    premium: bool,
    exclusive: bool,
    handpicked: bool,
    bestSeller: bool,
    unique: bool,
    newArrival: bool,
    price: real,
    originalPrice: real,
    discountPercentage: real,
    rating: real,
    stock: int,
    sizes: seq<string>,
    colors: seq<string>,
    material: Option<string>,
    returnPolicy: Option<string>,
    shippingDetails: ShippingDetails,
    images: seq<string>,
    description: Option<string>,
    fabric: Option<string>,
    tags: seq<string>,
    details: Option<string>)

  /** The fields a caller supplies when creating a product; every one may be absent. */
  datatype ProductInput = ProductInput(
    productId: Option<string>,
    title: Option<string>,
    category: Option<string>,
    subCategory: Option<string>,
    budget: Option<bool>,
    premium: Option<bool>,
    exclusive: Option<bool>,
    handpicked: Option<bool>,
    bestSeller: Option<bool>,
    unique: Option<bool>,
    newArrival: Option<bool>,
    price: Option<real>,
    originalPrice: Option<real>,
    discountPercentage: Option<real>,
    rating: Option<real>,
    stock: Option<int>,
    sizes: Option<seq<string>>,
    colors: Option<seq<string>>,
    material: Option<string>,
    returnPolicy: Option<string>,
    shippingDetails: Option<ShippingDetails>,
    images: Option<seq<string>>,
    description: Option<string>,
    fabric: Option<string>,
    tags: Option<seq<string>>,
    details: Option<string>)

  /** Every `required: true` path of the schema is satisfied. */
  predicate HasRequiredFields(input: ProductInput) {
    && Truthy(input.productId)
    && Truthy(input.title)
    && Truthy(input.category)
    && Truthy(input.subCategory)
    && input.price.Some?
    && input.originalPrice.Some?
  }

  /**
   * Builds and validates a product document: `None` when a required path is
   * missing, otherwise every absent path takes its schema default (false for the
   * flags, 0 for discountPercentage, rating and stock, [] for array paths).
   */
  function NewProduct(input: ProductInput): (r: Option<Product>)
    ensures r.Some? <==> HasRequiredFields(input)
    ensures r.Some? ==> r.value.productId == input.productId.value && r.value.productId != ""
    ensures r.Some? && input.stock.None? ==> r.value.stock == 0
    ensures r.Some? && input.stock.Some? ==> r.value.stock == input.stock.value
    ensures r.Some? && input.discountPercentage.None? ==> r.value.discountPercentage == 0.0
    ensures r.Some? && input.rating.None? ==> r.value.rating == 0.0
    ensures r.Some? && input.budget.None? ==> !r.value.budget
    ensures r.Some? && input.premium.None? ==> !r.value.premium
    ensures r.Some? && input.exclusive.None? ==> !r.value.exclusive
    ensures r.Some? && input.handpicked.None? ==> !r.value.handpicked
    ensures r.Some? && input.bestSeller.None? ==> !r.value.bestSeller
    ensures r.Some? && input.unique.None? ==> !r.value.unique
    ensures r.Some? && input.newArrival.None? ==> !r.value.newArrival
  {
    if !HasRequiredFields(input) then None
    else Some(Product(
      input.productId.value,
      input.title.value,
      input.category.value,
      input.subCategory.value,
      input.budget.GetOr(false),
      input.premium.GetOr(false),
      input.exclusive.GetOr(false),
      input.handpicked.GetOr(false),
      input.bestSeller.GetOr(false),
      input.unique.GetOr(false),
      input.newArrival.GetOr(false),
      input.price.value,
      input.originalPrice.value,
      input.discountPercentage.GetOr(0.0),
      input.rating.GetOr(0.0),
      input.stock.GetOr(0),
      input.sizes.GetOr([]),
      input.colors.GetOr([]),
      input.material,
      input.returnPolicy,
      input.shippingDetails.GetOr(ShippingDetails(None, None)),
      input.images.GetOr([]),
      input.description,
      input.fabric,
      input.tags.GetOr([]),
      input.details))
  }

  /** The input that states every field of `p` explicitly. */
  function InputOf(p: Product): ProductInput {
    ProductInput(
      Some(p.productId), Some(p.title), Some(p.category), Some(p.subCategory),
      Some(p.budget), Some(p.premium), Some(p.exclusive), Some(p.handpicked),
      Some(p.bestSeller), Some(p.unique), Some(p.newArrival),
      Some(p.price), Some(p.originalPrice), Some(p.discountPercentage), Some(p.rating),
      Some(p.stock), Some(p.sizes), Some(p.colors), p.material, p.returnPolicy,
      Some(p.shippingDetails), Some(p.images), p.description, p.fabric, Some(p.tags), p.details)
  }

  /** A stored product whose required strings are non-empty. */
  predicate WellFormed(p: Product) {
    p.productId != "" && p.title != "" && p.category != "" && p.subCategory != ""
  }

  /** Round trip: a well-formed product, written out field by field, is rebuilt unchanged. */
  lemma NewProductRoundTrip(p: Product)
    ensures WellFormed(p) <==> NewProduct(InputOf(p)) == Some(p)
  {
  }

  /**
   * The unique index on `productId`: inserting a product whose key is already
   * present fails with a duplicate-key error (`None`); otherwise it is added.
   */
  function InsertProduct(products: map<ProductId, Product>, p: Product): (r: Option<map<ProductId, Product>>)
    ensures r.None? <==> p.productId in products
    ensures r.Some? ==> r.value.Keys == products.Keys + {p.productId} && r.value[p.productId] == p
    ensures r.Some? ==> forall k :: k in products ==> r.value[k] == products[k]
  {
    if p.productId in products then None else Some(products[p.productId := p])
  }

  /** Products are stored under their own `productId`. */
  predicate KeyedByProductId(products: map<ProductId, Product>) {
    forall k :: k in products ==> products[k].productId == k
  }

  /** The unique index keeps the store keyed by `productId`. */
  lemma InsertKeepsKeying(products: map<ProductId, Product>, p: Product)
    requires KeyedByProductId(products)
    ensures InsertProduct(products, p).Some? ==> KeyedByProductId(InsertProduct(products, p).value)
  {
  }
}
