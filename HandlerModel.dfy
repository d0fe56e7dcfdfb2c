/** Handlers/ProductCommandHandlers.cs and Handlers/CreateCategoryCommandHandler.cs
    as values: what each handler returns, and the aggregate it stores, given
    what the repositories hold. A repository is seen here through the ids
    or the skus it stores; Handlers proves the handler classes follow these
    functions. Each handler turns any exception the domain throws into a
    failure carrying its own code and the exception's Message. */
module HandlerModel {

  import opened Common
  import opened Text
  import opened Decimals
  import opened Identifiers
  import opened DomainEvents
  import opened Commands
  import PriceModel
  import ProductModel
  import CategoryModel
  import Validation

  const CategoryNotFound := Error("Category.NotFound", "Category not found")
  const SkuExists := Error("Product.SkuExists", "Product with this SKU already exists")
  const ProductNotFound := Error("Product.NotFound", "Product not found")
  const ParentNotFound := Error("ParentCategory.NotFound", "Parent category not found")

  const CreateProductFailed := "CreateProduct.Failed"
  const UpdateProductFailed := "UpdateProduct.Failed"
  const UpdateInventoryFailed := "UpdateInventory.Failed"
  const CreateCategoryFailed := "CreateCategory.Failed"

  /** The catch block: the handler's code and the exception's message. */
  function Failed(code: string, e: Exception): Error
  {
    Error(code, e.Message())
  }

  /** CreateProductCommandHandler.Handle. `categories` are the stored
      category ids and `skus` the stored products' skus; the new product's
      id, its price entry's id and tenant, and the clock are the caller's.
      The checks run in the source's order: the category id, the category,
      the sku as upper-cased but not trimmed, then Product.Create, SetPrice
      and UpdateInventory, any of which may throw. */
  function CreateProduct(cmd: CreateProductCommand, categories: set<CategoryId>, skus: set<string>,
                         productId: ProductId, priceId: ProductPriceId, priceTenant: TenantId, now: DateTime)
    : (r: Result<ProductModel.ProductState, Error>)
    ensures cmd.categoryId == EmptyGuid ==> r == Failure(Failed(CreateProductFailed, EmptyIdError("CategoryId")))
    ensures cmd.categoryId != EmptyGuid && CategoryId(cmd.categoryId) !in categories ==> r == Failure(CategoryNotFound)
    ensures cmd.categoryId != EmptyGuid && CategoryId(cmd.categoryId) in categories && ToUpper(cmd.sku) in skus ==>
      r == Failure(SkuExists)
    ensures r.Success? ==> ProductModel.Valid(r.value) && r.value.id == productId
  {
    match CreateCategoryId(cmd.categoryId)
    case Failure(e) => Failure(Failed(CreateProductFailed, e))
    case Success(categoryId) =>
      if categoryId !in categories then Failure(CategoryNotFound)
      else if ToUpper(cmd.sku) in skus then Failure(SkuExists)
      else BuildProduct(cmd, categoryId, productId, priceId, priceTenant, now)
  }

  /** The rest of CreateProduct once the category and the sku have been
      checked: Product.Create, SetPrice and UpdateInventory in turn. */
  function BuildProduct(cmd: CreateProductCommand, categoryId: CategoryId,
                        productId: ProductId, priceId: ProductPriceId, priceTenant: TenantId, now: DateTime)
    : (r: Result<ProductModel.ProductState, Error>)
    ensures r.Success? ==> ProductModel.Valid(r.value) && r.value.id == productId
    ensures r.Failure? ==> r.error.code == CreateProductFailed
  {
    match ProductModel.Create(cmd.tenantId, cmd.name, cmd.description, cmd.sku, categoryId, productId)
    case Failure(e) => Failure(Failed(CreateProductFailed, e))
    case Success(created) =>
      match ProductModel.SetPrice(created, cmd.price, cmd.currency, priceId, priceTenant, now)
      case Failure(e) => Failure(Failed(CreateProductFailed, e))
      case Success(priced) =>
        match ProductModel.UpdateInventory(priced, cmd.stockQuantity)
        case Failure(e) => Failure(Failed(CreateProductFailed, e))
        case Success(stocked) => Success(stocked)
  }

  /** Once the category and the sku have been checked, CreateProduct is
      BuildProduct. */
  lemma CreateProductBuilds(cmd: CreateProductCommand, categories: set<CategoryId>, skus: set<string>,
                            productId: ProductId, priceId: ProductPriceId, priceTenant: TenantId, now: DateTime)
    requires cmd.categoryId != EmptyGuid && CategoryId(cmd.categoryId) in categories && ToUpper(cmd.sku) !in skus
    ensures CreateProduct(cmd, categories, skus, productId, priceId, priceTenant, now)
      == BuildProduct(cmd, CategoryId(cmd.categoryId), productId, priceId, priceTenant, now)
  {
  }

  /** UpdateProductCommandHandler.Handle: `product` is what GetByIdAsync
      found. The product must exist, the category id be non-empty and the
      category exist; then UpdateDetails may throw. */
  function UpdateProduct(cmd: UpdateProductCommand, product: Option<ProductModel.ProductState>, categories: set<CategoryId>)
    : (r: Result<ProductModel.ProductState, Error>)
    ensures product.None? ==> r == Failure(ProductNotFound)
    ensures product.Some? && cmd.categoryId == EmptyGuid ==> r == Failure(Failed(UpdateProductFailed, EmptyIdError("CategoryId")))
    ensures product.Some? && cmd.categoryId != EmptyGuid && CategoryId(cmd.categoryId) !in categories ==> r == Failure(CategoryNotFound)
    ensures r.Failure? <==> product.None? || cmd.categoryId == EmptyGuid || CategoryId(cmd.categoryId) !in categories || IsBlank(cmd.name)
    ensures product.Some? && cmd.categoryId != EmptyGuid && CategoryId(cmd.categoryId) in categories && IsBlank(cmd.name) ==>
      r == Failure(Failed(UpdateProductFailed, ProductModel.NameEmpty))
    ensures r.Success? ==> r.value.categoryId.value == cmd.categoryId && r.value.name == Trim(cmd.name)
    ensures r.Success? ==> ProductModel.UpdateDetails(product.value, cmd.name, cmd.description, CategoryId(cmd.categoryId)) == Success(r.value)
    ensures r.Success? && ProductModel.Valid(product.value) ==> ProductModel.Valid(r.value)
  {
    match product
    case None => Failure(ProductNotFound)
    case Some(p) => UpdateFoundProduct(cmd, p, categories)
  }

  /** The rest of UpdateProduct once the product has been found. */
  function UpdateFoundProduct(cmd: UpdateProductCommand, p: ProductModel.ProductState, categories: set<CategoryId>)
    : (r: Result<ProductModel.ProductState, Error>)
    ensures r.Failure? <==> cmd.categoryId == EmptyGuid || CategoryId(cmd.categoryId) !in categories || IsBlank(cmd.name)
    ensures cmd.categoryId == EmptyGuid ==> r == Failure(Failed(UpdateProductFailed, EmptyIdError("CategoryId")))
    ensures cmd.categoryId != EmptyGuid && CategoryId(cmd.categoryId) !in categories ==> r == Failure(CategoryNotFound)
    ensures cmd.categoryId != EmptyGuid && CategoryId(cmd.categoryId) in categories && IsBlank(cmd.name) ==>
      r == Failure(Failed(UpdateProductFailed, ProductModel.NameEmpty))
    ensures r.Success? ==> ProductModel.UpdateDetails(p, cmd.name, cmd.description, CategoryId(cmd.categoryId)) == Success(r.value)
  {
    match CreateCategoryId(cmd.categoryId)
    case Failure(e) => Failure(Failed(UpdateProductFailed, e))
    case Success(categoryId) =>
      if categoryId !in categories then Failure(CategoryNotFound)
      else match ProductModel.UpdateDetails(p, cmd.name, cmd.description, categoryId)
        case Failure(e) => Failure(Failed(UpdateProductFailed, e))
        case Success(q) => Success(q)
  }

  /** UpdateProductInventoryCommandHandler.Handle: the product must exist;
      then UpdateInventory may throw. */
  function UpdateInventory(cmd: UpdateProductInventoryCommand, product: Option<ProductModel.ProductState>)
    : (r: Result<ProductModel.ProductState, Error>)
    ensures product.None? ==> r == Failure(ProductNotFound)
    ensures r.Failure? <==> product.None? || cmd.quantity < 0
    ensures product.Some? && cmd.quantity < 0 ==> r == Failure(Failed(UpdateInventoryFailed, ProductModel.NegativeStock))
    ensures r.Success? ==> r.value.stockQuantity == cmd.quantity
    ensures r.Success? && ProductModel.Valid(product.value) ==> ProductModel.Valid(r.value)
  {
    match product
    case None => Failure(ProductNotFound)
    case Some(p) =>
      match ProductModel.UpdateInventory(p, cmd.quantity)
      case Failure(e) => Failure(Failed(UpdateInventoryFailed, e))
      case Success(q) => Success(q)
  }

  /** The parent a CreateCategoryCommand names, once its Guid has been
      checked. */
  function ParentOf(cmd: CreateCategoryCommand): Option<CategoryId>
    requires cmd.parentCategoryId.Some? ==> cmd.parentCategoryId.value != EmptyGuid
  {
    match cmd.parentCategoryId
    case None => None
    case Some(g) => Some(CategoryId(g))
  }

  /** CreateCategoryCommandHandler.Handle: a named parent must have a
      non-empty id and exist; then Category.Create may throw. `newId` is
      CategoryId.NewId(). */
  function CreateCategory(cmd: CreateCategoryCommand, categories: set<CategoryId>, newId: CategoryId)
    : (r: Result<CategoryModel.CategoryState, Error>)
    ensures cmd.parentCategoryId == Some(EmptyGuid) ==> r == Failure(Failed(CreateCategoryFailed, EmptyIdError("CategoryId")))
    ensures cmd.parentCategoryId.Some? && cmd.parentCategoryId.value != EmptyGuid && CategoryId(cmd.parentCategoryId.value) !in categories ==>
      r == Failure(ParentNotFound)
    ensures r.Failure? <==>
      || (cmd.parentCategoryId.Some? && (cmd.parentCategoryId.value == EmptyGuid || CategoryId(cmd.parentCategoryId.value) !in categories))
      || IsBlank(cmd.name)
    ensures r.Success? ==> r.value.id == newId && r.value.parentCategoryId == ParentOf(cmd)
    ensures r.Success? && r.value.parentCategoryId.Some? ==> r.value.parentCategoryId.value in categories
    ensures r.Success? && newId !in categories ==> CategoryModel.Valid(r.value)
  {
    match cmd.parentCategoryId
    case Some(g) =>
      (match CreateCategoryId(g)
       case Failure(e) => Failure(Failed(CreateCategoryFailed, e))
       case Success(parent) =>
         if parent !in categories then Failure(ParentNotFound)
         else NewCategory(cmd, Some(parent), newId))
    case None => NewCategory(cmd, None, newId)
  }

  function NewCategory(cmd: CreateCategoryCommand, parent: Option<CategoryId>, newId: CategoryId)
    : (r: Result<CategoryModel.CategoryState, Error>)
    ensures r.Failure? <==> IsBlank(cmd.name)
    ensures r.Success? ==> r.value.id == newId && r.value.parentCategoryId == parent
    ensures r.Success? && parent != Some(newId) ==> CategoryModel.Valid(r.value)
  {
    match CategoryModel.Create(cmd.tenantId, cmd.name, cmd.description, parent, newId)
    case Failure(e) => Failure(Failed(CreateCategoryFailed, e))
    case Success(c) => Success(c)
  }

  // ---- Properties of the handlers ----

  /** CreateProduct fails exactly when one of its checks or one of the
      domain calls does; the domain's exceptions come back under
      "CreateProduct.Failed" with their messages. */
  lemma CreateProductFailsExactly(cmd: CreateProductCommand, categories: set<CategoryId>, skus: set<string>,
                                  productId: ProductId, priceId: ProductPriceId, priceTenant: TenantId, now: DateTime)
    ensures var r := CreateProduct(cmd, categories, skus, productId, priceId, priceTenant, now);
      && (r.Failure? <==>
            || cmd.categoryId == EmptyGuid || CategoryId(cmd.categoryId) !in categories || ToUpper(cmd.sku) in skus
            || IsBlank(cmd.name) || IsBlank(cmd.sku) || cmd.price < 0.0 || IsBlank(cmd.currency) || cmd.stockQuantity < 0)
      && (r.Failure? ==> r.error in {CategoryNotFound, SkuExists} || r.error.code == CreateProductFailed)
  {
  }

  /** The product a successful BuildProduct (and so CreateProduct) stores: active, holding the
      command's stock, exactly one price entry (the rounded amount in the
      upper-cased currency, effective from `now`), no variants and no
      minimum, with exactly three pending events: ProductCreated,
      ProductPriceChanged and ProductInventoryUpdated from 0. ProductLowStock
      is never among them, since the minimum is still 0. */
  lemma CreatedProduct(cmd: CreateProductCommand, categoryId: CategoryId,
                       productId: ProductId, priceId: ProductPriceId, priceTenant: TenantId, now: DateTime)
    requires BuildProduct(cmd, categoryId, productId, priceId, priceTenant, now).Success?
    ensures var p := BuildProduct(cmd, categoryId, productId, priceId, priceTenant, now).value;
      && p.tenantId == cmd.tenantId && p.categoryId == categoryId
      && p.name == Trim(cmd.name) && p.sku == ProductModel.NormalizeSku(cmd.sku)
      && p.status == ProductModel.Active && p.stockQuantity == cmd.stockQuantity && p.minStockLevel == 0
      && p.prices == [PriceModel.PriceState(priceId, priceTenant, Round2(cmd.price), ToUpper(cmd.currency), now, None, false)]
      && p.variants == [] && p.updated
      && p.events == [ProductCreatedEvent(productId, cmd.tenantId, p.name, p.sku, p.categoryId),
                      ProductPriceChangedEvent(productId, cmd.tenantId, cmd.price, cmd.currency),
                      ProductInventoryUpdatedEvent(productId, cmd.tenantId, 0, cmd.stockQuantity)]
      && !ProductModel.IsLowStock(p)
  {
    var created := ProductModel.Create(cmd.tenantId, cmd.name, cmd.description, cmd.sku, categoryId, productId).value;
    var priced := ProductModel.SetPrice(created, cmd.price, cmd.currency, priceId, priceTenant, now).value;
    assert ProductModel.FirstWithCurrency(created.prices, cmd.currency).None?;
    assert priced.prices == [PriceModel.Create(cmd.price, cmd.currency, priceId, priceTenant, now).value];
    ProductModel.UpdateInventoryRaises(priced, cmd.stockQuantity);
  }

  /** A command the validator accepts, naming a stored category and a sku
      not stored as given, is always created. */
  lemma ValidCommandIsCreated(cmd: CreateProductCommand, categories: set<CategoryId>, skus: set<string>,
                              productId: ProductId, priceId: ProductPriceId, priceTenant: TenantId, now: DateTime)
    requires Validation.Valid(cmd)
    requires CategoryId(cmd.categoryId) in categories && ToUpper(cmd.sku) !in skus
    ensures CreateProduct(cmd, categories, skus, productId, priceId, priceTenant, now).Success?
  {
  }

  /** The sku check looks the sku up as upper-cased but not trimmed, while
      Product.Create trims it: a validated sku "B\n" whose body B is stored
      passes the check, and the new product carries the stored sku B. */
  lemma LineFeedSkuDuplicates(cmd: CreateProductCommand, categories: set<CategoryId>, skus: set<string>,
                              productId: ProductId, priceId: ProductPriceId, priceTenant: TenantId, now: DateTime)
    requires Validation.Valid(cmd) && !Validation.IsSkuBody(cmd.sku)
    requires CategoryId(cmd.categoryId) in categories
    requires cmd.sku[..|cmd.sku| - 1] in skus && cmd.sku !in skus
    ensures CreateProduct(cmd, categories, skus, productId, priceId, priceTenant, now).Success?
    ensures CreateProduct(cmd, categories, skus, productId, priceId, priceTenant, now).value.sku in skus
  {
    Validation.ValidSkuNormalization(cmd);
    var b := cmd.sku[..|cmd.sku| - 1];
    Validation.SkuBodyIsNormalized(b);
    assert cmd.sku == b + ['\n'];
    assert HasNoLowerCase(cmd.sku) by {
      forall i | 0 <= i < |cmd.sku| ensures !IsLowerLetter(cmd.sku[i]) {
        if i < |b| { assert cmd.sku[i] == b[i]; }
      }
    }
    ToUpperOfUpper(cmd.sku);
    ValidCommandIsCreated(cmd, categories, skus, productId, priceId, priceTenant, now);
    CreatedSku(cmd, categories, skus, productId, priceId, priceTenant, now);
  }

  /** A created product carries the sku normalised. */
  lemma CreatedSku(cmd: CreateProductCommand, categories: set<CategoryId>, skus: set<string>,
                   productId: ProductId, priceId: ProductPriceId, priceTenant: TenantId, now: DateTime)
    requires CreateProduct(cmd, categories, skus, productId, priceId, priceTenant, now).Success?
    ensures CreateProduct(cmd, categories, skus, productId, priceId, priceTenant, now).value.sku == ProductModel.NormalizeSku(cmd.sku)
  {
    assert CreateProduct(cmd, categories, skus, productId, priceId, priceTenant, now)
      == BuildProduct(cmd, CategoryId(cmd.categoryId), productId, priceId, priceTenant, now);
    CreatedProduct(cmd, CategoryId(cmd.categoryId), productId, priceId, priceTenant, now);
  }

  /** A failed UpdateProduct reports the product's own exception: a blank
      name comes back under the handler's code with the message Product
      throws. */
  lemma UpdateProductFailureMessage(p: ProductModel.ProductState, cmd: UpdateProductCommand, categories: set<CategoryId>)
    requires cmd.categoryId != EmptyGuid && CategoryId(cmd.categoryId) in categories && IsBlank(cmd.name)
    ensures UpdateProduct(cmd, Some(p), categories)
      == Failure(Error("UpdateProduct.Failed", "Product name cannot be empty (Parameter 'name')"))
  {
    assert ProductModel.NameEmpty.Message() == "Product name cannot be empty (Parameter 'name')";
    assert UpdateFoundProduct(cmd, p, categories) == Failure(Failed(UpdateProductFailed, ProductModel.NameEmpty));
  }

  /** A category created under a stored parent, with an id not yet stored,
      is valid and raises one CategoryCreated naming that parent. */
  lemma CreatedCategory(cmd: CreateCategoryCommand, categories: set<CategoryId>, newId: CategoryId)
    requires CreateCategory(cmd, categories, newId).Success?
    requires newId !in categories
    ensures var c := CreateCategory(cmd, categories, newId).value;
      && CategoryModel.Valid(c)
      && c.tenantId == cmd.tenantId && c.name == Trim(cmd.name) && c.slug == CategoryModel.GenerateSlug(cmd.name)
      && c.events == [CategoryCreatedEvent(newId, cmd.tenantId, c.name, c.parentCategoryId)]
  {
  }
}
