/** The command handlers as objects over the repositories. Each Handle is
    proved to return what HandlerModel names and to leave the repositories
    holding what it names: on failure nothing is stored and nothing saved;
    on success the aggregate is stored (or updated in place) and SaveChanges
    is called once. */
module Handlers {

  import opened Common
  import opened Identifiers
  import opened Commands
  import Products
  import Categories
  import ProductModel
  import HandlerModel
  import Repositories

  /** Handlers/ProductCommandHandlers.cs, CreateProductCommandHandler. */
  class CreateProductCommandHandler {
    const productRepository: Repositories.ProductRepository
    const categoryRepository: Repositories.CategoryRepository

    constructor (productRepository: Repositories.ProductRepository, categoryRepository: Repositories.CategoryRepository)
      ensures this.productRepository == productRepository && this.categoryRepository == categoryRepository
    {
      this.productRepository := productRepository;
      this.categoryRepository := categoryRepository;
    }

    /** `productId` is ProductId.NewId(); `priceId` and `priceTenant` are
        the fresh ProductPriceId and TenantId the new price entry takes;
        `now` is DateTime.UtcNow. */
    method Handle(request: CreateProductCommand, productId: ProductId, priceId: ProductPriceId, priceTenant: TenantId, now: DateTime)
      returns (r: Result<ProductId, Error>)
      modifies productRepository
      ensures match HandlerModel.CreateProduct(request, categoryRepository.categories.Keys, old(productRepository.Skus()),
                                               productId, priceId, priceTenant, now)
        case Failure(e) =>
          && r == Failure(e)
          && productRepository.products == old(productRepository.products)
          && productRepository.saveCount == old(productRepository.saveCount)
        case Success(s) =>
          && r == Success(productId)
          && productId in productRepository.products
          && productRepository.products == old(productRepository.products)[productId := productRepository.products[productId]]
          && fresh(productRepository.products[productId])
          && productRepository.products[productId].Model() == s
          && productRepository.products[productId].Valid()
          && productRepository.saveCount == old(productRepository.saveCount) + 1
    {
      ghost var skus := productRepository.Skus();
      var categoryId: CategoryId;
      match CreateCategoryId(request.categoryId) {
        case Failure(e) =>
          return Failure(HandlerModel.Failed(HandlerModel.CreateProductFailed, e));
        case Success(c) =>
          categoryId := c;
      }
      var category := categoryRepository.GetById(categoryId);
      if category.None? {
        return Failure(HandlerModel.CategoryNotFound);
      }
      var existingProduct := productRepository.GetBySku(request.sku);
      if existingProduct.Some? {
        return Failure(HandlerModel.SkuExists);
      }
      HandlerModel.CreateProductBuilds(request, categoryRepository.categories.Keys, skus, productId, priceId, priceTenant, now);
      var built := Build(request, categoryId, productId, priceId, priceTenant, now);
      if built.Failure? {
        return Failure(built.error);
      }
      var product := built.value;
      Store(product);
      r := Success(product.id);
    }

    /** AddAsync then SaveChangesAsync; the product itself is untouched. */
    method Store(product: Products.Product)
      requires product.Valid()
      modifies productRepository
      ensures productRepository.products == old(productRepository.products)[product.id := product]
      ensures productRepository.saveCount == old(productRepository.saveCount) + 1
      ensures product.Model() == old(product.Model()) && product.Valid()
    {
      productRepository.Add(product);
      productRepository.SaveChanges();
      Products.ModelUnchanged(product);
    }

    /** The try block's domain calls: Product.Create, SetPrice and
        UpdateInventory on the new product, which nothing else holds yet. */
    static method Build(request: CreateProductCommand, categoryId: CategoryId,
                        productId: ProductId, priceId: ProductPriceId, priceTenant: TenantId, now: DateTime)
      returns (r: Result<Products.Product, Error>)
      ensures match HandlerModel.BuildProduct(request, categoryId, productId, priceId, priceTenant, now)
        case Failure(e) => r == Failure(e)
        case Success(s) => r.Success? && fresh(r.value) && r.value.Model() == s && r.value.Valid()
    {
      var created := Products.Product.Create(request.tenantId, request.name, request.description, request.sku, categoryId, productId);
      if created.Failure? {
        return Failure(HandlerModel.Failed(HandlerModel.CreateProductFailed, created.error));
      }
      var product := created.value;
      ghost var createdState := product.Model();
      assert product.prices == [];
      var o := product.SetPrice(request.price, request.currency, priceId, priceTenant, now);
      if o.Fail? {
        return Failure(HandlerModel.Failed(HandlerModel.CreateProductFailed, o.error));
      }
      ghost var pricedState := product.Model();
      assert pricedState == ProductModel.SetPrice(createdState, request.price, request.currency, priceId, priceTenant, now).value;
      o := product.UpdateInventory(request.stockQuantity);
      if o.Fail? {
        return Failure(HandlerModel.Failed(HandlerModel.CreateProductFailed, o.error));
      }
      assert product.Model() == ProductModel.UpdateInventory(pricedState, request.stockQuantity).value;
      r := Success(product);
    }
  }

  /** Handlers/ProductCommandHandlers.cs, UpdateProductCommandHandler. */
  class UpdateProductCommandHandler {
    const productRepository: Repositories.ProductRepository
    const categoryRepository: Repositories.CategoryRepository

    constructor (productRepository: Repositories.ProductRepository, categoryRepository: Repositories.CategoryRepository)
      ensures this.productRepository == productRepository && this.categoryRepository == categoryRepository
    {
      this.productRepository := productRepository;
      this.categoryRepository := categoryRepository;
    }

    /** The stored product is updated in place; the repository's map does
        not change. */
    method Handle(request: UpdateProductCommand) returns (r: Result<(), Error>)
      requires request.productId in productRepository.products ==> productRepository.products[request.productId].Valid()
      modifies productRepository
      modifies if request.productId in productRepository.products then {productRepository.products[request.productId]} else {}
      ensures productRepository.products == old(productRepository.products)
      ensures match HandlerModel.UpdateProduct(request,
                      if request.productId in old(productRepository.products)
                      then Some(old(productRepository.products[request.productId].Model())) else None,
                      categoryRepository.categories.Keys)
        case Failure(e) =>
          && r == Failure(e)
          && productRepository.saveCount == old(productRepository.saveCount)
          && (request.productId in productRepository.products ==>
                productRepository.products[request.productId].Model() == old(productRepository.products[request.productId].Model()))
        case Success(s) =>
          && r == Success(())
          && productRepository.products[request.productId].Model() == s
          && productRepository.products[request.productId].Valid()
          && productRepository.saveCount == old(productRepository.saveCount) + 1
    {
      ghost var stored := if request.productId in productRepository.products
                          then Some(productRepository.products[request.productId].Model()) else None;
      var found := productRepository.GetById(request.productId);
      if found.None? {
        return Failure(HandlerModel.ProductNotFound);
      }
      var product := found.value;
      assert stored == Some(product.Model());
      r := UpdateFound(request, product);
      assert productRepository.products[request.productId] == product;
    }

    /** The try block once the product has been found. */
    method UpdateFound(request: UpdateProductCommand, product: Products.Product) returns (r: Result<(), Error>)
      requires product.Valid()
      modifies productRepository, product
      ensures productRepository.products == old(productRepository.products)
      ensures match HandlerModel.UpdateFoundProduct(request, old(product.Model()), categoryRepository.categories.Keys)
        case Failure(e) =>
          && r == Failure(e)
          && productRepository.saveCount == old(productRepository.saveCount)
          && product.Model() == old(product.Model())
        case Success(s) =>
          && r == Success(())
          && product.Model() == s && product.Valid()
          && productRepository.saveCount == old(productRepository.saveCount) + 1
    {
      var categoryId: CategoryId;
      match CreateCategoryId(request.categoryId) {
        case Failure(e) =>
          return Failure(HandlerModel.Failed(HandlerModel.UpdateProductFailed, e));
        case Success(c) =>
          categoryId := c;
      }
      var category := categoryRepository.GetById(categoryId);
      if category.None? {
        return Failure(HandlerModel.CategoryNotFound);
      }
      r := ApplyDetails(request, product, categoryId);
    }

    /** UpdateDetails, then SaveChangesAsync when it did not throw. */
    method ApplyDetails(request: UpdateProductCommand, product: Products.Product, categoryId: CategoryId) returns (r: Result<(), Error>)
      requires product.Valid()
      modifies productRepository, product
      ensures productRepository.products == old(productRepository.products)
      ensures match ProductModel.UpdateDetails(old(product.Model()), request.name, request.description, categoryId)
        case Failure(e) =>
          && r == Failure(HandlerModel.Failed(HandlerModel.UpdateProductFailed, e))
          && productRepository.saveCount == old(productRepository.saveCount)
          && product.Model() == old(product.Model())
        case Success(s) =>
          && r == Success(())
          && product.Model() == s && product.Valid()
          && productRepository.saveCount == old(productRepository.saveCount) + 1
    {
      var o := product.UpdateDetails(request.name, request.description, categoryId);
      if o.Fail? {
        return Failure(HandlerModel.Failed(HandlerModel.UpdateProductFailed, o.error));
      }
      ghost var updatedState := product.Model();
      productRepository.SaveChanges();
      assert product.Model() == updatedState;
      r := Success(());
    }
  }

  /** Handlers/ProductCommandHandlers.cs, UpdateProductInventoryCommandHandler. */
  class UpdateProductInventoryCommandHandler {
    const productRepository: Repositories.ProductRepository

    constructor (productRepository: Repositories.ProductRepository)
      ensures this.productRepository == productRepository
    {
      this.productRepository := productRepository;
    }

    method Handle(request: UpdateProductInventoryCommand) returns (r: Result<(), Error>)
      requires request.productId in productRepository.products ==> productRepository.products[request.productId].Valid()
      modifies productRepository
      modifies if request.productId in productRepository.products then {productRepository.products[request.productId]} else {}
      ensures productRepository.products == old(productRepository.products)
      ensures match HandlerModel.UpdateInventory(request,
                      if request.productId in old(productRepository.products)
                      then Some(old(productRepository.products[request.productId].Model())) else None)
        case Failure(e) =>
          && r == Failure(e)
          && productRepository.saveCount == old(productRepository.saveCount)
          && (request.productId in productRepository.products ==>
                productRepository.products[request.productId].Model() == old(productRepository.products[request.productId].Model()))
        case Success(s) =>
          && r == Success(())
          && productRepository.products[request.productId].Model() == s
          && productRepository.products[request.productId].Valid()
          && productRepository.saveCount == old(productRepository.saveCount) + 1
    {
      ghost var stored := if request.productId in productRepository.products
                          then Some(productRepository.products[request.productId].Model()) else None;
      var found := productRepository.GetById(request.productId);
      if found.None? {
        return Failure(HandlerModel.ProductNotFound);
      }
      var product := found.value;
      assert stored == Some(product.Model());
      r := ApplyInventory(request, product);
      assert productRepository.products[request.productId] == product;
    }

    /** UpdateInventory, then SaveChangesAsync when it did not throw. */
    method ApplyInventory(request: UpdateProductInventoryCommand, product: Products.Product) returns (r: Result<(), Error>)
      requires product.Valid()
      modifies productRepository, product
      ensures productRepository.products == old(productRepository.products)
      ensures match ProductModel.UpdateInventory(old(product.Model()), request.quantity)
        case Failure(e) =>
          && r == Failure(HandlerModel.Failed(HandlerModel.UpdateInventoryFailed, e))
          && productRepository.saveCount == old(productRepository.saveCount)
          && product.Model() == old(product.Model())
        case Success(s) =>
          && r == Success(())
          && product.Model() == s && product.Valid()
          && productRepository.saveCount == old(productRepository.saveCount) + 1
    {
      var o := product.UpdateInventory(request.quantity);
      if o.Fail? {
        return Failure(HandlerModel.Failed(HandlerModel.UpdateInventoryFailed, o.error));
      }
      ghost var updatedState := product.Model();
      productRepository.SaveChanges();
      assert product.Model() == updatedState;
      r := Success(());
    }
  }

  /** Handlers/CreateCategoryCommandHandler.cs. */
  class CreateCategoryCommandHandler {
    const categoryRepository: Repositories.CategoryRepository

    constructor (categoryRepository: Repositories.CategoryRepository)
      ensures this.categoryRepository == categoryRepository
    {
      this.categoryRepository := categoryRepository;
    }

    /** `newId` is CategoryId.NewId(). */
    method Handle(request: CreateCategoryCommand, newId: CategoryId) returns (r: Result<CategoryId, Error>)
      modifies categoryRepository
      ensures match HandlerModel.CreateCategory(request, old(categoryRepository.categories.Keys), newId)
        case Failure(e) =>
          && r == Failure(e)
          && categoryRepository.categories == old(categoryRepository.categories)
          && categoryRepository.saveCount == old(categoryRepository.saveCount)
        case Success(s) =>
          && r == Success(newId)
          && newId in categoryRepository.categories
          && categoryRepository.categories == old(categoryRepository.categories)[newId := categoryRepository.categories[newId]]
          && fresh(categoryRepository.categories[newId])
          && categoryRepository.categories[newId].Model() == s
          && categoryRepository.saveCount == old(categoryRepository.saveCount) + 1
    {
      var parentCategoryId: Option<CategoryId> := None;
      if request.parentCategoryId.Some? {
        match CreateCategoryId(request.parentCategoryId.value) {
          case Failure(e) =>
            return Failure(HandlerModel.Failed(HandlerModel.CreateCategoryFailed, e));
          case Success(c) =>
            parentCategoryId := Some(c);
        }
        var parentCategory := categoryRepository.GetById(parentCategoryId.value);
        if parentCategory.None? {
          return Failure(HandlerModel.ParentNotFound);
        }
      }
      var created := Categories.Category.Create(request.tenantId, request.name, request.description, parentCategoryId, newId);
      if created.Failure? {
        return Failure(HandlerModel.Failed(HandlerModel.CreateCategoryFailed, created.error));
      }
      var category := created.value;
      categoryRepository.Add(category);
      categoryRepository.SaveChanges();
      r := Success(category.id);
    }
  }
}
