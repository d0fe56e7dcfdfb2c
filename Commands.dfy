/** Commands/ProductCommands.cs: the requests the command handlers take.
    A command's Guid fields are raw Guids; its Description may be null. */
module Commands {

  import opened Common
  import opened Identifiers

  datatype CreateProductCommand = CreateProductCommand(
    tenantId: TenantId,
    name: string,
    description: Option<string>,
    sku: string,
    categoryId: Guid,
    price: real,
    currency: string,
    stockQuantity: int)

  datatype UpdateProductCommand = UpdateProductCommand(
    productId: ProductId,
    name: string,
    description: Option<string>,
    categoryId: Guid)

  datatype UpdateProductInventoryCommand = UpdateProductInventoryCommand(
    productId: ProductId,
    quantity: int)

  datatype CreateCategoryCommand = CreateCategoryCommand(
    tenantId: TenantId,
    name: string,
    description: Option<string>,
    parentCategoryId: Option<Guid>)
}
