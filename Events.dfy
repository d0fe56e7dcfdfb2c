/** The domain events of Events/ProductEvents.cs. The Id and OccurredOn that
    every record also carries (a fresh Guid and the clock) are left out. */
module DomainEvents {

  import opened Common
  import opened Identifiers

  datatype Event =
    | ProductCreatedEvent(productId: ProductId, tenantId: TenantId, name: string, sku: string, categoryId: CategoryId)
    | ProductUpdatedEvent(productId: ProductId, tenantId: TenantId)
    | ProductDeactivatedEvent(productId: ProductId, tenantId: TenantId)
    | ProductActivatedEvent(productId: ProductId, tenantId: TenantId)
    | ProductPriceChangedEvent(productId: ProductId, tenantId: TenantId, amount: real, currency: string)
    | ProductInventoryUpdatedEvent(productId: ProductId, tenantId: TenantId, oldQuantity: int, newQuantity: int)
    | ProductLowStockEvent(productId: ProductId, tenantId: TenantId, currentQuantity: int, minStockLevel: int)
    | ProductVariantAddedEvent(productId: ProductId, tenantId: TenantId, variantId: ProductVariantId, variantName: string, variantSku: string)
    | CategoryCreatedEvent(categoryId: CategoryId, tenantId: TenantId, name: string, parentCategoryId: Option<CategoryId>)
    | CategoryUpdatedEvent(categoryId: CategoryId, tenantId: TenantId)
}
