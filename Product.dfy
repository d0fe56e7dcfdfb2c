/** Entities/Product.cs as an object: the aggregate root that owns its price
    entries and variants and records its domain events. Every method is
    proved to move the object's state exactly as the matching function of
    ProductModel moves the value, and to leave it untouched when it throws. */
module Products {

  import opened Common
  import opened Identifiers
  import opened DomainEvents
  import Text
  import Decimals
  import PriceModel
  import VariantModel
  import ProductModel
  import Prices
  import Variants

  class Product {
    const id: ProductId
    const tenantId: TenantId
    var name: string
    var description: string
    const sku: string
    var categoryId: CategoryId
    var status: ProductModel.ProductStatus
    var stockQuantity: int
    var minStockLevel: int
    var discontinuedAt: Option<DateTime>
    var prices: seq<Prices.ProductPrice>
    var variants: seq<Variants.ProductVariant>
    /** The Entity base: the domain events raised and not yet dispatched,
        and whether MarkAsUpdated has been called. */
    var events: seq<Event>
    var updated: bool

    /** The aggregate, its entries and its variants as one value. */
    function Model(): ProductModel.ProductState
      reads this, prices, variants
    {
      ProductModel.ProductState(id, tenantId, name, description, sku, categoryId, status,
        stockQuantity, minStockLevel, discontinuedAt,
        Prices.Snapshot(prices), Variants.Snapshot(variants), events, updated)
    }

    /** The product's invariant, and no price entry held twice (so updating
        one entry in place changes no other). */
    ghost predicate Valid()
      reads this, prices, variants
    {
      && Prices.Distinct(prices)
      && ProductModel.Valid(Model())
    }

    /** The private constructor: an active product with no stock, prices,
        variants or events. */
    constructor (id: ProductId, tenantId: TenantId, name: string, description: string, sku: string, categoryId: CategoryId)
      ensures Model() == ProductModel.ProductState(id, tenantId, name, description, sku, categoryId,
        ProductModel.Active, 0, 0, None, [], [], [], false)
    {
      this.id, this.tenantId, this.name, this.description := id, tenantId, name, description;
      this.sku, this.categoryId := sku, categoryId;
      status, stockQuantity, minStockLevel, discontinuedAt := ProductModel.Active, 0, 0, None;
      prices, variants, events, updated := [], [], [], false;
    }

    /** Product.Create; ProductId.NewId() is the caller's `id`. */
    static method Create(tenantId: TenantId, name: string, description: Option<string>, sku: string, categoryId: CategoryId, id: ProductId)
      returns (r: Result<Product, Exception>)
      ensures match ProductModel.Create(tenantId, name, description, sku, categoryId, id)
        case Success(s) => r.Success? && fresh(r.value) && r.value.Model() == s && r.value.Valid()
        case Failure(e) => r == Failure(e)
    {
      if Text.IsBlank(name) {
        return Failure(ProductModel.NameEmpty);
      }
      if Text.IsBlank(sku) {
        return Failure(ProductModel.SkuEmpty);
      }
      var p := new Product(id, tenantId, Text.Trim(name), Text.TrimOrEmpty(description), ProductModel.NormalizeSku(sku), categoryId);
      p.RaiseDomainEvent(ProductCreatedEvent(p.id, p.tenantId, p.name, p.sku, p.categoryId));
      r := Success(p);
    }

    /** The Entity base's MarkAsUpdated. */
    method MarkAsUpdated()
      modifies this
      ensures Model() == old(Model()).(updated := true)
      ensures prices == old(prices)
    {
      updated := true;
      Prices.SnapshotUnchanged(prices);
      Variants.SnapshotUnchanged(variants);
    }

    /** The Entity base's RaiseDomainEvent: `e` joins the pending events. */
    method RaiseDomainEvent(e: Event)
      modifies this
      ensures Model() == old(Model()).(events := old(Model()).events + [e])
      ensures prices == old(prices)
    {
      events := events + [e];
      Prices.SnapshotUnchanged(prices);
      Variants.SnapshotUnchanged(variants);
    }

    method UpdateDetails(newName: string, newDescription: Option<string>, newCategoryId: CategoryId) returns (o: Outcome<Exception>)
      requires Valid()
      modifies this
      ensures Committed(ProductModel.UpdateDetails(old(Model()), newName, newDescription, newCategoryId), o, old(Model()), Model())
      ensures Valid()
    {
      if Text.IsBlank(newName) {
        return Fail(ProductModel.NameEmpty);
      }
      ghost var spec := ProductModel.UpdateDetails(Model(), newName, newDescription, newCategoryId);
      var hasChanges := SetDetails(Text.Trim(newName), Text.TrimOrEmpty(newDescription), newCategoryId);
      if hasChanges {
        MarkAsUpdated();
        RaiseDomainEvent(ProductUpdatedEvent(id, tenantId));
      }
      assert Model() == spec.value;
      o := Pass;
    }

    /** UpdateDetails' three field comparisons: each field that differs is
        overwritten, and the result says whether any did. */
    method SetDetails(newName: string, newDescription: string, newCategoryId: CategoryId) returns (hasChanges: bool)
      modifies this
      ensures Model() == old(Model()).(name := newName, description := newDescription, categoryId := newCategoryId)
      ensures prices == old(prices) && variants == old(variants)
      ensures hasChanges <==> old(name) != newName || old(description) != newDescription || old(categoryId) != newCategoryId
    {
      hasChanges := false;
      if name != newName {
        name := newName;
        hasChanges := true;
      }
      if description != newDescription {
        description := newDescription;
        hasChanges := true;
      }
      if categoryId != newCategoryId {
        categoryId := newCategoryId;
        hasChanges := true;
      }
      Prices.SnapshotUnchanged(prices);
      Variants.SnapshotUnchanged(variants);
    }

    /** Product.SetPrice. ProductPrice.Create's fresh id, tenant and clock
        are the caller's `priceId`, `priceTenant` and `now`. */
    method SetPrice(amount: real, currency: string, priceId: ProductPriceId, priceTenant: TenantId, now: DateTime) returns (o: Outcome<Exception>)
      requires Valid()
      modifies this, prices
      ensures Committed(ProductModel.SetPrice(old(Model()), amount, currency, priceId, priceTenant, now), o, old(Model()), Model())
      ensures Valid()
    {
      if amount < 0.0 {
        return Fail(ProductModel.NegativePrice);
      }
      ghost var spec := ProductModel.SetPrice(Model(), amount, currency, priceId, priceTenant, now);
      o := SetPriceEntry(amount, currency, priceId, priceTenant, now);
      if o.Fail? {
        return;
      }
      MarkAsUpdated();
      RaiseDomainEvent(ProductPriceChangedEvent(id, tenantId, amount, currency));
      assert Model() == spec.value;
    }

    /** The price-list half of SetPrice: the entry in `currency` is updated
        in place, or a new entry is created and appended. */
    method SetPriceEntry(amount: real, currency: string, priceId: ProductPriceId, priceTenant: TenantId, now: DateTime) returns (o: Outcome<Exception>)
      requires Valid() && amount >= 0.0
      modifies this, prices
      ensures match ProductModel.PricesAfterSet(old(Model().prices), amount, currency, priceId, priceTenant, now)
        case Success(ps) => o == Pass && Model() == old(Model()).(prices := ps) && Prices.Distinct(prices)
        case Failure(e) => o == Fail(e) && Model() == old(Model()) && Prices.Distinct(prices)
    {
      var found := ProductModel.FirstWithCurrency(Prices.Snapshot(prices), currency);
      if found.Some? {
        UpdatePriceEntry(found.value, amount);
      } else {
        var created := Prices.ProductPrice.Create(amount, currency, priceId, priceTenant, now);
        if created.Failure? {
          return Fail(created.error);
        }
        AppendPriceEntry(created.value);
      }
      o := Pass;
    }

    /** SetPrice's update of the entry at `i` in place. */
    method UpdatePriceEntry(i: nat, amount: real)
      requires Valid() && i < |prices| && amount >= 0.0
      modifies prices[i]
      ensures Model() == old(Model()).(prices := old(Model().prices)[i := old(Model().prices)[i].(amount := Decimals.Round2(amount), updated := true)])
      ensures Prices.Distinct(prices)
    {
      var entry := prices[i];
      var outcome := entry.UpdateAmount(amount);
      Variants.SnapshotUnchanged(variants);
    }

    /** SetPrice's append of a newly created entry. */
    method AppendPriceEntry(p: Prices.ProductPrice)
      requires Valid() && p !in prices
      modifies this
      ensures Model() == old(Model()).(prices := old(Model().prices) + [p.State()])
      ensures Prices.Distinct(prices)
    {
      Prices.SnapshotAppend(prices, p);
      prices := prices + [p];
      Prices.SnapshotUnchanged(old(prices));
      Variants.SnapshotUnchanged(variants);
    }

    method UpdateInventory(newQuantity: int) returns (o: Outcome<Exception>)
      requires Valid()
      modifies this
      ensures Committed(ProductModel.UpdateInventory(old(Model()), newQuantity), o, old(Model()), Model())
      ensures Valid()
    {
      if newQuantity < 0 {
        return Fail(ProductModel.NegativeStock);
      }
      ghost var before := Model();
      var oldQuantity := stockQuantity;
      stockQuantity := newQuantity;
      Prices.SnapshotUnchanged(prices);
      Variants.SnapshotUnchanged(variants);
      ghost var stocked := before.(stockQuantity := newQuantity);
      assert Model() == stocked;
      MarkAsUpdated();
      assert Model() == stocked.(updated := true);
      var inventoryUpdated := ProductInventoryUpdatedEvent(id, tenantId, oldQuantity, newQuantity);
      RaiseDomainEvent(inventoryUpdated);
      assert Model() == stocked.(updated := true, events := before.events + [inventoryUpdated]);
      if newQuantity <= minStockLevel && newQuantity > 0 {
        var lowStock := ProductLowStockEvent(id, tenantId, newQuantity, minStockLevel);
        RaiseDomainEvent(lowStock);
        assert Model() == stocked.(updated := true, events := before.events + [inventoryUpdated] + [lowStock]);
      }
      assert Model() == ProductModel.UpdateInventory(before, newQuantity).value;
      o := Pass;
    }

    method SetMinStockLevel(minLevel: int) returns (o: Outcome<Exception>)
      requires Valid()
      modifies this
      ensures Committed(ProductModel.SetMinStockLevel(old(Model()), minLevel), o, old(Model()), Model())
      ensures Valid()
    {
      if minLevel < 0 {
        return Fail(ProductModel.NegativeMinLevel);
      }
      ghost var spec := ProductModel.SetMinStockLevel(Model(), minLevel);
      minStockLevel := minLevel;
      Prices.SnapshotUnchanged(prices);
      Variants.SnapshotUnchanged(variants);
      MarkAsUpdated();
      assert Model() == spec.value;
      o := Pass;
    }

    /** Product.AddVariant. ProductVariant.Create's fresh id and tenant are
        the caller's `variantId` and `variantTenant`. */
    method AddVariant(variantName: string, variantSku: string, attributes: Option<map<string, string>>, variantId: ProductVariantId, variantTenant: TenantId) returns (o: Outcome<Exception>)
      requires Valid()
      modifies this
      ensures Committed(ProductModel.AddVariant(old(Model()), variantName, variantSku, attributes, variantId, variantTenant), o, old(Model()), Model())
      ensures Valid()
    {
      if Text.IsBlank(variantName) {
        return Fail(ProductModel.VariantNameEmpty);
      }
      if Text.IsBlank(variantSku) {
        return Fail(ProductModel.VariantSkuEmpty);
      }
      var normalized := ProductModel.NormalizeSku(variantSku);
      if ProductModel.HasVariantSku(Variants.Snapshot(variants), normalized) {
        return Fail(ProductModel.DuplicateVariant(variantSku));
      }
      ghost var before := Model();
      AddCheckedVariant(variantName, variantSku, normalized, attributes, variantId, variantTenant);
      assert Model() == ProductModel.AddVariant(before, variantName, variantSku, attributes, variantId, variantTenant).value;
      o := Pass;
    }

    /** AddVariant once its three checks have passed: the new variant is
        appended, the product marked updated and ProductVariantAdded raised. */
    method AddCheckedVariant(variantName: string, variantSku: string, normalized: string, attributes: Option<map<string, string>>, variantId: ProductVariantId, variantTenant: TenantId)
      modifies this
      ensures Model() == old(Model()).(
        variants := old(Model()).variants + [VariantModel.Create(Text.Trim(variantName), normalized, attributes, variantId, variantTenant)],
        updated := true,
        events := old(Model()).events + [ProductVariantAddedEvent(id, tenantId, variantId, variantName, variantSku)])
      ensures prices == old(prices)
    {
      ghost var before := Model();
      var v := Variants.ProductVariant.Create(Text.Trim(variantName), normalized, attributes, variantId, variantTenant);
      AppendVariant(v);
      ghost var appended := before.(variants := before.variants + [v.State()]);
      assert Model() == appended;
      MarkAsUpdated();
      assert Model() == appended.(updated := true);
      RaiseDomainEvent(ProductVariantAddedEvent(id, tenantId, v.id, variantName, variantSku));
    }

    /** `_variants.Add(v)`. */
    method AppendVariant(v: Variants.ProductVariant)
      modifies this
      ensures Model() == old(Model()).(variants := old(Model().variants) + [v.State()])
      ensures prices == old(prices)
    {
      Variants.SnapshotAppend(variants, v);
      variants := variants + [v];
      Variants.SnapshotUnchanged(old(variants));
      Prices.SnapshotUnchanged(prices);
    }

    /** Product.Deactivate; DateTime.UtcNow is the caller's `now`. */
    method Deactivate(now: DateTime) returns (o: Outcome<Exception>)
      requires Valid()
      modifies this
      ensures Committed(ProductModel.Deactivate(old(Model()), now), o, old(Model()), Model())
      ensures Valid()
    {
      if status == ProductModel.Discontinued {
        return Fail(ProductModel.AlreadyDiscontinued);
      }
      ghost var spec := ProductModel.Deactivate(Model(), now);
      status := ProductModel.Discontinued;
      discontinuedAt := Some(now);
      Prices.SnapshotUnchanged(prices);
      Variants.SnapshotUnchanged(variants);
      MarkAsUpdated();
      RaiseDomainEvent(ProductDeactivatedEvent(id, tenantId));
      assert Model() == spec.value;
      o := Pass;
    }

    method Activate()
      requires Valid()
      modifies this
      ensures Model() == ProductModel.Activate(old(Model()))
      ensures Valid()
    {
      if status == ProductModel.Active {
        return;
      }
      ghost var spec := ProductModel.Activate(Model());
      status := ProductModel.Active;
      discontinuedAt := None;
      Prices.SnapshotUnchanged(prices);
      Variants.SnapshotUnchanged(variants);
      MarkAsUpdated();
      RaiseDomainEvent(ProductActivatedEvent(id, tenantId));
      assert Model() == spec;
    }

    /** Product.IsInStock, read from the object's fields. */
    predicate IsInStock(): (r: bool)
      reads this
      ensures r <==> ProductModel.IsInStock(Model())
    {
      stockQuantity > 0
    }

    /** Product.IsLowStock, read from the object's fields. */
    predicate IsLowStock(): (r: bool)
      reads this
      ensures r <==> ProductModel.IsLowStock(Model())
    {
      stockQuantity <= minStockLevel && stockQuantity > 0
    }

    /** Product.GetPrice: the amount of the first entry in exactly this
        currency, or none. */
    function GetPrice(currency: string): (r: Option<real>)
      reads this, prices
      ensures r == ProductModel.GetPrice(Model(), currency)
    {
      match ProductModel.FirstWithCurrency(Prices.Snapshot(prices), currency)
      case None => None
      case Some(i) => Some(prices[i].amount)
    }
  }

  /** A product whose own fields, price entries and variants have not
      changed has the same state and is still valid. */
  twostate lemma ModelUnchanged(p: Product)
    requires unchanged(p) && unchanged(p.prices) && unchanged(p.variants)
    ensures p.Model() == old(p.Model())
    ensures old(p.Valid()) ==> p.Valid()
  {
    Prices.SnapshotUnchanged(p.prices);
    Variants.SnapshotUnchanged(p.variants);
  }
}
