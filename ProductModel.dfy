/** Entities/Product.cs as values: the state of a Product aggregate, what each
    of its operations makes of it, and the properties those operations keep.
    The class Products.Product is proved to follow these functions. */
module ProductModel {

  import opened Common
  import opened Text
  import opened Decimals
  import opened Identifiers
  import opened DomainEvents
  import PriceModel
  import VariantModel

  datatype ProductStatus = Active | Discontinued

  datatype ProductState = ProductState(
    id: ProductId,
    tenantId: TenantId,
    name: string,
    description: string,
    sku: string,
    categoryId: CategoryId,
    status: ProductStatus,
    stockQuantity: int,
    minStockLevel: int,
    discontinuedAt: Option<DateTime>,
    prices: seq<PriceModel.PriceState>,
    variants: seq<VariantModel.VariantState>,
    events: seq<Event>,
    updated: bool)

  const NameEmpty := ArgumentException("Product name cannot be empty", Some("name"))
  const SkuEmpty := ArgumentException("Product SKU cannot be empty", Some("sku"))
  const NegativePrice := ArgumentException("Price cannot be negative", Some("amount"))
  const NegativeStock := ArgumentException("Stock quantity cannot be negative", Some("newQuantity"))
  const NegativeMinLevel := ArgumentException("Minimum stock level cannot be negative", Some("minLevel"))
  const VariantNameEmpty := ArgumentException("Variant name cannot be empty", Some("name"))
  const VariantSkuEmpty := ArgumentException("Variant SKU cannot be empty", Some("sku"))
  const AlreadyDiscontinued := InvalidOperationException("Product is already discontinued")

  function DuplicateVariant(sku: string): Exception
  {
    InvalidOperationException("Variant with SKU " + sku + " already exists")
  }

  /** `sku.Trim().ToUpperInvariant()`: the sku without its outer white
      space, upper-cased. The result is trimmed, without lower-case
      letters, and empty exactly for a blank sku. */
  function NormalizeSku(sku: string): (r: string)
    ensures r == ToUpper(Trim(sku))
    ensures IsTrimmed(r) && HasNoLowerCase(r)
    ensures IsBlank(sku) <==> r == []
  {
    ToUpperKeepsWhiteSpace(Trim(sku));
    ToUpperHasNoLowerCase(Trim(sku));
    assert ToUpper(Trim(sku)) == [] <==> Trim(sku) == [];
    ToUpper(Trim(sku))
  }

  predicate IsNormalizedSku(s: string)
  {
    s != [] && IsTrimmed(s) && HasNoLowerCase(s)
  }

  /** Normalising a normalised sku changes nothing. */
  lemma NormalizeSkuIdempotent(sku: string)
    requires IsNormalizedSku(sku)
    ensures NormalizeSku(sku) == sku
  {
  }

  predicate HasVariantSku(vs: seq<VariantModel.VariantState>, sku: string)
  {
    exists i :: 0 <= i < |vs| && vs[i].sku == sku
  }

  predicate DistinctVariantSkus(vs: seq<VariantModel.VariantState>)
  {
    forall i, j :: 0 <= i < j < |vs| ==> vs[i].sku != vs[j].sku
  }

  /** No two price entries carry the same currency. */
  predicate OnePerCurrency(ps: seq<PriceModel.PriceState>)
  {
    forall i, j :: 0 <= i < j < |ps| ==> ps[i].currency != ps[j].currency
  }

  /** What every Product keeps, whatever sequence of operations built it. */
  predicate Valid(s: ProductState)
  {
    && s.name != [] && IsTrimmed(s.name)
    && IsTrimmed(s.description)
    && IsNormalizedSku(s.sku)
    && s.stockQuantity >= 0
    && s.minStockLevel >= 0
    && (s.discontinuedAt.Some? <==> s.status == Discontinued)
    && (forall i :: 0 <= i < |s.prices| ==> PriceModel.Valid(s.prices[i]))
    && (forall i :: 0 <= i < |s.variants| ==>
          IsNormalizedSku(s.variants[i].sku) && s.variants[i].name != [] && IsTrimmed(s.variants[i].name))
    && DistinctVariantSkus(s.variants)
  }

  /** `_prices.FirstOrDefault(p => p.Currency == currency)`, as an index:
      the first entry whose currency equals `c` exactly, if any. */
  function FirstWithCurrency(ps: seq<PriceModel.PriceState>, c: string): (r: Option<nat>)
    ensures r.Some? ==> r.value < |ps| && ps[r.value].currency == c
    ensures r.Some? ==> forall j :: 0 <= j < r.value ==> ps[j].currency != c
    ensures r.None? ==> forall j :: 0 <= j < |ps| ==> ps[j].currency != c
  {
    if ps == [] then None
    else if ps[0].currency == c then Some(0)
    else match FirstWithCurrency(ps[1..], c)
      case None => None
      case Some(i) => Some(i + 1)
  }

  /** The first match is determined by where the currencies match alone. */
  lemma FirstWithCurrencyAt(ps: seq<PriceModel.PriceState>, c: string, k: nat)
    requires k < |ps| && ps[k].currency == c
    requires forall j :: 0 <= j < k ==> ps[j].currency != c
    ensures FirstWithCurrency(ps, c) == Some(k)
  {
  }

  /** Product.Create: rejects a blank name, then a blank sku; otherwise an
      active product with no stock, no minimum, no prices and no variants,
      whose name and description are trimmed and whose sku is trimmed and
      upper-cased, with exactly one pending ProductCreated event. */
  function Create(tenantId: TenantId, name: string, description: Option<string>, sku: string, categoryId: CategoryId, id: ProductId): (r: Result<ProductState, Exception>)
    ensures r.Failure? <==> IsBlank(name) || IsBlank(sku)
    ensures IsBlank(name) ==> r == Failure(NameEmpty)
    ensures !IsBlank(name) && IsBlank(sku) ==> r == Failure(SkuEmpty)
    ensures r.Success? ==> Valid(r.value)
    ensures r.Success? ==> var p := r.value;
      && p.id == id && p.tenantId == tenantId && p.categoryId == categoryId
      && p.status == Active && p.stockQuantity == 0 && p.minStockLevel == 0 && p.discontinuedAt == None
      && p.name == Trim(name) && p.description == TrimOrEmpty(description) && p.sku == NormalizeSku(sku)
      && p.prices == [] && p.variants == [] && !p.updated
      && p.events == [ProductCreatedEvent(id, tenantId, p.name, p.sku, categoryId)]
  {
    if IsBlank(name) then Failure(NameEmpty)
    else if IsBlank(sku) then Failure(SkuEmpty)
    else
      var n := Trim(name);
      var k := NormalizeSku(sku);
      Success(ProductState(id, tenantId, n, TrimOrEmpty(description), k, categoryId,
        Active, 0, 0, None, [], [], [ProductCreatedEvent(id, tenantId, n, k, categoryId)], false))
  }

  /** Product.UpdateDetails: rejects a blank name. Otherwise the product
      takes the trimmed name, the normalised description and the category;
      it is marked updated and raises one ProductUpdated exactly when one of
      the three differed, and is left entirely as it was when none did. */
  function UpdateDetails(s: ProductState, name: string, description: Option<string>, categoryId: CategoryId): (r: Result<ProductState, Exception>)
    ensures r.Failure? <==> IsBlank(name)
    ensures r.Failure? ==> r.error == NameEmpty
    ensures r.Success? ==>
      var changed := s.name != Trim(name) || s.description != TrimOrEmpty(description) || s.categoryId != categoryId;
      && r.value.name == Trim(name) && r.value.description == TrimOrEmpty(description) && r.value.categoryId == categoryId
      && (changed ==> r.value.updated && r.value.events == s.events + [ProductUpdatedEvent(s.id, s.tenantId)])
      && (!changed <==> r.value == s)
      && r.value.(name := s.name, description := s.description, categoryId := s.categoryId,
                  updated := s.updated, events := s.events) == s
    ensures r.Success? && Valid(s) ==> Valid(r.value)
  {
    if IsBlank(name) then Failure(NameEmpty)
    else
      var n := Trim(name);
      var d := TrimOrEmpty(description);
      var changed := s.name != n || s.description != d || s.categoryId != categoryId;
      if changed then
        Success(s.(name := n, description := d, categoryId := categoryId, updated := true,
                   events := s.events + [ProductUpdatedEvent(s.id, s.tenantId)]))
      else Success(s)
  }

  /** The new price list of SetPrice, once the amount is known to be
      non-negative: the first entry with exactly this currency is updated in
      place, or else a new entry is created and appended. */
  function PricesAfterSet(ps: seq<PriceModel.PriceState>, amount: real, currency: string, priceId: ProductPriceId, priceTenant: TenantId, now: DateTime): (r: Result<seq<PriceModel.PriceState>, Exception>)
    requires amount >= 0.0
    ensures r.Failure? <==> FirstWithCurrency(ps, currency).None? && IsBlank(currency)
    ensures r.Failure? ==> r.error == PriceModel.EmptyCurrency
    ensures r.Success? && FirstWithCurrency(ps, currency).Some? ==>
      var i := FirstWithCurrency(ps, currency).value;
      r.value == ps[i := ps[i].(amount := Round2(amount), updated := true)]
    ensures r.Success? && FirstWithCurrency(ps, currency).None? ==>
      r.value == ps + [PriceModel.PriceState(priceId, priceTenant, Round2(amount), ToUpper(currency), now, None, false)]
  {
    match FirstWithCurrency(ps, currency)
    case Some(i) =>
      (match PriceModel.UpdateAmount(ps[i], amount)
       case Success(p) => Success(ps[i := p])
       case Failure(e) => Failure(e))
    case None =>
      (match PriceModel.Create(amount, currency, priceId, priceTenant, now)
       case Success(p) => Success(ps + [p])
       case Failure(e) => Failure(e))
  }

  /** Product.SetPrice: rejects a negative amount, and a blank currency when
      it has to create an entry. Otherwise the price list is PricesAfterSet's,
      nothing else but the marker and the events changes, and exactly one
      ProductPriceChanged carrying the caller's unrounded amount and raw
      currency is raised. */
  function SetPrice(s: ProductState, amount: real, currency: string, priceId: ProductPriceId, priceTenant: TenantId, now: DateTime): (r: Result<ProductState, Exception>)
    ensures r.Failure? <==> amount < 0.0 || (FirstWithCurrency(s.prices, currency).None? && IsBlank(currency))
    ensures amount < 0.0 ==> r == Failure(NegativePrice)
    ensures amount >= 0.0 && FirstWithCurrency(s.prices, currency).None? && IsBlank(currency) ==> r == Failure(PriceModel.EmptyCurrency)
    ensures r.Success? ==> var ps := PricesAfterSet(s.prices, amount, currency, priceId, priceTenant, now);
      && ps.Success?
      && r.value == s.(prices := ps.value, updated := true,
                       events := s.events + [ProductPriceChangedEvent(s.id, s.tenantId, amount, currency)])
    ensures r.Success? && Valid(s) ==> Valid(r.value)
  {
    if amount < 0.0 then Failure(NegativePrice)
    else match PricesAfterSet(s.prices, amount, currency, priceId, priceTenant, now)
      case Failure(e) => Failure(e)
      case Success(ps) =>
        var after := s.(prices := ps, updated := true,
                        events := s.events + [ProductPriceChangedEvent(s.id, s.tenantId, amount, currency)]);
        assert Valid(s) ==> Valid(after) by {
          if Valid(s) {
            forall i | 0 <= i < |ps| ensures PriceModel.Valid(ps[i]) {
              if FirstWithCurrency(s.prices, currency).None? && i == |s.prices| {
                assert ps[i] == PriceModel.Create(amount, currency, priceId, priceTenant, now).value;
              }
            }
          }
        }
        Success(after)
  }

  predicate IsInStock(s: ProductState)
  {
    s.stockQuantity > 0
  }

  predicate IsLowStock(s: ProductState)
  {
    s.stockQuantity <= s.minStockLevel && s.stockQuantity > 0
  }

  /** Product.UpdateInventory: rejects a negative quantity; otherwise the
      stock becomes the new quantity (UpdateInventoryRaises says which
      events follow). */
  function UpdateInventory(s: ProductState, newQuantity: int): (r: Result<ProductState, Exception>)
    ensures r.Failure? <==> newQuantity < 0
    ensures r.Failure? ==> r.error == NegativeStock
    ensures r.Success? ==> r.value.stockQuantity == newQuantity && r.value.updated
    ensures r.Success? && Valid(s) ==> Valid(r.value)
  {
    if newQuantity < 0 then Failure(NegativeStock)
    else
      var updatedEvents := s.events + [ProductInventoryUpdatedEvent(s.id, s.tenantId, s.stockQuantity, newQuantity)];
      Success(s.(stockQuantity := newQuantity, updated := true,
                 events := if newQuantity <= s.minStockLevel && newQuantity > 0
                           then updatedEvents + [ProductLowStockEvent(s.id, s.tenantId, newQuantity, s.minStockLevel)]
                           else updatedEvents))
  }

  /** Product.SetMinStockLevel: rejects a negative level, otherwise sets it
      and raises nothing. */
  function SetMinStockLevel(s: ProductState, minLevel: int): (r: Result<ProductState, Exception>)
    ensures r.Failure? <==> minLevel < 0
    ensures r.Failure? ==> r.error == NegativeMinLevel
    ensures r.Success? ==> r.value.minStockLevel == minLevel && r.value.events == s.events
    ensures r.Success? ==> r.value == s.(minStockLevel := minLevel, updated := true)
    ensures r.Success? && Valid(s) ==> Valid(r.value)
  {
    if minLevel < 0 then Failure(NegativeMinLevel)
    else Success(s.(minStockLevel := minLevel, updated := true))
  }

  /** Product.AddVariant: rejects a blank name, then a blank sku, then a sku
      whose normalised form is already a variant's. Otherwise one variant
      with the trimmed name and the normalised sku is appended, and one
      ProductVariantAdded carrying its id and the raw name and sku is raised. */
  function AddVariant(s: ProductState, name: string, sku: string, attributes: Option<map<string, string>>, variantId: ProductVariantId, variantTenant: TenantId): (r: Result<ProductState, Exception>)
    ensures r.Failure? <==> IsBlank(name) || IsBlank(sku) || HasVariantSku(s.variants, NormalizeSku(sku))
    ensures IsBlank(name) ==> r == Failure(VariantNameEmpty)
    ensures !IsBlank(name) && IsBlank(sku) ==> r == Failure(VariantSkuEmpty)
    ensures !IsBlank(name) && !IsBlank(sku) && HasVariantSku(s.variants, NormalizeSku(sku)) ==> r == Failure(DuplicateVariant(sku))
    ensures r.Success? ==>
      && r.value.variants == s.variants + [VariantModel.Create(Trim(name), NormalizeSku(sku), attributes, variantId, variantTenant)]
      && r.value.events == s.events + [ProductVariantAddedEvent(s.id, s.tenantId, variantId, name, sku)]
      && r.value == s.(variants := r.value.variants, events := r.value.events, updated := true)
    ensures r.Success? && Valid(s) ==> Valid(r.value)
  {
    if IsBlank(name) then Failure(VariantNameEmpty)
    else if IsBlank(sku) then Failure(VariantSkuEmpty)
    else if HasVariantSku(s.variants, NormalizeSku(sku)) then Failure(DuplicateVariant(sku))
    else
      var v := VariantModel.Create(Trim(name), NormalizeSku(sku), attributes, variantId, variantTenant);
      Success(s.(variants := s.variants + [v], updated := true,
                 events := s.events + [ProductVariantAddedEvent(s.id, s.tenantId, variantId, name, sku)]))
  }

  /** Product.Deactivate: throws on a discontinued product; otherwise it is
      discontinued as of `now` with one ProductDeactivated raised. */
  function Deactivate(s: ProductState, now: DateTime): (r: Result<ProductState, Exception>)
    ensures r.Failure? <==> s.status == Discontinued
    ensures r.Failure? ==> r.error == AlreadyDiscontinued
    ensures r.Success? ==> r.value == s.(status := Discontinued, discontinuedAt := Some(now), updated := true,
                                         events := s.events + [ProductDeactivatedEvent(s.id, s.tenantId)])
    ensures r.Success? && Valid(s) ==> Valid(r.value)
  {
    if s.status == Discontinued then Failure(AlreadyDiscontinued)
    else Success(s.(status := Discontinued, discontinuedAt := Some(now), updated := true,
                    events := s.events + [ProductDeactivatedEvent(s.id, s.tenantId)]))
  }

  /** Product.Activate: an active product is left exactly as it was, with no
      event; otherwise it becomes active, loses its discontinuation time and
      raises one ProductActivated. */
  function Activate(s: ProductState): (r: ProductState)
    ensures s.status == Active ==> r == s
    ensures s.status != Active ==> r == s.(status := Active, discontinuedAt := None, updated := true,
                                           events := s.events + [ProductActivatedEvent(s.id, s.tenantId)])
    ensures Valid(s) ==> Valid(r)
  {
    if s.status == Active then s
    else s.(status := Active, discontinuedAt := None, updated := true,
            events := s.events + [ProductActivatedEvent(s.id, s.tenantId)])
  }

  /** Product.GetPrice: the amount of the first entry whose currency equals
      the argument exactly. */
  function GetPrice(s: ProductState, currency: string): (r: Option<real>)
    ensures r.Some? <==> exists i :: 0 <= i < |s.prices| && s.prices[i].currency == currency
    ensures r.Some? ==> r.value == s.prices[FirstWithCurrency(s.prices, currency).value].amount
  {
    match FirstWithCurrency(s.prices, currency)
    case None => None
    case Some(i) => Some(s.prices[i].amount)
  }

  // ---- Properties relating several operations ----

  /** A successful UpdateInventory appends ProductInventoryUpdated(old, new)
      and then one ProductLowStock exactly when the product is now low on
      stock; nothing but the stock, the marker and the events changes. */
  lemma UpdateInventoryRaises(s: ProductState, newQuantity: int)
    requires newQuantity >= 0
    ensures var p := UpdateInventory(s, newQuantity).value;
      && (|p.events| == |s.events| + 1 || |p.events| == |s.events| + 2)
      && p.events[..|s.events|] == s.events
      && p.events[|s.events|] == ProductInventoryUpdatedEvent(s.id, s.tenantId, s.stockQuantity, newQuantity)
      && (|p.events| == |s.events| + 2 <==> IsLowStock(p))
      && (IsLowStock(p) ==> p.events[|s.events| + 1] == ProductLowStockEvent(s.id, s.tenantId, newQuantity, s.minStockLevel))
      && p.(stockQuantity := s.stockQuantity, updated := s.updated, events := s.events) == s
  {
  }

  /** A low-stock product is in stock. */
  lemma LowStockIsInStock(s: ProductState)
    ensures IsLowStock(s) ==> IsInStock(s)
  {
  }

  /** Zero stock is out of stock, not low stock, and a minimum of zero never
      gives low stock: UpdateInventory then raises only the inventory event. */
  lemma NoLowStockAtZero(s: ProductState, newQuantity: int)
    requires newQuantity == 0 || (newQuantity >= 0 && s.minStockLevel == 0)
    ensures UpdateInventory(s, newQuantity).Success?
    ensures UpdateInventory(s, newQuantity).value.events
            == s.events + [ProductInventoryUpdatedEvent(s.id, s.tenantId, s.stockQuantity, newQuantity)]
  {
  }

  /** Low stock is not de-duplicated: two low-stock updates in a row raise
      two ProductLowStock events. */
  lemma LowStockRaisedEveryTime(s: ProductState, q1: int, q2: int)
    requires 0 < q1 <= s.minStockLevel && 0 < q2 <= s.minStockLevel
    ensures UpdateInventory(s, q1).Success?
    ensures var p := UpdateInventory(s, q1).value;
      UpdateInventory(p, q2).Success? &&
      UpdateInventory(p, q2).value.events == s.events
        + [ProductInventoryUpdatedEvent(s.id, s.tenantId, s.stockQuantity, q1), ProductLowStockEvent(s.id, s.tenantId, q1, s.minStockLevel)]
        + [ProductInventoryUpdatedEvent(s.id, s.tenantId, q1, q2), ProductLowStockEvent(s.id, s.tenantId, q2, s.minStockLevel)]
  {
  }

  /** Setting a price in a currency without lower-case letters and reading
      it back gives the rounded amount. */
  lemma {:induction false} SetPriceThenGetPrice(s: ProductState, amount: real, currency: string, priceId: ProductPriceId, priceTenant: TenantId, now: DateTime)
    requires amount >= 0.0 && !IsBlank(currency) && HasNoLowerCase(currency)
    ensures SetPrice(s, amount, currency, priceId, priceTenant, now).Success?
    ensures GetPrice(SetPrice(s, amount, currency, priceId, priceTenant, now).value, currency) == Some(Round2(amount))
  {
    var after := SetPrice(s, amount, currency, priceId, priceTenant, now).value;
    match FirstWithCurrency(s.prices, currency)
    case Some(i) =>
      assert after.prices == s.prices[i := s.prices[i].(amount := Round2(amount), updated := true)];
      FirstWithCurrencyAt(after.prices, currency, i);
    case None =>
      ToUpperOfUpper(currency);
      assert after.prices == s.prices + [PriceModel.PriceState(priceId, priceTenant, Round2(amount), currency, now, None, false)];
      FirstWithCurrencyAt(after.prices, currency, |s.prices|);
  }

  /** One entry per currency is kept when the currency argument has no
      lower-case letters; SetPrice then never grows a list that already
      holds that currency. */
  lemma SetPriceKeepsOnePerCurrency(s: ProductState, amount: real, currency: string, priceId: ProductPriceId, priceTenant: TenantId, now: DateTime)
    requires OnePerCurrency(s.prices) && HasNoLowerCase(currency)
    requires SetPrice(s, amount, currency, priceId, priceTenant, now).Success?
    ensures var after := SetPrice(s, amount, currency, priceId, priceTenant, now).value;
      && OnePerCurrency(after.prices)
      && (|after.prices| == |s.prices| <==> exists i :: 0 <= i < |s.prices| && s.prices[i].currency == currency)
  {
  }

  /** The exact-match lookup against upper-cased stored currencies means a
      currency with a lower-case letter never finds its entry: on a valid
      product every SetPrice in it appends a new entry and GetPrice in it
      finds nothing. */
  lemma LowerCaseCurrencyAlwaysAppends(s: ProductState, amount: real, currency: string, priceId: ProductPriceId, priceTenant: TenantId, now: DateTime)
    requires Valid(s) && amount >= 0.0
    requires exists k :: 0 <= k < |currency| && IsLowerLetter(currency[k])
    ensures GetPrice(s, currency) == None
    ensures SetPrice(s, amount, currency, priceId, priceTenant, now).Success?
    ensures var after := SetPrice(s, amount, currency, priceId, priceTenant, now).value;
      |after.prices| == |s.prices| + 1 && GetPrice(after, currency) == None
  {
  }

  /** `SetPrice(x, "usd")` twice on a product without prices leaves two
      "USD" entries, so one entry per currency is not an invariant. */
  lemma LowerCaseCurrencyDuplicates(s: ProductState, priceId1: ProductPriceId, priceId2: ProductPriceId, t: TenantId, now: DateTime)
    requires Valid(s) && s.prices == []
    ensures SetPrice(s, 1.0, "usd", priceId1, t, now).Success?
    ensures var once := SetPrice(s, 1.0, "usd", priceId1, t, now).value;
      && SetPrice(once, 1.0, "usd", priceId2, t, now).Success?
      && var twice := SetPrice(once, 1.0, "usd", priceId2, t, now).value;
      |twice.prices| == 2 && twice.prices[0].currency == twice.prices[1].currency == "USD"
      && !OnePerCurrency(twice.prices)
  {
    assert IsLowerLetter("usd"[0]);
    LowerCaseCurrencyAlwaysAppends(s, 1.0, "usd", priceId1, t, now);
    var once := SetPrice(s, 1.0, "usd", priceId1, t, now).value;
    LowerCaseCurrencyAlwaysAppends(once, 1.0, "usd", priceId2, t, now);
    assert ToUpper("usd") == "USD";
  }

  /** AddVariant keeps variant skus pairwise distinct, and a sku that differs
      from an existing one only in case or surrounding white space is
      refused with the variant list untouched. */
  lemma {:induction false} AddVariantRefusesDuplicate(s: ProductState, i: nat, name: string, sku: string, attributes: Option<map<string, string>>, variantId: ProductVariantId, variantTenant: TenantId)
    requires Valid(s) && i < |s.variants| && !IsBlank(name)
    requires NormalizeSku(sku) == s.variants[i].sku
    ensures AddVariant(s, name, sku, attributes, variantId, variantTenant) == Failure(DuplicateVariant(sku))
  {
    assert !IsBlank(sku) by { assert s.variants[i].sku != []; }
  }

  /** Deactivating then activating an active product restores its status and
      clears the discontinuation time, with the two events in order. */
  lemma DeactivateThenActivate(s: ProductState, now: DateTime)
    requires Valid(s) && s.status == Active
    ensures Deactivate(s, now).Success?
    ensures var p := Activate(Deactivate(s, now).value);
      && p.status == Active && p.discontinuedAt == None
      && p.events == s.events + [ProductDeactivatedEvent(s.id, s.tenantId), ProductActivatedEvent(s.id, s.tenantId)]
      && p == s.(updated := true, events := p.events)
  {
  }

  /** Activate is idempotent, and a second Deactivate always throws. */
  lemma StatusTransitions(s: ProductState, now: DateTime)
    ensures Activate(Activate(s)) == Activate(s)
    ensures Deactivate(s, now).Success? ==> Deactivate(Deactivate(s, now).value, now) == Failure(AlreadyDiscontinued)
  {
  }

  /** An UpdateDetails that repeats the current details raises nothing. */
  lemma UpdateDetailsWithSameValues(s: ProductState)
    requires Valid(s)
    ensures UpdateDetails(s, s.name, Some(s.description), s.categoryId) == Success(s)
  {
  }
}
