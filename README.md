# Product catalogue: aggregates and command handlers

A Dafny model of the domain core of a multi-tenant product catalogue
service (smartsolutionslab e-commerce product catalogue backend), together
with the application-layer handlers that drive it.

- **Product** is an aggregate root that owns a list of price entries
  (`ProductPrice`) and a list of variants (`ProductVariant`). It updates both
  lists in place and records the domain events it raises.
- **Category** is an aggregate with a deterministic slug. It may not be its
  own parent.
- **Typed identifiers** (`ProductId`, `CategoryId`, `ProductPriceId`,
  `ProductVariantId`, `TenantId`) can never hold the empty Guid.
- **CreateProductCommandValidator** is modelled as the predicate
  `Validation.Valid`, plus the list of rule failures it reports.
- **Command handlers** for create product, update product, update inventory
  and create category. Each runs its lookups in the source's order, then
  calls the aggregate, then adds and saves. Any domain exception is turned
  into a failure with the handler's own code.

Each aggregate has two layers.

1. A pure module (`ProductModel`, `CategoryModel`, `PriceModel`,
   `VariantModel`) holds a state datatype and one function per operation.
   Each function returns `Result<State, Exception>`, where a failure is the
   exception the source throws. The properties are proved about these
   functions.
2. An imperative module (`Products`, `Categories`, `Prices`, `Variants`)
   holds the class whose fields the source updates.
   - Every method is proved to move `Model()` exactly as the matching
     function does, or to return the exception and leave the state as it was
     (`Common.Committed`).
   - `Product.prices` and `Product.variants` are sequences of objects.
     `SetPrice` updates an existing entry through its own `UpdateAmount`.
   - A product's `Valid()` is its class invariant. `Create` establishes it
     and every method keeps it.

The handlers follow the same split.

- `HandlerModel` gives each `Handle` as a function of the command and of
  what the repositories hold.
- `Handlers` gives the handler classes over in-memory repositories
  (`Repositories`). Each is proved to return that function's result.
  - On failure, nothing is stored and nothing is saved.
  - On success, the aggregate is stored or updated in place, and
    `SaveChanges` is called exactly once.

The Entity base class is not part of this model. Its pending-event list
(`RaiseDomainEvent`) becomes an `events: seq<Event>` field, and its
`MarkAsUpdated` becomes an `updated` flag. Guid generation and
`DateTime.UtcNow` are parameters. `decimal` is a `real`, and
`Math.Round(x, 2)` rounds half to even (`Decimals.Round2`).

In some places the code does less than one might expect. The model
follows the code.

- **One price entry per currency** is what one might expect. The code looks
  up entries by the currency exactly as given, but stores currencies
  upper-cased.
  - So `SetPrice(x, "usd")` twice leaves two "USD" entries
    (`ProductModel.LowerCaseCurrencyDuplicates`).
  - One entry per currency is kept only for currencies without lower-case
    letters (`ProductModel.SetPriceKeepsOnePerCurrency`).
- **The `ProductPriceChanged` event** carries the caller's unrounded amount
  and raw currency. It does not carry the stored values.
- **No `ProductLowStock` when a product is created**, even for a small
  initial stock. The create handler never sets a minimum
  stock level, and `MinStockLevel` is 0 then, so no such event is raised
  (`HandlerModel.CreatedProduct`).
- **Identifier failures.** An empty identifier raises the
  `ArgumentException` the code throws ("X cannot be empty", parameter
  `value`). It is not a separate error kind.
- **The updated marker** is a flag rather than a timestamp, because the
  Entity base's `UpdatedAt` and the clock it reads are not part of this
  model.

## Model

Source paths are relative to the repository root.

| member | source | states |
|---|---|---|
| Common.Exception.Message | src/E-Commerce.ProductCatalog.Application/Handlers/ProductCommandHandlers.cs:46-49 | The message of an exception is its text. When an ArgumentException names a parameter, the message is longer than the text and begins with it. |
| Decimals.RoundedHundredths | src/E-Commerce.ProductCatalog.Domain/Entities/ProductPrice.cs:34 | The number of hundredths chosen lies within half a hundredth of the amount. On an exact tie it is even. |
| Decimals.Round2 | src/E-Commerce.ProductCatalog.Domain/Entities/ProductPrice.cs:34 | Math.Round(x, 2) gives a whole number of hundredths within 0.005 of x. It is never negative when x is not. |
| Decimals.Round2OfTwoDecimals | src/E-Commerce.ProductCatalog.Domain/Entities/ProductPrice.cs:43 | An amount that already has two decimals is returned unchanged. |
| Decimals.Round2Idempotent | src/E-Commerce.ProductCatalog.Domain/Entities/ProductPrice.cs:34 | Rounding twice is rounding once. |
| Decimals.Round2IsNearest | src/E-Commerce.ProductCatalog.Domain/Entities/ProductPrice.cs:34 | No two-decimal amount is closer to x than the rounded value. |
| Decimals.Round2Midpoints | src/E-Commerce.ProductCatalog.Domain/Entities/ProductPrice.cs:34 | Midpoints go to the even hundredth: 0.125 gives 0.12 and 0.135 gives 0.14. Also 2.675 gives 2.68 and 9.999 gives 10. |
| Identifiers.CreateProductId | src/E-Commerce.ProductCatalog.Domain/ValueObjects/ProductId.cs:7-15 | ProductId.Create(g) throws "ProductId cannot be empty" exactly when g is the empty Guid. Otherwise its Value is g. |
| Identifiers.CreateCategoryId | src/E-Commerce.ProductCatalog.Domain/ValueObjects/ProductId.cs:29-37 | CategoryId.Create(g) throws exactly for the empty Guid. Otherwise its Value is g. |
| Identifiers.CreateProductPriceId | src/E-Commerce.ProductCatalog.Domain/Entities/ProductPrice.cs:61-73 | ProductPriceId.Create(g) throws exactly for the empty Guid. Otherwise its Value is g. |
| Identifiers.CreateProductVariantId | src/E-Commerce.ProductCatalog.Domain/Entities/ProductVariant.cs:59-71 | ProductVariantId.Create(g) throws exactly for the empty Guid. Otherwise its Value is g. |
| Identifiers.IdentifierRoundTrips | src/E-Commerce.ProductCatalog.Domain/ValueObjects/ProductId.cs:15-19 | The Guid conversion and Create are inverse: every identifier is rebuilt from its Value, and no identifier's Value is empty. |
| Identifiers.NewIdNeverThrows | src/E-Commerce.ProductCatalog.Domain/ValueObjects/ProductId.cs:17 | The checked constructor accepts every non-empty Guid, so NewId never throws. |
| Identifiers.IdentifierEquality | src/E-Commerce.ProductCatalog.Domain/ValueObjects/ProductId.cs:3-5 | Two ProductIds are equal exactly when their Values are, and the same holds for two CategoryIds. |
| Text.Trim | src/E-Commerce.ProductCatalog.Domain/Entities/Product.cs:47 | Trim gives the input with a blank prefix and a blank suffix removed: a contiguous part of it with no white space at either end. It is empty exactly when the input is blank. |
| Text.TrimOrEmpty | src/E-Commerce.ProductCatalog.Domain/Entities/Product.cs:47 | `description?.Trim() ?? ""` is the trimmed description, and empty for null. |
| Text.ToUpper | src/E-Commerce.ProductCatalog.Domain/Entities/Product.cs:47 | ToUpperInvariant keeps the length and upper-cases each character in its place. |
| Text.ToLower | src/E-Commerce.ProductCatalog.Domain/Entities/Category.cs:89 | ToLowerInvariant keeps the length and lower-cases each character in its place. |
| Text.ReplaceChar | src/E-Commerce.ProductCatalog.Domain/Entities/Category.cs:90-93 | A one-character `Replace`: each occurrence of the pattern becomes the replacement, left to right. The definition has no contract of its own; Text.ReplaceCharMembers and Text.ReplaceCharAppend state what it keeps and introduces. |
| Text.ReplaceCharMembers | src/E-Commerce.ProductCatalog.Domain/Entities/Category.cs:90-93 | Replace keeps every other character. Only those characters and the replacement's occur in the result. A string without the pattern comes back unchanged. |
| Text.ToLowerAppend | src/E-Commerce.ProductCatalog.Domain/Entities/Category.cs:89 | Lower-casing distributes over concatenation. |
| Text.ReplaceCharAppend | src/E-Commerce.ProductCatalog.Domain/Entities/Category.cs:90-93 | Replacing a character distributes over concatenation. |
| Text.TrimOfTrimmed | src/E-Commerce.ProductCatalog.Domain/Entities/Product.cs:47 | Trimming a trimmed string changes nothing. |
| Text.TrimIdempotent | src/E-Commerce.ProductCatalog.Domain/Entities/Product.cs:47 | Trim is idempotent. |
| Text.ToUpperHasNoLowerCase | src/E-Commerce.ProductCatalog.Domain/Entities/Product.cs:47 | An upper-cased string has no lower-case letter. |
| Text.ToLowerHasNoUpperCase | src/E-Commerce.ProductCatalog.Domain/Entities/Category.cs:89 | A lower-cased string has no upper-case letter. |
| Text.ToUpperOfUpper | src/E-Commerce.ProductCatalog.Domain/Entities/ProductPrice.cs:35 | Upper-casing a string with no lower-case letter changes nothing. |
| Text.ToUpperKeepsWhiteSpace | src/E-Commerce.ProductCatalog.Domain/Entities/Product.cs:44-47 | A string is blank exactly when its upper-case form is. Upper-casing keeps a string trimmed. |
| PriceModel.Create | src/E-Commerce.ProductCatalog.Domain/Entities/ProductPrice.cs:23-36 | A negative amount is rejected, then a blank currency, each with its own exception. Otherwise the entry is valid and holds the rounded amount and the upper-cased currency. It is effective from now with no end. |
| PriceModel.UpdateAmount | src/E-Commerce.ProductCatalog.Domain/Entities/ProductPrice.cs:38-45 | A negative amount fails exactly, with the `newAmount` exception. Otherwise only the amount (rounded) and the updated marker change. Currency and window are untouched, and validity is kept. |
| PriceModel.SetEffectivePeriod | src/E-Commerce.ProductCatalog.Domain/Entities/ProductPrice.cs:47-55 | It fails exactly when an end is given at or before the start. Otherwise it sets both ends and nothing else but the marker, and validity is kept. |
| PriceModel.IsEffective | src/E-Commerce.ProductCatalog.Domain/Entities/ProductPrice.cs:57-58 | The date is at or after the start and, when there is an end, at or before it. The definition has no contract of its own; PriceModel.EffectiveWindow and PriceModel.CreatedPriceEffectiveFromNow state the window it gives. |
| PriceModel.EffectiveWindow | src/E-Commerce.ProductCatalog.Domain/Entities/ProductPrice.cs:47-58 | After SetEffectivePeriod, IsEffective(d) holds exactly when from ≤ d and (there is no end or d ≤ to). Both ends are included. |
| PriceModel.CreatedPriceEffectiveFromNow | src/E-Commerce.ProductCatalog.Domain/Entities/ProductPrice.cs:13-19 | A new entry is effective at a date exactly when the date is at or after its creation time. |
| Prices.ProductPrice.Create | src/E-Commerce.ProductCatalog.Domain/Entities/ProductPrice.cs:23-36 | On success it returns a fresh entry whose state is PriceModel.Create's. Otherwise it returns that exception. |
| Prices.ProductPrice.UpdateAmount | src/E-Commerce.ProductCatalog.Domain/Entities/ProductPrice.cs:38-45 | The entry changes in place as PriceModel.UpdateAmount says. When it throws, the entry is left as it was. |
| Prices.ProductPrice.SetEffectivePeriod | src/E-Commerce.ProductCatalog.Domain/Entities/ProductPrice.cs:47-55 | The entry changes in place as PriceModel.SetEffectivePeriod says. When it throws, the entry is left as it was. |
| Prices.ProductPrice.MarkAsUpdated | src/E-Commerce.ProductCatalog.Domain/Entities/ProductPrice.cs:44 | The Entity base's MarkAsUpdated on an entry: it sets the updated marker and changes nothing else. |
| Prices.ProductPrice.IsEffective | src/E-Commerce.ProductCatalog.Domain/Entities/ProductPrice.cs:57-58 | It holds exactly when the date lies between the entry's start and its end, if any, both included. |
| VariantModel.Create | src/E-Commerce.ProductCatalog.Domain/Entities/ProductVariant.cs:14-29 | The name and sku are not validated. A new variant is active with zero stock, and holds the given attributes (the empty map for null). |
| VariantModel.UpdateStock | src/E-Commerce.ProductCatalog.Domain/Entities/ProductVariant.cs:31-38 | It fails exactly for a negative quantity. Otherwise only the stock and the marker change, so a stock of at least zero is kept. |
| VariantModel.UpdateAttributes | src/E-Commerce.ProductCatalog.Domain/Entities/ProductVariant.cs:40-44 | It replaces the whole map, and null gives the empty map. |
| VariantModel.Activate | src/E-Commerce.ProductCatalog.Domain/Entities/ProductVariant.cs:46-50 | The variant is active afterwards, and nothing else but the marker changes. |
| VariantModel.Deactivate | src/E-Commerce.ProductCatalog.Domain/Entities/ProductVariant.cs:52-56 | The variant is inactive afterwards, and nothing else but the marker changes. |
| VariantModel.ActivationIdempotent | src/E-Commerce.ProductCatalog.Domain/Entities/ProductVariant.cs:46-56 | Activate and Deactivate are idempotent, and whichever of the two runs last decides. |
| VariantModel.UpdateAttributesReplaces | src/E-Commerce.ProductCatalog.Domain/Entities/ProductVariant.cs:40-44 | A second UpdateAttributes forgets the first. |
| Variants.ProductVariant.Create | src/E-Commerce.ProductCatalog.Domain/Entities/ProductVariant.cs:26-29 | It returns a fresh variant whose state is VariantModel.Create's. |
| Variants.ProductVariant.UpdateStock | src/E-Commerce.ProductCatalog.Domain/Entities/ProductVariant.cs:31-38 | The variant changes in place as VariantModel.UpdateStock says. When it throws, the variant is left as it was. |
| Variants.ProductVariant.UpdateAttributes | src/E-Commerce.ProductCatalog.Domain/Entities/ProductVariant.cs:40-44 | The variant changes in place as VariantModel.UpdateAttributes says. |
| Variants.ProductVariant.Activate | src/E-Commerce.ProductCatalog.Domain/Entities/ProductVariant.cs:46-50 | The variant changes in place as VariantModel.Activate says. |
| Variants.ProductVariant.Deactivate | src/E-Commerce.ProductCatalog.Domain/Entities/ProductVariant.cs:52-56 | The variant changes in place as VariantModel.Deactivate says. |
| Variants.ProductVariant.MarkAsUpdated | src/E-Commerce.ProductCatalog.Domain/Entities/ProductVariant.cs:37 | The Entity base's MarkAsUpdated on a variant: it sets the updated marker and changes nothing else. |
| ProductModel.NormalizeSku | src/E-Commerce.ProductCatalog.Domain/Entities/Product.cs:47 | `sku.Trim().ToUpperInvariant()` is the trimmed sku, upper-cased. It is trimmed, has no lower-case letter, and is empty exactly for a blank sku. |
| ProductModel.NormalizeSkuIdempotent | src/E-Commerce.ProductCatalog.Domain/Entities/Product.cs:145 | A sku that is already normalised is unchanged by normalising it again. |
| ProductModel.FirstWithCurrency | src/E-Commerce.ProductCatalog.Domain/Entities/Product.cs:96 | FirstOrDefault by currency finds the first entry whose currency equals the argument exactly, or reports that there is none. |
| ProductModel.Create | src/E-Commerce.ProductCatalog.Domain/Entities/Product.cs:39-57 | It fails exactly for a blank name (NameEmpty) or, after that, a blank sku (SkuEmpty). On success the product is valid and active, with no stock, no minimum, no time stamp, no prices and no variants. Its name and description are trimmed and its sku is trimmed and upper-cased. It has exactly one pending ProductCreated event. |
| ProductModel.UpdateDetails | src/E-Commerce.ProductCatalog.Domain/Entities/Product.cs:59-89 | It fails exactly for a blank name. Otherwise it takes the trimmed name, the normalised description and the category. It is marked updated and raises one ProductUpdated when one of them differed. It is left entirely unchanged when none did. Validity is kept. |
| ProductModel.PricesAfterSet | src/E-Commerce.ProductCatalog.Domain/Entities/Product.cs:96-105 | The first entry in exactly this currency gets the rounded amount, with the list otherwise unchanged. If there is none, a new entry in the upper-cased currency is appended. That fails exactly when the currency is blank. |
| ProductModel.SetPrice | src/E-Commerce.ProductCatalog.Domain/Entities/Product.cs:91-109 | It fails for a negative amount ("Price cannot be negative"), or for a blank currency that matches no entry ("Currency cannot be empty"). Otherwise the price list is PricesAfterSet's and the product is marked updated, with nothing else changed. Exactly one ProductPriceChanged is raised, with the unrounded amount and the raw currency. Validity is kept. |
| ProductModel.UpdateInventory | src/E-Commerce.ProductCatalog.Domain/Entities/Product.cs:111-126 | It fails exactly for a negative quantity. Otherwise the stock becomes the quantity and the product is marked updated. Validity is kept. |
| ProductModel.SetMinStockLevel | src/E-Commerce.ProductCatalog.Domain/Entities/Product.cs:128-135 | It fails exactly for a negative level. Otherwise it sets the level and marks the product updated, with no event. Validity is kept. |
| ProductModel.AddVariant | src/E-Commerce.ProductCatalog.Domain/Entities/Product.cs:137-153 | A blank name, then a blank sku, then a sku whose normalised form is already a variant's are each refused with their own exception. Otherwise one variant with the trimmed name and normalised sku is appended. One ProductVariantAdded is raised with the new id and the raw name and sku. Distinct variant skus and validity are kept. |
| ProductModel.Deactivate | src/E-Commerce.ProductCatalog.Domain/Entities/Product.cs:155-165 | It throws exactly on a discontinued product. Otherwise the product becomes discontinued as of now and raises one ProductDeactivated. Validity, including "DiscontinuedAt set exactly when discontinued", is kept. |
| ProductModel.Activate | src/E-Commerce.ProductCatalog.Domain/Entities/Product.cs:167-177 | An active product is left exactly as it was, with no event. Otherwise it becomes active, loses DiscontinuedAt and raises one ProductActivated. Validity is kept. |
| ProductModel.GetPrice | src/E-Commerce.ProductCatalog.Domain/Entities/Product.cs:181 | GetPrice returns an amount exactly when some entry's currency equals the argument. That amount is the first such entry's. |
| ProductModel.IsInStock | src/E-Commerce.ProductCatalog.Domain/Entities/Product.cs:179 | The stock is positive. The definition has no contract of its own; ProductModel.LowStockIsInStock relates it to IsLowStock. |
| ProductModel.IsLowStock | src/E-Commerce.ProductCatalog.Domain/Entities/Product.cs:180 | The stock is positive and at most the minimum level. The definition has no contract of its own; ProductModel.LowStockIsInStock and ProductModel.UpdateInventoryRaises state what it implies and when ProductLowStock follows. |
| ProductModel.UpdateInventoryRaises | src/E-Commerce.ProductCatalog.Domain/Entities/Product.cs:116-125 | A successful UpdateInventory appends ProductInventoryUpdated(old, new). It then appends ProductLowStock(new, min) exactly when the product is now low on stock. Nothing else but the stock and the marker changes. |
| ProductModel.LowStockIsInStock | src/E-Commerce.ProductCatalog.Domain/Entities/Product.cs:179-180 | IsLowStock implies IsInStock. |
| ProductModel.NoLowStockAtZero | src/E-Commerce.ProductCatalog.Domain/Entities/Product.cs:122-125 | A quantity of zero, or a minimum of zero, raises only the inventory event. |
| ProductModel.LowStockRaisedEveryTime | src/E-Commerce.ProductCatalog.Domain/Entities/Product.cs:120-125 | Low stock is not de-duplicated: two low-stock updates raise two ProductLowStock events, in order. |
| ProductModel.SetPriceThenGetPrice | src/E-Commerce.ProductCatalog.Domain/Entities/Product.cs:91-109 | Set a price in a non-blank currency with no lower-case letters, then read it back: the result is the rounded amount. |
| ProductModel.SetPriceKeepsOnePerCurrency | src/E-Commerce.ProductCatalog.Domain/Entities/Product.cs:96-105 | With a currency with no lower-case letters, one entry per currency is kept. The list grows exactly when the currency had no entry. |
| ProductModel.LowerCaseCurrencyAlwaysAppends | src/E-Commerce.ProductCatalog.Domain/Entities/Product.cs:96 | For a currency with a lower-case letter, a valid product finds no entry. SetPrice always appends, and GetPrice still finds nothing. |
| ProductModel.LowerCaseCurrencyDuplicates | src/E-Commerce.ProductCatalog.Domain/Entities/Product.cs:96-105 | Calling SetPrice(1, "usd") twice leaves two "USD" entries, so one entry per currency is not an invariant. |
| ProductModel.AddVariantRefusesDuplicate | src/E-Commerce.ProductCatalog.Domain/Entities/Product.cs:145-146 | A sku that differs from an existing variant's only in case or surrounding white space is refused with DuplicateVariant. |
| ProductModel.DeactivateThenActivate | src/E-Commerce.ProductCatalog.Domain/Entities/Product.cs:155-177 | Deactivating then activating an active product restores its status, clears DiscontinuedAt and raises the two events in order. |
| ProductModel.StatusTransitions | src/E-Commerce.ProductCatalog.Domain/Entities/Product.cs:155-177 | Activate is idempotent, and a second Deactivate always throws AlreadyDiscontinued. |
| ProductModel.UpdateDetailsWithSameValues | src/E-Commerce.ProductCatalog.Domain/Entities/Product.cs:64-89 | Repeating the current details changes nothing and raises nothing. |
| Products.Product.constructor | src/E-Commerce.ProductCatalog.Domain/Entities/Product.cs:25-35 | The private constructor gives an active product with no stock, no minimum, no prices, no variants and no events. |
| Products.Product.Create | src/E-Commerce.ProductCatalog.Domain/Entities/Product.cs:39-57 | On success it returns a fresh, valid product whose state is ProductModel.Create's. Otherwise it returns that exception. |
| Products.Product.MarkAsUpdated | src/E-Commerce.ProductCatalog.Domain/Entities/Product.cs:118 | It sets the updated marker and changes nothing else. |
| Products.Product.RaiseDomainEvent | src/E-Commerce.ProductCatalog.Domain/Entities/Product.cs:120 | It appends the event to the pending events and changes nothing else. |
| Products.Product.UpdateDetails | src/E-Commerce.ProductCatalog.Domain/Entities/Product.cs:59-89 | The product changes in place as ProductModel.UpdateDetails says, or is untouched when it throws. The invariant is kept. |
| Products.Product.SetDetails | src/E-Commerce.ProductCatalog.Domain/Entities/Product.cs:64-82 | Each of the three fields that differs is overwritten. It reports a change exactly when one differed. |
| Products.Product.SetPrice | src/E-Commerce.ProductCatalog.Domain/Entities/Product.cs:91-109 | The product and its entries change in place as ProductModel.SetPrice says, or are untouched when it throws. The invariant is kept. |
| Products.Product.SetPriceEntry | src/E-Commerce.ProductCatalog.Domain/Entities/Product.cs:96-105 | The entry list changes as PricesAfterSet says, either updated in place or appended. Entries stay distinct objects. |
| Products.Product.UpdatePriceEntry | src/E-Commerce.ProductCatalog.Domain/Entities/Product.cs:99 | Updating entry i through its own UpdateAmount changes only the i-th element of the price list. |
| Products.Product.AppendPriceEntry | src/E-Commerce.ProductCatalog.Domain/Entities/Product.cs:103-104 | Adding a new entry appends its state to the price list and keeps entries distinct. |
| Products.Product.UpdateInventory | src/E-Commerce.ProductCatalog.Domain/Entities/Product.cs:111-126 | The product changes in place as ProductModel.UpdateInventory says, or is untouched when it throws. The invariant is kept. |
| Products.Product.SetMinStockLevel | src/E-Commerce.ProductCatalog.Domain/Entities/Product.cs:128-135 | The product changes in place as ProductModel.SetMinStockLevel says, or is untouched when it throws. The invariant is kept. |
| Products.Product.AddVariant | src/E-Commerce.ProductCatalog.Domain/Entities/Product.cs:137-153 | The product changes in place as ProductModel.AddVariant says, or is untouched when it throws. The invariant is kept. |
| Products.Product.AddCheckedVariant | src/E-Commerce.ProductCatalog.Domain/Entities/Product.cs:148-152 | Once the checks pass, the new variant is appended, the product is marked updated and ProductVariantAdded is raised. |
| Products.Product.AppendVariant | src/E-Commerce.ProductCatalog.Domain/Entities/Product.cs:149 | Adding a variant appends its state to the variant list. |
| Products.Product.Deactivate | src/E-Commerce.ProductCatalog.Domain/Entities/Product.cs:155-165 | The product changes in place as ProductModel.Deactivate says, or is untouched when it throws. The invariant is kept. |
| Products.Product.Activate | src/E-Commerce.ProductCatalog.Domain/Entities/Product.cs:167-177 | The product changes in place as ProductModel.Activate says. The invariant is kept. |
| Products.Product.GetPrice | src/E-Commerce.ProductCatalog.Domain/Entities/Product.cs:181 | Reading the entry objects gives ProductModel.GetPrice of the product's state. |
| Products.Product.IsInStock | src/E-Commerce.ProductCatalog.Domain/Entities/Product.cs:179 | Read from the object, it is ProductModel.IsInStock of the product's state. |
| Products.Product.IsLowStock | src/E-Commerce.ProductCatalog.Domain/Entities/Product.cs:180 | Read from the object, it is ProductModel.IsLowStock of the product's state. |
| CategoryModel.SlugHasNoForbiddenChars | src/E-Commerce.ProductCatalog.Domain/Entities/Category.cs:87-94 | No slug contains an upper-case letter, a space, "&" or a quote. |
| CategoryModel.GenerateSlug | src/E-Commerce.ProductCatalog.Domain/Entities/Category.cs:87-94 | The name lower-cased, then each space replaced by "-", each "&" by "and", and single and double quotes deleted, in that order. The definition has no contract of its own; CategoryModel.SlugHasNoForbiddenChars and CategoryModel.SlugAppend state its properties. |
| CategoryModel.Create | src/E-Commerce.ProductCatalog.Domain/Entities/Category.cs:30-45 | It fails exactly for a blank name. Otherwise the category is active with sort order 0, the trimmed name and the trimmed (or empty) description. Its slug comes from the untrimmed name and its parent is the one given. It has exactly one CategoryCreated, with the trimmed name and the parent. A parent other than itself makes it valid. |
| CategoryModel.UpdateDetails | src/E-Commerce.ProductCatalog.Domain/Entities/Category.cs:47-58 | It fails exactly for a blank name. Otherwise name, description and slug are overwritten and one CategoryUpdated is raised, whether or not anything differs. Validity is kept. |
| CategoryModel.SetParent | src/E-Commerce.ProductCatalog.Domain/Entities/Category.cs:60-67 | It throws exactly when the new parent's Value is the category's own. Otherwise it sets the parent, which null clears, with no event. The category is never its own parent afterwards. |
| CategoryModel.SetSortOrder | src/E-Commerce.ProductCatalog.Domain/Entities/Category.cs:69-73 | Any int is accepted, negative ones included, with no event. Only the sort order and the marker change. Validity is kept. |
| CategoryModel.Activate | src/E-Commerce.ProductCatalog.Domain/Entities/Category.cs:75-79 | The category is active afterwards, with no event. Only the active flag and the marker change. Validity is kept. |
| CategoryModel.Deactivate | src/E-Commerce.ProductCatalog.Domain/Entities/Category.cs:81-85 | The category is inactive afterwards, with no event. Only the active flag and the marker change. Validity is kept. |
| CategoryModel.SlugAppend | src/E-Commerce.ProductCatalog.Domain/Entities/Category.cs:87-94 | The slug of a concatenation is the concatenation of the slugs. |
| CategoryModel.WordSlug | src/E-Commerce.ProductCatalog.Domain/Entities/Category.cs:87-94 | A word of letters alone is simply lower-cased. |
| CategoryModel.AmpersandSlug | src/E-Commerce.ProductCatalog.Domain/Entities/Category.cs:87-94 | " & " between two words becomes "-and-". |
| CategoryModel.PaddedWordSlug | src/E-Commerce.ProductCatalog.Domain/Entities/Category.cs:87-94 | A space before and after a word each become a hyphen. |
| CategoryModel.QuotedWordSlug | src/E-Commerce.ProductCatalog.Domain/Entities/Category.cs:87-94 | Quotes are deleted after spaces have become hyphens. |
| CategoryModel.HomeAndGardenSlug | src/E-Commerce.ProductCatalog.Domain/Entities/Category.cs:87-94 | "Home & Garden" has the slug "home-and-garden". |
| CategoryModel.QuotedSlug | src/E-Commerce.ProductCatalog.Domain/Entities/Category.cs:87-94 | "Kids' \"Toys\"" has the slug "kids-toys". |
| CategoryModel.SlugKeepsLeadingSpace | src/E-Commerce.ProductCatalog.Domain/Entities/Category.cs:35-36 | The slug comes from the untrimmed name, so a leading space becomes a leading hyphen while the stored name starts with no space. |
| CategoryModel.PaddedNameSlug | src/E-Commerce.ProductCatalog.Domain/Entities/Category.cs:35-36 | " Toys " is stored with the name "Toys" and the slug "-toys-". |
| CategoryModel.UpdateDetailsAlwaysRaises | src/E-Commerce.ProductCatalog.Domain/Entities/Category.cs:47-58 | Updating with the values already held still marks the category updated and raises CategoryUpdated. |
| CategoryModel.SetParentToSelfRefused | src/E-Commerce.ProductCatalog.Domain/Entities/Category.cs:60-67 | Making a category its own parent is refused. A null parent is always accepted. |
| CategoryModel.ActivationIdempotent | src/E-Commerce.ProductCatalog.Domain/Entities/Category.cs:75-85 | Activate and Deactivate are idempotent, and whichever of the two runs last decides. |
| Categories.Category.Create | src/E-Commerce.ProductCatalog.Domain/Entities/Category.cs:30-45 | On success it returns a fresh category whose state is CategoryModel.Create's, and which satisfies the class invariant unless its parent is its own id. Otherwise it returns that exception. |
| Categories.Category.RaiseDomainEvent | src/E-Commerce.ProductCatalog.Domain/Entities/Category.cs:38-42 | It appends the event and changes nothing else. |
| Categories.Category.MarkAsUpdated | src/E-Commerce.ProductCatalog.Domain/Entities/Category.cs:55 | The Entity base's MarkAsUpdated on a category: it sets the updated marker and changes nothing else. |
| Categories.Category.UpdateDetails | src/E-Commerce.ProductCatalog.Domain/Entities/Category.cs:47-58 | The category changes in place as CategoryModel.UpdateDetails says, or is untouched when it throws. The class invariant is kept. |
| Categories.Category.SetParent | src/E-Commerce.ProductCatalog.Domain/Entities/Category.cs:60-67 | The category changes in place as CategoryModel.SetParent says, or is untouched when it throws. The class invariant is kept. |
| Categories.Category.SetSortOrder | src/E-Commerce.ProductCatalog.Domain/Entities/Category.cs:69-73 | The category changes in place as CategoryModel.SetSortOrder says. The class invariant is kept. |
| Categories.Category.Activate | src/E-Commerce.ProductCatalog.Domain/Entities/Category.cs:75-79 | The category changes in place as CategoryModel.Activate says. The class invariant is kept. |
| Categories.Category.Deactivate | src/E-Commerce.ProductCatalog.Domain/Entities/Category.cs:81-85 | The category changes in place as CategoryModel.Deactivate says. The class invariant is kept. |
| Validation.Valid | src/E-Commerce.ProductCatalog.Application/Validators/CreateProductCommandValidator.cs:10-44 | Every rule of the validator holds: a non-blank name of at most 255 characters, a description of at most 2000, a non-blank sku of at most 50 matching `^[A-Z0-9-]+$`, a non-empty category id, a non-negative price, a non-blank three-character currency and a non-negative stock. The definition has no contract of its own; Validation.ValidateAcceptsExactlyValid ties it to Validate. |
| Validation.Validate | src/E-Commerce.ProductCatalog.Application/Validators/CreateProductCommandValidator.cs:10-44 | One failure per broken rule, chain by chain and in declaration order, with every rule checked. The definition has no contract of its own; Validation.ValidateAcceptsExactlyValid states that the list is empty exactly when Valid holds. |
| Validation.ValidateAcceptsExactlyValid | src/E-Commerce.ProductCatalog.Application/Validators/CreateProductCommandValidator.cs:10-44 | The validator reports no failure exactly when Valid holds. A blank sku, a sku outside the pattern and a currency whose length is not 3 are each reported under their rule. |
| Validation.EmptySkuReportedTwice | src/E-Commerce.ProductCatalog.Application/Validators/CreateProductCommandValidator.cs:23-27 | An empty sku breaks both NotEmpty and Matches. |
| Validation.SkuBodyIsNormalized | src/E-Commerce.ProductCatalog.Application/Validators/CreateProductCommandValidator.cs:26 | A string of `[A-Z0-9-]+` is already trimmed and upper-case, so Product.Create stores it unchanged. |
| Validation.ValidSkuNormalization | src/E-Commerce.ProductCatalog.Application/Validators/CreateProductCommandValidator.cs:23-27 | A sku the validator accepts is stored unchanged, unless it ends in a line feed, which Product.Create trims off. |
| Validation.TrailingLineFeedAccepted | src/E-Commerce.ProductCatalog.Application/Validators/CreateProductCommandValidator.cs:26 | "AB\n" matches `^[A-Z0-9-]+$`, because `$` also matches before a final line feed, and the product gets the sku "AB". |
| Validation.CurrencyRuleIsLengthOnly | src/E-Commerce.ProductCatalog.Application/Validators/CreateProductCommandValidator.cs:37-40 | Any three characters that are not all white space pass the currency rule, whether or not they are letters or upper-case. |
| Repositories.ProductRepository.GetById | src/E-Commerce.ProductCatalog.Infrastructure/Repositories/ProductRepository.cs:18-24 | It finds a product exactly when one is stored under the id, and then finds that one. |
| Repositories.ProductRepository.GetBySku | src/E-Commerce.ProductCatalog.Infrastructure/Repositories/ProductRepository.cs:26-32 | It finds nothing exactly when no stored sku equals the argument upper-cased, which is not trimmed. Otherwise it finds a stored product with that sku. |
| Repositories.ProductRepository.Add | src/E-Commerce.ProductCatalog.Infrastructure/Repositories/ProductRepository.cs:85-88 | The product is stored under its id, and nothing is saved. |
| Repositories.ProductRepository.SaveChanges | src/E-Commerce.ProductCatalog.Infrastructure/Repositories/ProductRepository.cs:100-103 | It counts one save, and the stored map is unchanged. |
| Repositories.CategoryRepository.GetById | src/E-Commerce.ProductCatalog.Infrastructure/Repositories/CategoryRepository.cs:18-22 | It finds a category exactly when one is stored under the id, and then finds that one. |
| Repositories.CategoryRepository.Add | src/E-Commerce.ProductCatalog.Infrastructure/Repositories/CategoryRepository.cs:42-45 | The category is stored under its id, and nothing is saved. |
| Repositories.CategoryRepository.SaveChanges | src/E-Commerce.ProductCatalog.Infrastructure/Repositories/CategoryRepository.cs:57-60 | It counts one save, and the stored map is unchanged. |
| HandlerModel.CreateProduct | src/E-Commerce.ProductCatalog.Application/Handlers/ProductCommandHandlers.cs:21-50 | An empty category Guid gives CreateProduct.Failed with CategoryId's message. A missing category gives Category.NotFound. Then a stored upper-cased sku gives Product.SkuExists. A success is a valid product with the new id. |
| HandlerModel.BuildProduct | src/E-Commerce.ProductCatalog.Application/Handlers/ProductCommandHandlers.cs:36-39 | Create, SetPrice and UpdateInventory either give a valid product with the new id, or fail under CreateProduct.Failed. |
| HandlerModel.UpdateProduct | src/E-Commerce.ProductCatalog.Application/Handlers/ProductCommandHandlers.cs:64-87 | A missing product gives Product.NotFound, before any category check. An empty category Guid gives UpdateProduct.Failed, and a missing category gives Category.NotFound. It fails exactly in these cases or for a blank name, which gives UpdateProduct.Failed with Product's message. A success is exactly what ProductModel.UpdateDetails returns for the found product, so it has the new name, description and category, and is marked updated with one ProductUpdated only if a field differs. Validity is kept. |
| HandlerModel.UpdateFoundProduct | src/E-Commerce.ProductCatalog.Application/Handlers/ProductCommandHandlers.cs:72-81 | Once the product is found, it fails exactly for an empty category Guid (UpdateProduct.Failed), a missing category (Category.NotFound) or a blank name (UpdateProduct.Failed with Product's message). A success is exactly ProductModel.UpdateDetails's result. |
| HandlerModel.UpdateInventory | src/E-Commerce.ProductCatalog.Application/Handlers/ProductCommandHandlers.cs:99-117 | A missing product gives Product.NotFound. A negative quantity gives UpdateInventory.Failed with the domain's message. It fails exactly in these two cases. A success has the requested stock and keeps validity. |
| HandlerModel.CreateCategory | src/E-Commerce.ProductCatalog.Application/Handlers/CreateCategoryCommandHandler.cs:19-44 | An empty parent Guid gives CreateCategory.Failed, and a missing parent gives ParentCategory.NotFound. It fails exactly in these cases or for a blank name. A success has the new id and the named parent (none without one), and that parent is stored. |
| HandlerModel.NewCategory | src/E-Commerce.ProductCatalog.Application/Handlers/CreateCategoryCommandHandler.cs:33-38 | Category.Create fails exactly for a blank name. Otherwise the category has the new id and the given parent. |
| HandlerModel.CreateProductFailsExactly | src/E-Commerce.ProductCatalog.Application/Handlers/ProductCommandHandlers.cs:21-50 | Create product fails exactly when the category id is empty, the category is missing, the upper-cased sku is stored, or the name or sku is blank. It also fails for a negative price, a blank currency or a negative stock. Every failure is Category.NotFound, Product.SkuExists or a CreateProduct.Failed error. |
| HandlerModel.CreatedProduct | src/E-Commerce.ProductCatalog.Application/Handlers/ProductCommandHandlers.cs:36-44 | A created product is active, with the command's stock, no minimum and no variants. It has exactly one price entry: the rounded amount in the upper-cased currency, from now. Its events are exactly ProductCreated, ProductPriceChanged and ProductInventoryUpdated(0, qty), and it is never low on stock. |
| HandlerModel.ValidCommandIsCreated | src/E-Commerce.ProductCatalog.Application/Handlers/ProductCommandHandlers.cs:21-50 | A command the validator accepts is always created if it names a stored category and its upper-cased sku is not stored. |
| HandlerModel.LineFeedSkuDuplicates | src/E-Commerce.ProductCatalog.Application/Handlers/ProductCommandHandlers.cs:32-36 | Take a validated sku "B\n" where B is stored but "B\n" is not. It passes the sku check, and the new product carries the already stored sku B. |
| HandlerModel.CreatedSku | src/E-Commerce.ProductCatalog.Application/Handlers/ProductCommandHandlers.cs:36 | A created product carries the command's sku trimmed and upper-cased. |
| HandlerModel.CreateProductBuilds | src/E-Commerce.ProductCatalog.Application/Handlers/ProductCommandHandlers.cs:26-44 | Once the category id is non-empty, the category is stored and the upper-cased sku is not, the handler's result is BuildProduct's. |
| HandlerModel.UpdateProductFailureMessage | src/E-Commerce.ProductCatalog.Application/Handlers/ProductCommandHandlers.cs:77-85 | A blank name comes back as UpdateProduct.Failed with "Product name cannot be empty (Parameter 'name')". |
| HandlerModel.CreatedCategory | src/E-Commerce.ProductCatalog.Application/Handlers/CreateCategoryCommandHandler.cs:33-38 | A category created with a new id is valid. It has the trimmed name and the slug of the given name, and exactly one CategoryCreated naming its parent. |
| Handlers.CreateProductCommandHandler.constructor | src/E-Commerce.ProductCatalog.Application/Handlers/ProductCommandHandlers.cs:15-19 | The handler keeps the two repositories it is given. |
| Handlers.CreateProductCommandHandler.Handle | src/E-Commerce.ProductCatalog.Application/Handlers/ProductCommandHandlers.cs:21-50 | It returns HandlerModel.CreateProduct's verdict over the stored categories and skus. On failure nothing is added or saved. On success one fresh valid product with that state is stored under the new id, and it is saved once. |
| Handlers.CreateProductCommandHandler.Store | src/E-Commerce.ProductCatalog.Application/Handlers/ProductCommandHandlers.cs:41-42 | Add then Save: the product is stored under its id and saved once, and it is itself untouched. |
| Handlers.CreateProductCommandHandler.Build | src/E-Commerce.ProductCatalog.Application/Handlers/ProductCommandHandlers.cs:36-39 | The domain calls on a new product give a fresh valid object in BuildProduct's state, or BuildProduct's error. |
| Handlers.UpdateProductCommandHandler.constructor | src/E-Commerce.ProductCatalog.Application/Handlers/ProductCommandHandlers.cs:58-62 | The handler keeps the two repositories it is given. |
| Handlers.UpdateProductCommandHandler.Handle | src/E-Commerce.ProductCatalog.Application/Handlers/ProductCommandHandlers.cs:64-87 | It returns HandlerModel.UpdateProduct's verdict. On failure the stored product is unchanged and nothing is saved. On success the stored product itself is in the new state and saved once. The map of stored products never changes. |
| Handlers.UpdateProductCommandHandler.UpdateFound | src/E-Commerce.ProductCatalog.Application/Handlers/ProductCommandHandlers.cs:72-81 | For a found product it returns UpdateFoundProduct's verdict. It updates the product in place and saves only on success. |
| Handlers.UpdateProductCommandHandler.ApplyDetails | src/E-Commerce.ProductCatalog.Application/Handlers/ProductCommandHandlers.cs:77-81 | UpdateDetails then Save. A domain exception comes back as UpdateProduct.Failed with nothing saved and the product untouched. |
| Handlers.UpdateProductInventoryCommandHandler.constructor | src/E-Commerce.ProductCatalog.Application/Handlers/ProductCommandHandlers.cs:94-97 | The handler keeps the repository it is given. |
| Handlers.UpdateProductInventoryCommandHandler.Handle | src/E-Commerce.ProductCatalog.Application/Handlers/ProductCommandHandlers.cs:99-117 | It returns HandlerModel.UpdateInventory's verdict. On failure the stock is unchanged and nothing is saved. On success the stored product has the requested stock and is saved once. |
| Handlers.UpdateProductInventoryCommandHandler.ApplyInventory | src/E-Commerce.ProductCatalog.Application/Handlers/ProductCommandHandlers.cs:107-111 | UpdateInventory then Save. A domain exception comes back as UpdateInventory.Failed with nothing saved and the product untouched. |
| Handlers.CreateCategoryCommandHandler.constructor | src/E-Commerce.ProductCatalog.Application/Handlers/CreateCategoryCommandHandler.cs:14-17 | The handler keeps the repository it is given. |
| Handlers.CreateCategoryCommandHandler.Handle | src/E-Commerce.ProductCatalog.Application/Handlers/CreateCategoryCommandHandler.cs:19-44 | It returns HandlerModel.CreateCategory's verdict. On failure nothing is added or saved. On success one fresh category with that state is stored under the new id, and it is saved once. |

## Left out

- Text: only ASCII is modelled. White space is tab through carriage return plus space, and case mapping covers the ASCII letters only. Unicode white space and culture-invariant case mapping beyond ASCII are not modelled.
- Decimals: `decimal` is an unbounded `real`. Its 28-digit range and precision, and overflow, are not modelled. `int` fields (stock, minimum, sort order) are unbounded too, so 32-bit overflow is not modelled.
- Events: each event record's own Id and OccurredOn (a fresh Guid and the clock) are not modelled. Dispatching the pending events after the save is not modelled either.
- The Entity base: this model covers only "append an event" and "mark updated", as a flag. The base's UpdatedAt time stamp, and its other members, are not modelled.
- Guid.NewGuid and DateTime.UtcNow: these are parameters. `TenantId.NewId()`, which the entry and variant factories give their new objects, is likewise a parameter (`priceTenant`, `variantTenant`).
- `ProductId.Create(string)` and `CategoryId.Create(string)` call Guid.Parse, a library parser, and are not modelled. Neither are the ToString and string conversions.
- Validation.Validate: failures are reported as a property and a rule. FluentValidation's message texts are not modelled. The TenantId rule (not null) holds of every modelled command, since a TenantId value always exists.
- Repositories: the repositories are in-memory maps. EF Core change tracking, the tenant query filter, transactions and SQL collation are not modelled.
- Repositories.ProductRepository.GetBySku: the contract promises some stored product with the sku, not the first in database order, and the lookup is not filtered by tenant.
- The unique database indexes on (TenantId, Sku) and (TenantId, Slug) are not modelled. So SaveChanges never fails, and the handlers' catch of a save-time conflict is not modelled. `HandlerModel.LineFeedSkuDuplicates` shows a case the handler's own sku check lets through, which only such an index would stop.
- Null strings: the string fields are never null. A null Sku makes `sku.ToUpperInvariant()` in ProductRepository.GetBySkuAsync (src/E-Commerce.ProductCatalog.Infrastructure/Repositories/ProductRepository.cs:31) throw a NullReferenceException. The create handler then catches it at ProductCommandHandlers.cs:46 and reports "CreateProduct.Failed" with that message. This path is not modelled. Only `description` and the variant's attributes, which the source treats as nullable, are an `Option`.
- Variant attributes: ProductVariant keeps the caller's Dictionary by reference (ProductVariant.cs:19 and 42). The model stores a `map` value, so a later change the caller makes to that Dictionary is not seen through the variant.
- Async and cancellation: every call is synchronous, and CancellationToken is dropped.
- The other repository members (paging, search, GetByCategory, Update, Remove), the query handlers, the HTTP endpoints and the integration-event handler are outside the modelled core.
- Products.Product methods require `Valid()`, the class invariant that `Create` establishes and every method keeps. A product loaded from storage is taken to satisfy it; the handlers state the same as a requirement on a stored product.
- Common.Exception.Message: the contract states the exact message only when no parameter is named. With a parameter, it states that the message extends the exception's text. `HandlerModel.UpdateProductFailureMessage` pins one complete message, for example.
