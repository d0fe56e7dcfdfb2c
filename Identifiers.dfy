/** The typed identifiers: ProductId and CategoryId (ValueObjects/ProductId.cs),
    ProductPriceId and ProductVariantId (declared beside their entities) and
    the tenant identifier. Each wraps a Guid that is never the empty Guid:
    the datatypes only accept a NonEmptyGuid, and the checked `Create`
    functions are the only way in from a plain Guid. */
module Identifiers {

  import opened Common

  const GuidCount: int := 0x1_0000_0000_0000_0000_0000_0000_0000_0000

  /** A 128-bit Guid, as a number. */
  type Guid = g: int | 0 <= g < GuidCount

  /** Guid.Empty, all zero bits. */
  const EmptyGuid: Guid := 0

  type NonEmptyGuid = g: Guid | g != EmptyGuid witness 1

  datatype TenantId = TenantId(value: NonEmptyGuid)

  datatype ProductId = ProductId(value: NonEmptyGuid)

  datatype CategoryId = CategoryId(value: NonEmptyGuid)

  datatype ProductPriceId = ProductPriceId(value: NonEmptyGuid)

  datatype ProductVariantId = ProductVariantId(value: NonEmptyGuid)

  /** The checked constructor's exception for identifier kind `kind`. */
  function EmptyIdError(kind: string): Exception
  {
    ArgumentException(kind + " cannot be empty", Some("value"))
  }

  /** ProductId.Create(Guid): throws exactly for the empty Guid, and
      otherwise wraps the Guid unchanged. */
  function CreateProductId(g: Guid): (r: Result<ProductId, Exception>)
    ensures r.Failure? <==> g == EmptyGuid
    ensures r.Failure? ==> r.error == EmptyIdError("ProductId")
    ensures r.Success? ==> r.value.value == g
  {
    if g == EmptyGuid then Failure(EmptyIdError("ProductId")) else Success(ProductId(g))
  }

  /** CategoryId.Create(Guid). */
  function CreateCategoryId(g: Guid): (r: Result<CategoryId, Exception>)
    ensures r.Failure? <==> g == EmptyGuid
    ensures r.Failure? ==> r.error == EmptyIdError("CategoryId")
    ensures r.Success? ==> r.value.value == g
  {
    if g == EmptyGuid then Failure(EmptyIdError("CategoryId")) else Success(CategoryId(g))
  }

  /** ProductPriceId.Create(Guid). */
  function CreateProductPriceId(g: Guid): (r: Result<ProductPriceId, Exception>)
    ensures r.Failure? <==> g == EmptyGuid
    ensures r.Failure? ==> r.error == EmptyIdError("ProductPriceId")
    ensures r.Success? ==> r.value.value == g
  {
    if g == EmptyGuid then Failure(EmptyIdError("ProductPriceId")) else Success(ProductPriceId(g))
  }

  /** ProductVariantId.Create(Guid). */
  function CreateProductVariantId(g: Guid): (r: Result<ProductVariantId, Exception>)
    ensures r.Failure? <==> g == EmptyGuid
    ensures r.Failure? ==> r.error == EmptyIdError("ProductVariantId")
    ensures r.Success? ==> r.value.value == g
  {
    if g == EmptyGuid then Failure(EmptyIdError("ProductVariantId")) else Success(ProductVariantId(g))
  }

  /** The implicit conversion to Guid and the checked constructor are
      inverse: every identifier is rebuilt from its Value, and no identifier
      has the empty Guid as its Value. */
  lemma IdentifierRoundTrips(p: ProductId, c: CategoryId, pp: ProductPriceId, v: ProductVariantId)
    ensures CreateProductId(p.value) == Success(p) && p.value != EmptyGuid
    ensures CreateCategoryId(c.value) == Success(c) && c.value != EmptyGuid
    ensures CreateProductPriceId(pp.value) == Success(pp) && pp.value != EmptyGuid
    ensures CreateProductVariantId(v.value) == Success(v) && v.value != EmptyGuid
  {
  }

  /** NewId() is the checked constructor applied to Guid.NewGuid(), whose
      version-4 Guids are never all zero: it never throws. */
  lemma NewIdNeverThrows(g: NonEmptyGuid)
    ensures CreateProductId(g).Success? && CreateCategoryId(g).Success?
    ensures CreateProductPriceId(g).Success? && CreateProductVariantId(g).Success?
  {
  }

  /** Record equality: two identifiers of one kind are equal exactly when
      their Values are. */
  lemma IdentifierEquality(p1: ProductId, p2: ProductId, c1: CategoryId, c2: CategoryId)
    ensures p1 == p2 <==> p1.value == p2.value
    ensures c1 == c2 <==> c1.value == c2.value
  {
  }
}
