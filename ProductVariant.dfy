/** Entities/ProductVariant.cs as values: the state of one variant and what
    each of its operations makes of it. */
module VariantModel {

  import opened Common
  import opened Identifiers

  datatype VariantState = VariantState(
    id: ProductVariantId,
    tenantId: TenantId,
    name: string,
    sku: string,
    attributes: map<string, string>,
    stockQuantity: int,
    isActive: bool,
    updated: bool)

  /** What every variant keeps: its stock is never negative. */
  predicate Valid(v: VariantState)
  {
    v.stockQuantity >= 0
  }

  const NegativeStock := ArgumentException("Stock quantity cannot be negative", Some("quantity"))

  /** `attributes ?? new Dictionary<string, string>()`. */
  function AttributesOrEmpty(attributes: Option<map<string, string>>): map<string, string>
  {
    match attributes
    case None => map[]
    case Some(a) => a
  }

  /** ProductVariant.Create: no validation of its own; a new variant has no
      stock, is active, and holds the given attributes (none for null). */
  function Create(name: string, sku: string, attributes: Option<map<string, string>>, id: ProductVariantId, tenantId: TenantId): (r: VariantState)
    ensures Valid(r)
    ensures r.id == id && r.tenantId == tenantId && r.name == name && r.sku == sku
    ensures r.stockQuantity == 0 && r.isActive && !r.updated
    ensures attributes.None? ==> r.attributes == map[]
    ensures attributes.Some? ==> r.attributes == attributes.value
  {
    VariantState(id, tenantId, name, sku, AttributesOrEmpty(attributes), 0, true, false)
  }

  /** UpdateStock: rejects a negative quantity; otherwise only the stock and
      the updated marker change, and validity is kept. */
  function UpdateStock(v: VariantState, quantity: int): (r: Result<VariantState, Exception>)
    ensures r.Failure? <==> quantity < 0
    ensures r.Failure? ==> r.error == NegativeStock
    ensures r.Success? ==> Valid(r.value) && r.value == v.(stockQuantity := quantity, updated := true)
  {
    if quantity < 0 then Failure(NegativeStock)
    else Success(v.(stockQuantity := quantity, updated := true))
  }

  /** UpdateAttributes: the whole map is replaced; null gives the empty map. */
  function UpdateAttributes(v: VariantState, attributes: Option<map<string, string>>): (r: VariantState)
    ensures r == v.(attributes := AttributesOrEmpty(attributes), updated := true)
    ensures attributes.None? ==> r.attributes == map[]
  {
    v.(attributes := AttributesOrEmpty(attributes), updated := true)
  }

  function Activate(v: VariantState): (r: VariantState)
    ensures r.isActive && r == v.(isActive := true, updated := true)
  {
    v.(isActive := true, updated := true)
  }

  function Deactivate(v: VariantState): (r: VariantState)
    ensures !r.isActive && r == v.(isActive := false, updated := true)
  {
    v.(isActive := false, updated := true)
  }

  /** Activate and Deactivate are idempotent, the later one of the two
      decides IsActive, and neither touches stock, attributes or identity. */
  lemma ActivationIdempotent(v: VariantState)
    ensures Activate(Activate(v)) == Activate(v)
    ensures Deactivate(Deactivate(v)) == Deactivate(v)
    ensures Activate(Deactivate(v)) == Activate(v)
    ensures Deactivate(Activate(v)) == Deactivate(v)
  {
  }

  /** UpdateAttributes forgets the previous map entirely. */
  lemma UpdateAttributesReplaces(v: VariantState, a: Option<map<string, string>>, b: Option<map<string, string>>)
    ensures UpdateAttributes(UpdateAttributes(v, a), b) == UpdateAttributes(v, b)
  {
  }
}

/** Entities/ProductVariant.cs as an object. */
module Variants {

  import opened Common
  import opened Identifiers
  import VariantModel

  class ProductVariant {
    const id: ProductVariantId
    const tenantId: TenantId
    const name: string
    const sku: string
    var attributes: map<string, string>
    var stockQuantity: int
    var isActive: bool
    var updated: bool

    /** The variant's fields as a value. */
    function State(): VariantModel.VariantState
      reads this
    {
      VariantModel.VariantState(id, tenantId, name, sku, attributes, stockQuantity, isActive, updated)
    }

    ghost predicate Valid()
      reads this
    {
      VariantModel.Valid(State())
    }

    constructor (s: VariantModel.VariantState)
      ensures State() == s
    {
      id, tenantId, name, sku := s.id, s.tenantId, s.name, s.sku;
      attributes, stockQuantity, isActive, updated := s.attributes, s.stockQuantity, s.isActive, s.updated;
    }

    /** ProductVariant.Create; the id and the tenant are the caller's. */
    static method Create(name: string, sku: string, attributes: Option<map<string, string>>, id: ProductVariantId, tenantId: TenantId)
      returns (v: ProductVariant)
      ensures fresh(v) && v.State() == VariantModel.Create(name, sku, attributes, id, tenantId)
    {
      v := new ProductVariant(VariantModel.Create(name, sku, attributes, id, tenantId));
    }

    /** The Entity base's MarkAsUpdated. */
    method MarkAsUpdated()
      modifies this
      ensures State() == old(State()).(updated := true)
    {
      updated := true;
    }

    method UpdateStock(quantity: int) returns (o: Outcome<Exception>)
      modifies this
      ensures Committed(VariantModel.UpdateStock(old(State()), quantity), o, old(State()), State())
    {
      if quantity < 0 {
        return Fail(VariantModel.NegativeStock);
      }
      stockQuantity := quantity;
      MarkAsUpdated();
      o := Pass;
    }

    method UpdateAttributes(newAttributes: Option<map<string, string>>)
      modifies this
      ensures State() == VariantModel.UpdateAttributes(old(State()), newAttributes)
    {
      attributes := VariantModel.AttributesOrEmpty(newAttributes);
      MarkAsUpdated();
    }

    method Activate()
      modifies this
      ensures State() == VariantModel.Activate(old(State()))
    {
      isActive := true;
      MarkAsUpdated();
    }

    method Deactivate()
      modifies this
      ensures State() == VariantModel.Deactivate(old(State()))
    {
      isActive := false;
      MarkAsUpdated();
    }
  }

  /** The states of a list of variants, in order. */
  function Snapshot(vs: seq<ProductVariant>): (r: seq<VariantModel.VariantState>)
    reads vs
    ensures |r| == |vs|
    ensures forall i :: 0 <= i < |vs| ==> r[i] == vs[i].State()
  {
    if vs == [] then [] else Snapshot(vs[..|vs| - 1]) + [vs[|vs| - 1].State()]
  }

  /** The snapshot of entries none of which has changed since the
      pre-state is the snapshot taken then. */
  twostate lemma SnapshotUnchanged(vs: seq<ProductVariant>)
    requires forall i :: 0 <= i < |vs| ==> unchanged(vs[i])
    ensures Snapshot(vs) == old(Snapshot(vs))
  {
  }

  /** Appending a variant appends its state. */
  lemma SnapshotAppend(vs: seq<ProductVariant>, v: ProductVariant)
    ensures Snapshot(vs + [v]) == Snapshot(vs) + [v.State()]
  {
  }
}
