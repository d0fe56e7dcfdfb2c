/** Entities/ProductPrice.cs as values: the state of one price entry and what
    each of its operations makes of it. */
module PriceModel {

  import opened Common
  import opened Text
  import opened Decimals
  import opened Identifiers

  datatype PriceState = PriceState(
    id: ProductPriceId,
    tenantId: TenantId,
    amount: real,
    currency: string,
    effectiveFrom: DateTime,
    effectiveTo: Option<DateTime>,
    updated: bool)

  /** What every price entry keeps: a non-negative amount in whole
      hundredths, a non-blank upper-case currency and, when the window is
      closed, an end strictly after its start. */
  predicate Valid(p: PriceState)
  {
    && p.amount >= 0.0
    && HasTwoDecimals(p.amount)
    && !IsBlank(p.currency)
    && HasNoLowerCase(p.currency)
    && (p.effectiveTo.Some? ==> p.effectiveFrom < p.effectiveTo.value)
  }

  const NegativeAmount := ArgumentException("Price amount cannot be negative", Some("amount"))
  const EmptyCurrency := ArgumentException("Currency cannot be empty", Some("currency"))
  const NegativeNewAmount := ArgumentException("Price amount cannot be negative", Some("newAmount"))
  const BadWindow := ArgumentException("Effective to date must be after from date", None)

  /** ProductPrice.Create: rejects a negative amount, then a blank currency;
      otherwise a valid entry holding the rounded amount and the upper-cased
      currency, effective from `now` with no end. */
  function Create(amount: real, currency: string, id: ProductPriceId, tenantId: TenantId, now: DateTime): (r: Result<PriceState, Exception>)
    ensures r.Failure? <==> amount < 0.0 || IsBlank(currency)
    ensures amount < 0.0 ==> r == Failure(NegativeAmount)
    ensures amount >= 0.0 && IsBlank(currency) ==> r == Failure(EmptyCurrency)
    ensures r.Success? ==> Valid(r.value)
    ensures r.Success? ==> r.value.id == id && r.value.tenantId == tenantId && !r.value.updated
    ensures r.Success? ==> r.value.amount == Round2(amount) && r.value.currency == ToUpper(currency)
    ensures r.Success? ==> r.value.effectiveFrom == now && r.value.effectiveTo == None
  {
    if amount < 0.0 then Failure(NegativeAmount)
    else if IsBlank(currency) then Failure(EmptyCurrency)
    else
      ToUpperKeepsWhiteSpace(currency);
      ToUpperHasNoLowerCase(currency);
      Success(PriceState(id, tenantId, Round2(amount), ToUpper(currency), now, None, false))
  }

  /** UpdateAmount: rejects a negative amount; otherwise only the amount
      (rounded) and the updated marker change, and validity is kept. */
  function UpdateAmount(p: PriceState, newAmount: real): (r: Result<PriceState, Exception>)
    ensures r.Failure? <==> newAmount < 0.0
    ensures r.Failure? ==> r.error == NegativeNewAmount
    ensures r.Success? ==> r.value == p.(amount := Round2(newAmount), updated := true)
    ensures r.Success? && Valid(p) ==> Valid(r.value)
  {
    if newAmount < 0.0 then Failure(NegativeNewAmount)
    else Success(p.(amount := Round2(newAmount), updated := true))
  }

  /** SetEffectivePeriod: rejects an end at or before the start; otherwise
      sets both ends, and validity is kept. */
  function SetEffectivePeriod(p: PriceState, from: DateTime, to: Option<DateTime>): (r: Result<PriceState, Exception>)
    ensures r.Failure? <==> to.Some? && to.value <= from
    ensures r.Failure? ==> r.error == BadWindow
    ensures r.Success? ==> r.value == p.(effectiveFrom := from, effectiveTo := to, updated := true)
    ensures r.Success? && Valid(p) ==> Valid(r.value)
  {
    if to.Some? && to.value <= from then Failure(BadWindow)
    else Success(p.(effectiveFrom := from, effectiveTo := to, updated := true))
  }

  /** IsEffective: the date lies in the window, both ends included. */
  predicate IsEffective(p: PriceState, date: DateTime)
  {
    date >= p.effectiveFrom && (p.effectiveTo.None? || date <= p.effectiveTo.value)
  }

  /** A window set by SetEffectivePeriod is exactly the set of dates
      IsEffective accepts, and a valid closed window contains both its ends. */
  lemma EffectiveWindow(p: PriceState, from: DateTime, to: Option<DateTime>, date: DateTime)
    requires SetEffectivePeriod(p, from, to).Success?
    ensures var q := SetEffectivePeriod(p, from, to).value;
      (IsEffective(q, date) <==> from <= date && (to.None? || date <= to.value))
      && IsEffective(q, from)
      && (to.Some? ==> IsEffective(q, to.value))
  {
  }

  /** A fresh entry is effective from `now` onwards and never before. */
  lemma CreatedPriceEffectiveFromNow(amount: real, currency: string, id: ProductPriceId, tenantId: TenantId, now: DateTime, date: DateTime)
    requires Create(amount, currency, id, tenantId, now).Success?
    ensures IsEffective(Create(amount, currency, id, tenantId, now).value, date) <==> now <= date
  {
  }
}

/** Entities/ProductPrice.cs as an object: the entry a Product owns and
    updates in place. */
module Prices {

  import opened Common
  import opened Identifiers
  import Decimals
  import PriceModel

  class ProductPrice {
    const id: ProductPriceId
    const tenantId: TenantId
    var amount: real
    const currency: string
    var effectiveFrom: DateTime
    var effectiveTo: Option<DateTime>
    var updated: bool

    /** The entry's fields as a value. */
    function State(): PriceModel.PriceState
      reads this
    {
      PriceModel.PriceState(id, tenantId, amount, currency, effectiveFrom, effectiveTo, updated)
    }

    ghost predicate Valid()
      reads this
    {
      PriceModel.Valid(State())
    }

    constructor (s: PriceModel.PriceState)
      ensures State() == s
    {
      id, tenantId, amount, currency := s.id, s.tenantId, s.amount, s.currency;
      effectiveFrom, effectiveTo, updated := s.effectiveFrom, s.effectiveTo, s.updated;
    }

    /** ProductPrice.Create: a new entry, or the exception the value model
        names. The id, the tenant and the clock are the caller's. */
    static method Create(amount: real, currency: string, id: ProductPriceId, tenantId: TenantId, now: DateTime)
      returns (r: Result<ProductPrice, Exception>)
      ensures match PriceModel.Create(amount, currency, id, tenantId, now)
        case Success(s) => r.Success? && fresh(r.value) && r.value.State() == s
        case Failure(e) => r == Failure(e)
    {
      var s := PriceModel.Create(amount, currency, id, tenantId, now);
      match s
      case Failure(e) =>
        r := Failure(e);
      case Success(state) =>
        var p := new ProductPrice(state);
        r := Success(p);
    }

    /** The Entity base's MarkAsUpdated. */
    method MarkAsUpdated()
      modifies this
      ensures State() == old(State()).(updated := true)
    {
      updated := true;
    }

    method UpdateAmount(newAmount: real) returns (o: Outcome<Exception>)
      modifies this
      ensures Committed(PriceModel.UpdateAmount(old(State()), newAmount), o, old(State()), State())
    {
      if newAmount < 0.0 {
        return Fail(PriceModel.NegativeNewAmount);
      }
      amount := Decimals.Round2(newAmount);
      MarkAsUpdated();
      o := Pass;
    }

    method SetEffectivePeriod(from: DateTime, to: Option<DateTime>) returns (o: Outcome<Exception>)
      modifies this
      ensures Committed(PriceModel.SetEffectivePeriod(old(State()), from, to), o, old(State()), State())
    {
      if to.Some? && to.value <= from {
        return Fail(PriceModel.BadWindow);
      }
      effectiveFrom := from;
      effectiveTo := to;
      MarkAsUpdated();
      o := Pass;
    }

    /** ProductPrice.IsEffective, read from the entry's fields. */
    predicate IsEffective(date: DateTime): (r: bool)
      reads this
      ensures r <==> date >= effectiveFrom && (effectiveTo.None? || date <= effectiveTo.value)
    {
      PriceModel.IsEffective(State(), date)
    }
  }

  /** No entry appears twice in the list. */
  predicate Distinct(ps: seq<ProductPrice>)
  {
    forall j, k :: 0 <= j < k < |ps| ==> ps[j] != ps[k]
  }

  /** The states of a list of entries, in order. */
  function Snapshot(ps: seq<ProductPrice>): (r: seq<PriceModel.PriceState>)
    reads ps
    ensures |r| == |ps|
    ensures forall i :: 0 <= i < |ps| ==> r[i] == ps[i].State()
  {
    if ps == [] then [] else Snapshot(ps[..|ps| - 1]) + [ps[|ps| - 1].State()]
  }

  /** The snapshot of entries none of which has changed since the
      pre-state is the snapshot taken then. */
  twostate lemma SnapshotUnchanged(ps: seq<ProductPrice>)
    requires forall i :: 0 <= i < |ps| ==> unchanged(ps[i])
    ensures Snapshot(ps) == old(Snapshot(ps))
  {
  }

  /** Updating entry `i` in place, with no entry held twice, changes only
      the i-th element of the snapshot. */
  twostate lemma SnapshotUpdatedAt(ps: seq<ProductPrice>, i: nat)
    requires i < |ps|
    requires Distinct(ps)
    requires forall j :: 0 <= j < |ps| && j != i ==> unchanged(ps[j])
    ensures Snapshot(ps) == old(Snapshot(ps))[i := ps[i].State()]
  {
  }

  /** Appending an entry appends its state. */
  lemma SnapshotAppend(ps: seq<ProductPrice>, p: ProductPrice)
    ensures Snapshot(ps + [p]) == Snapshot(ps) + [p.State()]
  {
  }
}
