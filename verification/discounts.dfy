/** The per-SKU percentage discounts (DiscountController): a table of
    records keyed by id whose percentage always lies in [0, 100].

    Unlike the free-issue table there is no one-record-per-product check:
    several discounts for the same SKU may coexist. */
module Discounts {
  import opened Outcomes

  /** A store or update request as submitted; the percentage is a number. */
  datatype DiscountRequest = DiscountRequest(labelName: string, purchasedProduct: nat, percent: real)

  datatype Discount = Discount(labelName: string, purchasedProduct: nat, percent: real)

  predicate InRange(percent: real) {
    0.0 <= percent <= 100.0
  }

  /** The validation of store and update: a filled label of at most 255
      characters, an existing SKU, and `min:0|max:100` on the percentage
      (both bounds included). */
  function Validate(req: DiscountRequest, skus: set<nat>): (r: Option<Discount>)
    ensures r.Some? <==> FilledText(req.labelName, 255) && req.purchasedProduct in skus && InRange(req.percent)
    ensures r.Some? ==> r.value == Discount(req.labelName, req.purchasedProduct, req.percent)
  {
    if FilledText(req.labelName, 255) && req.purchasedProduct in skus && 0.0 <= req.percent <= 100.0 then
      Some(Discount(req.labelName, req.purchasedProduct, req.percent))
    else None
  }

  /** Every validated discount carries a percentage in [0, 100]. */
  lemma ValidatedInRange(req: DiscountRequest, skus: set<nat>)
    requires Validate(req, skus).Some?
    ensures InRange(Validate(req, skus).value.percent)
  {
  }

  /** The table invariant: every stored percentage is in [0, 100]. */
  ghost predicate AllInRange(rows: map<nat, Discount>) {
    forall k :: k in rows ==> InRange(rows[k].percent)
  }

  /** The discounts table. */
  class DiscountTable {
    var rows: map<nat, Discount>
    /** The id the database will give the next inserted row. */
    var nextId: nat

    ghost predicate Valid()
      reads this
    {
      (forall k :: k in rows ==> k < nextId) && AllInRange(rows)
    }

    constructor ()
      ensures Valid() && rows == map[] && nextId == 1
    {
      rows := map[];
      nextId := 1;
    }

    /** store: Invalid, with nothing changed, unless the request validates;
        otherwise exactly one record is added with the validated label,
        product and percentage. Existing records are never consulted. */
    method Store(skus: set<nat>, req: DiscountRequest) returns (r: Result<nat>)
      requires Valid()
      modifies this
      ensures Valid()
      ensures r.Ok? <==> Validate(req, skus).Some?
      ensures r.Err? ==> r.error == Invalid && rows == old(rows) && nextId == old(nextId)
      ensures r.Ok? ==> (r.value !in old(rows) && nextId == old(nextId) + 1
                         && rows == old(rows)[r.value := Validate(req, skus).value])
    {
      var d := Validate(req, skus);
      if d.None? {
        return Err(Invalid);
      }
      var id := nextId;
      rows := rows[id := d.value];
      nextId := nextId + 1;
      r := Ok(id);
    }

    /** update: the request is validated first (Invalid), then the record is
        looked up (NotFound); on success only that record changes. */
    method Update(skus: set<nat>, id: nat, req: DiscountRequest) returns (r: Outcome)
      requires Valid()
      modifies this
      ensures Valid() && nextId == old(nextId)
      ensures Validate(req, skus).None? ==> r == Fail(Invalid) && rows == old(rows)
      ensures Validate(req, skus).Some? && id !in old(rows) ==> r == Fail(NotFound) && rows == old(rows)
      ensures Validate(req, skus).Some? && id in old(rows) ==>
        r == Pass && rows == old(rows)[id := Validate(req, skus).value]
    {
      var d := Validate(req, skus);
      if d.None? {
        return Fail(Invalid);
      }
      if id !in rows {
        return Fail(NotFound);
      }
      rows := rows[id := d.value];
      r := Pass;
    }

    /** destroy: NotFound for a missing id; otherwise exactly that record is
        removed and every other record is left as it was. */
    method Destroy(id: nat) returns (r: Outcome)
      requires Valid()
      modifies this
      ensures Valid() && nextId == old(nextId)
      ensures id !in old(rows) ==> r == Fail(NotFound) && rows == old(rows)
      ensures id in old(rows) ==> r == Pass && rows == old(rows) - {id}
    {
      if id !in rows {
        return Fail(NotFound);
      }
      rows := rows - {id};
      r := Pass;
    }
  }

  /** Storing the same valid discount twice succeeds both times: two
      records for one SKU then coexist under different ids. */
  method SameSkuTwice(t: DiscountTable, skus: set<nat>, req: DiscountRequest) returns (a: Result<nat>, b: Result<nat>)
    requires t.Valid() && Validate(req, skus).Some?
    modifies t
    ensures t.Valid()
    ensures a.Ok? && b.Ok? && a.value != b.value
    ensures a.value in t.rows && b.value in t.rows
    ensures t.rows[a.value].purchasedProduct == t.rows[b.value].purchasedProduct == req.purchasedProduct
  {
    a := t.Store(skus, req);
    b := t.Store(skus, req);
  }
}
