/** The free-issue promotion rules (FreeIssueController): a table of rules
    keyed by id, at most one rule per purchased product.

    What a Flat or Multiple rule grants is decided by the purchase-order
    controller, which is not part of this model; here the kind is only a
    validated label. */
module FreeIssues {
  import opened Outcomes

  /** The `free_issue_type` enum column. */
  datatype IssueKind = Flat | Multiple

  /** A store or update request as submitted. */
  datatype FreeIssueRequest = FreeIssueRequest(
    labelName: string,
    kind: string,
    purchasedProduct: nat,
    freeProduct: nat,
    purchaseQty: int,
    freeQty: int)

  /** The validated fields of a rule: what update overwrites. */
  datatype RuleFields = RuleFields(
    labelName: string,
    kind: IssueKind,
    purchasedProduct: nat,
    freeProduct: nat,
    purchaseQty: int,
    freeQty: int)

  /** A stored rule: its fields and the user who created it. */
  datatype FreeIssue = FreeIssue(fields: RuleFields, createdBy: nat)

  /** The rule `in:Flat,Multiple`. */
  function ParseKind(s: string): (r: Option<IssueKind>)
    ensures r.Some? <==> s == "Flat" || s == "Multiple"
    ensures r == Some(Flat) <==> s == "Flat"
  {
    if s == "Flat" then Some(Flat) else if s == "Multiple" then Some(Multiple) else None
  }

  /** The validation of store and update: a filled label of at most 255
      characters, a kind `Flat` or `Multiple`, and both products existing
      SKUs. The quantities are only required to be integers, so zero and
      negative quantities pass. */
  function Validate(req: FreeIssueRequest, skus: set<nat>): (r: Option<RuleFields>)
    ensures r.Some? <==>
      FilledText(req.labelName, 255) && (req.kind == "Flat" || req.kind == "Multiple")
      && req.purchasedProduct in skus && req.freeProduct in skus
    ensures r.Some? ==>
      && r.value.labelName == req.labelName
      && ParseKind(req.kind) == Some(r.value.kind)
      && r.value.purchasedProduct == req.purchasedProduct
      && r.value.freeProduct == req.freeProduct
      && r.value.purchaseQty == req.purchaseQty
      && r.value.freeQty == req.freeQty
  {
    var kind := ParseKind(req.kind);
    if FilledText(req.labelName, 255) && kind.Some? && req.purchasedProduct in skus && req.freeProduct in skus then
      Some(RuleFields(req.labelName, kind.value, req.purchasedProduct, req.freeProduct, req.purchaseQty, req.freeQty))
    else None
  }

  /** Quantities are not range-checked: a request that is otherwise valid
      passes with any purchase and free quantity, zero or negative included. */
  lemma AnyQuantityAccepted(req: FreeIssueRequest, skus: set<nat>, purchaseQty: int, freeQty: int)
    requires Validate(req, skus).Some?
    ensures Validate(req.(purchaseQty := purchaseQty, freeQty := freeQty), skus).Some?
  {
  }

  /** The query of store: some rule is for `product`. */
  predicate Covered(rows: map<nat, FreeIssue>, product: nat) {
    exists k :: k in rows && rows[k].fields.purchasedProduct == product
  }

  /** The query of update: some rule other than `id` is for `product`. */
  predicate CoveredByOther(rows: map<nat, FreeIssue>, product: nat, id: nat) {
    exists k :: k in rows && k != id && rows[k].fields.purchasedProduct == product
  }

  /** The table invariant: no two rules share a purchased product. */
  ghost predicate OnePerProduct(rows: map<nat, FreeIssue>) {
    forall a, b :: a in rows && b in rows && rows[a].fields.purchasedProduct == rows[b].fields.purchasedProduct ==> a == b
  }

  /** Inserting a rule for an uncovered product keeps one rule per product. */
  lemma InsertKeepsOnePerProduct(rows: map<nat, FreeIssue>, id: nat, rule: FreeIssue)
    requires OnePerProduct(rows) && id !in rows
    requires !Covered(rows, rule.fields.purchasedProduct)
    ensures OnePerProduct(rows[id := rule])
  {
  }

  /** Overwriting rule `id` with a product no other rule covers keeps one
      rule per product. */
  lemma ReplaceKeepsOnePerProduct(rows: map<nat, FreeIssue>, id: nat, rule: FreeIssue)
    requires OnePerProduct(rows) && id in rows
    requires !CoveredByOther(rows, rule.fields.purchasedProduct, id)
    ensures OnePerProduct(rows[id := rule])
  {
  }

  /** Re-saving a rule with its own purchased product passes the duplicate
      check of update: the record itself is excluded, and no other rule can
      hold that product. */
  lemma ResaveOwnProductAccepted(rows: map<nat, FreeIssue>, id: nat)
    requires OnePerProduct(rows) && id in rows
    ensures !CoveredByOther(rows, rows[id].fields.purchasedProduct, id)
  {
  }

  /** Moving a rule onto another rule's purchased product fails the check. */
  lemma MoveOntoOtherRejected(rows: map<nat, FreeIssue>, id: nat, other: nat)
    requires other in rows && other != id
    ensures CoveredByOther(rows, rows[other].fields.purchasedProduct, id)
  {
  }

  /** For a fresh id the two queries agree: store's check is update's check
      with nothing excluded. */
  lemma FreshIdSameCheck(rows: map<nat, FreeIssue>, product: nat, id: nat)
    requires id !in rows
    ensures CoveredByOther(rows, product, id) <==> Covered(rows, product)
  {
  }

  /** The free_issues table. */
  class FreeIssueTable {
    var rows: map<nat, FreeIssue>
    /** The id the database will give the next inserted row. */
    var nextId: nat

    ghost predicate Valid()
      reads this
    {
      (forall k :: k in rows ==> k < nextId) && OnePerProduct(rows)
    }

    constructor ()
      ensures Valid() && rows == map[] && nextId == 1
    {
      rows := map[];
      nextId := 1;
    }

    /** store: Invalid when validation fails, Duplicate when a rule already
        exists for the purchased product (the table is then unchanged);
        otherwise exactly one rule is added, with the validated fields and
        the current user as creator. */
    method Store(skus: set<nat>, req: FreeIssueRequest, user: nat) returns (r: Result<nat>)
      requires Valid()
      modifies this
      ensures Valid()
      ensures Validate(req, skus).None? ==> r == Err(Invalid) && rows == old(rows) && nextId == old(nextId)
      ensures Validate(req, skus).Some? && Covered(old(rows), req.purchasedProduct) ==>
        r == Err(Duplicate) && rows == old(rows) && nextId == old(nextId)
      ensures r.Ok? <==> Validate(req, skus).Some? && !Covered(old(rows), req.purchasedProduct)
      ensures r.Ok? ==> (r.value !in old(rows) && nextId == old(nextId) + 1
                         && rows == old(rows)[r.value := FreeIssue(Validate(req, skus).value, user)])
    {
      var fields := Validate(req, skus);
      if fields.None? {
        return Err(Invalid);
      }
      if Covered(rows, fields.value.purchasedProduct) {
        return Err(Duplicate);
      }
      var id := nextId;
      InsertKeepsOnePerProduct(rows, id, FreeIssue(fields.value, user));
      rows := rows[id := FreeIssue(fields.value, user)];
      nextId := nextId + 1;
      r := Ok(id);
    }

    /** update: NotFound for a missing id (looked up before validating),
        then Invalid, then Duplicate when another rule holds the purchased
        product; otherwise the rule's fields are overwritten and its creator
        kept, and no other rule changes. */
    method Update(skus: set<nat>, id: nat, req: FreeIssueRequest) returns (r: Outcome)
      requires Valid()
      modifies this
      ensures Valid() && nextId == old(nextId)
      ensures id !in old(rows) ==> r == Fail(NotFound) && rows == old(rows)
      ensures id in old(rows) && Validate(req, skus).None? ==> r == Fail(Invalid) && rows == old(rows)
      ensures id in old(rows) && Validate(req, skus).Some? && CoveredByOther(old(rows), req.purchasedProduct, id) ==>
        r == Fail(Duplicate) && rows == old(rows)
      ensures r == Pass <==>
        id in old(rows) && Validate(req, skus).Some? && !CoveredByOther(old(rows), req.purchasedProduct, id)
      ensures r == Pass ==>
        rows == old(rows)[id := FreeIssue(Validate(req, skus).value, old(rows)[id].createdBy)]
    {
      if id !in rows {
        return Fail(NotFound);
      }
      var fields := Validate(req, skus);
      if fields.None? {
        return Fail(Invalid);
      }
      if CoveredByOther(rows, fields.value.purchasedProduct, id) {
        return Fail(Duplicate);
      }
      var rule := FreeIssue(fields.value, rows[id].createdBy);
      ReplaceKeepsOnePerProduct(rows, id, rule);
      rows := rows[id := rule];
      r := Pass;
    }

    /** destroy: NotFound for a missing id; otherwise exactly that rule is
        removed and every other rule is left as it was. */
    method Destroy(id: nat) returns (r: Outcome)
      requires Valid()
      modifies this
      ensures Valid() && nextId == old(nextId)
      ensures id !in old(rows) ==> r == Fail(NotFound) && rows == old(rows)
      ensures id in old(rows) ==> r == Pass && rows == old(rows) - {id}
    {
      if id !in rows {
        return Fail(NotFound);
      }
      rows := rows - {id};
      r := Pass;
    }
  }

  /** Two stores for the same purchased product: the second is refused with
      Duplicate whatever its other fields, and the table keeps the first. */
  method SecondRuleForProductRefused(t: FreeIssueTable, skus: set<nat>, first: FreeIssueRequest,
                                     second: FreeIssueRequest, user: nat)
    returns (a: Result<nat>, b: Result<nat>)
    requires t.Valid()
    requires Validate(first, skus).Some? && Validate(second, skus).Some?
    requires first.purchasedProduct == second.purchasedProduct
    modifies t
    ensures t.Valid()
    ensures a.Ok? ==> b == Err(Duplicate) && a.value in t.rows && t.rows[a.value] == FreeIssue(Validate(first, skus).value, user)
  {
    a := t.Store(skus, first, user);
    if a.Ok? {
      assert t.rows[a.value].fields.purchasedProduct == second.purchasedProduct;
    }
    b := t.Store(skus, second, user);
  }
}
