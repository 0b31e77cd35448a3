/** The billing tables as one database object and the route handlers that change them:
    `POST`/`PUT` of app/api/invoices, `POST` of app/api/payments, `POST`/`PUT` of
    app/api/claims and app/api/lab-orders, `POST` of app/api/imaging-orders. Each
    handler either answers with an error and changes nothing, or changes exactly the
    rows its statements touch; every handler keeps the tables' invariants. The `GET`
    handlers change nothing and are the `List...` functions of the route modules. */
module Database {
  import opened Common
  import Invoices
  import Payments
  import Claims
  import LabOrders
  import ImagingOrders

  /** The `for (const item of items)` loop of `POST /api/invoices`: one item row per
      input item, in order, with consecutive ids from `firstId`. */
  method InsertItems(invoiceId: int, firstId: int, xs: seq<Invoices.ItemInput>) returns (rows: seq<Invoices.InvoiceItem>)
    ensures rows == Invoices.ItemRows(invoiceId, firstId, xs)
  {
    rows := [];
    var i := 0;
    while i < |xs|
      invariant 0 <= i <= |xs|
      invariant rows == Invoices.ItemRows(invoiceId, firstId, xs[..i])
    {
      assert xs[..i + 1] == xs[..i] + [xs[i]];
      rows := rows + [Invoices.NewItem(invoiceId, firstId + i, xs[i])];
      i := i + 1;
    }
    assert xs[..|xs|] == xs;
  }

  class Store {
    var invoices: seq<Invoices.Invoice>
    var items: seq<Invoices.InvoiceItem>
    var payments: seq<Payments.Payment>
    var claims: seq<Claims.Claim>
    var labOrders: seq<LabOrders.LabOrder>
    var imagingOrders: seq<ImagingOrders.ImagingOrder>
    /** For the invoice at index k, the number of payments recorded before it was. */
    ghost var paidSince: seq<nat>

    /** Every table keeps its own invariant: serial ids, totals and subtotals that agree
        with the invoice's items, numbers that are never issued twice. Across tables,
        every invoice's `amount_paid` is the sum of the payments recorded for it since
        it was created. */
    ghost predicate Valid()
      reads this
    {
      && Invoices.TableOk(invoices, items)
      && Payments.PaidOk(invoices, payments, paidSince)
      && Payments.TableOk(payments)
      && Claims.TableOk(claims)
      && LabOrders.TableOk(labOrders)
      && ImagingOrders.TableOk(imagingOrders)
    }

    /** An empty database. */
    constructor ()
      ensures Valid()
      ensures invoices == [] && items == [] && payments == [] && claims == []
      ensures labOrders == [] && imagingOrders == []
    {
      invoices, items, payments := [], [], [];
      claims, labOrders, imagingOrders := [], [], [];
      paidSince := [];
    }

    /** `POST /api/invoices`: a rejected request changes nothing; otherwise the invoice
        is inserted with the next number and its totals, then one item row per input
        item, in order. */
    method PostInvoice(actor: int, now: Timestamp, req: Invoices.InvoiceRequest) returns (r: Result<Invoices.Invoice>)
      requires Valid()
      modifies this
      ensures Valid()
      ensures !Invoices.Accepted(req) ==>
        r == Err(BadRequest(Invoices.ItemsRequired)) && invoices == old(invoices) && items == old(items)
      ensures Invoices.Accepted(req) ==>
        var inv := Invoices.NewInvoice(|old(invoices)| + 1, Invoices.NextInvoiceNumber(old(invoices), now.date), actor, now, req);
        && r == Ok(inv)
        && invoices == old(invoices) + [inv]
        && items == old(items) + Invoices.ItemRows(inv.id, |old(items)| + 1, req.items.value)
      ensures payments == old(payments) && claims == old(claims)
      ensures labOrders == old(labOrders) && imagingOrders == old(imagingOrders)
    {
      if !Invoices.Accepted(req) {
        return Err(BadRequest(Invoices.ItemsRequired));
      }
      var inv := Invoices.NewInvoice(|invoices| + 1, Invoices.NextInvoiceNumber(invoices, now.date), actor, now, req);
      var rows := InsertItems(inv.id, |items| + 1, req.items.value);
      Invoices.CreatePreservesTable(invoices, items, actor, now, req);
      Invoices.NewInvoiceTotals(|invoices| + 1, Invoices.NextInvoiceNumber(invoices, now.date), actor, now, req);
      Payments.CreateKeepsPaid(invoices, payments, paidSince, inv);
      SetInvoiceTables(invoices + [inv], items + rows, paidSince + [|payments|]);
      r := Ok(inv);
    }

    /** `PUT /api/invoices`: a falsy id is refused, an id with no row is not found;
        otherwise that row's status, payment method and notes are merged in place. */
    method PutInvoice(now: Timestamp, patch: Invoices.InvoicePatch) returns (r: Result<Invoices.Invoice>)
      requires Valid()
      modifies this
      ensures Valid()
      ensures !TruthyId(patch.id) ==> r == Err(BadRequest(Invoices.IdRequired)) && invoices == old(invoices)
      ensures TruthyId(patch.id) && !(1 <= patch.id.value <= |old(invoices)|) ==>
        r == Err(NotFound(Invoices.InvoiceNotFound)) && invoices == old(invoices)
      ensures TruthyId(patch.id) && 1 <= patch.id.value <= |old(invoices)| ==>
        var k := patch.id.value - 1;
        && r == Ok(Invoices.ApplyPatch(old(invoices)[k], patch, now))
        && invoices == old(invoices)[k := Invoices.ApplyPatch(old(invoices)[k], patch, now)]
        && r.value.id == patch.id.value
      ensures items == old(items) && payments == old(payments) && claims == old(claims)
      ensures labOrders == old(labOrders) && imagingOrders == old(imagingOrders)
    {
      if !TruthyId(patch.id) {
        return Err(BadRequest(Invoices.IdRequired));
      }
      // With serial ids, the row `WHERE id = k + 1` is the row at index k.
      if !(1 <= patch.id.value <= |invoices|) {
        return Err(NotFound(Invoices.InvoiceNotFound));
      }
      var k := patch.id.value - 1;
      var row := Invoices.ApplyPatch(invoices[k], patch, now);
      Invoices.PatchPreservesTable(invoices, items, k, patch, now);
      Invoices.PatchTouchesOnlyAdminFields(invoices[k], patch, now);
      Payments.UpdateKeepsPaid(invoices, payments, paidSince, k, row);
      SetInvoiceTables(invoices[k := row], items, paidSince);
      r := Ok(row);
    }

    /** `POST /api/payments`: a rejected request changes nothing; otherwise the payment is
        recorded with the next number and then added to the invoice it names (no
        invoice changes when none has that id). */
    method PostPayment(actor: int, now: Timestamp, req: Payments.PaymentRequest) returns (r: Result<Payments.Payment>)
      requires Valid()
      modifies this
      ensures Valid()
      ensures !Payments.Accepted(req) ==>
        r == Err(BadRequest(Payments.PaymentFieldsRequired)) && payments == old(payments) && invoices == old(invoices)
      ensures Payments.Accepted(req) ==>
        var p := Payments.NewPayment(|old(payments)| + 1, Payments.NextPaymentNumber(old(payments), now.date), actor, now, req);
        && r == Ok(p)
        && payments == old(payments) + [p]
        && invoices == Payments.ApplyToTable(old(invoices), req.invoiceId.value, req.amount.value, req.paymentMethod.value, now)
        && (forall i :: 0 <= i < |old(payments)| ==> old(payments)[i].paymentNumber != p.paymentNumber)
      ensures items == old(items) && claims == old(claims)
      ensures labOrders == old(labOrders) && imagingOrders == old(imagingOrders)
    {
      if !Payments.Accepted(req) {
        return Err(BadRequest(Payments.PaymentFieldsRequired));
      }
      var number := Payments.NextPaymentNumber(payments, now.date);
      var p := Payments.NewPayment(|payments| + 1, number, actor, now, req);
      Payments.RecordKeepsTable(payments, actor, now, req);
      Payments.NextPaymentNumberFresh(payments, now.date);
      assert p.paymentNumber == number;
      var updated := Payments.ApplyToTable(invoices, req.invoiceId.value, req.amount.value, req.paymentMethod.value, now);
      Payments.ApplyKeepsInvoiceTable(invoices, items, req.invoiceId.value, req.amount.value, req.paymentMethod.value, now);
      Payments.RecordKeepsPaid(invoices, payments, paidSince, p, req.paymentMethod.value, now);
      SetPaymentTables(payments + [p], updated);
      r := Ok(p);
    }

    /** `POST /api/claims`: a rejected request changes nothing; otherwise the claim is
        submitted with the next number. */
    method PostClaim(actor: int, now: Timestamp, req: Claims.ClaimRequest) returns (r: Result<Claims.Claim>)
      requires Valid()
      modifies this
      ensures Valid()
      ensures !Claims.Accepted(req) ==> r == Err(BadRequest(Claims.ClaimFieldsRequired)) && claims == old(claims)
      ensures Claims.Accepted(req) ==>
        var c := Claims.NewClaim(|old(claims)| + 1, Claims.NextClaimNumber(old(claims), now.date), actor, now, req);
        && r == Ok(c)
        && claims == old(claims) + [c]
      ensures invoices == old(invoices) && items == old(items) && payments == old(payments)
      ensures labOrders == old(labOrders) && imagingOrders == old(imagingOrders)
    {
      if !Claims.Accepted(req) {
        return Err(BadRequest(Claims.ClaimFieldsRequired));
      }
      var c := Claims.NewClaim(|claims| + 1, Claims.NextClaimNumber(claims, now.date), actor, now, req);
      Claims.SubmitKeepsTable(claims, actor, now, req);
      SetClaims(claims + [c]);
      r := Ok(c);
    }

    /** `PUT /api/claims`: a falsy id is refused, an id with no row is not found;
        otherwise that claim is adjudicated in place. */
    method PutClaim(now: Timestamp, patch: Claims.ClaimPatch) returns (r: Result<Claims.Claim>)
      requires Valid()
      modifies this
      ensures Valid()
      ensures !TruthyId(patch.id) ==> r == Err(BadRequest(Claims.ClaimIdRequired)) && claims == old(claims)
      ensures TruthyId(patch.id) && !(1 <= patch.id.value <= |old(claims)|) ==>
        r == Err(NotFound(Claims.ClaimNotFound)) && claims == old(claims)
      ensures TruthyId(patch.id) && 1 <= patch.id.value <= |old(claims)| ==>
        var k := patch.id.value - 1;
        && r == Ok(Claims.Adjudicate(old(claims)[k], patch, now))
        && claims == old(claims)[k := Claims.Adjudicate(old(claims)[k], patch, now)]
        && r.value.id == patch.id.value
      ensures invoices == old(invoices) && items == old(items) && payments == old(payments)
      ensures labOrders == old(labOrders) && imagingOrders == old(imagingOrders)
    {
      if !TruthyId(patch.id) {
        return Err(BadRequest(Claims.ClaimIdRequired));
      }
      if !(1 <= patch.id.value <= |claims|) {
        return Err(NotFound(Claims.ClaimNotFound));
      }
      var k := patch.id.value - 1;
      var row := Claims.Adjudicate(claims[k], patch, now);
      Claims.AdjudicateKeepsTable(claims, k, patch, now);
      SetClaims(claims[k := row]);
      r := Ok(row);
    }

    /** `POST /api/lab-orders`: a rejected request changes nothing; otherwise the order
        is placed with the next number. */
    method PostLabOrder(actor: int, now: Timestamp, req: LabOrders.LabOrderRequest) returns (r: Result<LabOrders.LabOrder>)
      requires Valid()
      modifies this
      ensures Valid()
      ensures !LabOrders.Accepted(req) ==> r == Err(BadRequest(LabOrders.LabFieldsRequired)) && labOrders == old(labOrders)
      ensures LabOrders.Accepted(req) ==>
        var o := LabOrders.NewLabOrder(|old(labOrders)| + 1, LabOrders.NextLabOrderNumber(old(labOrders), now.date), actor, now, req);
        && r == Ok(o)
        && labOrders == old(labOrders) + [o]
      ensures invoices == old(invoices) && items == old(items) && payments == old(payments)
      ensures claims == old(claims) && imagingOrders == old(imagingOrders)
    {
      if !LabOrders.Accepted(req) {
        return Err(BadRequest(LabOrders.LabFieldsRequired));
      }
      var o := LabOrders.NewLabOrder(|labOrders| + 1, LabOrders.NextLabOrderNumber(labOrders, now.date), actor, now, req);
      LabOrders.CreateKeepsTable(labOrders, actor, now, req);
      SetLabOrders(labOrders + [o]);
      r := Ok(o);
    }

    /** `PUT /api/lab-orders`: a falsy id is refused, an id with no row is not found;
        otherwise that order's status, specimen timestamps and notes are merged in
        place. */
    method PutLabOrder(now: Timestamp, patch: LabOrders.LabOrderPatch) returns (r: Result<LabOrders.LabOrder>)
      requires Valid()
      modifies this
      ensures Valid()
      ensures !TruthyId(patch.id) ==> r == Err(BadRequest(LabOrders.OrderIdRequired)) && labOrders == old(labOrders)
      ensures TruthyId(patch.id) && !(1 <= patch.id.value <= |old(labOrders)|) ==>
        r == Err(NotFound(LabOrders.LabOrderNotFound)) && labOrders == old(labOrders)
      ensures TruthyId(patch.id) && 1 <= patch.id.value <= |old(labOrders)| ==>
        var k := patch.id.value - 1;
        && r == Ok(LabOrders.UpdateLabOrder(old(labOrders)[k], patch, now))
        && labOrders == old(labOrders)[k := LabOrders.UpdateLabOrder(old(labOrders)[k], patch, now)]
        && r.value.id == patch.id.value
      ensures invoices == old(invoices) && items == old(items) && payments == old(payments)
      ensures claims == old(claims) && imagingOrders == old(imagingOrders)
    {
      if !TruthyId(patch.id) {
        return Err(BadRequest(LabOrders.OrderIdRequired));
      }
      if !(1 <= patch.id.value <= |labOrders|) {
        return Err(NotFound(LabOrders.LabOrderNotFound));
      }
      var k := patch.id.value - 1;
      var row := LabOrders.UpdateLabOrder(labOrders[k], patch, now);
      LabOrders.UpdateKeepsTable(labOrders, k, patch, now);
      SetLabOrders(labOrders[k := row]);
      r := Ok(row);
    }

    /** `POST /api/imaging-orders`: a rejected request changes nothing; otherwise the
        order is placed with the next number. */
    method PostImagingOrder(actor: int, now: Timestamp, req: ImagingOrders.ImagingOrderRequest) returns (r: Result<ImagingOrders.ImagingOrder>)
      requires Valid()
      modifies this
      ensures Valid()
      ensures !ImagingOrders.Accepted(req) ==>
        r == Err(BadRequest(ImagingOrders.ImagingFieldsRequired)) && imagingOrders == old(imagingOrders)
      ensures ImagingOrders.Accepted(req) ==>
        var o := ImagingOrders.NewImagingOrder(|old(imagingOrders)| + 1, ImagingOrders.NextImagingOrderNumber(old(imagingOrders), now.date), actor, now, req);
        && r == Ok(o)
        && imagingOrders == old(imagingOrders) + [o]
      ensures invoices == old(invoices) && items == old(items) && payments == old(payments)
      ensures claims == old(claims) && labOrders == old(labOrders)
    {
      if !ImagingOrders.Accepted(req) {
        return Err(BadRequest(ImagingOrders.ImagingFieldsRequired));
      }
      var o := ImagingOrders.NewImagingOrder(|imagingOrders| + 1, ImagingOrders.NextImagingOrderNumber(imagingOrders, now.date), actor, now, req);
      ImagingOrders.CreateKeepsTable(imagingOrders, actor, now, req);
      SetImagingOrders(imagingOrders + [o]);
      r := Ok(o);
    }

    // The writes of the handlers: each replaces the tables it names by ones that keep
    // their invariants, and leaves every other table as it is.

    method SetInvoiceTables(newInvoices: seq<Invoices.Invoice>, newItems: seq<Invoices.InvoiceItem>, ghost newSince: seq<nat>)
      requires Valid()
      requires Invoices.TableOk(newInvoices, newItems) && Payments.PaidOk(newInvoices, payments, newSince)
      modifies this
      ensures Valid()
      ensures invoices == newInvoices && items == newItems && paidSince == newSince
      ensures payments == old(payments) && claims == old(claims)
      ensures labOrders == old(labOrders) && imagingOrders == old(imagingOrders)
    {
      invoices, items, paidSince := newInvoices, newItems, newSince;
    }

    method SetPaymentTables(newPayments: seq<Payments.Payment>, newInvoices: seq<Invoices.Invoice>)
      requires Valid()
      requires Payments.TableOk(newPayments) && Invoices.TableOk(newInvoices, items)
      requires Payments.PaidOk(newInvoices, newPayments, paidSince)
      modifies this
      ensures Valid()
      ensures payments == newPayments && invoices == newInvoices
      ensures items == old(items) && claims == old(claims)
      ensures labOrders == old(labOrders) && imagingOrders == old(imagingOrders)
    {
      payments, invoices := newPayments, newInvoices;
    }

    method SetClaims(newClaims: seq<Claims.Claim>)
      requires Valid()
      requires Claims.TableOk(newClaims)
      modifies this
      ensures Valid()
      ensures claims == newClaims
      ensures invoices == old(invoices) && items == old(items) && payments == old(payments)
      ensures labOrders == old(labOrders) && imagingOrders == old(imagingOrders)
    {
      claims := newClaims;
    }

    method SetLabOrders(newOrders: seq<LabOrders.LabOrder>)
      requires Valid()
      requires LabOrders.TableOk(newOrders)
      modifies this
      ensures Valid()
      ensures labOrders == newOrders
      ensures invoices == old(invoices) && items == old(items) && payments == old(payments)
      ensures claims == old(claims) && imagingOrders == old(imagingOrders)
    {
      labOrders := newOrders;
    }

    method SetImagingOrders(newOrders: seq<ImagingOrders.ImagingOrder>)
      requires Valid()
      requires ImagingOrders.TableOk(newOrders)
      modifies this
      ensures Valid()
      ensures imagingOrders == newOrders
      ensures invoices == old(invoices) && items == old(items) && payments == old(payments)
      ensures claims == old(claims) && labOrders == old(labOrders)
    {
      imagingOrders := newOrders;
    }
  }
}
