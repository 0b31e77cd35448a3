/** Invoices and their line items (app/api/invoices/route.ts): the totals computed on
    creation, the rows stored, the administrative field merge of `PUT` and the `GET`
    listing. The handlers that change the tables are methods of `Database.Store`. */
module Invoices {
  import opened Common
  import opened Numbering
  import opened Listing

  const Pending: string := "pending"
  const Partial: string := "partial"
  const Paid: string := "paid"

  const ItemsRequired: string := "Patient ID and items are required"
  const IdRequired: string := "Invoice ID is required"
  const InvoiceNotFound: string := "Invoice not found"

  /** One element of the request's `items` array. */
  datatype ItemInput = ItemInput(cptCodeId: Field<int>, description: Field<string>, quantity: int, unitPrice: real)

  /** The body of `POST /api/invoices`. */
  datatype InvoiceRequest = InvoiceRequest(
    patientId: Field<int>,
    encounterId: Field<int>,
    items: Field<seq<ItemInput>>,
    dueDate: Field<string>,
    taxRate: Field<real>,
    discountAmount: Field<real>,
    notes: Field<string>)

  /** A row of the `invoices` table. */
  datatype Invoice = Invoice(
    id: int,
    invoiceNumber: string,
    patientId: int,
    encounterId: Option<int>,
    invoiceDate: Date,
    dueDate: Option<string>,
    subtotal: real,
    taxAmount: real,
    discountAmount: real,
    totalAmount: real,
    amountPaid: real,
    balance: real,
    status: string,
    paymentMethod: Option<string>,
    notes: Option<string>,
    createdBy: int,
    createdAt: Timestamp,
    updatedAt: Timestamp)

  /** A row of the `invoice_items` table. */
  datatype InvoiceItem = InvoiceItem(
    id: int,
    invoiceId: int,
    cptCodeId: Option<int>,
    description: Option<string>,
    quantity: int,
    unitPrice: real,
    totalPrice: real)

  /** The body of `PUT /api/invoices`. */
  datatype InvoicePatch = InvoicePatch(id: Field<int>, status: Field<string>, paymentMethod: Field<string>, notes: Field<string>)

  /** `!patientId || !items || items.length === 0` rejects the request. */
  predicate Accepted(req: InvoiceRequest)
  {
    TruthyId(req.patientId) && req.items.Given? && |req.items.value| > 0
  }

  function LineTotal(x: ItemInput): real
  {
    (x.quantity as real) * x.unitPrice
  }

  /** `items.reduce((sum, item) => sum + item.quantity * item.unitPrice, 0)` */
  function Subtotal(xs: seq<ItemInput>): real
  {
    if xs == [] then 0.0 else Subtotal(xs[..|xs| - 1]) + LineTotal(xs[|xs| - 1])
  }

  /** A numeric field with the default 0: a destructuring default for `undefined`, and
      `null` counts as 0 in arithmetic and in `|| 0`. */
  function OrZero(f: Field<real>): real
  {
    if f.Given? then f.value else 0.0
  }

  /** The aggregate fields are consistent: total from subtotal, tax and discount, and
      the balance is what remains of the total after the amount paid. */
  predicate Consistent(inv: Invoice)
  {
    && inv.totalAmount == inv.subtotal + inv.taxAmount - inv.discountAmount
    && inv.balance == inv.totalAmount - inv.amountPaid
  }

  /** The invoice row inserted by `POST`; `amount_paid` takes its column default 0. */
  function NewInvoice(id: int, number: string, actor: int, now: Timestamp, req: InvoiceRequest): Invoice
    requires Accepted(req)
  {
    var subtotal := Subtotal(req.items.value);
    var tax := subtotal * (OrZero(req.taxRate) / 100.0);
    var discount := OrZero(req.discountAmount);
    var total := subtotal + tax - discount;
    Invoice(id, number, req.patientId.value, IdOrNull(req.encounterId), now.date, StrOrNull(req.dueDate),
            subtotal, tax, discount, total, 0.0, total, Pending, None, StrOrNull(req.notes), actor, now, now)
  }

  /** What a new invoice holds: the totals of its request, a balance equal to its total,
      nothing paid, status `pending`. */
  lemma NewInvoiceTotals(id: int, number: string, actor: int, now: Timestamp, req: InvoiceRequest)
    requires Accepted(req)
    ensures var inv := NewInvoice(id, number, actor, now, req);
      && Consistent(inv)
      && inv.subtotal == Subtotal(req.items.value)
      && inv.taxAmount == inv.subtotal * OrZero(req.taxRate) / 100.0
      && (req.taxRate.Given? ==> inv.taxAmount == inv.subtotal * req.taxRate.value / 100.0)
      && (!req.taxRate.Given? ==> inv.taxAmount == 0.0)
      && inv.discountAmount == OrZero(req.discountAmount)
      && inv.totalAmount == inv.subtotal + inv.taxAmount - OrZero(req.discountAmount)
      && (req.discountAmount.Given? ==> inv.discountAmount == req.discountAmount.value
                                        && inv.totalAmount == inv.subtotal + inv.taxAmount - req.discountAmount.value)
      && (!req.discountAmount.Given? ==> inv.discountAmount == 0.0 && inv.totalAmount == inv.subtotal + inv.taxAmount)
      && inv.amountPaid == 0.0 && inv.balance == inv.totalAmount && inv.status == Pending
      && inv.patientId == req.patientId.value && inv.id == id && inv.invoiceNumber == number
  {
  }

  /** The item row inserted for one input item. */
  function NewItem(invoiceId: int, itemId: int, x: ItemInput): InvoiceItem
  {
    InvoiceItem(itemId, invoiceId, IdOrNull(x.cptCodeId), AsColumn(x.description), x.quantity, x.unitPrice, LineTotal(x))
  }

  /** The rows the `for (const item of items)` loop inserts, ids from `firstId` on:
      one per input item, in input order, each pointing at the invoice. */
  function ItemRows(invoiceId: int, firstId: int, xs: seq<ItemInput>): (r: seq<InvoiceItem>)
    ensures |r| == |xs|
    ensures forall k :: 0 <= k < |xs| ==> r[k] == NewItem(invoiceId, firstId + k, xs[k])
  {
    if xs == [] then []
    else ItemRows(invoiceId, firstId, xs[..|xs| - 1]) + [NewItem(invoiceId, firstId + |xs| - 1, xs[|xs| - 1])]
  }

  /** The sum of `total_price` over the item rows of one invoice. */
  function ItemSum(items: seq<InvoiceItem>, invoiceId: int): real
  {
    if items == [] then 0.0
    else
      var last := items[|items| - 1];
      ItemSum(items[..|items| - 1], invoiceId) + (if last.invoiceId == invoiceId then last.totalPrice else 0.0)
  }

  lemma {:induction false} ItemSumAppend(a: seq<InvoiceItem>, b: seq<InvoiceItem>, invoiceId: int)
    ensures ItemSum(a + b, invoiceId) == ItemSum(a, invoiceId) + ItemSum(b, invoiceId)
    decreases |b|
  {
    if b != [] {
      assert (a + b)[..|a + b| - 1] == a + b[..|b| - 1];
      ItemSumAppend(a, b[..|b| - 1], invoiceId);
    } else {
      assert a + b == a;
    }
  }

  /** Rows of other invoices add nothing to an invoice's item sum. */
  lemma {:induction false} ItemSumOthers(items: seq<InvoiceItem>, invoiceId: int)
    requires forall j :: 0 <= j < |items| ==> items[j].invoiceId != invoiceId
    ensures ItemSum(items, invoiceId) == 0.0
  {
    if items != [] {
      ItemSumOthers(items[..|items| - 1], invoiceId);
    }
  }

  /** The stored item totals of a new invoice add up to its subtotal. */
  lemma {:induction false} ItemRowsSum(invoiceId: int, firstId: int, xs: seq<InvoiceItem>, ys: seq<ItemInput>)
    requires xs == ItemRows(invoiceId, firstId, ys)
    ensures ItemSum(xs, invoiceId) == Subtotal(ys)
    decreases |ys|
  {
    if ys != [] {
      var init := ys[..|ys| - 1];
      assert xs[..|xs| - 1] == ItemRows(invoiceId, firstId, init);
      ItemRowsSum(invoiceId, firstId, xs[..|xs| - 1], init);
    }
  }

  function InvoiceYear(inv: Invoice): nat { inv.invoiceDate.year }

  function InvoiceNumberOf(inv: Invoice): string { inv.invoiceNumber }

  /** `generateInvoiceNumber`: counts the invoices dated in this year. */
  function NextInvoiceNumber(invoices: seq<Invoice>, today: Date): string
  {
    NextNumber(InvoiceDoc, invoices, InvoiceYear, today.year)
  }

  /** The invariant of the `invoices` and `invoice_items` tables: serial ids, consistent
      aggregates, each subtotal equal to the sum of its stored items, each item row
      owned by an existing invoice and priced at quantity times unit price, and
      numbers issued by the generator. */
  ghost predicate TableOk(invoices: seq<Invoice>, items: seq<InvoiceItem>)
  {
    && InvoiceRowsOk(invoices, items)
    && ItemRowsOk(invoices, items)
    && WellNumbered(InvoiceDoc, invoices, InvoiceYear, InvoiceNumberOf)
  }

  ghost predicate InvoiceRowsOk(invoices: seq<Invoice>, items: seq<InvoiceItem>)
  {
    forall i :: 0 <= i < |invoices| ==>
      invoices[i].id == i + 1 && Consistent(invoices[i]) && invoices[i].subtotal == ItemSum(items, i + 1)
  }

  ghost predicate ItemRowsOk(invoices: seq<Invoice>, items: seq<InvoiceItem>)
  {
    forall j :: 0 <= j < |items| ==>
      items[j].id == j + 1 && 1 <= items[j].invoiceId <= |invoices|
      && items[j].totalPrice == (items[j].quantity as real) * items[j].unitPrice
  }

  /** Creating an invoice with its items keeps the tables' invariant. */
  lemma CreatePreservesTable(invoices: seq<Invoice>, items: seq<InvoiceItem>, actor: int, now: Timestamp, req: InvoiceRequest)
    requires TableOk(invoices, items)
    requires Accepted(req)
    ensures var inv := NewInvoice(|invoices| + 1, NextInvoiceNumber(invoices, now.date), actor, now, req);
      TableOk(invoices + [inv], items + ItemRows(inv.id, |items| + 1, req.items.value))
  {
    var inv := NewInvoice(|invoices| + 1, NextInvoiceNumber(invoices, now.date), actor, now, req);
    CreateKeepsInvoiceRows(invoices, items, inv, req.items.value);
    CreateKeepsItemRows(invoices, items, inv.id, req.items.value);
    AppendNumbered(InvoiceDoc, invoices, InvoiceYear, InvoiceNumberOf, inv);
  }

  lemma CreateKeepsInvoiceRows(invoices: seq<Invoice>, items: seq<InvoiceItem>, inv: Invoice, xs: seq<ItemInput>)
    requires InvoiceRowsOk(invoices, items) && ItemRowsOk(invoices, items)
    requires inv.id == |invoices| + 1 && Consistent(inv) && inv.subtotal == Subtotal(xs)
    ensures InvoiceRowsOk(invoices + [inv], items + ItemRows(inv.id, |items| + 1, xs))
  {
    var added := ItemRows(inv.id, |items| + 1, xs);
    var invoices', items' := invoices + [inv], items + added;
    forall i | 0 <= i < |invoices'|
      ensures invoices'[i].id == i + 1 && Consistent(invoices'[i]) && invoices'[i].subtotal == ItemSum(items', i + 1)
    {
      ItemSumAppend(items, added, i + 1);
      if i < |invoices| {
        ItemSumOthers(added, i + 1);
      } else {
        ItemSumOthers(items, inv.id);
        ItemRowsSum(inv.id, |items| + 1, added, xs);
      }
    }
  }

  lemma CreateKeepsItemRows(invoices: seq<Invoice>, items: seq<InvoiceItem>, id: int, xs: seq<ItemInput>)
    requires ItemRowsOk(invoices, items)
    requires id == |invoices| + 1
    ensures forall inv :: ItemRowsOk(invoices + [inv], items + ItemRows(id, |items| + 1, xs))
  {
    var added := ItemRows(id, |items| + 1, xs);
    assert forall j :: 0 <= j < |added| ==> added[j].id == |items| + 1 + j && added[j].invoiceId == id;
  }

  /** `PUT`: `COALESCE(x || null, column)` on status, payment_method and notes. */
  function ApplyPatch(inv: Invoice, patch: InvoicePatch, now: Timestamp): Invoice
  {
    inv.(status := MergeText(patch.status, inv.status),
         paymentMethod := MergeStr(patch.paymentMethod, inv.paymentMethod),
         notes := MergeStr(patch.notes, inv.notes),
         updatedAt := now)
  }

  /** The merge changes only the three administrative fields and the update time; a
      field is overwritten exactly when the value supplied for it is truthy. */
  lemma PatchTouchesOnlyAdminFields(inv: Invoice, patch: InvoicePatch, now: Timestamp)
    ensures var r := ApplyPatch(inv, patch, now);
      && r == inv.(status := r.status, paymentMethod := r.paymentMethod, notes := r.notes, updatedAt := now)
      && (r.status != inv.status ==> TruthyStr(patch.status))
      && (r.paymentMethod != inv.paymentMethod ==> TruthyStr(patch.paymentMethod))
      && (r.notes != inv.notes ==> TruthyStr(patch.notes))
      && (TruthyStr(patch.status) ==> r.status == patch.status.value)
      && (TruthyStr(patch.paymentMethod) ==> r.paymentMethod == Some(patch.paymentMethod.value))
      && (TruthyStr(patch.notes) ==> r.notes == Some(patch.notes.value))
      && (Consistent(inv) ==> Consistent(r))
  {
  }

  /** Applying the same patch twice is the same as applying it once. */
  lemma PatchIdempotent(inv: Invoice, patch: InvoicePatch, t1: Timestamp, t2: Timestamp)
    ensures ApplyPatch(ApplyPatch(inv, patch, t1), patch, t2) == ApplyPatch(inv, patch, t2)
  {
  }

  /** Replacing one invoice row by a consistent row with the same id, date, number and
      subtotal keeps the tables' invariant. */
  lemma ReplaceRowKeepsTable(invoices: seq<Invoice>, items: seq<InvoiceItem>, k: nat, row: Invoice)
    requires TableOk(invoices, items)
    requires k < |invoices|
    requires Consistent(row)
    requires row.id == invoices[k].id && row.invoiceDate == invoices[k].invoiceDate
    requires row.invoiceNumber == invoices[k].invoiceNumber && row.subtotal == invoices[k].subtotal
    ensures TableOk(invoices[k := row], items)
  {
    var invoices' := invoices[k := row];
    assert InvoiceRowsOk(invoices', items);
    SameKeysNumbered(InvoiceDoc, invoices, invoices', InvoiceYear, InvoiceNumberOf);
  }

  /** The merge keeps the tables' invariant. */
  lemma PatchPreservesTable(invoices: seq<Invoice>, items: seq<InvoiceItem>, k: nat, patch: InvoicePatch, now: Timestamp)
    requires TableOk(invoices, items)
    requires k < |invoices|
    ensures TableOk(invoices[k := ApplyPatch(invoices[k], patch, now)], items)
  {
    ReplaceRowKeepsTable(invoices, items, k, ApplyPatch(invoices[k], patch, now));
  }

  /** The `WHERE` clause of `GET`: every supplied filter must hold. */
  datatype InvoiceFilter = InvoiceFilter(invoiceId: Option<int>, patientId: Option<int>, status: Option<string>)

  predicate Matches(f: InvoiceFilter, inv: Invoice)
  {
    && (f.invoiceId.Some? ==> inv.id == f.invoiceId.value)
    && (f.patientId.Some? ==> inv.patientId == f.patientId.value)
    && (f.status.Some? ==> inv.status == f.status.value)
  }

  function InvoiceKey(inv: Invoice): SortKey { SortKey(inv.invoiceDate, inv.createdAt.instant) }

  function Selected(invoices: seq<Invoice>, f: InvoiceFilter): seq<Invoice>
  {
    Filter(invoices, inv => Matches(f, inv))
  }

  function ItemsOf(items: seq<InvoiceItem>, invoiceId: int): seq<InvoiceItem>
  {
    Filter(items, (it: InvoiceItem) => it.invoiceId == invoiceId)
  }

  /** The response of `GET`: the matching rows, or one invoice with its items when an
      invoice id was asked for and found. */
  datatype InvoiceListing = Rows(rows: seq<Invoice>) | WithItems(invoice: Invoice, items: seq<InvoiceItem>)

  function ListInvoices(invoices: seq<Invoice>, items: seq<InvoiceItem>, f: InvoiceFilter): InvoiceListing
  {
    var rows := SortDesc(Selected(invoices, f), InvoiceKey);
    if f.invoiceId.Some? && |rows| > 0 then WithItems(rows[0], ItemsOf(items, f.invoiceId.value))
    else Rows(rows)
  }

  /** The listing holds exactly the invoices that match every filter, newest invoice
      date first, then newest creation first; when an invoice id is given and an
      invoice matches, the answer is instead that invoice with all of its items in item
      id order. */
  lemma ListInvoicesSpec(invoices: seq<Invoice>, items: seq<InvoiceItem>, f: InvoiceFilter)
    requires TableOk(invoices, items)
    ensures ListInvoices(invoices, items, f).WithItems? <==>
      f.invoiceId.Some? && exists x :: x in invoices && Matches(f, x)
    ensures match ListInvoices(invoices, items, f)
      case Rows(rows) =>
        && multiset(rows) == multiset(Selected(invoices, f))
        && (forall x :: x in rows <==> x in invoices && Matches(f, x))
        && SortedDesc(rows, InvoiceKey)
      case WithItems(inv, its) =>
        && f.invoiceId.Some? && 1 <= f.invoiceId.value <= |invoices|
        && inv == invoices[f.invoiceId.value - 1] && Matches(f, inv)
        && (forall x :: x in its <==> x in items && x.invoiceId == inv.id)
        && (forall i, j :: 0 <= i < j < |its| ==> its[i].id < its[j].id)
  {
    var sel := Selected(invoices, f);
    var rows := SortDesc(sel, InvoiceKey);
    SortDescSorted(sel, InvoiceKey);
    assert forall x :: x in rows <==> x in multiset(sel);
    if f.invoiceId.Some? && |rows| > 0 {
      var inv := rows[0];
      assert inv in multiset(rows);
      assert inv in sel;
      var k :| 0 <= k < |invoices| && invoices[k] == inv;
      FilterKeepsOrder(items, (it: InvoiceItem) => it.invoiceId == f.invoiceId.value, (it: InvoiceItem) => it.id);
    }
  }
}
