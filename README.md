# Revenue-cycle core of the clinic management system

This project models the billing ("revenue cycle") logic of the clinic management
system: the five route handlers that number, create, update and list invoices,
payments, insurance claims, lab orders and imaging orders. Each is modelled as
its source implements it, with one exception: the store issues payment numbers
with the corrected generator of "## Findings" (`Payments.NextPaymentNumber`), not
the as-written one (`Payments.PaymentNumberAsWritten`).

- **Document numbering** (`Numbering`). Every document gets a number
  `PREFIX-<year>-<n>`. Here `n` is the count of the table's rows dated in the
  current year, plus one. It is padded with `'0'` to at least five digits by
  `padStart`, which never truncates. The model proves the number reads back to
  its year and counter. It also proves numbers of one prefix are injective, and
  that a table built one request at a time never repeats a number.
- **Invoices** (`Invoices`). Creation computes subtotal, tax, total and balance
  from the line items. It stores the invoice as `pending`, then one item row per
  input item, in order. The model proves the stored items sum to the subtotal.
  An administrative update merges status, payment method and notes
  (`COALESCE(x || null, column)`) and never touches the money fields.
- **Payments** (`Payments`). A payment is recorded and then added to the invoice
  it names. `amount_paid` grows by the amount, `balance = total_amount −
  amount_paid` is recomputed, and the status comes from a three-way `CASE`
  (paid / partial / unchanged).
- **Insurance claims** (`Claims`). Creation checks the required fields, fills in
  defaults and sets status `submitted`. Adjudication is a `COALESCE` merge: a
  field is overwritten only by a truthy value, so `0` and `""` never overwrite
  what is stored.
- **Lab and imaging orders** (`LabOrders`, `ImagingOrders`). Creation fills in
  defaults with status `ordered`. A lab-order update merges the status and the
  specimen timestamps.
- **Listings** (`Listing` and the `List...` functions). Every `GET` keeps the
  rows that satisfy all the supplied filters. It returns them ordered newest
  first by the route's sort key.
- **The database** (`Database.Store`). A class holds every table as a sequence.
  There is one method per `POST`/`PUT` handler. Each method either returns the
  handler's 400/404 error and changes nothing, or changes exactly the rows the
  handler's SQL statements touch. Each method keeps every table's invariant:
  serial ids, `total = subtotal + tax − discount`, `balance = total −
  amount_paid`, each subtotal equal to the sum of its items, each `amount_paid`
  equal to the sum of the payments recorded for that invoice since it was
  created, and document numbers never issued twice. For payments this holds for the corrected
  numbering only; the as-written numbering can repeat a number.

Behaviour of the code that the model keeps, although it is not what the names
and messages of the system suggest:

- A payment with a negative amount is accepted. Only a missing or zero amount is
  refused.
- The status `CASE` keeps the old status in its `ELSE` branch, so the status is
  not always `paid` when the balance is at most 0, `partial` when something is
  paid and `pending` otherwise (`Payments.RefundKeepsPaidStatus`).
- An overpayment leaves a negative balance.
- Invoice prices are the caller's `unitPrice`. No catalog lookup is made.
- Numbers come from counting rows, not from an atomic counter. Numbers are
  unique only because each handler runs as one sequential, atomic step.
- Payment numbers count the payments by their `payment_date`, which the caller
  chooses. That is a defect (see "## Findings"). The store uses the corrected
  numbering.

Assumptions about the schema, whose definition is not part of this model:

- `invoice_date` and `claim_date` default to the current date.
- `ordered_at` and `created_at` default to the current timestamp.
- `amount_paid` defaults to 0. The payment handler relies on this.
- Ids are serial and rows are never deleted, so the row with id `k` is the
  `k`-th row.
- `payments.invoice_id` is not checked as a foreign key. A payment naming an
  unknown invoice is recorded and changes no invoice.

## Model

| member | source | states |
|---|---|---|
| Numbering.Decimal | app/api/invoices/route.ts:35 | `toString()` yields a non-empty run of digits with no leading zero |
| Numbering.PadStart | app/api/invoices/route.ts:35 | `padStart` widens to the target width by prepending the fill, keeps the string as its suffix and never truncates |
| Numbering.DecimalRoundTrip | app/api/invoices/route.ts:34-35 | reading the decimal digits of `n` back gives `n` |
| Numbering.ParseFormatted | app/api/invoices/route.ts:34-35 | a formatted number reads back to its year and its counter, and the counter part is at least five digits wide |
| Numbering.FormatInjective | app/api/invoices/route.ts:28-36 | two numbers with one prefix are equal only for the same year and counter |
| Numbering.KindsDisjoint | app/api/claims/route.ts:35 | numbers of different document kinds never coincide |
| Numbering.NextNumberFresh | app/api/invoices/route.ts:28-36 | in a table where every row got the number issued when it was added, the next number is carried by no row |
| Numbering.NumbersDistinct | app/api/claims/route.ts:28-36 | in such a table no two rows share a number |
| Numbering.AppendNumbered | app/api/lab-orders/route.ts:27-35 | appending a row with the next number keeps the table numbered that way |
| Numbering.SameKeysNumbered | app/api/invoices/route.ts:209-218 | updating rows in place without touching their dates or numbers keeps the table numbered that way |
| Listing.Filter | app/api/invoices/route.ts:67-80 | the `WHERE` clause keeps exactly the rows that satisfy the predicate, each as often as in the table |
| Listing.FilterKeepsOrder | app/api/invoices/route.ts:88-95 | filtering keeps table order, so items listed by invoice stay in increasing id order |
| Listing.SortDesc | app/api/invoices/route.ts:82 | `ORDER BY ... DESC` returns a permutation of its rows |
| Listing.SortDescSorted | app/api/invoices/route.ts:82 | the sorted rows come newest first by their key |
| Listing.InstantKeyOrder | app/api/lab-orders/route.ts:72 | ordering by `ordered_at` alone compares exactly the instants of the timestamps |
| Invoices.NewInvoiceTotals | app/api/invoices/route.ts:123-166 | a new invoice has subtotal Σ quantity×unitPrice, tax = subtotal×taxRate/100 (0 without a rate), the discount sent (0 without one) stored as its discount, total = subtotal + tax − discount, balance = total, nothing paid, status `pending` |
| Invoices.ItemRows | app/api/invoices/route.ts:171-185 | one item row per input item, in input order, each owned by the new invoice, with consecutive ids |
| Invoices.ItemRowsSum | app/api/invoices/route.ts:138-182 | the inserted items' total prices sum to the invoice's subtotal |
| Invoices.CreatePreservesTable | app/api/invoices/route.ts:135-185 | creating an invoice with its items keeps the invoice tables' invariant (serial ids, consistent totals, subtotal = sum of its items, well-numbered) |
| Invoices.PatchTouchesOnlyAdminFields | app/api/invoices/route.ts:209-218 | the update overwrites status, payment method or notes exactly when the supplied value is truthy, and no amount, date or number changes |
| Invoices.PatchIdempotent | app/api/invoices/route.ts:209-218 | applying the same update twice is applying it once |
| Invoices.PatchPreservesTable | app/api/invoices/route.ts:209-218 | an update keeps the invoice tables' invariant |
| Invoices.ListInvoicesSpec | app/api/invoices/route.ts:67-99 | the listing holds exactly the invoices matching every filter, newest invoice date then newest creation first; the single-invoice form is returned exactly when an invoice id is given and an invoice matches, and then holds that invoice with exactly its items, in item id order |
| Payments.NewPaymentFields | app/api/payments/route.ts:113-131 | a payment is dated as given or, without a date, today, and carries the request's invoice, patient, non-zero amount and method, and the reference number and notes as sent when truthy, null otherwise |
| Payments.ApplyPaymentEffect | app/api/payments/route.ts:134-147 | a payment adds exactly its amount to `amount_paid`, leaves balance = total − amount paid, records its method, derives the status by the `CASE`, and changes no other field |
| Payments.StatusFollowsRule | app/api/payments/route.ts:138-142 | the `CASE` agrees with "paid when nothing is owed, partial when something was paid, pending otherwise" whenever it does not fall into its `ELSE` branch on a non-pending invoice |
| Payments.Overpayment | app/api/payments/route.ts:137-139 | paying more than the balance leaves a negative balance and status `paid` |
| Payments.SequentialPayments | app/api/payments/route.ts:136-137 | payments of `a` then `b` leave the amounts one payment of `a + b` would leave |
| Payments.RefundKeepsPaidStatus | app/api/payments/route.ts:104-142 | for any unpaid invoice with a positive total, a payment of t ≥ total followed by a refund of −t leaves the invoice `paid` with its whole total owed, where the amounts alone would give `pending` |
| Payments.ApplyKeepsInvoiceTable | app/api/payments/route.ts:134-147 | applying a payment keeps the invoice tables' invariant; only the invoice with that id changes, and no total changes |
| Payments.RecordKeepsPaid | app/api/payments/route.ts:113-147 | inserting a payment and adding its amount to the invoice it names keeps every invoice's `amount_paid` equal to the sum of the payments recorded for it since its creation; a payment naming no existing invoice counts for none |
| Payments.CreateKeepsPaid | app/api/invoices/route.ts:145-166 | a new invoice, inserted with nothing paid, matches the (empty) set of payments recorded after it |
| Payments.UpdateKeepsPaid | app/api/invoices/route.ts:209-218 | an update that leaves `amount_paid` alone keeps it equal to the payments recorded |
| Payments.BackdatedPaymentRepeatsNumber | app/api/payments/route.ts:28-36 | with the number counted by payment date, a back-dated payment makes the next payment repeat its number |
| Payments.NextPaymentNumberFresh | app/api/payments/route.ts:28-36 | with payments counted by the year they were recorded in, the next payment number is carried by no payment |
| Payments.RecordKeepsTable | app/api/payments/route.ts:111-131 | recording a payment numbered by the corrected generator `Payments.NextPaymentNumber` keeps the payments table's invariant, so no two payments share a number |
| Payments.ListPaymentsSpec | app/api/payments/route.ts:65-75 | the history holds exactly the payments matching both filters, latest payment date then latest recorded first |
| Claims.NewClaimDefaults | app/api/claims/route.ts:120-148 | a new claim carries the request's patient, payer, policy, service date and total, is `submitted` today by the caller with no payer figures; the relationship is the one sent when truthy, else `Self`; the code lists are the ones sent, else empty; encounter, invoice, group, subscriber and notes are the values sent when truthy, else null |
| Claims.AdjudicateMerges | app/api/claims/route.ts:182-204 | adjudication overwrites each of the seven fields exactly when its supplied value is truthy, and never changes the number, patient, payer, policy or total charged |
| Claims.FalsyValuesKeepStored | app/api/claims/route.ts:194-202 | zero amounts and empty strings leave the stored claim as it was |
| Claims.AdjudicateIdempotent | app/api/claims/route.ts:182-204 | repeating an adjudication changes nothing more |
| Claims.DeniedClaimKeepsNoApproval | app/api/claims/route.ts:182-204 | for any claim without an approved amount, a denial with a truthy reason and no truthy approved amount leaves it denied, unapproved, with that reason and its total charged |
| Claims.SubmitKeepsTable | app/api/claims/route.ts:120-149 | submitting a claim keeps the claims table's invariant, so no two claims share a number |
| Claims.AdjudicateKeepsTable | app/api/claims/route.ts:182-204 | adjudicating a claim keeps the claims table's invariant |
| Claims.ListClaimsSpec | app/api/claims/route.ts:68-78 | the listing holds exactly the claims matching both filters, latest claim date then latest created first |
| LabOrders.NewLabOrderDefaults | app/api/lab-orders/route.ts:91-125 | a new lab order carries the request's patient and test, is `ordered` by the caller, priority `routine` only when none is sent (null when null is sent), encounter, indication and instructions as sent when truthy, else null, no specimen timestamps |
| LabOrders.UpdateLabOrderMerges | app/api/lab-orders/route.ts:150-161 | the update overwrites status, the three specimen timestamps and notes exactly when the supplied value is truthy, and nothing else but the update time |
| LabOrders.UpdateLabOrderIdempotent | app/api/lab-orders/route.ts:150-161 | repeating an update changes nothing more |
| LabOrders.CreateKeepsTable | app/api/lab-orders/route.ts:107-126 | placing a lab order keeps the table's invariant, so no two lab orders share a number |
| LabOrders.UpdateKeepsTable | app/api/lab-orders/route.ts:150-161 | updating a lab order keeps the table's invariant |
| LabOrders.ListLabOrdersSpec | app/api/lab-orders/route.ts:62-72 | the listing holds exactly the orders matching both filters, latest first |
| ImagingOrders.NewImagingOrderDefaults | app/api/imaging-orders/route.ts:66-79 | a new imaging order carries the request's patient, study and non-empty indication, is `ordered` by the caller, priority `routine` only when none is sent (null when null is sent), encounter as sent when truthy, else null |
| ImagingOrders.CreateKeepsTable | app/api/imaging-orders/route.ts:72-79 | placing an imaging order keeps the table's invariant, so no two imaging orders share a number |
| ImagingOrders.ListImagingOrdersSpec | app/api/imaging-orders/route.ts:46-51 | the listing holds exactly the patient's orders (all orders without a patient), latest first |
| Database.InsertItems | app/api/invoices/route.ts:171-185 | the item loop produces exactly the item rows of the input items, in order |
| Database.Store.PostInvoice | app/api/invoices/route.ts:110-192 | a request without a truthy patient or with no items gets 400 and changes nothing; otherwise the numbered invoice and then its item rows are appended, and the tables keep their invariant |
| Database.Store.PutInvoice | app/api/invoices/route.ts:195-229 | a falsy id gets 400, an unknown id 404, neither changes anything; otherwise the invoice with that id is merged in place and returned |
| Database.Store.PostPayment | app/api/payments/route.ts:86-154 | a request missing a truthy invoice, patient, amount or method gets 400 and changes nothing; otherwise a payment numbered by the corrected generator `Payments.NextPaymentNumber`, distinct from every stored number, is appended and applied to the invoice with that id |
| Database.Store.PostClaim | app/api/claims/route.ts:89-156 | a request missing a required field gets 400 and changes nothing; otherwise the numbered claim is appended |
| Database.Store.PutClaim | app/api/claims/route.ts:159-215 | a falsy id gets 400, an unknown id 404, neither changes anything; otherwise the claim with that id is adjudicated in place |
| Database.Store.PostLabOrder | app/api/lab-orders/route.ts:83-133 | a request without a truthy patient or test gets 400 and changes nothing; otherwise the numbered order is appended |
| Database.Store.PutLabOrder | app/api/lab-orders/route.ts:136-172 | a falsy id gets 400, an unknown id 404, neither changes anything; otherwise the order with that id is merged in place |
| Database.Store.PostImagingOrder | app/api/imaging-orders/route.ts:61-86 | a request without a truthy patient, study or indication gets 400 and changes nothing; otherwise the numbered order is appended |

## Left out

- Authentication (`verifyAuth` and its 401 answers) is left out. The caller is an authenticated user id passed to each handler.
- The 500 answers from database failures are left out, because the database is modelled as never failing.
- SQL text assembly and the database driver are left out. Tables are sequences, and a `WHERE id = k` lookup is the row at index `k − 1`.
- Concurrency is left out. Each handler is one atomic, sequential step, so the row-count race and the lost update between payments are not modelled. Number uniqueness holds only under this sequential assumption. The non-transactional gaps between the invoice insert and its item inserts, and between the payment insert and the invoice update, are not modelled either.
- The `JOIN`ed display columns of the `GET` queries (patient, provider and catalog names) are left out. They come from tables that are not part of this model.
- The clock is a parameter. One reading stands for both `new Date()` and `CURRENT_DATE`/`CURRENT_TIMESTAMP`, so time-zone differences between them are not modelled.
- Money is an exact `real`, not a JavaScript floating-point number. Rounding, `NaN` from missing item fields, and string-typed amounts are not modelled.
- Item quantities are integers. Request fields have the types their columns suggest, so values of other JSON types are not modelled.
- `parseInt` on query parameters is left out. A filter is either absent or an already-parsed value.
- The kind argument of the lab-order number generator is ignored by the source, so it is not modelled.
- Payments.PaymentRequest: `paymentDate` is a date or missing. An empty-string date, which `||` also replaces with today, is the missing case.
- Database.Store.PostPayment: numbers the payment with the corrected generator (`Payments.NextPaymentNumber`, by the year it is recorded), not the as-written `Payments.PaymentNumberAsWritten`, so that the payments table keeps distinct numbers; the as-written behaviour is shown by `Payments.BackdatedPaymentRepeatsNumber`.
- Payments.RecordKeepsTable: is stated for the corrected numbering (`Payments.NextPaymentNumber`), not for `Payments.PaymentNumberAsWritten`, under which the invariant fails.
- A payment that names an invoice id with no row is recorded, and the `UPDATE` changes no invoice. No foreign key is modelled, so an invoice created later with that id does not count the payment: `amount_paid` is tied to the payments recorded after the invoice's creation (`Payments.PaidOk`).
- Listing.SortDesc: `ORDER BY` leaves rows with equal keys in an unspecified order. The model fixes one admissible order, and its contract states only that the result is sorted and a permutation.

## Findings

| source | as written | input that shows it | evidently intended | confidence | as-written member | corrected member |
|---|---|---|---|---|---|---|
| app/api/payments/route.ts:28-36 | the payment counter counts payments whose caller-supplied `payment_date` falls in the current year | on 2025-01-02, record a payment dated 2024-12-31 (it gets `PAY-2025-00001`), then any other payment that day: the count for 2025 is still 0, so it also gets `PAY-2025-00001` | count payments by the year they were recorded in, the year the number carries, so no number repeats | medium, not executed | Payments.BackdatedPaymentRepeatsNumber | Payments.NextPaymentNumberFresh |
