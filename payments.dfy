/** Payments (app/api/payments/route.ts): the payment row, the read-modify-write of the
    invoice's `amount_paid`, `balance`, `status` and `payment_method`, the payment
    number, and the `GET` listing. */
module Payments {
  import opened Common
  import opened Numbering
  import opened Listing
  import Invoices

  const PaymentFieldsRequired: string := "Invoice ID, patient ID, amount, and payment method are required"

  /** The body of `POST /api/payments`. */
  datatype PaymentRequest = PaymentRequest(
    invoiceId: Field<int>,
    patientId: Field<int>,
    amount: Field<real>,
    paymentMethod: Field<string>,
    paymentDate: Field<Date>,
    referenceNumber: Field<string>,
    notes: Field<string>)

  /** A row of the `payments` table. */
  datatype Payment = Payment(
    id: int,
    paymentNumber: string,
    invoiceId: int,
    patientId: int,
    paymentDate: Date,
    amount: real,
    paymentMethod: string,
    referenceNumber: Option<string>,
    notes: Option<string>,
    processedBy: int,
    createdAt: Timestamp)

  /** `!invoiceId || !patientId || !amount || !paymentMethod` rejects the request: a
      missing or zero amount is refused, a negative one is not. */
  predicate Accepted(req: PaymentRequest)
  {
    TruthyId(req.invoiceId) && TruthyId(req.patientId) && TruthyNum(req.amount) && TruthyStr(req.paymentMethod)
  }

  /** The payment row inserted by `POST`; a missing date defaults to today. */
  function NewPayment(id: int, number: string, actor: int, now: Timestamp, req: PaymentRequest): Payment
    requires Accepted(req)
  {
    Payment(id, number, req.invoiceId.value, req.patientId.value,
            if req.paymentDate.Given? then req.paymentDate.value else now.date,
            req.amount.value, req.paymentMethod.value, StrOrNull(req.referenceNumber), StrOrNull(req.notes),
            actor, now)
  }

  /** A recorded payment is dated as given or, when no date is sent, today; it carries
      the request's invoice, patient, non-zero amount and method, the reference and notes
      as given when truthy and null otherwise, and the caller as the one who processed
      it. */
  lemma NewPaymentFields(id: int, number: string, actor: int, now: Timestamp, req: PaymentRequest)
    requires Accepted(req)
    ensures var p := NewPayment(id, number, actor, now, req);
      && (req.paymentDate.Given? ==> p.paymentDate == req.paymentDate.value)
      && (!req.paymentDate.Given? ==> p.paymentDate == now.date)
      && p.amount == req.amount.value && p.amount != 0.0
      && p.invoiceId == req.invoiceId.value && p.patientId == req.patientId.value
      && p.paymentMethod == req.paymentMethod.value && p.paymentMethod != ""
      && p.processedBy == actor && p.createdAt == now
      && p.id == id && p.paymentNumber == number
      && (TruthyStr(req.referenceNumber) ==> p.referenceNumber == Some(req.referenceNumber.value))
      && (!TruthyStr(req.referenceNumber) ==> p.referenceNumber.None?)
      && (TruthyStr(req.notes) ==> p.notes == Some(req.notes.value))
      && (!TruthyStr(req.notes) ==> p.notes.None?)
  {
  }

  /** The `CASE` that derives the invoice status after a payment. */
  function StatusAfter(current: string, balance: real, amountPaid: real): string
  {
    if balance <= 0.0 then Invoices.Paid
    else if amountPaid > 0.0 then Invoices.Partial
    else current
  }

  /** The `UPDATE invoices SET ...` of one payment, applied to the invoice row. Every
      right-hand side reads the row as it was before the update. */
  function ApplyPayment(inv: Invoices.Invoice, amount: real, payMethod: string, now: Timestamp): Invoices.Invoice
  {
    var paid := inv.amountPaid + amount;
    var balance := inv.totalAmount - paid;
    inv.(amountPaid := paid, balance := balance, status := StatusAfter(inv.status, balance, paid),
         paymentMethod := Some(payMethod), updatedAt := now)
  }

  /** A payment adds exactly its amount to `amount_paid`, leaves a balance equal to the
      total less the new amount paid, records its method, derives the status, and
      changes nothing else. */
  lemma ApplyPaymentEffect(inv: Invoices.Invoice, amount: real, payMethod: string, now: Timestamp)
    ensures var r := ApplyPayment(inv, amount, payMethod, now);
      && r.amountPaid == inv.amountPaid + amount
      && r.balance == r.totalAmount - r.amountPaid
      && (Invoices.Consistent(inv) ==> Invoices.Consistent(r) && r.balance == inv.balance - amount)
      && r.paymentMethod == Some(payMethod)
      && (r.balance <= 0.0 ==> r.status == Invoices.Paid)
      && (r.balance > 0.0 && r.amountPaid > 0.0 ==> r.status == Invoices.Partial)
      && (r.balance > 0.0 && r.amountPaid <= 0.0 ==> r.status == inv.status)
      && r == inv.(amountPaid := r.amountPaid, balance := r.balance, status := r.status,
                   paymentMethod := r.paymentMethod, updatedAt := now)
  {
  }

  /** Status as a function of the amounts alone: `paid` when the balance is at most 0,
      `partial` when something is paid, `pending` otherwise. */
  function DerivedStatus(total: real, amountPaid: real): string
  {
    if total - amountPaid <= 0.0 then Invoices.Paid
    else if amountPaid > 0.0 then Invoices.Partial
    else Invoices.Pending
  }

  /** The `CASE` agrees with `DerivedStatus` except in its `ELSE` branch, which keeps
      the old status: so it agrees whenever the invoice was pending or the payment
      leaves something paid or nothing owed. */
  lemma StatusFollowsRule(inv: Invoices.Invoice, amount: real, payMethod: string, now: Timestamp)
    requires inv.status == Invoices.Pending || inv.amountPaid + amount > 0.0 || inv.totalAmount - (inv.amountPaid + amount) <= 0.0
    ensures var r := ApplyPayment(inv, amount, payMethod, now);
      r.status == DerivedStatus(r.totalAmount, r.amountPaid)
  {
  }

  /** Overpaying is recorded: the balance goes negative and the status is `paid`. */
  lemma Overpayment(inv: Invoices.Invoice, amount: real, payMethod: string, now: Timestamp)
    requires Invoices.Consistent(inv)
    requires amount > inv.balance
    ensures var r := ApplyPayment(inv, amount, payMethod, now);
      r.balance < 0.0 && r.balance == inv.balance - amount && r.status == Invoices.Paid
  {
  }

  /** Two sequential payments `a` then `b` leave the aggregate one payment of `a + b`
      would leave; the status can differ only when the `ELSE` branch keeps a status. */
  lemma SequentialPayments(inv: Invoices.Invoice, a: real, m1: string, t1: Timestamp, b: real, m2: string, t2: Timestamp)
    ensures var two := ApplyPayment(ApplyPayment(inv, a, m1, t1), b, m2, t2);
      var one := ApplyPayment(inv, a + b, m2, t2);
      && two.amountPaid == inv.amountPaid + a + b
      && two == one.(status := two.status)
      && (one.amountPaid > 0.0 || one.balance <= 0.0 ==> two == one)
  {
  }

  /** A refund (a negative amount, which the handler accepts) that undoes a payment
      settling an unpaid invoice leaves it marked `paid` although its whole total is
      owed again. */
  lemma RefundKeepsPaidStatus(inv: Invoices.Invoice, t: real, m1: string, t1: Timestamp, m2: string, t2: Timestamp)
    requires Invoices.Consistent(inv) && inv.amountPaid == 0.0 && inv.totalAmount > 0.0
    requires t >= inv.totalAmount
    ensures var paid := ApplyPayment(inv, t, m1, t1);
      var refunded := ApplyPayment(paid, -t, m2, t2);
      && paid.status == Invoices.Paid
      && refunded.amountPaid == 0.0 && refunded.balance == inv.totalAmount
      && refunded.status == Invoices.Paid
      && DerivedStatus(refunded.totalAmount, refunded.amountPaid) == Invoices.Pending
  {
  }

  /** `UPDATE invoices ... WHERE id = invoiceId`: no row changes when the id is unknown. */
  function ApplyToTable(invoices: seq<Invoices.Invoice>, invoiceId: int, amount: real, payMethod: string, now: Timestamp): seq<Invoices.Invoice>
  {
    if 1 <= invoiceId <= |invoices| then invoices[invoiceId - 1 := ApplyPayment(invoices[invoiceId - 1], amount, payMethod, now)]
    else invoices
  }

  /** Applying a payment keeps the invoice tables' invariant; only the invoice with the
      given id changes, and no total changes. */
  lemma ApplyKeepsInvoiceTable(invoices: seq<Invoices.Invoice>, items: seq<Invoices.InvoiceItem>, invoiceId: int, amount: real, payMethod: string, now: Timestamp)
    requires Invoices.TableOk(invoices, items)
    ensures var r := ApplyToTable(invoices, invoiceId, amount, payMethod, now);
      && Invoices.TableOk(r, items)
      && |r| == |invoices|
      && (forall i :: 0 <= i < |r| && i != invoiceId - 1 ==> r[i] == invoices[i])
      && (forall i :: 0 <= i < |r| ==> r[i].totalAmount == invoices[i].totalAmount)
      && (1 <= invoiceId <= |invoices| ==> r[invoiceId - 1].amountPaid == invoices[invoiceId - 1].amountPaid + amount)
  {
    if 1 <= invoiceId <= |invoices| {
      Invoices.ReplaceRowKeepsTable(invoices, items, invoiceId - 1, ApplyPayment(invoices[invoiceId - 1], amount, payMethod, now));
    }
  }

  /** The sum of the amounts of the payments in `ps` that name invoice `invoiceId`. */
  function PaidTo(ps: seq<Payment>, invoiceId: int): real
  {
    if ps == [] then 0.0
    else PaidTo(ps[..|ps| - 1], invoiceId) + (if ps[|ps| - 1].invoiceId == invoiceId then ps[|ps| - 1].amount else 0.0)
  }

  /** Every invoice's `amount_paid` is the sum of the payments recorded for it since it
      was created; `since[k]` is the number of payments recorded before the invoice
      with id `k + 1` was. */
  ghost predicate PaidOk(invoices: seq<Invoices.Invoice>, payments: seq<Payment>, since: seq<nat>)
  {
    && |since| == |invoices|
    && forall k :: 0 <= k < |invoices| ==>
         since[k] <= |payments| && invoices[k].amountPaid == PaidTo(payments[since[k]..], k + 1)
  }

  lemma PaidToAppend(ps: seq<Payment>, p: Payment, invoiceId: int)
    ensures PaidTo(ps + [p], invoiceId) == PaidTo(ps, invoiceId) + (if p.invoiceId == invoiceId then p.amount else 0.0)
  {
    assert (ps + [p])[..|ps|] == ps;
  }

  /** Recording a payment and adding it to the invoice it names keeps every invoice's
      `amount_paid` equal to the payments recorded for it; a payment naming no invoice
      changes no invoice and counts for none. */
  lemma RecordKeepsPaid(invoices: seq<Invoices.Invoice>, payments: seq<Payment>, since: seq<nat>, p: Payment, payMethod: string, now: Timestamp)
    requires PaidOk(invoices, payments, since)
    ensures PaidOk(ApplyToTable(invoices, p.invoiceId, p.amount, payMethod, now), payments + [p], since)
  {
    var r := ApplyToTable(invoices, p.invoiceId, p.amount, payMethod, now);
    forall k | 0 <= k < |r|
      ensures since[k] <= |payments + [p]| && r[k].amountPaid == PaidTo((payments + [p])[since[k]..], k + 1)
    {
      assert (payments + [p])[since[k]..] == payments[since[k]..] + [p];
      PaidToAppend(payments[since[k]..], p, k + 1);
    }
  }

  /** A new invoice starts with nothing paid, and no payment is recorded after it yet. */
  lemma CreateKeepsPaid(invoices: seq<Invoices.Invoice>, payments: seq<Payment>, since: seq<nat>, inv: Invoices.Invoice)
    requires PaidOk(invoices, payments, since)
    requires inv.amountPaid == 0.0
    ensures PaidOk(invoices + [inv], payments, since + [|payments|])
  {
    assert payments[|payments|..] == [];
  }

  /** An update that keeps `amount_paid` keeps it equal to the payments recorded. */
  lemma UpdateKeepsPaid(invoices: seq<Invoices.Invoice>, payments: seq<Payment>, since: seq<nat>, k: nat, row: Invoices.Invoice)
    requires PaidOk(invoices, payments, since)
    requires k < |invoices| && row.amountPaid == invoices[k].amountPaid
    ensures PaidOk(invoices[k := row], payments, since)
  {
  }

  function PaymentDateYear(p: Payment): nat { p.paymentDate.year }

  function IssuedYear(p: Payment): nat { p.createdAt.date.year }

  function PaymentNumberOf(p: Payment): string { p.paymentNumber }

  /** `generatePaymentNumber` as written: counts the payments whose `payment_date` falls
      in the current year, although `payment_date` is chosen by the caller. */
  function PaymentNumberAsWritten(payments: seq<Payment>, today: Date): string
  {
    NextNumber(PaymentDoc, payments, PaymentDateYear, today.year)
  }

  /** A payment recorded on 2025-01-02 but dated 2024-12-31 is not counted for 2025, so
      the next payment recorded that day is issued the same number. */
  lemma BackdatedPaymentRepeatsNumber(actor: int, now: Timestamp, req: PaymentRequest)
    requires now.date == Date(2025, 1, 2)
    requires Accepted(req) && req.paymentDate == Given(Date(2024, 12, 31))
    ensures var first := NewPayment(1, PaymentNumberAsWritten([], now.date), actor, now, req);
      && first.paymentNumber == "PAY-2025-00001"
      && PaymentNumberAsWritten([first], now.date) == first.paymentNumber
  {
    var first := NewPayment(1, PaymentNumberAsWritten([], now.date), actor, now, req);
    FirstPaymentNumber2025();
    assert first.paymentNumber == "PAY-2025-00001";
    assert first.paymentDate.year == 2024;
    assert CountYear([first], PaymentDateYear, 2025) == 0 by {
      assert [first][..0] == [];
    }
  }

  lemma FirstPaymentNumber2025()
    ensures FormatNumber(Prefix(PaymentDoc), 2025, 1) == "PAY-2025-00001"
  {
    assert Decimal(2025) == "2025" by {
      assert Decimal(2) == "2";
      assert Decimal(20) == "20";
      assert Decimal(202) == "202";
    }
    assert PadStart(Decimal(1), Width, '0') == "00001";
  }

  /** The payment number as intended: payments are counted in the year they were
      recorded in, the year the number carries. */
  function NextPaymentNumber(payments: seq<Payment>, today: Date): string
  {
    NextNumber(PaymentDoc, payments, IssuedYear, today.year)
  }

  /** The invariant of the `payments` table: serial ids, no zero amount, numbers issued
      by the generator. */
  ghost predicate TableOk(payments: seq<Payment>)
  {
    && (forall i :: 0 <= i < |payments| ==> payments[i].id == i + 1 && payments[i].amount != 0.0)
    && WellNumbered(PaymentDoc, payments, IssuedYear, PaymentNumberOf)
  }

  /** The number issued next is not carried by any recorded payment, whatever the dates
      the payments were given. */
  lemma NextPaymentNumberFresh(payments: seq<Payment>, today: Date)
    requires TableOk(payments)
    ensures forall i :: 0 <= i < |payments| ==> payments[i].paymentNumber != NextPaymentNumber(payments, today)
  {
    NextNumberFresh(PaymentDoc, payments, IssuedYear, PaymentNumberOf, today.year);
  }

  /** Recording a payment keeps the table's invariant, so no two payments share a number. */
  lemma RecordKeepsTable(payments: seq<Payment>, actor: int, now: Timestamp, req: PaymentRequest)
    requires TableOk(payments)
    requires Accepted(req)
    ensures var p := NewPayment(|payments| + 1, NextPaymentNumber(payments, now.date), actor, now, req);
      && TableOk(payments + [p])
      && forall i, j :: 0 <= i < j < |payments + [p]| ==> (payments + [p])[i].paymentNumber != (payments + [p])[j].paymentNumber
  {
    var p := NewPayment(|payments| + 1, NextPaymentNumber(payments, now.date), actor, now, req);
    AppendNumbered(PaymentDoc, payments, IssuedYear, PaymentNumberOf, p);
    NumbersDistinct(PaymentDoc, payments + [p], IssuedYear, PaymentNumberOf);
  }

  /** The `WHERE` clause of `GET`. */
  datatype PaymentFilter = PaymentFilter(patientId: Option<int>, invoiceId: Option<int>)

  predicate Matches(f: PaymentFilter, p: Payment)
  {
    && (f.patientId.Some? ==> p.patientId == f.patientId.value)
    && (f.invoiceId.Some? ==> p.invoiceId == f.invoiceId.value)
  }

  function PaymentKey(p: Payment): SortKey { SortKey(p.paymentDate, p.createdAt.instant) }

  function Selected(payments: seq<Payment>, f: PaymentFilter): seq<Payment>
  {
    Filter(payments, p => Matches(f, p))
  }

  function ListPayments(payments: seq<Payment>, f: PaymentFilter): seq<Payment>
  {
    SortDesc(Selected(payments, f), PaymentKey)
  }

  /** The payment history holds exactly the payments matching both filters, latest
      payment date first, then latest recorded first. */
  lemma ListPaymentsSpec(payments: seq<Payment>, f: PaymentFilter)
    ensures var rows := ListPayments(payments, f);
      && multiset(rows) == multiset(Selected(payments, f))
      && (forall x :: x in rows <==> x in payments && Matches(f, x))
      && SortedDesc(rows, PaymentKey)
  {
    var sel := Selected(payments, f);
    SortDescSorted(sel, PaymentKey);
    assert forall x :: x in ListPayments(payments, f) <==> x in multiset(sel);
  }
}
