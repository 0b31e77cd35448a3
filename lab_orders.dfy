/** Lab orders (app/api/lab-orders/route.ts): the order row with its defaults, the
    `COALESCE` merge of status and specimen timestamps, the order number and the `GET`
    listing. */
module LabOrders {
  import opened Common
  import opened Numbering
  import opened Listing

  const LabFieldsRequired: string := "Patient ID and test ID are required"
  const OrderIdRequired: string := "Order ID is required"
  const LabOrderNotFound: string := "Lab order not found"

  /** The body of `POST /api/lab-orders`. */
  datatype LabOrderRequest = LabOrderRequest(
    patientId: Field<int>,
    encounterId: Field<int>,
    testId: Field<int>,
    priority: Field<string>,
    clinicalIndication: Field<string>,
    specialInstructions: Field<string>)

  /** A row of the `lab_orders` table. */
  datatype LabOrder = LabOrder(
    id: int,
    orderNumber: string,
    patientId: int,
    encounterId: Option<int>,
    orderingProviderId: int,
    testId: int,
    priority: Option<string>,
    clinicalIndication: Option<string>,
    specialInstructions: Option<string>,
    status: string,
    orderedAt: Timestamp,
    collectedAt: Option<string>,
    receivedAt: Option<string>,
    completedAt: Option<string>,
    notes: Option<string>,
    updatedAt: Timestamp)

  /** The body of `PUT /api/lab-orders`. */
  datatype LabOrderPatch = LabOrderPatch(
    id: Field<int>,
    status: Field<string>,
    collectedAt: Field<string>,
    receivedAt: Field<string>,
    completedAt: Field<string>,
    notes: Field<string>)

  /** `!patientId || !testId` rejects the request. */
  predicate Accepted(req: LabOrderRequest)
  {
    TruthyId(req.patientId) && TruthyId(req.testId)
  }

  /** The order row inserted by `POST`, ordered now by the caller. */
  function NewLabOrder(id: int, number: string, actor: int, now: Timestamp, req: LabOrderRequest): LabOrder
    requires Accepted(req)
  {
    LabOrder(id, number, req.patientId.value, IdOrNull(req.encounterId), actor, req.testId.value,
             DefaultIfAbsent(req.priority, Routine), StrOrNull(req.clinicalIndication), StrOrNull(req.specialInstructions),
             Ordered, now, None, None, None, None, now)
  }

  /** A new order is the request's patient and test, with status `ordered`, priority
      `routine` unless one is sent, the caller as ordering provider, each optional field
      as given when truthy and null otherwise, and no specimen timestamp yet. */
  lemma NewLabOrderDefaults(id: int, number: string, actor: int, now: Timestamp, req: LabOrderRequest)
    requires Accepted(req)
    ensures var o := NewLabOrder(id, number, actor, now, req);
      && o.status == Ordered && o.orderingProviderId == actor && o.orderedAt == now
      && (req.priority.Absent? ==> o.priority == Some(Routine))
      && (req.priority.Null? ==> o.priority.None?)
      && (req.priority.Given? ==> o.priority == Some(req.priority.value))
      && o.id == id && o.orderNumber == number
      && o.patientId == req.patientId.value && o.testId == req.testId.value
      && (TruthyId(req.encounterId) ==> o.encounterId == Some(req.encounterId.value))
      && (!TruthyId(req.encounterId) ==> o.encounterId.None?)
      && (TruthyStr(req.clinicalIndication) ==> o.clinicalIndication == Some(req.clinicalIndication.value))
      && (!TruthyStr(req.clinicalIndication) ==> o.clinicalIndication.None?)
      && (TruthyStr(req.specialInstructions) ==> o.specialInstructions == Some(req.specialInstructions.value))
      && (!TruthyStr(req.specialInstructions) ==> o.specialInstructions.None?)
      && o.collectedAt.None? && o.receivedAt.None? && o.completedAt.None?
  {
  }

  /** `PUT`: `COALESCE(x || null, column)` on status, the three specimen timestamps and
      notes. */
  function UpdateLabOrder(o: LabOrder, p: LabOrderPatch, now: Timestamp): LabOrder
  {
    o.(status := MergeText(p.status, o.status),
       collectedAt := MergeStr(p.collectedAt, o.collectedAt),
       receivedAt := MergeStr(p.receivedAt, o.receivedAt),
       completedAt := MergeStr(p.completedAt, o.completedAt),
       notes := MergeStr(p.notes, o.notes),
       updatedAt := now)
  }

  /** The update overwrites a field exactly when the value supplied for it is truthy and
      leaves the order itself (number, patient, test, priority, time ordered) alone. */
  lemma UpdateLabOrderMerges(o: LabOrder, p: LabOrderPatch, now: Timestamp)
    ensures var r := UpdateLabOrder(o, p, now);
      && r == o.(status := r.status, collectedAt := r.collectedAt, receivedAt := r.receivedAt,
                 completedAt := r.completedAt, notes := r.notes, updatedAt := now)
      && r.status == (if TruthyStr(p.status) then p.status.value else o.status)
      && r.collectedAt == (if TruthyStr(p.collectedAt) then Some(p.collectedAt.value) else o.collectedAt)
      && r.receivedAt == (if TruthyStr(p.receivedAt) then Some(p.receivedAt.value) else o.receivedAt)
      && r.completedAt == (if TruthyStr(p.completedAt) then Some(p.completedAt.value) else o.completedAt)
      && r.notes == (if TruthyStr(p.notes) then Some(p.notes.value) else o.notes)
      && r.orderNumber == o.orderNumber && r.patientId == o.patientId && r.testId == o.testId
      && r.orderedAt == o.orderedAt
  {
  }

  /** Repeating an update changes nothing more. */
  lemma UpdateLabOrderIdempotent(o: LabOrder, p: LabOrderPatch, t1: Timestamp, t2: Timestamp)
    ensures UpdateLabOrder(UpdateLabOrder(o, p, t1), p, t2) == UpdateLabOrder(o, p, t2)
  {
  }

  function LabYear(o: LabOrder): nat { o.orderedAt.date.year }

  function LabNumberOf(o: LabOrder): string { o.orderNumber }

  /** `generateOrderNumber('lab')`: counts the lab orders placed this year; the kind
      argument plays no part. */
  function NextLabOrderNumber(orders: seq<LabOrder>, today: Date): string
  {
    NextNumber(LabOrderDoc, orders, LabYear, today.year)
  }

  /** The invariant of the `lab_orders` table: serial ids, numbers issued by the
      generator. */
  ghost predicate TableOk(orders: seq<LabOrder>)
  {
    && (forall i :: 0 <= i < |orders| ==> orders[i].id == i + 1)
    && WellNumbered(LabOrderDoc, orders, LabYear, LabNumberOf)
  }

  /** Placing an order keeps the table's invariant, so no two lab orders share a number. */
  lemma CreateKeepsTable(orders: seq<LabOrder>, actor: int, now: Timestamp, req: LabOrderRequest)
    requires TableOk(orders)
    requires Accepted(req)
    ensures var o := NewLabOrder(|orders| + 1, NextLabOrderNumber(orders, now.date), actor, now, req);
      && TableOk(orders + [o])
      && forall i, j :: 0 <= i < j < |orders + [o]| ==> (orders + [o])[i].orderNumber != (orders + [o])[j].orderNumber
  {
    var o := NewLabOrder(|orders| + 1, NextLabOrderNumber(orders, now.date), actor, now, req);
    AppendNumbered(LabOrderDoc, orders, LabYear, LabNumberOf, o);
    NumbersDistinct(LabOrderDoc, orders + [o], LabYear, LabNumberOf);
  }

  /** Updating an order in place keeps the table's invariant. */
  lemma UpdateKeepsTable(orders: seq<LabOrder>, k: nat, p: LabOrderPatch, now: Timestamp)
    requires TableOk(orders)
    requires k < |orders|
    ensures TableOk(orders[k := UpdateLabOrder(orders[k], p, now)])
  {
    SameKeysNumbered(LabOrderDoc, orders, orders[k := UpdateLabOrder(orders[k], p, now)], LabYear, LabNumberOf);
  }

  /** The `WHERE` clause of `GET`. */
  datatype LabOrderFilter = LabOrderFilter(patientId: Option<int>, status: Option<string>)

  predicate Matches(f: LabOrderFilter, o: LabOrder)
  {
    && (f.patientId.Some? ==> o.patientId == f.patientId.value)
    && (f.status.Some? ==> o.status == f.status.value)
  }

  /** `ORDER BY ordered_at DESC`: the instant the order was placed. */
  function LabKey(o: LabOrder): SortKey { InstantKey(o.orderedAt) }

  function Selected(orders: seq<LabOrder>, f: LabOrderFilter): seq<LabOrder>
  {
    Filter(orders, o => Matches(f, o))
  }

  function ListLabOrders(orders: seq<LabOrder>, f: LabOrderFilter): seq<LabOrder>
  {
    SortDesc(Selected(orders, f), LabKey)
  }

  /** The listing holds exactly the orders matching both filters, latest first. */
  lemma ListLabOrdersSpec(orders: seq<LabOrder>, f: LabOrderFilter)
    ensures var rows := ListLabOrders(orders, f);
      && multiset(rows) == multiset(Selected(orders, f))
      && (forall x :: x in rows <==> x in orders && Matches(f, x))
      && SortedDesc(rows, LabKey)
  {
    var sel := Selected(orders, f);
    SortDescSorted(sel, LabKey);
    assert forall x :: x in ListLabOrders(orders, f) <==> x in multiset(sel);
  }
}
