/** Imaging orders (app/api/imaging-orders/route.ts): the order row with its defaults,
    the order number and the `GET` listing. */
module ImagingOrders {
  import opened Common
  import opened Numbering
  import opened Listing

  const ImagingFieldsRequired: string := "Required fields missing"

  /** The body of `POST /api/imaging-orders`. */
  datatype ImagingOrderRequest = ImagingOrderRequest(
    patientId: Field<int>,
    encounterId: Field<int>,
    studyId: Field<int>,
    priority: Field<string>,
    clinicalIndication: Field<string>)

  /** A row of the `imaging_orders` table. */
  datatype ImagingOrder = ImagingOrder(
    id: int,
    orderNumber: string,
    patientId: int,
    encounterId: Option<int>,
    orderingProviderId: int,
    studyId: int,
    priority: Option<string>,
    clinicalIndication: string,
    status: string,
    orderedAt: Timestamp)

  /** `!patientId || !studyId || !clinicalIndication` rejects the request. */
  predicate Accepted(req: ImagingOrderRequest)
  {
    TruthyId(req.patientId) && TruthyId(req.studyId) && TruthyStr(req.clinicalIndication)
  }

  /** The order row inserted by `POST`, ordered now by the caller. */
  function NewImagingOrder(id: int, number: string, actor: int, now: Timestamp, req: ImagingOrderRequest): ImagingOrder
    requires Accepted(req)
  {
    ImagingOrder(id, number, req.patientId.value, IdOrNull(req.encounterId), actor, req.studyId.value,
                 DefaultIfAbsent(req.priority, Routine), req.clinicalIndication.value, Ordered, now)
  }

  /** A new order is the request's patient and study, with status `ordered`, priority
      `routine` unless one is sent, the encounter as given when truthy and null
      otherwise, and the indication it was given. */
  lemma NewImagingOrderDefaults(id: int, number: string, actor: int, now: Timestamp, req: ImagingOrderRequest)
    requires Accepted(req)
    ensures var o := NewImagingOrder(id, number, actor, now, req);
      && o.status == Ordered && o.orderingProviderId == actor && o.orderedAt == now
      && (req.priority.Absent? ==> o.priority == Some(Routine))
      && (req.priority.Null? ==> o.priority.None?)
      && (req.priority.Given? ==> o.priority == Some(req.priority.value))
      && o.id == id && o.orderNumber == number
      && o.patientId == req.patientId.value && o.studyId == req.studyId.value
      && (TruthyId(req.encounterId) ==> o.encounterId == Some(req.encounterId.value))
      && (!TruthyId(req.encounterId) ==> o.encounterId.None?)
      && o.clinicalIndication == req.clinicalIndication.value && o.clinicalIndication != ""
  {
  }

  function ImagingYear(o: ImagingOrder): nat { o.orderedAt.date.year }

  function ImagingNumberOf(o: ImagingOrder): string { o.orderNumber }

  /** `generateOrderNumber`: counts the imaging orders placed this year. */
  function NextImagingOrderNumber(orders: seq<ImagingOrder>, today: Date): string
  {
    NextNumber(ImagingOrderDoc, orders, ImagingYear, today.year)
  }

  /** The invariant of the `imaging_orders` table: serial ids, a non-empty indication,
      numbers issued by the generator. */
  ghost predicate TableOk(orders: seq<ImagingOrder>)
  {
    && (forall i :: 0 <= i < |orders| ==> orders[i].id == i + 1 && orders[i].clinicalIndication != "")
    && WellNumbered(ImagingOrderDoc, orders, ImagingYear, ImagingNumberOf)
  }

  /** Placing an order keeps the table's invariant, so no two imaging orders share a
      number. */
  lemma CreateKeepsTable(orders: seq<ImagingOrder>, actor: int, now: Timestamp, req: ImagingOrderRequest)
    requires TableOk(orders)
    requires Accepted(req)
    ensures var o := NewImagingOrder(|orders| + 1, NextImagingOrderNumber(orders, now.date), actor, now, req);
      && TableOk(orders + [o])
      && forall i, j :: 0 <= i < j < |orders + [o]| ==> (orders + [o])[i].orderNumber != (orders + [o])[j].orderNumber
  {
    var o := NewImagingOrder(|orders| + 1, NextImagingOrderNumber(orders, now.date), actor, now, req);
    AppendNumbered(ImagingOrderDoc, orders, ImagingYear, ImagingNumberOf, o);
    NumbersDistinct(ImagingOrderDoc, orders + [o], ImagingYear, ImagingNumberOf);
  }

  /** The `WHERE` clause of `GET`: only the patient can be filtered on. */
  datatype ImagingOrderFilter = ImagingOrderFilter(patientId: Option<int>)

  predicate Matches(f: ImagingOrderFilter, o: ImagingOrder)
  {
    f.patientId.Some? ==> o.patientId == f.patientId.value
  }

  /** `ORDER BY ordered_at DESC`: the instant the order was placed. */
  function ImagingKey(o: ImagingOrder): SortKey { InstantKey(o.orderedAt) }

  function Selected(orders: seq<ImagingOrder>, f: ImagingOrderFilter): seq<ImagingOrder>
  {
    Filter(orders, o => Matches(f, o))
  }

  function ListImagingOrders(orders: seq<ImagingOrder>, f: ImagingOrderFilter): seq<ImagingOrder>
  {
    SortDesc(Selected(orders, f), ImagingKey)
  }

  /** The listing holds exactly the patient's orders (all orders when no patient is
      given), latest first. */
  lemma ListImagingOrdersSpec(orders: seq<ImagingOrder>, f: ImagingOrderFilter)
    ensures var rows := ListImagingOrders(orders, f);
      && multiset(rows) == multiset(Selected(orders, f))
      && (forall x :: x in rows <==> x in orders && Matches(f, x))
      && (f.patientId.None? ==> multiset(rows) == multiset(orders))
      && SortedDesc(rows, ImagingKey)
  {
    var sel := Selected(orders, f);
    SortDescSorted(sel, ImagingKey);
    assert forall x :: x in ListImagingOrders(orders, f) <==> x in multiset(sel);
    if f.patientId.None? {
      assert forall x :: multiset(sel)[x] == multiset(orders)[x];
      assert multiset(sel) == multiset(orders);
    }
  }
}
