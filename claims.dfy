/** Insurance claims (app/api/claims/route.ts): submission with its required fields and
    defaults, the field-by-field `COALESCE` merge of an adjudication, the claim number and
    the `GET` listing. */
module Claims {
  import opened Common
  import opened Numbering
  import opened Listing

  const Submitted: string := "submitted"
  const SelfRelationship: string := "Self"

  const ClaimFieldsRequired: string := "Required fields missing"
  const ClaimIdRequired: string := "Claim ID is required"
  const ClaimNotFound: string := "Claim not found"

  /** The body of `POST /api/claims`. */
  datatype ClaimRequest = ClaimRequest(
    patientId: Field<int>,
    encounterId: Field<int>,
    invoiceId: Field<int>,
    insuranceCompany: Field<string>,
    policyNumber: Field<string>,
    groupNumber: Field<string>,
    subscriberName: Field<string>,
    subscriberRelationship: Field<string>,
    serviceDate: Field<string>,
    diagnosisCodes: Field<seq<string>>,
    procedureCodes: Field<seq<string>>,
    totalCharged: Field<real>,
    notes: Field<string>)

  /** A row of the `insurance_claims` table. */
  datatype Claim = Claim(
    id: int,
    claimNumber: string,
    patientId: int,
    encounterId: Option<int>,
    invoiceId: Option<int>,
    insuranceCompany: string,
    policyNumber: string,
    groupNumber: Option<string>,
    subscriberName: Option<string>,
    subscriberRelationship: string,
    claimDate: Date,
    serviceDate: string,
    diagnosisCodes: seq<string>,
    procedureCodes: seq<string>,
    totalCharged: real,
    amountApproved: Option<real>,
    amountPaid: Option<real>,
    patientResponsibility: Option<real>,
    status: string,
    submissionDate: Date,
    responseDate: Option<string>,
    denialReason: Option<string>,
    notes: Option<string>,
    createdBy: int,
    createdAt: Timestamp,
    updatedAt: Timestamp)

  /** The body of `PUT /api/claims`: an adjudication. */
  datatype ClaimPatch = ClaimPatch(
    id: Field<int>,
    status: Field<string>,
    amountApproved: Field<real>,
    amountPaid: Field<real>,
    patientResponsibility: Field<real>,
    responseDate: Field<string>,
    denialReason: Field<string>,
    notes: Field<string>)

  /** `!patientId || !insuranceCompany || !policyNumber || !serviceDate || !totalCharged`
      rejects the request: a total of 0 counts as missing. */
  predicate Accepted(req: ClaimRequest)
  {
    && TruthyId(req.patientId) && TruthyStr(req.insuranceCompany) && TruthyStr(req.policyNumber)
    && TruthyStr(req.serviceDate) && TruthyNum(req.totalCharged)
  }

  /** `codes || []`: an array is always truthy, so only a missing or null list defaults. */
  function CodesOrEmpty(f: Field<seq<string>>): seq<string>
  {
    if f.Given? then f.value else []
  }

  /** The claim row inserted by `POST`, dated and submitted today. */
  function NewClaim(id: int, number: string, actor: int, now: Timestamp, req: ClaimRequest): Claim
    requires Accepted(req)
  {
    Claim(id, number, req.patientId.value, IdOrNull(req.encounterId), IdOrNull(req.invoiceId),
          req.insuranceCompany.value, req.policyNumber.value, StrOrNull(req.groupNumber), StrOrNull(req.subscriberName),
          if TruthyStr(req.subscriberRelationship) then req.subscriberRelationship.value else SelfRelationship,
          now.date, req.serviceDate.value, CodesOrEmpty(req.diagnosisCodes), CodesOrEmpty(req.procedureCodes),
          req.totalCharged.value, None, None, None, Submitted, now.date, None, None, StrOrNull(req.notes),
          actor, now, now)
  }

  /** A submitted claim: the request's patient, payer, policy, service date and total
      charged; status `submitted`, the payer's figures not yet known; the relationship
      as given when truthy, `Self` otherwise; the code lists as given, empty when
      missing; each optional reference as given when truthy, null otherwise. */
  lemma NewClaimDefaults(id: int, number: string, actor: int, now: Timestamp, req: ClaimRequest)
    requires Accepted(req)
    ensures var c := NewClaim(id, number, actor, now, req);
      && c.status == Submitted && c.submissionDate == now.date && c.claimDate == now.date
      && c.amountApproved.None? && c.amountPaid.None? && c.patientResponsibility.None?
      && c.denialReason.None? && c.responseDate.None?
      && c.totalCharged == req.totalCharged.value && c.totalCharged != 0.0
      && c.id == id && c.claimNumber == number && c.createdBy == actor
      && c.patientId == req.patientId.value && c.insuranceCompany == req.insuranceCompany.value
      && c.policyNumber == req.policyNumber.value && c.serviceDate == req.serviceDate.value
      && (TruthyStr(req.subscriberRelationship) ==> c.subscriberRelationship == req.subscriberRelationship.value)
      && (!TruthyStr(req.subscriberRelationship) ==> c.subscriberRelationship == SelfRelationship)
      && (req.diagnosisCodes.Given? ==> c.diagnosisCodes == req.diagnosisCodes.value)
      && (!req.diagnosisCodes.Given? ==> c.diagnosisCodes == [])
      && (req.procedureCodes.Given? ==> c.procedureCodes == req.procedureCodes.value)
      && (!req.procedureCodes.Given? ==> c.procedureCodes == [])
      && (TruthyStr(req.groupNumber) ==> c.groupNumber == Some(req.groupNumber.value))
      && (!TruthyStr(req.groupNumber) ==> c.groupNumber.None?)
      && (TruthyStr(req.subscriberName) ==> c.subscriberName == Some(req.subscriberName.value))
      && (!TruthyStr(req.subscriberName) ==> c.subscriberName.None?)
      && (TruthyId(req.encounterId) ==> c.encounterId == Some(req.encounterId.value))
      && (!TruthyId(req.encounterId) ==> c.encounterId.None?)
      && (TruthyId(req.invoiceId) ==> c.invoiceId == Some(req.invoiceId.value))
      && (!TruthyId(req.invoiceId) ==> c.invoiceId.None?)
      && (TruthyStr(req.notes) ==> c.notes == Some(req.notes.value))
      && (!TruthyStr(req.notes) ==> c.notes.None?)
  {
  }

  /** `PUT`: `COALESCE(x || null, column)` on the seven adjudication fields. */
  function Adjudicate(c: Claim, p: ClaimPatch, now: Timestamp): Claim
  {
    c.(status := MergeText(p.status, c.status),
       amountApproved := MergeNum(p.amountApproved, c.amountApproved),
       amountPaid := MergeNum(p.amountPaid, c.amountPaid),
       patientResponsibility := MergeNum(p.patientResponsibility, c.patientResponsibility),
       responseDate := MergeStr(p.responseDate, c.responseDate),
       denialReason := MergeStr(p.denialReason, c.denialReason),
       notes := MergeStr(p.notes, c.notes),
       updatedAt := now)
  }

  /** An adjudication overwrites a field exactly when the value supplied for it is
      truthy, and never changes the claim number, patient, payer, policy, codes or total
      charged. */
  lemma AdjudicateMerges(c: Claim, p: ClaimPatch, now: Timestamp)
    ensures var r := Adjudicate(c, p, now);
      && r == c.(status := r.status, amountApproved := r.amountApproved, amountPaid := r.amountPaid,
                 patientResponsibility := r.patientResponsibility, responseDate := r.responseDate,
                 denialReason := r.denialReason, notes := r.notes, updatedAt := now)
      && r.status == (if TruthyStr(p.status) then p.status.value else c.status)
      && r.amountApproved == (if TruthyNum(p.amountApproved) then Some(p.amountApproved.value) else c.amountApproved)
      && r.amountPaid == (if TruthyNum(p.amountPaid) then Some(p.amountPaid.value) else c.amountPaid)
      && r.patientResponsibility == (if TruthyNum(p.patientResponsibility) then Some(p.patientResponsibility.value) else c.patientResponsibility)
      && r.responseDate == (if TruthyStr(p.responseDate) then Some(p.responseDate.value) else c.responseDate)
      && r.denialReason == (if TruthyStr(p.denialReason) then Some(p.denialReason.value) else c.denialReason)
      && r.notes == (if TruthyStr(p.notes) then Some(p.notes.value) else c.notes)
      && r.claimNumber == c.claimNumber && r.patientId == c.patientId
      && r.insuranceCompany == c.insuranceCompany && r.policyNumber == c.policyNumber
      && r.totalCharged == c.totalCharged
  {
  }

  /** A zero amount or an empty string cannot overwrite a stored value: `x || null`
      turns it into null and `COALESCE` keeps the column. */
  lemma FalsyValuesKeepStored(c: Claim, p: ClaimPatch, now: Timestamp)
    requires p.amountApproved == Given(0.0) && p.amountPaid == Given(0.0) && p.patientResponsibility == Given(0.0)
    requires p.status == Given("") && p.responseDate == Given("") && p.denialReason == Given("") && p.notes == Given("")
    ensures Adjudicate(c, p, now) == c.(updatedAt := now)
  {
  }

  /** Repeating an adjudication changes nothing more. */
  lemma AdjudicateIdempotent(c: Claim, p: ClaimPatch, t1: Timestamp, t2: Timestamp)
    ensures Adjudicate(Adjudicate(c, p, t1), p, t2) == Adjudicate(c, p, t2)
  {
  }

  /** A denial that gives a reason but no approved amount leaves a claim that had no
      approved amount denied, still unapproved, with that reason and its total charged. */
  lemma DeniedClaimKeepsNoApproval(c: Claim, p: ClaimPatch, later: Timestamp)
    requires c.amountApproved.None?
    requires p.status == Given("denied") && TruthyStr(p.denialReason)
    requires !TruthyNum(p.amountApproved)
    ensures var r := Adjudicate(c, p, later);
      && r.status == "denied" && r.amountApproved.None? && r.denialReason == Some(p.denialReason.value)
      && r.totalCharged == c.totalCharged
  {
  }

  function ClaimYear(c: Claim): nat { c.claimDate.year }

  function ClaimNumberOf(c: Claim): string { c.claimNumber }

  /** `generateClaimNumber`: counts the claims dated in this year. */
  function NextClaimNumber(claims: seq<Claim>, today: Date): string
  {
    NextNumber(ClaimDoc, claims, ClaimYear, today.year)
  }

  /** The invariant of the `insurance_claims` table: serial ids, a non-zero total
      charged, numbers issued by the generator. */
  ghost predicate TableOk(claims: seq<Claim>)
  {
    && (forall i :: 0 <= i < |claims| ==> claims[i].id == i + 1 && claims[i].totalCharged != 0.0)
    && WellNumbered(ClaimDoc, claims, ClaimYear, ClaimNumberOf)
  }

  /** Submitting a claim keeps the table's invariant, so no two claims share a number. */
  lemma SubmitKeepsTable(claims: seq<Claim>, actor: int, now: Timestamp, req: ClaimRequest)
    requires TableOk(claims)
    requires Accepted(req)
    ensures var c := NewClaim(|claims| + 1, NextClaimNumber(claims, now.date), actor, now, req);
      && TableOk(claims + [c])
      && forall i, j :: 0 <= i < j < |claims + [c]| ==> (claims + [c])[i].claimNumber != (claims + [c])[j].claimNumber
  {
    var c := NewClaim(|claims| + 1, NextClaimNumber(claims, now.date), actor, now, req);
    AppendNumbered(ClaimDoc, claims, ClaimYear, ClaimNumberOf, c);
    NumbersDistinct(ClaimDoc, claims + [c], ClaimYear, ClaimNumberOf);
  }

  /** Adjudicating a claim in place keeps the table's invariant. */
  lemma AdjudicateKeepsTable(claims: seq<Claim>, k: nat, p: ClaimPatch, now: Timestamp)
    requires TableOk(claims)
    requires k < |claims|
    ensures TableOk(claims[k := Adjudicate(claims[k], p, now)])
  {
    SameKeysNumbered(ClaimDoc, claims, claims[k := Adjudicate(claims[k], p, now)], ClaimYear, ClaimNumberOf);
  }

  /** The `WHERE` clause of `GET`. */
  datatype ClaimFilter = ClaimFilter(patientId: Option<int>, status: Option<string>)

  predicate Matches(f: ClaimFilter, c: Claim)
  {
    && (f.patientId.Some? ==> c.patientId == f.patientId.value)
    && (f.status.Some? ==> c.status == f.status.value)
  }

  function ClaimKey(c: Claim): SortKey { SortKey(c.claimDate, c.createdAt.instant) }

  function Selected(claims: seq<Claim>, f: ClaimFilter): seq<Claim>
  {
    Filter(claims, c => Matches(f, c))
  }

  function ListClaims(claims: seq<Claim>, f: ClaimFilter): seq<Claim>
  {
    SortDesc(Selected(claims, f), ClaimKey)
  }

  /** The listing holds exactly the claims matching both filters, latest claim date
      first, then latest created first. */
  lemma ListClaimsSpec(claims: seq<Claim>, f: ClaimFilter)
    ensures var rows := ListClaims(claims, f);
      && multiset(rows) == multiset(Selected(claims, f))
      && (forall x :: x in rows <==> x in claims && Matches(f, x))
      && SortedDesc(rows, ClaimKey)
  {
    var sel := Selected(claims, f);
    SortDescSorted(sel, ClaimKey);
    assert forall x :: x in ListClaims(claims, f) <==> x in multiset(sel);
  }
}
