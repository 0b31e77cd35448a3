/** Values shared by every billing route handler: JSON request fields with JavaScript
    truthiness, nullable columns, dates and timestamps, and handler results. */
module Common {

  datatype Option<T> = None | Some(value: T)

  /** A field of a JSON request body after destructuring: missing (`undefined`), an
      explicit `null`, or a value. Destructuring defaults (`x = d`) apply only to
      `Absent`; the `x || d` idiom applies to every falsy value. */
  datatype Field<T> = Absent | Null | Given(value: T)

  /** JavaScript truthiness of a string field: present and non-empty. */
  predicate TruthyStr(f: Field<string>) { f.Given? && f.value != "" }

  /** JavaScript truthiness of a numeric field: present and not zero. */
  predicate TruthyNum(f: Field<real>) { f.Given? && f.value != 0.0 }

  /** JavaScript truthiness of an integer id field: present and not zero. */
  predicate TruthyId(f: Field<int>) { f.Given? && f.value != 0 }

  /** `x || null` on a string field, as bound to a nullable column. */
  function StrOrNull(f: Field<string>): Option<string>
  {
    if TruthyStr(f) then Some(f.value) else None
  }

  /** `x || null` on an id field. */
  function IdOrNull(f: Field<int>): Option<int>
  {
    if TruthyId(f) then Some(f.value) else None
  }

  /** A field bound to a column as it is: `undefined` and `null` both become NULL. */
  function AsColumn<T>(f: Field<T>): Option<T>
  {
    if f.Given? then Some(f.value) else None
  }

  /** A destructuring default `x = d`: only a missing field takes `d`; `null` stays
      NULL and an empty string is kept. */
  function DefaultIfAbsent(f: Field<string>, d: string): Option<string>
  {
    match f
    case Absent => Some(d)
    case Null => None
    case Given(v) => Some(v)
  }

  /** `COALESCE(x || null, column)` for a nullable string column. */
  function MergeStr(f: Field<string>, column: Option<string>): Option<string>
  {
    if TruthyStr(f) then Some(f.value) else column
  }

  /** `COALESCE(x || null, column)` for a non-null string column. */
  function MergeText(f: Field<string>, column: string): string
  {
    if TruthyStr(f) then f.value else column
  }

  /** `COALESCE(x || null, column)` for a nullable money column. */
  function MergeNum(f: Field<real>, column: Option<real>): Option<real>
  {
    if TruthyNum(f) then Some(f.value) else column
  }

  /** The status every new lab or imaging order starts in. */
  const Ordered: string := "ordered"

  /** The priority an order takes when the request leaves it out. */
  const Routine: string := "routine"

  /** A calendar date (SQL `DATE`). */
  datatype Date = Date(year: nat, month: nat, day: nat)

  /** A clock reading (SQL `TIMESTAMP`): its calendar date and an instant that orders
      readings. One reading stands for both `new Date()` and `CURRENT_DATE` /
      `CURRENT_TIMESTAMP` within one request. */
  datatype Timestamp = Timestamp(date: Date, instant: nat)

  /** The error responses of the handlers (HTTP 400 and 404). */
  datatype Failure = BadRequest(message: string) | NotFound(message: string)

  datatype Result<T> = Ok(value: T) | Err(error: Failure)
}
