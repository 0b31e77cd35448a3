/** Document numbers `PREFIX-<year>-<n>` shared by invoices, payments, claims, lab orders
    and imaging orders: `n` is one more than the number of rows of that kind already
    dated in `<year>`, written in decimal and left-padded with '0' to five characters. */
module Numbering {
  import opened Common

  /** The kinds of numbered documents and their prefixes. */
  datatype Kind = InvoiceDoc | PaymentDoc | ClaimDoc | LabOrderDoc | ImagingOrderDoc

  function Prefix(k: Kind): string
  {
    match k
    case InvoiceDoc => "INV"
    case PaymentDoc => "PAY"
    case ClaimDoc => "CLM"
    case LabOrderDoc => "LAB"
    case ImagingOrderDoc => "IMG"
  }

  const Width: nat := 5

  predicate IsDigit(c: char) { '0' <= c <= '9' }

  predicate AllDigits(s: string) { forall i :: 0 <= i < |s| ==> IsDigit(s[i]) }

  function DigitChar(d: nat): (c: char)
    requires d < 10
    ensures IsDigit(c)
  {
    (48 + d) as char
  }

  function DigitValue(c: char): nat
    requires IsDigit(c)
  {
    (c as int) - 48
  }

  /** `n.toString()`: the decimal digits of `n` without leading zeros. */
  function Decimal(n: nat): (s: string)
    ensures 1 <= |s| && AllDigits(s)
    ensures |s| > 1 ==> s[0] != '0'
    decreases n
  {
    if n < 10 then [DigitChar(n)] else Decimal(n / 10) + [DigitChar(n % 10)]
  }

  /** The value of a string of decimal digits, as `parseInt` reads it (leading zeros
      allowed). */
  function DecimalValue(s: string): nat
    requires AllDigits(s)
  {
    if s == [] then 0 else DecimalValue(s[..|s| - 1]) * 10 + DigitValue(s[|s| - 1])
  }

  function Repeat(c: char, k: nat): (r: string)
    ensures |r| == k && forall i :: 0 <= i < k ==> r[i] == c
  {
    if k == 0 then [] else [c] + Repeat(c, k - 1)
  }

  /** `s.padStart(width, fill)`: widens `s` to `width` characters by prepending `fill`;
      a string already as wide is returned as it is (never truncated). */
  function PadStart(s: string, width: nat, fill: char): (r: string)
    ensures |r| == if |s| >= width then |s| else width
    ensures r[|r| - |s|..] == s
    ensures forall i :: 0 <= i < |r| - |s| ==> r[i] == fill
  {
    if |s| >= width then s else Repeat(fill, width - |s|) + s
  }

  /** `${PREFIX}-${year}-${n.toString().padStart(5, '0')}` */
  function FormatNumber(prefix: string, year: nat, n: nat): string
  {
    prefix + "-" + Decimal(year) + "-" + PadStart(Decimal(n), Width, '0')
  }

  /** Index of the first '-' in `s`, or `|s|` when there is none. */
  function FirstDash(s: string): (k: nat)
    ensures k <= |s|
    ensures k < |s| ==> s[k] == '-'
    ensures forall i :: 0 <= i < k ==> s[i] != '-'
  {
    if s == [] then 0 else if s[0] == '-' then 0 else 1 + FirstDash(s[1..])
  }

  /** A document number read back: its year, its counter and the width of the counter. */
  datatype Parsed = Parsed(year: nat, counter: nat, width: nat)

  /** Reads `prefix-<digits>-<digits>`, the inverse of `FormatNumber`. */
  function ParseNumber(prefix: string, s: string): Option<Parsed>
  {
    if |s| <= |prefix| || s[..|prefix|] != prefix || s[|prefix|] != '-' then None
    else ParseYearAndCounter(s[|prefix| + 1..])
  }

  /** Reads `<digits>-<digits>`. */
  function ParseYearAndCounter(rest: string): Option<Parsed>
  {
    var k := FirstDash(rest);
    if k == 0 || k == |rest| then None
    else
      var yearPart, counterPart := rest[..k], rest[k + 1..];
      if counterPart == [] || !AllDigits(yearPart) || !AllDigits(counterPart) then None
      else Some(Parsed(DecimalValue(yearPart), DecimalValue(counterPart), |counterPart|))
  }

  lemma {:induction false} DecimalRoundTrip(n: nat)
    ensures DecimalValue(Decimal(n)) == n
    decreases n
  {
    var s := Decimal(n);
    if n >= 10 {
      DecimalRoundTrip(n / 10);
      assert s[..|s| - 1] == Decimal(n / 10);
    }
  }

  lemma {:induction false} ZerosValue(k: nat)
    ensures DecimalValue(Repeat('0', k)) == 0
  {
    if k > 0 {
      var z := Repeat('0', k);
      assert z[..k - 1] == Repeat('0', k - 1);
      ZerosValue(k - 1);
    }
  }

  /** Leading zeros do not change the value `parseInt` reads. */
  lemma {:induction false} LeadingZerosValue(k: nat, s: string)
    requires AllDigits(s)
    ensures AllDigits(Repeat('0', k) + s)
    ensures DecimalValue(Repeat('0', k) + s) == DecimalValue(s)
    decreases |s|
  {
    var t := Repeat('0', k) + s;
    if s == [] {
      assert t == Repeat('0', k);
      ZerosValue(k);
    } else {
      assert t[..|t| - 1] == Repeat('0', k) + s[..|s| - 1];
      LeadingZerosValue(k, s[..|s| - 1]);
    }
  }

  /** The padded counter is all digits, at least five wide, and reads back as `n`. */
  lemma PaddedCounter(n: nat)
    ensures AllDigits(PadStart(Decimal(n), Width, '0'))
    ensures DecimalValue(PadStart(Decimal(n), Width, '0')) == n
    ensures |PadStart(Decimal(n), Width, '0')| >= Width
  {
    var d := Decimal(n);
    DecimalRoundTrip(n);
    if |d| < Width {
      LeadingZerosValue(Width - |d|, d);
    }
  }

  /** A run of digits ends at the first dash. */
  lemma FirstDashAfterDigits(y: string, c: string)
    requires AllDigits(y)
    ensures FirstDash(y + ['-'] + c) == |y|
  {
    var rest := y + ['-'] + c;
    assert rest[|y|] == '-';
    assert forall i :: 0 <= i < |y| ==> rest[i] == y[i];
  }

  lemma ParseDigitsDashDigits(y: string, c: string)
    requires |y| > 0 && AllDigits(y) && |c| > 0 && AllDigits(c)
    ensures ParseYearAndCounter(y + ['-'] + c) == Some(Parsed(DecimalValue(y), DecimalValue(c), |c|))
  {
    var rest := y + ['-'] + c;
    FirstDashAfterDigits(y, c);
    assert rest[..|y|] == y;
    assert rest[|y| + 1..] == c;
  }

  lemma ParseAfterPrefix(prefix: string, rest: string)
    ensures ParseNumber(prefix, prefix + ['-'] + rest) == ParseYearAndCounter(rest)
  {
    var s := prefix + ['-'] + rest;
    assert s[..|prefix|] == prefix;
    assert s[|prefix| + 1..] == rest;
  }

  /** Reading a formatted number back gives its year and counter, and the counter part
      is at least five digits wide. */
  lemma ParseFormatted(prefix: string, year: nat, n: nat)
    ensures ParseNumber(prefix, FormatNumber(prefix, year, n))
         == Some(Parsed(year, n, if |Decimal(n)| >= Width then |Decimal(n)| else Width))
  {
    var y, c := Decimal(year), PadStart(Decimal(n), Width, '0');
    assert FormatNumber(prefix, year, n) == prefix + ['-'] + (y + ['-'] + c);
    ParseAfterPrefix(prefix, y + ['-'] + c);
    PaddedCounter(n);
    DecimalRoundTrip(year);
    ParseDigitsDashDigits(y, c);
  }

  /** Two numbers with the same prefix are equal only for the same year and counter. */
  lemma FormatInjective(prefix: string, y1: nat, n1: nat, y2: nat, n2: nat)
    requires FormatNumber(prefix, y1, n1) == FormatNumber(prefix, y2, n2)
    ensures y1 == y2 && n1 == n2
  {
    ParseFormatted(prefix, y1, n1);
    ParseFormatted(prefix, y2, n2);
  }

  /** Numbers of different kinds never coincide. */
  lemma KindsDisjoint(k1: Kind, y1: nat, n1: nat, k2: Kind, y2: nat, n2: nat)
    requires k1 != k2
    ensures FormatNumber(Prefix(k1), y1, n1) != FormatNumber(Prefix(k2), y2, n2)
  {
    var s1, s2 := FormatNumber(Prefix(k1), y1, n1), FormatNumber(Prefix(k2), y2, n2);
    assert s1[..3] == Prefix(k1) && s2[..3] == Prefix(k2);
  }

  /** `SELECT COUNT(*) ... WHERE EXTRACT(YEAR FROM <date>) = y` over a table. */
  function CountYear<T>(rows: seq<T>, yearOf: T -> nat, y: nat): (c: nat)
    ensures c <= |rows|
  {
    if rows == [] then 0
    else CountYear(rows[..|rows| - 1], yearOf, y) + (if yearOf(rows[|rows| - 1]) == y then 1 else 0)
  }

  /** The number the generator issues next for year `y`. */
  function NextNumber<T>(kind: Kind, rows: seq<T>, yearOf: T -> nat, y: nat): string
  {
    FormatNumber(Prefix(kind), y, CountYear(rows, yearOf, y) + 1)
  }

  /** Every row carries the number the generator issued when the rows before it were
      the whole table. */
  ghost predicate WellNumbered<T>(kind: Kind, rows: seq<T>, yearOf: T -> nat, numberOf: T -> string)
  {
    forall i :: 0 <= i < |rows| ==> numberOf(rows[i]) == NextNumber(kind, rows[..i], yearOf, yearOf(rows[i]))
  }

  lemma {:induction false} CountYearPrefix<T>(rows: seq<T>, yearOf: T -> nat, y: nat, k: nat)
    requires k <= |rows|
    ensures CountYear(rows[..k], yearOf, y) <= CountYear(rows, yearOf, y)
    decreases |rows|
  {
    if k < |rows| {
      assert rows[..|rows| - 1][..k] == rows[..k];
      CountYearPrefix(rows[..|rows| - 1], yearOf, y, k);
    } else {
      assert rows[..k] == rows;
    }
  }

  /** A row that got the number issued when the rows before it were the whole table
      cannot carry the number issued next: that one counts the row itself. */
  lemma RowNumberNotNext<T>(kind: Kind, rows: seq<T>, yearOf: T -> nat, numberOf: T -> string, y: nat, i: nat)
    requires i < |rows|
    requires numberOf(rows[i]) == NextNumber(kind, rows[..i], yearOf, yearOf(rows[i]))
    ensures numberOf(rows[i]) != NextNumber(kind, rows, yearOf, y)
  {
    var yi := yearOf(rows[i]);
    var before, after := CountYear(rows[..i], yearOf, yi), CountYear(rows, yearOf, y);
    if FormatNumber(Prefix(kind), yi, before + 1) == FormatNumber(Prefix(kind), y, after + 1) {
      FormatInjective(Prefix(kind), yi, before + 1, y, after + 1);
      RowCounted(rows, yearOf, i);
    }
  }

  /** The row at `i` counts for its own year, so the rows up to it hold one more row
      of that year than the rows before it. */
  lemma RowCounted<T>(rows: seq<T>, yearOf: T -> nat, i: nat)
    requires i < |rows|
    ensures CountYear(rows[..i], yearOf, yearOf(rows[i])) < CountYear(rows, yearOf, yearOf(rows[i]))
  {
    var y := yearOf(rows[i]);
    assert rows[..i + 1][..i] == rows[..i];
    assert CountYear(rows[..i + 1], yearOf, y) == CountYear(rows[..i], yearOf, y) + 1;
    CountYearPrefix(rows, yearOf, y, i + 1);
  }

  /** The next number differs from every number already in a well-numbered table. */
  lemma NextNumberFresh<T>(kind: Kind, rows: seq<T>, yearOf: T -> nat, numberOf: T -> string, y: nat)
    requires WellNumbered(kind, rows, yearOf, numberOf)
    ensures forall i :: 0 <= i < |rows| ==> numberOf(rows[i]) != NextNumber(kind, rows, yearOf, y)
  {
    forall i | 0 <= i < |rows|
      ensures numberOf(rows[i]) != NextNumber(kind, rows, yearOf, y)
    {
      RowNumberNotNext(kind, rows, yearOf, numberOf, y, i);
    }
  }

  /** In a well-numbered table no number occurs twice (rows are added one at a time). */
  lemma NumbersDistinct<T>(kind: Kind, rows: seq<T>, yearOf: T -> nat, numberOf: T -> string)
    requires WellNumbered(kind, rows, yearOf, numberOf)
    ensures forall i, j :: 0 <= i < j < |rows| ==> numberOf(rows[i]) != numberOf(rows[j])
  {
    forall i, j | 0 <= i < j < |rows|
      ensures numberOf(rows[i]) != numberOf(rows[j])
    {
      var pre := rows[..j];
      assert forall k :: 0 <= k < j ==> pre[..k] == rows[..k];
      NextNumberFresh(kind, pre, yearOf, numberOf, yearOf(rows[j]));
      assert pre[i] == rows[i];
    }
  }

  /** Appending a row that carries the next number keeps the table well numbered. */
  lemma AppendNumbered<T>(kind: Kind, rows: seq<T>, yearOf: T -> nat, numberOf: T -> string, x: T)
    requires WellNumbered(kind, rows, yearOf, numberOf)
    requires numberOf(x) == NextNumber(kind, rows, yearOf, yearOf(x))
    ensures WellNumbered(kind, rows + [x], yearOf, numberOf)
  {
    var rows' := rows + [x];
    assert rows'[..|rows|] == rows;
    forall i | 0 <= i < |rows|
      ensures numberOf(rows'[i]) == NextNumber(kind, rows'[..i], yearOf, yearOf(rows'[i]))
    {
      assert rows'[..i] == rows[..i];
    }
  }

  lemma {:induction false} SameYearsSameCount<T>(a: seq<T>, b: seq<T>, yearOf: T -> nat, y: nat)
    requires |a| == |b|
    requires forall i :: 0 <= i < |a| ==> yearOf(a[i]) == yearOf(b[i])
    ensures CountYear(a, yearOf, y) == CountYear(b, yearOf, y)
    decreases |a|
  {
    if a != [] {
      SameYearsSameCount(a[..|a| - 1], b[..|b| - 1], yearOf, y);
    }
  }

  /** Updating rows in place without touching their dates or numbers keeps the table
      well numbered. */
  lemma SameKeysNumbered<T>(kind: Kind, a: seq<T>, b: seq<T>, yearOf: T -> nat, numberOf: T -> string)
    requires |a| == |b|
    requires forall i :: 0 <= i < |a| ==> yearOf(a[i]) == yearOf(b[i]) && numberOf(a[i]) == numberOf(b[i])
    requires WellNumbered(kind, a, yearOf, numberOf)
    ensures WellNumbered(kind, b, yearOf, numberOf)
  {
    forall i | 0 <= i < |b|
      ensures numberOf(b[i]) == NextNumber(kind, b[..i], yearOf, yearOf(b[i]))
    {
      SameKeysRow(kind, a[..i], b[..i], yearOf, numberOf(a[i]), yearOf(a[i]));
    }
  }

  /** A number issued after the rows `a` is the one issued after rows `b` with the same
      years. */
  lemma SameKeysRow<T>(kind: Kind, a: seq<T>, b: seq<T>, yearOf: T -> nat, number: string, y: nat)
    requires |a| == |b|
    requires forall i :: 0 <= i < |a| ==> yearOf(a[i]) == yearOf(b[i])
    requires number == NextNumber(kind, a, yearOf, y)
    ensures number == NextNumber(kind, b, yearOf, y)
  {
    SameYearsSameCount(a, b, yearOf, y);
  }
}
