/**
 * Small helpers shared by every analyzer and evaluator: the tri-state status record,
 * numeric clamping, whole-day date differences on millisecond timestamps, the
 * `YYYY-MM-DD` formatter used to prefill date inputs, and the empty-input guard of
 * date parsing (src/utils.js).
 */
module Utils {

  datatype Option<+T> = None | Some(value: T)

  /** The verdict every check produces. */
  datatype Verdict = Pass | Warn | Fail

  /** A verdict together with the human-readable detail shown next to it. */
  datatype StatusRecord = StatusRecord(status: Verdict, detail: string)

  /** `makeStatus(status, detail)`: the record of a verdict and its detail text. */
  function MakeStatus(status: Verdict, detail: string): (r: StatusRecord)
    ensures r.status == status && r.detail == detail
  {
    StatusRecord(status, detail)
  }

  /**
   * A status record is determined by its two fields: every record is the one `MakeStatus`
   * builds from them, and two records built from different fields differ.
   */
  lemma MakeStatusRoundTrip(r: StatusRecord, status: Verdict, detail: string)
    ensures MakeStatus(r.status, r.detail) == r
    ensures MakeStatus(status, detail) == r <==> status == r.status && detail == r.detail
  {
  }

  function Min(a: real, b: real): real { if a <= b then a else b }
  function Max(a: real, b: real): real { if a >= b then a else b }
  function MaxInt(a: int, b: int): int { if a >= b then a else b }
  function MinInt(a: int, b: int): int { if a <= b then a else b }
  function Abs(a: real): real { if a < 0.0 then -a else a }

  /** `Math.max(min, Math.min(max, value))`. */
  function Clamp(value: real, min: real, max: real): (r: real)
    ensures min <= max ==> min <= r <= max
    ensures min <= value <= max ==> r == value
    ensures value < min ==> r == min
    ensures min <= max && max < value ==> r == max
    ensures max < min ==> r == min
  {
    Max(min, Min(max, value))
  }

  lemma ClampIdempotent(value: real, min: real, max: real)
    ensures Clamp(Clamp(value, min, max), min, max) == Clamp(value, min, max)
  {
  }

  /** `k` copies of `v` added up. */
  function Repeated(k: nat, v: real): real
  {
    if k == 0 then 0.0 else Repeated(k - 1, v) + v
  }

  /** Adding up `k` copies of `v` gives `k * v`. */
  lemma {:induction false} RepeatedIsProduct(k: nat, v: real)
    ensures Repeated(k, v) == k as real * v
  {
    if k > 0 {
      RepeatedIsProduct(k - 1, v);
      assert (k - 1) as real * v + v == k as real * v;
    }
  }

  // ---------------------------------------------------------------- dates

  /** Milliseconds in one day: 24 * 60 * 60 * 1000. */
  const MsPerDay: int := 24 * 60 * 60 * 1000

  /**
   * Whole days between two instants given as integer milliseconds, rounded toward
   * negative infinity (`Math.floor`). Dafny's `/` on a positive divisor is floor division.
   */
  function DateDiffInDays(laterMs: int, earlierMs: int): (days: int)
    ensures days * MsPerDay <= laterMs - earlierMs < (days + 1) * MsPerDay
  {
    (laterMs - earlierMs) / MsPerDay
  }

  /** The floor characterisation above pins the quotient down uniquely. */
  lemma {:induction false} FloorDaysUnique(diff: int, q: int, q': int)
    requires q * MsPerDay <= diff < (q + 1) * MsPerDay
    requires q' * MsPerDay <= diff < (q' + 1) * MsPerDay
    ensures q == q'
  {
  }

  /** At most `k` whole days apart means less than `k + 1` days of milliseconds apart. */
  lemma DaysAtMost(laterMs: int, earlierMs: int, k: int)
    ensures DateDiffInDays(laterMs, earlierMs) <= k <==> laterMs - earlierMs < (k + 1) * MsPerDay
  {
    var d := DateDiffInDays(laterMs, earlierMs);
    if d <= k {
      assert (d + 1) * MsPerDay <= (k + 1) * MsPerDay;
    } else {
      assert (k + 1) * MsPerDay <= d * MsPerDay;
    }
  }

  lemma DateDiffSameInstant(t: int)
    ensures DateDiffInDays(t, t) == 0
  {
  }

  lemma DateDiffWholeDays(earlierMs: int, k: int)
    ensures DateDiffInDays(earlierMs + k * MsPerDay, earlierMs) == k
  {
    var d := DateDiffInDays(earlierMs + k * MsPerDay, earlierMs);
    FloorDaysUnique(k * MsPerDay, d, k);
  }

  lemma DateDiffOneMsShort(earlierMs: int, k: int)
    ensures DateDiffInDays(earlierMs + k * MsPerDay - 1, earlierMs) == k - 1
  {
    var d := DateDiffInDays(earlierMs + k * MsPerDay - 1, earlierMs);
    FloorDaysUnique(k * MsPerDay - 1, d, k - 1);
  }

  /**
   * The guard of `parseDate`: an empty field yields no date. A non-empty value is handed,
   * with the local-midnight suffix, to the platform's date parser (a parameter here), which
   * yields no date when the result is not a number.
   */
  function ParseDate(value: string, parseInstant: string -> Option<int>): (r: Option<int>)
    ensures value == "" ==> r == None
    ensures value != "" ==> r == parseInstant(value + "T00:00:00")
  {
    if value == "" then None else parseInstant(value + "T00:00:00")
  }

  /**
   * The platform parser is consulted exactly for a non-empty field: an empty field gives no
   * date whatever the parser, and for any other field some parser yields a date.
   */
  lemma ParseDateConsultsParserIffNonEmpty(value: string)
    ensures (forall parseInstant: string -> Option<int> :: ParseDate(value, parseInstant) == None) <==> value == ""
  {
    if value != "" {
      var always: string -> Option<int> := s => Some(0);
      assert ParseDate(value, always) == Some(0);
    }
  }

  // ---------------------------------------------------------------- decimal text

  predicate IsDigit(c: char) { '0' <= c <= '9' }

  function DigitValue(c: char): (d: nat)
    requires IsDigit(c)
    ensures d < 10
  {
    (c as int) - ('0' as int)
  }

  function DigitChar(d: nat): (c: char)
    requires d < 10
    ensures IsDigit(c) && DigitValue(c) == d
  {
    ['0', '1', '2', '3', '4', '5', '6', '7', '8', '9'][d]
  }

  /** `String(n)` for a non-negative integer: shortest decimal, no leading zeros. */
  function NatToString(n: nat): (s: string)
    ensures |s| >= 1 && forall i :: 0 <= i < |s| ==> IsDigit(s[i])
    ensures n < 10 <==> |s| == 1
    ensures 10 <= n < 100 <==> |s| == 2
    decreases n
  {
    if n < 10 then [DigitChar(n)] else NatToString(n / 10) + [DigitChar(n % 10)]
  }

  /** `String(i)` for any integer. */
  function IntToString(i: int): (s: string)
    ensures |s| >= 1
    ensures i >= 0 ==> s == NatToString(i)
    ensures i < 0 ==> s[0] == '-' && s[1..] == NatToString(-i)
  {
    if i < 0 then "-" + NatToString(-i) else NatToString(i)
  }

  /** The value of a string of decimal digits, most significant first. */
  function DigitsValue(s: string): nat
    requires forall i :: 0 <= i < |s| ==> IsDigit(s[i])
  {
    if s == [] then 0
    else DigitsValue(s[..|s| - 1]) * 10 + DigitValue(s[|s| - 1])
  }

  lemma {:induction false} NatToStringRoundTrip(n: nat)
    ensures DigitsValue(NatToString(n)) == n
    decreases n
  {
    if n >= 10 {
      NatToStringRoundTrip(n / 10);
      var s := NatToString(n);
      assert s[..|s| - 1] == NatToString(n / 10);
    }
  }

  /** `String.prototype.padStart` with a one-character pad string. */
  function PadStart(s: string, targetLength: nat, pad: char): (r: string)
    ensures |r| == if |s| >= targetLength then |s| else targetLength
    ensures r[|r| - |s|..] == s
    ensures forall i :: |r| - |s| <= i < |r| ==> r[i] == s[i - (|r| - |s|)]
    ensures forall i :: 0 <= i < |r| - |s| ==> r[i] == pad
    decreases targetLength - |s|
  {
    if |s| >= targetLength then s else PadStart([pad] + s, targetLength, pad)
  }

  /** A calendar date as the platform's `Date` getters report it (month counted from 0). */
  datatype CalendarDate = CalendarDate(fullYear: int, monthIndex: int, dayOfMonth: int)

  /** A month or day field: `String(n).padStart(2, "0")`. */
  function TwoDigits(n: nat): (r: string)
    ensures n < 100 ==> |r| == 2
    ensures forall i :: 0 <= i < |r| ==> IsDigit(r[i])
  {
    PadStart(NatToString(n), 2, '0')
  }

  /** Where the pieces of `y-mm-dd` sit in the joined text. */
  lemma {:induction false} DashJoinLayout(y: string, m: string, dd: string)
    requires |m| == 2 && |dd| == 2
    ensures var r := y + "-" + m + "-" + dd;
            && |r| == |y| + 6
            && r[..|y|] == y && r[|y|] == '-' && r[|y| + 3] == '-'
            && r[|y| + 1..|y| + 3] == m && r[|y| + 4..] == dd
  {
    var r := y + "-" + m + "-" + dd;
    assert r == y + ("-" + m + "-" + dd);
    assert r[|y|..] == "-" + m + "-" + dd;
  }

  /**
   * `toDateInputValue`: the text `Y-MM-DD` made of the year's text, a dash, the two-digit
   * month + 1, a dash and the two-digit day (TwoDigitsRoundTrip: each field reads back as
   * its number).
   */
  function ToDateInputValue(d: CalendarDate): (r: string)
    requires 0 <= d.monthIndex <= 11 && 1 <= d.dayOfMonth <= 31
    ensures var y := IntToString(d.fullYear);
            && |r| == |y| + 6
            && r[..|y|] == y && r[|y|] == '-' && r[|y| + 3] == '-'
            && r[|y| + 1..|y| + 3] == TwoDigits(d.monthIndex + 1)
            && r[|y| + 4..] == TwoDigits(d.dayOfMonth)
  {
    var y, m, dd := IntToString(d.fullYear), TwoDigits(d.monthIndex + 1), TwoDigits(d.dayOfMonth);
    DashJoinLayout(y, m, dd);
    y + "-" + m + "-" + dd
  }

  /**
   * A field prefilled with `toDateInputValue` is never empty, so parsing it hands exactly that
   * text, with the midnight suffix, to the platform parser.
   */
  lemma PrefilledDateParses(d: CalendarDate, parseInstant: string -> Option<int>)
    requires 0 <= d.monthIndex <= 11 && 1 <= d.dayOfMonth <= 31
    ensures ParseDate(ToDateInputValue(d), parseInstant) == parseInstant(ToDateInputValue(d) + "T00:00:00")
    ensures ParseDate(ToDateInputValue(d), parseInstant).Some? <==> parseInstant(ToDateInputValue(d) + "T00:00:00").Some?
  {
    assert |ToDateInputValue(d)| >= 6;
  }

  /** A two-digit field reads back as the number it was made from. */
  lemma {:induction false} TwoDigitsRoundTrip(n: nat)
    requires n < 100
    ensures |TwoDigits(n)| == 2
    ensures forall i :: 0 <= i < 2 ==> IsDigit(TwoDigits(n)[i])
    ensures DigitsValue(TwoDigits(n)) == n
  {
    var s := NatToString(n);
    NatToStringRoundTrip(n);
    if n < 10 {
      var t := TwoDigits(n);
      assert t == ['0'] + s;
      assert t[..1] == ['0'];
      assert DigitsValue(t[..1]) == 0 by {
        assert t[..1][..0] == [];
      }
      assert s[..0] == [];
    } else {
      assert TwoDigits(n) == s;
    }
  }

}
