/** The two ways the server turns a date into text: the `formatDate`
    template helper, and the `postDate` stored for a new post, which is the
    calendar-date part of `Date.prototype.toISOString` (ISO 8601 extended
    format, `YYYY-MM-DD`). */
module DateFormat {
  import opened Wrappers

  /** The calendar fields of a `Date` as its getters return them; `month` is
      zero-based, as `getMonth` returns it. */
  datatype DateFields = DateFields(year: int, month: int, day: int)

  /** The ranges every `Date` object's month and day fall in. */
  predicate ValidFields(d: DateFields) {
    0 <= d.month <= 11 && 1 <= d.day <= 31
  }

  predicate IsDigit(c: char) {
    '0' <= c <= '9'
  }

  predicate AllDigits(s: string) {
    forall i :: 0 <= i < |s| ==> IsDigit(s[i])
  }

  function DigitChar(n: nat): (c: char)
    requires n < 10
    ensures IsDigit(c)
  {
    (48 + n) as char
  }

  function DigitValue(c: char): nat
    requires IsDigit(c)
  {
    c as int - 48
  }

  function Pow10(k: nat): nat {
    if k == 0 then 1 else 10 * Pow10(k - 1)
  }

  /** The decimal text of a non-negative integer, as `Number.prototype.toString`
      writes it: digits only, and no leading zero. */
  function NatToString(n: nat): (s: string)
    ensures |s| >= 1 && AllDigits(s)
    ensures s[0] == '0' ==> n == 0
  {
    if n < 10 then [DigitChar(n)] else NatToString(n / 10) + [DigitChar(n % 10)]
  }

  /** `n.toString()` for any integer: a minus sign before the digits of a
      negative one. */
  function IntToString(n: int): (r: string)
    ensures |r| >= 1 && (r[0] == '-' <==> n < 0)
    ensures AllDigits(r[if n < 0 then 1 else 0..])
  {
    if n < 0 then "-" + NatToString(-n) else NatToString(n)
  }

  function Zeros(k: nat): (z: string)
    ensures |z| == k && forall i :: 0 <= i < k ==> z[i] == '0'
  {
    seq(k, _ => '0')
  }

  /** `s.padStart(width, "0")`: zeros in front of `s` up to `width`
      characters; a string that is already that long is left alone. */
  function PadStart(s: string, width: nat): (r: string)
    ensures |r| == if |s| >= width then |s| else width
    ensures |s| >= width ==> r == s
  {
    if |s| >= width then s else Zeros(width - |s|) + s
  }

  /** What `padStart` puts in front of `s` is zeros only, and `s` itself
      ends the result. Kept apart from `PadStart`'s contract so that proofs
      about dates do not carry these quantifiers around. */
  lemma PadStartShape(s: string, width: nat)
    ensures forall i :: 0 <= i < |PadStart(s, width)| - |s| ==> PadStart(s, width)[i] == '0'
    ensures PadStart(s, width)[|PadStart(s, width)| - |s|..] == s
  {
  }

  /** A month or day number padded to two digits. */
  function Field2(n: int): string {
    PadStart(IntToString(n), 2)
  }

  /** Year, month and day text joined by dashes. */
  function Join(y: string, m: string, dd: string): string {
    y + "-" + m + "-" + dd
  }

  /** The `formatDate` template helper: the year as `toString` writes it,
      then the one-based month and the day, each padded to two digits. */
  function FormatDate(d: DateFields): (r: string)
    ensures |r| > |IntToString(d.year)| && r[|IntToString(d.year)|] == '-'
    ensures r[..|IntToString(d.year)|] == IntToString(d.year)
  {
    Join(IntToString(d.year), Field2(d.month + 1), Field2(d.day))
  }

  /** The year as `toISOString` writes it: four digits for years 0 to 9999,
      otherwise a sign and six digits. */
  function IsoYear(y: int): (r: string)
    ensures 0 <= y <= 9999 ==> |r| == 4 && ParseNat(r) == Some(y)
    ensures !(0 <= y <= 9999) ==> |r| >= 7 && r[0] == (if y < 0 then '-' else '+')
  {
    if 0 <= y <= 9999 then
      NatToStringLength(y, 4);
      PaddedValue(y, 4);
      PadStart(NatToString(y), 4)
    else if y < 0 then "-" + PadStart(NatToString(-y), 6)
    else "+" + PadStart(NatToString(y), 6)
  }

  /** The part of `toISOString` before the `T` that starts the time of day. */
  function IsoDate(d: DateFields): (s: string)
    requires ValidFields(d)
    ensures |s| >= 10
  {
    Join(IsoYear(d.year), Field2(d.month + 1), Field2(d.day))
  }

  /** `new Date().toISOString().slice(0, 10)`, the `postDate` of a new post.
      The time of day follows the date part, which has at least ten
      characters, so the slice only ever takes from the date part. */
  function StoredPostDate(now: DateFields): (r: string)
    requires ValidFields(now)
    ensures |r| == 10
  {
    IsoDate(now)[..10]
  }

  /** The value of a string of decimal digits. */
  function DigitsValue(s: string): nat
    requires AllDigits(s)
  {
    if s == [] then 0 else DigitsValue(s[..|s| - 1]) * 10 + DigitValue(s[|s| - 1])
  }

  function ParseNat(s: string): Option<nat> {
    if |s| > 0 && AllDigits(s) then Some(DigitsValue(s)) else None
  }

  function ParseInt(s: string): Option<int> {
    if |s| > 0 && s[0] == '-' then
      match ParseNat(s[1..])
      case Some(n) => Some(-(n as int))
      case None => None
    else ParseNat(s)
  }

  /** Reads a `Y-MM-DD` date back into calendar fields with a zero-based
      month; the reference against which both date formats are checked. */
  function ParseDate(s: string): Option<DateFields> {
    if |s| < 7 || s[|s| - 6] != '-' || s[|s| - 3] != '-' then None
    else
      match (ParseInt(s[..|s| - 6]), ParseNat(s[|s| - 5..|s| - 3]), ParseNat(s[|s| - 2..]))
      case (Some(y), Some(m), Some(d)) =>
        if 1 <= m <= 12 && 1 <= d <= 31 then Some(DateFields(y, m - 1, d)) else None
      case _ => None
  }

  lemma {:induction false} NatToStringValue(n: nat)
    ensures DigitsValue(NatToString(n)) == n
  {
    if n >= 10 {
      NatToStringValue(n / 10);
      var s := NatToString(n);
      assert s[..|s| - 1] == NatToString(n / 10);
    }
  }

  lemma {:induction false} NatToStringLength(n: nat, k: nat)
    requires k >= 1
    ensures |NatToString(n)| <= k <==> n < Pow10(k)
  {
    if n >= 10 && k >= 2 {
      NatToStringLength(n / 10, k - 1);
    } else if n < 10 {
      PowAtLeastTen(k);
    }
  }

  lemma {:induction false} PowAtLeastTen(k: nat)
    requires k >= 1
    ensures Pow10(k) >= 10
  {
    if k > 1 {
      PowAtLeastTen(k - 1);
    }
  }

  /** Zeros in front do not change the value of a string of digits. */
  lemma {:induction false} LeadingZerosValue(k: nat, s: string)
    requires AllDigits(s)
    ensures AllDigits(Zeros(k) + s) && DigitsValue(Zeros(k) + s) == DigitsValue(s)
  {
    if s == [] {
      ZerosValue(k);
      assert Zeros(k) + s == Zeros(k);
    } else {
      LeadingZerosValue(k, s[..|s| - 1]);
      assert (Zeros(k) + s)[..|Zeros(k) + s| - 1] == Zeros(k) + s[..|s| - 1];
    }
  }

  lemma {:induction false} ZerosValue(k: nat)
    ensures AllDigits(Zeros(k)) && DigitsValue(Zeros(k)) == 0
  {
    if k > 0 {
      ZerosValue(k - 1);
      assert Zeros(k)[..k - 1] == Zeros(k - 1);
    }
  }

  /** A padded number reads back as the number. */
  lemma PaddedValue(n: nat, width: nat)
    ensures ParseNat(PadStart(NatToString(n), width)) == Some(n)
  {
    var s := NatToString(n);
    NatToStringValue(n);
    if |s| < width {
      LeadingZerosValue(width - |s|, s);
    }
  }

  lemma IntToStringRoundTrip(n: int)
    ensures ParseInt(IntToString(n)) == Some(n)
  {
    NatToStringValue(if n < 0 then -n else n);
    if n < 0 {
      assert IntToString(n)[1..] == NatToString(-n);
    }
  }

  /** Month and day of a valid date always take exactly two characters. */
  lemma TwoDigitField(n: int)
    requires 1 <= n <= 31
    ensures |Field2(n)| == 2
    ensures ParseNat(Field2(n)) == Some(n)
  {
    NatToStringLength(n, 2);
    PaddedValue(n, 2);
  }

  /** Fields of the right shapes joined by dashes read back as the date. */
  lemma ParseDateOf(y: string, m: string, dd: string, d: DateFields)
    requires ValidFields(d)
    requires ParseInt(y) == Some(d.year)
    requires |m| == 2 && ParseNat(m) == Some(d.month + 1)
    requires |dd| == 2 && ParseNat(dd) == Some(d.day)
    ensures ParseDate(Join(y, m, dd)) == Some(d)
  {
    var s := Join(y, m, dd);
    assert s[..|s| - 6] == y;
    assert s[|s| - 5..|s| - 3] == m;
    assert s[|s| - 2..] == dd;
  }

  /** The text `formatDate` produces reads back as the date it was given. */
  lemma FormatDateRoundTrip(d: DateFields)
    requires ValidFields(d)
    ensures ParseDate(FormatDate(d)) == Some(d)
  {
    var y, m, dd := IntToString(d.year), Field2(d.month + 1), Field2(d.day);
    assert ParseInt(y) == Some(d.year) by { IntToStringRoundTrip(d.year); }
    assert |m| == 2 && ParseNat(m) == Some(d.month + 1) by { TwoDigitField(d.month + 1); }
    assert |dd| == 2 && ParseNat(dd) == Some(d.day) by { TwoDigitField(d.day); }
    ParseDateOf(y, m, dd, d);
  }

  /** For the years 0 to 9999 the date part of `toISOString` has exactly
      ten characters, so the slice keeps all of it. */
  lemma StoredPostDateShape(now: DateFields)
    requires ValidFields(now) && 0 <= now.year <= 9999
    ensures |PadStart(NatToString(now.year), 4)| == 4
    ensures StoredPostDate(now) == Join(PadStart(NatToString(now.year), 4), Field2(now.month + 1), Field2(now.day))
  {
    NatToStringLength(now.year, 4);
    TwoDigitField(now.month + 1);
    TwoDigitField(now.day);
    var iso := IsoDate(now);
    assert |iso| == 10;
    assert iso[..10] == iso;
  }

  /** For the years 0 to 9999 the stored `postDate` is a ten-character
      `YYYY-MM-DD` calendar date that reads back as the current date. */
  lemma StoredPostDateRoundTrip(now: DateFields)
    requires ValidFields(now) && 0 <= now.year <= 9999
    ensures ParseDate(StoredPostDate(now)) == Some(now)
  {
    var y, m, dd := PadStart(NatToString(now.year), 4), Field2(now.month + 1), Field2(now.day);
    StoredPostDateShape(now);
    assert ParseInt(y) == Some(now.year) by {
      PaddedValue(now.year, 4);
      assert y[0] != '-';
    }
    assert |m| == 2 && ParseNat(m) == Some(now.month + 1) by { TwoDigitField(now.month + 1); }
    assert |dd| == 2 && ParseNat(dd) == Some(now.day) by { TwoDigitField(now.day); }
    ParseDateOf(y, m, dd, now);
  }

  /** `formatDate` pads only month and day: for the years 0 to 9999 its text
      equals the stored `postDate` exactly when the year has four digits. */
  lemma FormatDateMatchesStored(d: DateFields)
    requires ValidFields(d) && 0 <= d.year <= 9999
    ensures FormatDate(d) == StoredPostDate(d) <==> 1000 <= d.year
  {
    var y, m, dd := NatToString(d.year), Field2(d.month + 1), Field2(d.day);
    assert |m| == 2 && |dd| == 2 by {
      TwoDigitField(d.month + 1);
      TwoDigitField(d.day);
    }
    assert |y| <= 4 && (|y| == 4 <==> 1000 <= d.year) by {
      NatToStringLength(d.year, 4);
      NatToStringLength(d.year, 3);
    }
    StoredPostDateShape(d);
    assert FormatDate(d) == Join(y, m, dd);
    if d.year < 1000 {
      assert |Join(y, m, dd)| < 10;
    }
  }
}
