/** Hour-bucket names (`f'{year}-{month:02}-{day:02}-{hour}'`), the Python
    string slices the manager applies to them, and the facts that make those
    slices mean what the manager takes them to mean. */
module Names {
  import opened Calendar

  function DigitChar(d: int): (c: char)
    requires 0 <= d <= 9
    ensures '0' <= c <= '9'
  {
    ('0' as int + d) as char
  }

  function DigitValue(c: char): (d: int)
    requires '0' <= c <= '9'
    ensures 0 <= d <= 9
  {
    c as int - '0' as int
  }

  predicate IsDigits(s: string) {
    |s| >= 1 && forall i :: 0 <= i < |s| ==> '0' <= s[i] <= '9'
  }

  /** `str(n)` for a non-negative integer. */
  function DecimalString(n: nat): (s: string)
    ensures |s| >= 1
    ensures n < 10 ==> |s| == 1
    ensures 10 <= n < 100 ==> |s| == 2
    ensures 1000 <= n < 10000 ==> |s| == 4
  {
    if n < 10 then [DigitChar(n)] else DecimalString(n / 10) + [DigitChar(n % 10)]
  }

  lemma {:induction false} DecimalStringDigits(n: nat)
    ensures IsDigits(DecimalString(n))
  {
    if n >= 10 {
      DecimalStringDigits(n / 10);
    }
  }

  /** `int(s)` for a string of decimal digits. */
  function ParseDecimal(s: string): nat
    requires IsDigits(s)
  {
    if |s| == 1 then DigitValue(s[0])
    else ParseDecimal(s[..|s| - 1]) * 10 + DigitValue(s[|s| - 1])
  }

  /** Reading back the decimal rendering of a number gives the number. */
  lemma {:induction false} ParseDecimalString(n: nat)
    ensures IsDigits(DecimalString(n)) && ParseDecimal(DecimalString(n)) == n
  {
    DecimalStringDigits(n);
    if n >= 10 {
      var s := DecimalString(n);
      assert s[..|s| - 1] == DecimalString(n / 10);
      ParseDecimalString(n / 10);
    }
  }

  lemma DecimalStringInjective(a: nat, b: nat)
    requires DecimalString(a) == DecimalString(b)
    ensures a == b
  {
    ParseDecimalString(a);
    ParseDecimalString(b);
  }

  /** `str(n).zfill(2)`. */
  function ZFill2(n: nat): (s: string)
    ensures |s| >= 1
    ensures 1 <= n <= 99 ==> |s| == 2
  {
    var t := DecimalString(n);
    if |t| < 2 then ['0'] + t else t
  }

  lemma ParseZFill2(n: nat)
    ensures IsDigits(ZFill2(n)) && ParseDecimal(ZFill2(n)) == n
  {
    ParseDecimalString(n);
    var t := DecimalString(n);
    if |t| < 2 {
      var s := ['0'] + t;
      assert s[..|s| - 1] == ['0'];
    }
  }

  /** The day part of a bucket name, `YYYY-MM-DD` for four-digit years. */
  function DayName(d: Date): string {
    DecimalString(if d.year < 0 then 0 else d.year) + "-" + ZFill2(if d.month < 0 then 0 else d.month) + "-"
    + ZFill2(if d.day < 0 then 0 else d.day)
  }

  /** The name of the bucket of hour `h` of day `d`; the hour is not padded. */
  function BucketName(d: Date, h: nat): string {
    DayName(d) + "-" + DecimalString(h)
  }

  // Python slices with non-negative bounds (they never fail).

  /** `s[:n]`. */
  function SliceTo(s: string, n: nat): (r: string)
    ensures r <= s && |r| == if n <= |s| then n else |s|
  {
    if n <= |s| then s[..n] else s
  }

  /** `s[n:]`. */
  function SliceFrom(s: string, n: nat): (r: string)
    ensures |r| == if n <= |s| then |s| - n else 0
  {
    if n <= |s| then s[n..] else ""
  }

  /** `s[:-n]`; Python's `s[:-0]` is empty, not `s`, so `n` is at least 1. */
  function DropLast(s: string, n: nat): (r: string)
    requires n >= 1
    ensures r <= s && |r| == if n <= |s| then |s| - n else 0
  {
    if n <= |s| then s[..|s| - n] else ""
  }

  /** `s[-n:]`; Python's `s[-0:]` is all of `s`, so `n` is at least 1. */
  function TakeLast(s: string, n: nat): (r: string)
    requires n >= 1
    ensures |r| == if n <= |s| then n else |s|
  {
    if n <= |s| then s[|s| - n..] else s
  }

  predicate FourDigitYear(d: Date) {
    Valid(d) && 1000 <= d.year
  }

  lemma DayNameLength(d: Date)
    requires FourDigitYear(d)
    ensures |DayName(d)| == 10
  {
  }

  /** For a four-digit year, `date[:10]` is the day and `date[11:]` the hour of a bucket name. */
  lemma BucketNameSlices(d: Date, h: nat)
    requires FourDigitYear(d)
    ensures SliceTo(BucketName(d, h), 10) == DayName(d)
    ensures SliceFrom(BucketName(d, h), 11) == DecimalString(h)
  {
    DayNameLength(d);
    var n := BucketName(d, h);
    assert n[..10] == DayName(d);
    assert n[11..] == DecimalString(h);
  }

  /** `last_hour[:-2]`: the name of hour 0 without its last two characters is the day. */
  lemma HourZeroDropLast(d: Date)
    ensures DropLast(BucketName(d, 0), 2) == DayName(d)
  {
    var n := BucketName(d, 0);
    assert DecimalString(0) == "0";
    assert n == DayName(d) + "-0";
    assert n[..|n| - 2] == DayName(d);
  }

  /** `day[-2:]` of a day name is the zero-padded day of month. */
  lemma DayNameTakeLast(d: Date)
    requires Valid(d)
    ensures TakeLast(DayName(d), 2) == ZFill2(d.day)
  {
    var n := DayName(d);
    assert n == (DecimalString(d.year) + "-" + ZFill2(d.month) + "-") + ZFill2(d.day);
    assert n[|n| - 2..] == ZFill2(d.day);
  }

  /** The hour test of the write loop: `str(h) == '23'` and `str(h) == '0'` hold exactly for hours 23 and 0. */
  lemma HourTests(h: nat)
    ensures DecimalString(h) == "23" <==> h == 23
    ensures DecimalString(h) == "0" <==> h == 0
  {
    DecimalStringOfHours();
    if DecimalString(h) == "23" {
      DecimalStringInjective(h, 23);
    }
    if DecimalString(h) == "0" {
      DecimalStringInjective(h, 0);
    }
  }

  lemma DecimalStringOfHours()
    ensures DecimalString(23) == "23" && DecimalString(0) == "0"
  {
    assert DecimalString(2) == "2";
    assert DecimalString(23) == DecimalString(2) + [DigitChar(3)];
  }

  /** The reset test of the write loop: `day[-2:] == '01'` holds exactly on the first day of a month. */
  lemma FirstOfMonthTest(d: Date)
    requires Valid(d)
    ensures TakeLast(DayName(d), 2) == "01" <==> d.day == 1
  {
    DayNameTakeLast(d);
    ParseZFill2(d.day);
    assert ParseDecimal("01") == 1 by {
      assert "01"[..1] == "0";
    }
    assert ZFill2(1) == "01" by {
      assert DecimalString(1) == "1";
    }
  }

  /** The three fields of a day name of a four-digit year sit at fixed positions. */
  lemma DayNameFields(d: Date)
    requires FourDigitYear(d)
    ensures |DayName(d)| == 10
    ensures DayName(d)[..4] == DecimalString(d.year)
    ensures DayName(d)[5..7] == ZFill2(d.month)
    ensures DayName(d)[8..] == ZFill2(d.day)
  {
    var y, m, dd := DecimalString(d.year), ZFill2(d.month), ZFill2(d.day);
    var n := DayName(d);
    assert n == y + "-" + m + "-" + dd;
    assert n[..4] == y;
    assert n[5..7] == m;
    assert n[8..] == dd;
  }

  /** Distinct days of four-digit years have distinct day names. */
  lemma DayNameInjective(a: Date, b: Date)
    requires FourDigitYear(a) && FourDigitYear(b) && DayName(a) == DayName(b)
    ensures a == b
  {
    DayNameFields(a);
    DayNameFields(b);
    DecimalStringInjective(a.year, b.year);
    ParseZFill2(a.month);
    ParseZFill2(b.month);
    ParseZFill2(a.day);
    ParseZFill2(b.day);
  }

  /** Distinct buckets of four-digit years have distinct names. */
  lemma BucketNameInjective(a: Date, h: nat, b: Date, k: nat)
    requires FourDigitYear(a) && FourDigitYear(b) && BucketName(a, h) == BucketName(b, k)
    ensures a == b && h == k
  {
    BucketNameSlices(a, h);
    BucketNameSlices(b, k);
    DayNameInjective(a, b);
    DecimalStringInjective(h, k);
  }
}
