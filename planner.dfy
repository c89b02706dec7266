/** The manager's list of hour buckets: every hour of every day from the
    start date to the end date, newest first, and the manager's
    `last_hour` / `last_day`. */
module Planner {
  import opened Calendar
  import opened Names
  import opened Seqs

  /** One hour of one day. */
  datatype Bucket = Bucket(day: Date, hour: nat)

  function Name(b: Bucket): string {
    BucketName(b.day, b.hour)
  }

  /** Position in calendar-hour order. */
  function Key(b: Bucket): int
    requires Valid(b.day)
  {
    Ordinal(b.day) * 24 + b.hour
  }

  /** Number of days in the range: `delta.days + 1`, and no days when the end precedes the start. */
  function DayCount(start: Date, end: Date): nat
    requires Valid(start) && Valid(end)
  {
    if DaysBetween(start, end) < 0 then 0 else DaysBetween(start, end) + 1
  }

  /** The bucket the appending loops produce at position `f` of `n` days (day `f / 24`, hour `f % 24`). */
  function ForwardBucket(start: Date, n: nat, f: nat): Bucket
    requires Valid(start) && f < 24 * n && Ordinal(start) + n - 1 <= Ordinal(MaxDate)
  {
    DivMod24(f, f / 24, f % 24);
    Bucket(AddDays(start, f / 24), f % 24)
  }

  /** The bucket at position `k` of the reversed list of `n` days. */
  function PlannedBucket(start: Date, n: nat, k: nat): (b: Bucket)
    requires Valid(start) && k < 24 * n && Ordinal(start) + n - 1 <= Ordinal(MaxDate)
    ensures Valid(b.day) && b.hour < 24
  {
    Bucket(AddDays(start, n - 1 - k / 24), 23 - k % 24)
  }

  lemma DayCountFits(start: Date, end: Date)
    requires Valid(start) && Valid(end)
    ensures Ordinal(start) + DayCount(start, end) - 1 <= Ordinal(MaxDate)
  {
    OrdinalAtMostMax(start);
    OrdinalAtMostMax(end);
  }

  /** The reversed list of the buckets of `n` days from `start`. */
  function PlannedOf(start: Date, n: nat): (p: seq<Bucket>)
    requires Valid(start) && Ordinal(start) + n - 1 <= Ordinal(MaxDate)
    ensures |p| == 24 * n
  {
    seq(24 * n, k requires 0 <= k < 24 * n => PlannedBucket(start, n, k))
  }

  /** The planned list in bucket terms. */
  function Planned(start: Date, end: Date): seq<Bucket>
    requires Valid(start) && Valid(end)
  {
    DayCountFits(start, end);
    PlannedOf(start, DayCount(start, end))
  }

  function NamesOf(p: seq<Bucket>): seq<string> {
    Map(Name, p)
  }

  /** The list `__dates_to_download` returns. */
  function PlannedNames(start: Date, end: Date): seq<string>
    requires Valid(start) && Valid(end)
  {
    NamesOf(Planned(start, end))
  }

  /** Reversing the forward list maps position `k` to the planned bucket at `k`. */
  lemma ReversedPosition(start: Date, n: nat, k: nat)
    requires Valid(start) && k < 24 * n && Ordinal(start) + n - 1 <= Ordinal(MaxDate)
    ensures (24 * n - 1 - k) / 24 == n - 1 - k / 24 && (24 * n - 1 - k) % 24 == 23 - k % 24
    ensures ForwardBucket(start, n, 24 * n - 1 - k) == PlannedBucket(start, n, k)
  {
    var a, r := k / 24, k % 24;
    var f := 24 * n - 1 - k;
    assert f == 24 * (n - 1 - a) + (23 - r);
    DivMod24(f, n - 1 - a, 23 - r);
  }

  /** Quotient and remainder by 24 are unique. */
  lemma DivMod24(x: int, q: int, r: int)
    requires x == 24 * q + r && 0 <= r < 24
    ensures x / 24 == q && x % 24 == r
  {
    var q', r' := x / 24, x % 24;
    assert 24 * (q - q') == r' - r;
  }

  /** `__dates_to_download`: the nested appending loops, then the in-place reversal.
      The ghost `buckets` shadows `forward` with the bucket each name was made from. */
  method DatesToDownload(start: Date, end: Date) returns (dates: seq<string>)
    requires Valid(start) && Valid(end)
    ensures dates == PlannedNames(start, end)
  {
    var days := DaysBetween(start, end) + 1;
    var n := DayCount(start, end);
    DayCountFits(start, end);
    var forward: seq<string> := [];
    ghost var buckets: seq<Bucket> := [];
    var i := 0;
    while i < days
      invariant 0 <= i <= n
      invariant IsForward(start, n, i, buckets) && forward == NamesOf(buckets)
    {
      var day := AddDays(start, i);
      ghost var done := buckets;
      var h := 0;
      while h < 24
        invariant 0 <= h <= 24
        invariant buckets == done + DayBuckets(day, h) && forward == NamesOf(buckets)
      {
        MapSnoc(Name, buckets, Bucket(day, h));
        DayBucketsSnoc(day, h);
        AppendAssoc(done, DayBuckets(day, h), [Bucket(day, h)]);
        forward := forward + [BucketName(day, h)];
        buckets := buckets + [Bucket(day, h)];
        h := h + 1;
      }
      ForwardExtend(start, n, i, done);
      i := i + 1;
    }
    dates := Reversed(forward);
    MapReversed(Name, buckets);
    ReversedForwardIsPlanned(start, n, buckets);
  }

  /** `buckets` holds what the appending loops produce for the first `i` of `n` days. */
  predicate IsForward(start: Date, n: nat, i: nat, buckets: seq<Bucket>)
    requires Valid(start) && i <= n && Ordinal(start) + n - 1 <= Ordinal(MaxDate)
  {
    |buckets| == 24 * i && forall f :: 0 <= f < |buckets| ==> buckets[f] == ForwardBucket(start, n, f)
  }

  /** Hours `0..h-1` of one day, in appending order. */
  function DayBuckets(day: Date, h: nat): (r: seq<Bucket>)
    ensures |r| == h && forall g :: 0 <= g < h ==> r[g] == Bucket(day, g)
  {
    seq(h, g requires 0 <= g < h => Bucket(day, g))
  }

  lemma DayBucketsSnoc(day: Date, h: nat)
    ensures DayBuckets(day, h + 1) == DayBuckets(day, h) + [Bucket(day, h)]
  {
  }

  /** Appending the 24 hours of day `i` extends the forward list by one day. */
  lemma ForwardExtend(start: Date, n: nat, i: nat, done: seq<Bucket>)
    requires Valid(start) && i < n && Ordinal(start) + n - 1 <= Ordinal(MaxDate)
    requires IsForward(start, n, i, done)
    ensures IsForward(start, n, i + 1, done + DayBuckets(AddDays(start, i), 24))
  {
    var day := AddDays(start, i);
    var forward := done + DayBuckets(day, 24);
    forall f | 0 <= f < |forward|
      ensures forward[f] == ForwardBucket(start, n, f)
    {
      if f >= 24 * i {
        DivMod24(f, i, f - 24 * i);
      }
    }
  }

  /** Reversing the complete forward list gives the planned buckets. */
  lemma ReversedForwardIsPlanned(start: Date, n: nat, buckets: seq<Bucket>)
    requires Valid(start) && Ordinal(start) + n - 1 <= Ordinal(MaxDate)
    requires IsForward(start, n, n, buckets)
    ensures Reversed(buckets) == PlannedOf(start, n)
  {
    var r := Reversed(buckets);
    forall k | 0 <= k < |r|
      ensures r[k] == PlannedOf(start, n)[k]
    {
      ReversedForwardAt(start, n, buckets, k);
    }
  }

  lemma ReversedForwardAt(start: Date, n: nat, buckets: seq<Bucket>, k: nat)
    requires Valid(start) && Ordinal(start) + n - 1 <= Ordinal(MaxDate)
    requires IsForward(start, n, n, buckets) && k < 24 * n
    ensures Reversed(buckets)[k] == PlannedOf(start, n)[k]
  {
    var f := 24 * n - 1 - k;
    assert Reversed(buckets)[k] == buckets[f];
    assert buckets[f] == ForwardBucket(start, n, f);
    ReversedPosition(start, n, k);
  }

  /** The list holds 24 buckets per day of the range, and is empty exactly when the end precedes the start. */
  lemma PlannedLength(start: Date, end: Date)
    requires Valid(start) && Valid(end)
    ensures |PlannedNames(start, end)| == 24 * DayCount(start, end)
    ensures !Before(end, start) ==> |PlannedNames(start, end)| == 24 * (DaysBetween(start, end) + 1)
    ensures PlannedNames(start, end) == [] <==> Before(end, start)
  {
    DaysBetweenSign(start, end);
  }

  lemma PlannedKey(start: Date, n: nat, k: nat)
    requires Valid(start) && k < 24 * n && Ordinal(start) + n - 1 <= Ordinal(MaxDate)
    ensures Key(PlannedBucket(start, n, k)) == Ordinal(start) * 24 + 24 * n - 1 - k
  {
  }

  /** The list is in strictly descending calendar-hour order. */
  lemma PlannedDescending(start: Date, end: Date, i: nat, j: nat)
    requires Valid(start) && Valid(end) && i < j < |Planned(start, end)|
    ensures Key(Planned(start, end)[i]) > Key(Planned(start, end)[j])
  {
    var n := DayCount(start, end);
    DayCountFits(start, end);
    PlannedKey(start, n, i);
    PlannedKey(start, n, j);
  }

  /** The first bucket is hour 23 of the end date and the last is hour 0 of the start date. */
  lemma PlannedEnds(start: Date, end: Date)
    requires Valid(start) && Valid(end) && !Before(end, start)
    ensures |Planned(start, end)| > 0
    ensures Planned(start, end)[0] == Bucket(end, 23)
    ensures Planned(start, end)[|Planned(start, end)| - 1] == Bucket(start, 0)
  {
    DaysBetweenSign(start, end);
    var n := DayCount(start, end);
    DayCountFits(start, end);
    var p := Planned(start, end);
    PlannedBucketAt(start, n, 0, n - 1, 23);
    OrdinalInjective(p[0].day, end);
    PlannedBucketAt(start, n, 24 * n - 1, 0, 0);
    OrdinalInjective(p[24 * n - 1].day, start);
  }

  /** A bucket is planned exactly when its day lies in the range and its hour is one of 0..23. */
  lemma PlannedCoverage(start: Date, end: Date, b: Bucket)
    requires Valid(start) && Valid(end) && Valid(b.day)
    ensures b in Planned(start, end) <==> !Before(b.day, start) && !Before(end, b.day) && b.hour < 24
  {
    if b in Planned(start, end) {
      PlannedInRange(start, end, b);
    }
    if !Before(b.day, start) && !Before(end, b.day) && b.hour < 24 {
      InRangePlanned(start, end, b);
    }
  }

  /** The bucket at position `k` lies on day `n - 1 - k / 24` of the range. */
  lemma PlannedBucketOrdinal(start: Date, n: nat, k: nat)
    requires Valid(start) && k < 24 * n && Ordinal(start) + n - 1 <= Ordinal(MaxDate)
    ensures Ordinal(start) <= Ordinal(PlannedBucket(start, n, k).day) <= Ordinal(start) + n - 1
  {
  }

  lemma PlannedInRange(start: Date, end: Date, b: Bucket)
    requires Valid(start) && Valid(end) && Valid(b.day) && b in Planned(start, end)
    ensures !Before(b.day, start) && !Before(end, b.day) && b.hour < 24
  {
    var p := Planned(start, end);
    var n := DayCount(start, end);
    DayCountFits(start, end);
    var k :| 0 <= k < |p| && p[k] == b;
    assert p[k] == PlannedBucket(start, n, k);
    PlannedBucketOrdinal(start, n, k);
    assert Ordinal(end) == Ordinal(start) + n - 1;
    if Before(b.day, start) {
      OrdinalMonotone(b.day, start);
    }
    if Before(end, b.day) {
      OrdinalMonotone(end, b.day);
    }
  }

  /** The position of hour `h` of day `a` of the range in the planned list. */
  lemma PlannedBucketAt(start: Date, n: nat, k: nat, a: nat, h: nat)
    requires Valid(start) && a < n && h < 24 && k == 24 * (n - 1 - a) + (23 - h)
    requires Ordinal(start) + n - 1 <= Ordinal(MaxDate)
    ensures k < 24 * n
    ensures PlannedBucket(start, n, k).hour == h
    ensures Ordinal(PlannedBucket(start, n, k).day) == Ordinal(start) + a
  {
    DivMod24(k, n - 1 - a, 23 - h);
  }

  lemma InRangePlanned(start: Date, end: Date, b: Bucket)
    requires Valid(start) && Valid(end) && Valid(b.day)
    requires !Before(b.day, start) && !Before(end, b.day) && b.hour < 24
    ensures b in Planned(start, end)
  {
    var p := Planned(start, end);
    var n := DayCount(start, end);
    DayCountFits(start, end);
    DaysBetweenSign(start, b.day);
    DaysBetweenSign(b.day, end);
    var a := DaysBetween(start, b.day);
    var k := 24 * (n - 1 - a) + (23 - b.hour);
    PlannedBucketAt(start, n, k, a, b.hour);
    var c := PlannedBucket(start, n, k);
    OrdinalInjective(c.day, b.day);
    assert p[k] == c;
  }

  /** No bucket is planned twice. */
  lemma PlannedDistinct(start: Date, end: Date, i: nat, j: nat)
    requires Valid(start) && Valid(end) && i < |Planned(start, end)| && j < |Planned(start, end)|
    requires Planned(start, end)[i] == Planned(start, end)[j]
    ensures i == j
  {
    if i < j {
      PlannedDescending(start, end, i, j);
    } else if j < i {
      PlannedDescending(start, end, j, i);
    }
  }

  /** With four-digit years, no name is planned twice either. */
  lemma PlannedNamesDistinct(start: Date, end: Date, i: nat, j: nat)
    requires FourDigitYear(start) && FourDigitYear(end)
    requires i < |PlannedNames(start, end)| && j < |PlannedNames(start, end)|
    requires PlannedNames(start, end)[i] == PlannedNames(start, end)[j]
    ensures i == j
  {
    var p := Planned(start, end);
    var n := DayCount(start, end);
    DayCountFits(start, end);
    PlannedYears(start, end, i);
    PlannedYears(start, end, j);
    BucketNameInjective(p[i].day, p[i].hour, p[j].day, p[j].hour);
    PlannedDistinct(start, end, i, j);
  }

  /** Every planned day lies between the start and end dates, so its year is four digits when theirs are. */
  lemma PlannedYears(start: Date, end: Date, k: nat)
    requires FourDigitYear(start) && FourDigitYear(end) && k < |Planned(start, end)|
    ensures FourDigitYear(Planned(start, end)[k].day)
  {
    var b := Planned(start, end)[k];
    assert b in Planned(start, end);
    PlannedCoverage(start, end, b);
  }

  /** Why constructing the manager can fail. */
  datatype InitError =
    | ValueError  // `datetime.date` rejects a start or end date
    | IndexError  // `dates_to_download[-1]` on an empty list

  datatype Result<T> = Ok(value: T) | Err(error: InitError)

  /** The state `Manager.__init__` sets up (the queues are not modelled). */
  datatype Manager = Manager(dates: seq<string>, lastHour: string, lastDay: string)

  /** `Manager.__init__`. */
  method NewManager(
    startYear: int, startMonth: int, startDay: int,
    endYear: int, endMonth: int, endDay: int)
    returns (r: Result<Manager>)
    ensures var start, end := Date(startYear, startMonth, startDay), Date(endYear, endMonth, endDay);
      && (r == Err(ValueError) <==> !Valid(start) || !Valid(end))
      && (r == Err(IndexError) <==> Valid(start) && Valid(end) && Before(end, start))
      && (r.Ok? ==> r.value.dates == PlannedNames(start, end)
                    && r.value.lastHour == BucketName(start, 0)
                    && r.value.lastDay == DayName(start))
  {
    var start, end := Date(startYear, startMonth, startDay), Date(endYear, endMonth, endDay);
    if !Valid(start) || !Valid(end) {
      return Err(ValueError);
    }
    var dates := DatesToDownload(start, end);
    PlannedLength(start, end);
    if |dates| == 0 {
      return Err(IndexError);
    }
    var lastHour := dates[|dates| - 1];
    PlannedEnds(start, end);
    HourZeroDropLast(start);
    r := Ok(Manager(dates, lastHour, DropLast(lastHour, 2)));
  }
}
