/** The manager's stages run one after the other over the planned list:
    downloading every bucket, decompressing up to `last_hour`, writing CSVs
    with the day rotation (hour 23 opens a day's writers, the first of a
    month resets the seen-sets, hour 0 closes the writers and hands the day
    on), and copying the handed-on days up to `last_day`. */
module Pipeline {
  import opened Wrappers
  import opened Events
  import opened Rows
  import opened Normalizer
  import opened Dedup
  import opened Calendar
  import opened Names
  import opened Planner
  import opened Storage
  import opened Seqs
  import opened Rotation

  // ---------------------------------------------------------------------
  // Reading a bucket name.
  // ---------------------------------------------------------------------

  /** `date[:10]`. */
  function DayOf(date: string): string {
    SliceTo(date, 10)
  }

  /** `date[11:]`. */
  function HourOf(date: string): string {
    SliceFrom(date, 11)
  }

  /** Hour 23 opens new writers for the bucket's day. */
  predicate Opens(date: string) {
    HourOf(date) == "23"
  }

  /** Opening the first day of a month resets the seen-sets (`day[-2:] == '01'`). */
  predicate Resets(date: string) {
    Opens(date) && TakeLast(DayOf(date), 2) == "01"
  }

  /** Hour 0 closes the writers and hands the day on. */
  predicate Closes(date: string) {
    HourOf(date) == "0"
  }

  // ---------------------------------------------------------------------
  // The stop rule the decompress and copy loops share.
  // ---------------------------------------------------------------------

  /** The items a `while x := queue.get(): ... if x == last: break` loop takes
      from `q`: up to and including the first `last`, and none from the
      first empty (falsy) item on. */
  function Through(q: seq<string>, last: string): (r: seq<string>)
    ensures r <= q
  {
    if q == [] || q[0] == [] then []
    else if q[0] == last then [q[0]]
    else [q[0]] + Through(q[1..], last)
  }

  /** One step of the stop rule at position `i`. */
  lemma ThroughAt(q: seq<string>, i: nat, last: string)
    requires i < |q| && q[i] != []
    ensures Through(q[i..], last) == [q[i]] + (if q[i] == last then [] else Through(q[i + 1..], last))
  {
    DropCons(q, i);
  }

  /** A list with no empty item whose only `last` is its final item is taken whole. */
  lemma {:induction false} ThroughWhole(q: seq<string>, last: string)
    requires q != [] && q[|q| - 1] == last
    requires forall k :: 0 <= k < |q| ==> q[k] != []
    requires forall k :: 0 <= k < |q| - 1 ==> q[k] != last
    ensures Through(q, last) == q
  {
    if |q| > 1 {
      ThroughWhole(q[1..], last);
      assert [q[0]] + q[1..] == q;
    }
  }

  // ---------------------------------------------------------------------
  // run_download and run_decompress.
  // ---------------------------------------------------------------------

  /** The items `while date := next(it, None)` visits: those before the first empty one. */
  function NonEmptyPrefix(q: seq<string>): (r: seq<string>)
    ensures r <= q
    ensures forall k :: 0 <= k < |r| ==> r[k] != []
    ensures |r| < |q| ==> q[|r|] == []
  {
    if q == [] || q[0] == [] then [] else [q[0]] + NonEmptyPrefix(q[1..])
  }

  function DownloadAll(files: set<string>, dates: seq<string>): set<string>
    decreases |dates|
  {
    if dates == [] then files else DownloadAll(Downloaded(files, dates[0]), dates[1..])
  }

  /** The files after decompressing `dates` in order, or `None` once one of them fails. */
  function DecompressAll(files: set<string>, dates: seq<string>): Option<set<string>>
    decreases |dates|
  {
    if dates == [] then Some(files)
    else match Decompressed(files, dates[0])
      case None => None
      case Some(f) => DecompressAll(f, dates[1..])
  }

  lemma {:induction false} DownloadAllSnoc(files: set<string>, dates: seq<string>, d: string)
    ensures DownloadAll(files, dates + [d]) == Downloaded(DownloadAll(files, dates), d)
    decreases |dates|
  {
    if dates != [] {
      SnocTail(dates, d);
      DownloadAllSnoc(Downloaded(files, dates[0]), dates[1..], d);
    }
  }

  lemma {:induction false} DecompressAllSnoc(files: set<string>, dates: seq<string>, d: string)
    requires DecompressAll(files, dates).Some?
    ensures DecompressAll(files, dates + [d]) == Decompressed(DecompressAll(files, dates).value, d)
    decreases |dates|
  {
    if dates != [] {
      SnocTail(dates, d);
      DecompressAllSnoc(Decompressed(files, dates[0]).value, dates[1..], d);
    }
  }

  /** `run_download`: every bucket before the first empty name is downloaded and queued, in order. */
  method RunDownload(dir: DataDir, dates: seq<string>) returns (queued: seq<string>)
    modifies dir
    ensures queued == NonEmptyPrefix(dates)
    ensures dir.files == DownloadAll(old(dir.files), queued)
  {
    queued := [];
    var i := 0;
    while i < |dates| && dates[i] != []
      invariant 0 <= i <= |dates| && queued == dates[..i]
      invariant forall k :: 0 <= k < i ==> dates[k] != []
      invariant dir.files == DownloadAll(old(dir.files), queued)
    {
      DownloadAllSnoc(old(dir.files), queued, dates[i]);
      dir.DownloadJson(dates[i]);
      TakeSnoc(dates, i);
      queued := queued + [dates[i]];
      i := i + 1;
    }
    NonEmptyPrefixIs(dates, i);
  }

  lemma {:induction false} NonEmptyPrefixIs(q: seq<string>, i: nat)
    requires i <= |q| && (i == |q| || q[i] == [])
    requires forall k :: 0 <= k < i ==> q[k] != []
    ensures NonEmptyPrefix(q) == q[..i]
  {
    if i > 0 {
      NonEmptyPrefixIs(q[1..], i - 1);
      assert q[..i] == [q[0]] + q[1..][..i - 1];
    }
  }

  /** `run_decompress`: buckets are decompressed and queued up to `last_hour`; a bucket
      with neither file stops the stage, and that bucket is not queued. */
  method RunDecompress(dir: DataDir, q: seq<string>, lastHour: string) returns (out: seq<string>, failed: bool)
    modifies dir
    ensures out <= Through(q, lastHour)
    ensures DecompressAll(old(dir.files), out) == Some(dir.files)
    ensures !failed ==> out == Through(q, lastHour)
    ensures failed ==> |out| < |Through(q, lastHour)|
                       && DecompressAll(old(dir.files), out + [Through(q, lastHour)[|out|]]).None?
  {
    out := [];
    failed := false;
    var i := 0;
    while i < |q| && q[i] != []
      invariant 0 <= i <= |q| && out == q[..i]
      invariant forall k :: 0 <= k < i ==> q[k] != [] && q[k] != lastHour
      invariant DecompressAll(old(dir.files), out) == Some(dir.files)
    {
      var date := q[i];
      DecompressAllSnoc(old(dir.files), out, date);
      var ok, _ := dir.DecompressJson(date);
      if !ok {
        ThroughFails(q, i, lastHour);
        failed := true;
        return;
      }
      TakeSnoc(q, i);
      out := out + [date];
      if date == lastHour {
        ThroughHits(q, i, lastHour);
        return;
      }
      i := i + 1;
    }
    ThroughEnds(q, i, lastHour);
  }

  /** The stop rule passes over a prefix with no empty name and no `last`. */
  lemma {:induction false} ThroughPrefix(q: seq<string>, i: nat, last: string)
    requires i <= |q|
    requires forall k :: 0 <= k < i ==> q[k] != [] && q[k] != last
    ensures Through(q, last) == q[..i] + Through(q[i..], last)
  {
    if i > 0 {
      ThroughPrefix(q[1..], i - 1, last);
      assert q[1..][i - 1..] == q[i..];
      assert q[..i] == [q[0]] + q[1..][..i - 1];
      AppendAssoc([q[0]], q[1..][..i - 1], Through(q[i..], last));
    } else {
      assert q[..0] + Through(q[0..], last) == Through(q, last);
    }
  }

  lemma ThroughFails(q: seq<string>, i: nat, last: string)
    requires i < |q| && q[i] != []
    requires forall k :: 0 <= k < i ==> q[k] != [] && q[k] != last
    ensures q[..i] <= Through(q, last) && i < |Through(q, last)| && Through(q, last)[i] == q[i]
  {
    ThroughPrefix(q, i, last);
    ThroughAt(q, i, last);
  }

  lemma ThroughHits(q: seq<string>, i: nat, last: string)
    requires i < |q| && q[i] == last && last != []
    requires forall k :: 0 <= k < i ==> q[k] != [] && q[k] != last
    ensures Through(q, last) == q[..i + 1]
  {
    ThroughPrefix(q, i, last);
    ThroughAt(q, i, last);
    TakeSnoc(q, i);
  }

  lemma ThroughEnds(q: seq<string>, i: nat, last: string)
    requires i <= |q| && (i == |q| || q[i] == [])
    requires forall k :: 0 <= k < i ==> q[k] != [] && q[k] != last
    ensures Through(q, last) == q[..i]
  {
    ThroughPrefix(q, i, last);
    assert q[..i] + [] == q[..i];
  }

  /** Every bucket that was downloaded decompresses, whatever happens to the other files on the way. */
  lemma {:induction false} DecompressAfterDownload(files: set<string>, dates: seq<string>)
    requires forall k :: 0 <= k < |dates| ==> JsonFile(dates[k]) in files || GzFile(dates[k]) in files
    ensures DecompressAll(files, dates).Some?
    decreases |dates|
  {
    if dates != [] {
      var d := dates[0];
      DecompressResult(files, d);
      var f := Decompressed(files, d).value;
      forall k | 0 <= k < |dates[1..]|
        ensures JsonFile(dates[1..][k]) in f || GzFile(dates[1..][k]) in f
      {
        var e := dates[1..][k];
        assert e == dates[k + 1];
        if GzFile(e) == GzFile(d) {
          GzFileInjective(e, d);
        }
        JsonIsNotGz(e, d);
      }
      DecompressAfterDownload(f, dates[1..]);
    }
  }

  lemma GzFileInjective(a: string, b: string)
    requires GzFile(a) == GzFile(b)
    ensures a == b
  {
    assert a == GzFile(a)[..|a|];
    assert b == GzFile(b)[..|b|];
  }

  /** After every bucket is downloaded, each one is present in one of its two forms. */
  lemma {:induction false} DownloadAllProvides(files: set<string>, dates: seq<string>, d: string)
    requires d in dates || JsonFile(d) in files || GzFile(d) in files
    ensures JsonFile(d) in DownloadAll(files, dates) || GzFile(d) in DownloadAll(files, dates)
    decreases |dates|
  {
    if dates != [] {
      DownloadProvides(files, dates[0]);
      if d != dates[0] {
        assert d in dates[1..] || JsonFile(d) in files || GzFile(d) in files;
      }
      DownloadAllProvides(Downloaded(files, dates[0]), dates[1..], d);
    }
  }

  /** Running the download stage and then the decompress stage over the same buckets never fails. */
  lemma DownloadThenDecompressAll(files: set<string>, dates: seq<string>)
    ensures DecompressAll(DownloadAll(files, dates), dates).Some?
  {
    forall k | 0 <= k < |dates|
      ensures JsonFile(dates[k]) in DownloadAll(files, dates) || GzFile(dates[k]) in DownloadAll(files, dates)
    {
      DownloadAllProvides(files, dates, dates[k]);
    }
    DecompressAfterDownload(DownloadAll(files, dates), dates);
  }

  // ---------------------------------------------------------------------
  // run_write_csvs.
  // ---------------------------------------------------------------------

  /** A closed day: its name and the rows its writers received. */
  datatype Handoff = Handoff(day: string, rows: Writers)

  /** The converter, the days handed on so far and the number of buckets written. */
  datatype WriteState = WriteState(conv: State, handed: seq<Handoff>, written: nat)

  /** Before a bucket is written: new writers at hour 23, and a reset when that day is a first of month. */
  function Open(s: State, date: string): (r: State)
    ensures Opens(date) ==> r.w == EmptyWriters
    ensures Resets(date) ==> r.ids == {} && r.pushes == {} && r.issues == {} && r.prs == {}
    ensures !Resets(date) ==> r.ids == s.ids && r.pushes == s.pushes && r.issues == s.issues && r.prs == s.prs
    ensures !Opens(date) ==> r == s
  {
    if !Opens(date) then s
    else if Resets(date) then Reset(s.(w := EmptyWriters))
    else s.(w := EmptyWriters)
  }

  ghost predicate BucketsTyped(bucket: string -> seq<Line>) {
    forall date :: AllWellTyped(bucket(date))
  }

  /** One pass of the loop body of `run_write_csvs` on the bucket `date`. */
  function WriteBucket(ws: WriteState, date: string, bucket: string -> seq<Line>): (r: WriteState)
    requires BucketsTyped(bucket)
    ensures r.written == ws.written + 1
    ensures r.conv == Run(Open(ws.conv, date), bucket(date))
    ensures r.handed == if Closes(date) then ws.handed + [Handoff(DayOf(date), r.conv.w)] else ws.handed
  {
    assert AllWellTyped(bucket(date));
    var conv := Run(Open(ws.conv, date), bucket(date));
    if Closes(date) then WriteState(conv, ws.handed + [Handoff(DayOf(date), conv.w)], ws.written + 1)
    else WriteState(conv, ws.handed, ws.written + 1)
  }

  /** The loop of `run_write_csvs` over the queue `q`, where `bucket(date)` is
      the decoded content of `<date>.json`. */
  function WriteLoop(ws: WriteState, q: seq<string>, lastHour: string, bucket: string -> seq<Line>): WriteState
    requires BucketsTyped(bucket)
    decreases |q|
  {
    if q == [] || q[0] == [] then ws
    else
      var next := WriteBucket(ws, q[0], bucket);
      if Closes(q[0]) && q[0] == lastHour then next else WriteLoop(next, q[1..], lastHour, bucket)
  }

  /** An empty (falsy) name ends the loop. */
  predicate Stops(date: string) {
    date == []
  }

  /** The days the loop over `q` hands on, read off the names alone. */
  function Handed(q: seq<string>, lastHour: string): seq<string> {
    HandedBy(q, lastHour, Stops, Closes, DayOf)
  }

  /** The number of buckets the loop over `q` writes, read off the names alone. */
  function Written(q: seq<string>, lastHour: string): nat {
    WrittenBy(q, lastHour, Stops, Closes)
  }

  /** What the loop hands on and how much it writes depends on the names only, not on the buckets' contents. */
  lemma {:induction false} WriteLoopSummary(ws: WriteState, q: seq<string>, lastHour: string, bucket: string -> seq<Line>)
    requires BucketsTyped(bucket)
    ensures Days(WriteLoop(ws, q, lastHour, bucket).handed) == Days(ws.handed) + Handed(q, lastHour)
    ensures WriteLoop(ws, q, lastHour, bucket).written == ws.written + Written(q, lastHour)
    decreases |q|
  {
    if q != [] && q[0] != [] {
      var date := q[0];
      var next := WriteBucket(ws, date, bucket);
      var own := if Closes(date) then [DayOf(date)] else [];
      DaysSnoc(ws.handed, Handoff(DayOf(date), next.conv.w));
      assert Days(next.handed) == Days(ws.handed) + own;
      if !(Closes(date) && date == lastHour) {
        WriteLoopSummary(next, q[1..], lastHour, bucket);
        AppendAssoc(Days(ws.handed), own, Handed(q[1..], lastHour));
      }
    }
  }

  /** From the initial state, the loop hands on exactly the days read off the names. */
  lemma WriteLoopFromStart(q: seq<string>, lastHour: string, bucket: string -> seq<Line>)
    requires BucketsTyped(bucket)
    ensures Days(WriteLoop(WriteState(InitialState(), [], 0), q, lastHour, bucket).handed) == Handed(q, lastHour)
    ensures WriteLoop(WriteState(InitialState(), [], 0), q, lastHour, bucket).written == Written(q, lastHour)
  {
    WriteLoopSummary(WriteState(InitialState(), [], 0), q, lastHour, bucket);
    assert Days([]) == [];
  }

  /** The converter `run_write_csvs` starts with (`writers=None`; see `RunWriteCsvs`). */
  function InitialState(): State {
    State({}, {}, {}, {}, EmptyWriters)
  }

  /** The head of `run_write_csvs`'s loop body (manager.py:47-51): hour 23 installs new
      writers and, on the first of a month, resets the seen-sets. */
  method OpenBucket(converter: JSONToCSVConverter, date: string)
    modifies converter
    ensures converter.Abs() == Open(old(converter.Abs()), date)
  {
    var day, hour := SliceTo(date, 10), SliceFrom(date, 11);
    if hour == "23" {
      converter.SetWriters(EmptyWriters);
      if TakeLast(day, 2) == "01" {
        converter.ResetAddedSets();
      }
    }
  }

  /** One round of the write loop at position `i`. */
  lemma WriteLoopUnfold(ws: WriteState, q: seq<string>, i: nat, lastHour: string, bucket: string -> seq<Line>)
    requires BucketsTyped(bucket)
    requires i < |q| && q[i] != []
    ensures WriteLoop(ws, q[i..], lastHour, bucket)
         == if Closes(q[i]) && q[i] == lastHour then WriteBucket(ws, q[i], bucket)
            else WriteLoop(WriteBucket(ws, q[i], bucket), q[i + 1..], lastHour, bucket)
  {
    assert q[i..][0] == q[i] && q[i..][1..] == q[i + 1..];
  }

  /** `run_write_csvs`. The converter starts without writers; the first bucket must
      open a day, as every planned list's first bucket does. */
  method RunWriteCsvs(q: seq<string>, lastHour: string, bucket: string -> seq<Line>)
    returns (converter: JSONToCSVConverter, handed: seq<Handoff>, written: nat)
    requires BucketsTyped(bucket)
    requires q != [] && q[0] != [] ==> Opens(q[0])
    ensures WriteState(converter.Abs(), handed, written) == WriteLoop(WriteState(InitialState(), [], 0), q, lastHour, bucket)
  {
    converter := new JSONToCSVConverter(EmptyWriters);
    handed := [];
    written := 0;
    var i := 0;
    while i < |q| && q[i] != []
      invariant 0 <= i <= |q| && written == i
      invariant WriteLoop(WriteState(converter.Abs(), handed, written), q[i..], lastHour, bucket)
             == WriteLoop(WriteState(InitialState(), [], 0), q, lastHour, bucket)
    {
      var date := q[i];
      ghost var before := WriteState(converter.Abs(), handed, written);
      WriteLoopUnfold(before, q, i, lastHour, bucket);
      var day, hour := SliceTo(date, 10), SliceFrom(date, 11);
      OpenBucket(converter, date);
      assert AllWellTyped(bucket(date));
      converter.WriteEvents(bucket(date));
      written := written + 1;
      if hour == "0" {
        handed := handed + [Handoff(day, converter.writers)];
      }
      assert WriteState(converter.Abs(), handed, written) == WriteBucket(before, date, bucket);
      if hour == "0" {
        if date == lastHour {
          return;
        }
      }
      i := i + 1;
    }
  }

  /** The seen-sets only grow while a bucket is written. */
  lemma {:induction false} RunSetsGrow(s: State, ls: seq<Line>)
    requires AllWellTyped(ls)
    ensures s.ids <= Run(s, ls).ids && s.pushes <= Run(s, ls).pushes
    ensures s.issues <= Run(s, ls).issues && s.prs <= Run(s, ls).prs
  {
    if ls != [] {
      RunSetsGrow(s, ls[1..]);
      var t := Run(s, ls[1..]);
      StepIds(t, ls[0]);
      PushStep(t, ls[0]);
      IssueStep(t, ls[0]);
      PullRequestStep(t, ls[0]);
    }
  }

  /** The seen-sets shrink only at a bucket that opens the first day of a month, and there they are emptied first. */
  lemma OnlyFirstOfMonthResets(s: State, date: string, ls: seq<Line>)
    requires AllWellTyped(ls)
    ensures !Resets(date) ==>
      s.ids <= Run(Open(s, date), ls).ids && s.pushes <= Run(Open(s, date), ls).pushes
      && s.issues <= Run(Open(s, date), ls).issues && s.prs <= Run(Open(s, date), ls).prs
    ensures Resets(date) ==> Open(s, date) == Reset(s.(w := EmptyWriters))
  {
    RunSetsGrow(Open(s, date), ls);
  }

  /** The days handed on. */
  function Days(h: seq<Handoff>): (r: seq<string>)
    ensures |r| == |h| && forall j :: 0 <= j < |h| ==> r[j] == h[j].day
  {
    seq(|h|, j requires 0 <= j < |h| => h[j].day)
  }

  // ---------------------------------------------------------------------
  // The rotation over a planned list.
  // ---------------------------------------------------------------------

  /** The planned range: start not after end, both with four-digit years. */
  predicate PlannedRange(start: Date, end: Date) {
    FourDigitYear(start) && FourDigitYear(end) && !Before(end, start)
  }

  /** The day `m` days after `start` is still in the calendar. */
  predicate Fits(start: Date, m: nat) {
    Valid(start) && Ordinal(start) + m <= Ordinal(MaxDate)
  }

  /** The name of the day `m` days after `start` (empty past the calendar's end). */
  function DayAfter(start: Date, m: nat): string {
    if Fits(start, m) then DayName(AddDays(start, m)) else ""
  }

  function DayAfterOf(start: Date): nat -> string {
    (m: nat) => DayAfter(start, m)
  }

  /** The day `m` days after a four-digit-year start, within a range that fits, has a four-digit year. */
  lemma DayInRange(start: Date, last: nat, m: nat)
    requires FourDigitYear(start) && Fits(start, last) && m <= last
    ensures Fits(start, m)
    ensures FourDigitYear(AddDays(start, m)) && Ordinal(AddDays(start, m)) == Ordinal(start) + m
  {
    var d := AddDays(start, m);
    if Before(d, start) {
      OrdinalMonotone(d, start);
    }
  }

  /** Distinct days within such a range have distinct names. */
  lemma DayNamesDistinct(start: Date, last: nat, m1: nat, m2: nat)
    requires FourDigitYear(start) && Fits(start, last) && m1 <= last && m2 <= last
    requires DayAfter(start, m1) == DayAfter(start, m2)
    ensures m1 == m2
  {
    DayInRange(start, last, m1);
    DayInRange(start, last, m2);
    DayNameInjective(AddDays(start, m1), AddDays(start, m2));
  }

  lemma DayAfterInjective(start: Date, last: nat)
    requires FourDigitYear(start) && Fits(start, last)
    ensures forall a: nat, b: nat :: a <= last && b <= last && DayAfterOf(start)(a) == DayAfterOf(start)(b) ==> a == b
  {
    forall a: nat, b: nat | a <= last && b <= last && DayAfterOf(start)(a) == DayAfterOf(start)(b)
      ensures a == b
    {
      DayNamesDistinct(start, last, a, b);
    }
  }

  /** The days of the range, newest first. */
  function DaysNewestFirst(start: Date, end: Date): (r: seq<string>)
    requires PlannedRange(start, end)
  {
    DaysBetweenSign(start, end);
    TabulateDown(DayAfterOf(start), DayCount(start, end) - 1)
  }

  /** Position `j` holds the day `k` days after the start, where `j + k` is one less than the number of days. */
  lemma DaysNewestFirstIndex(start: Date, end: Date, j: nat, k: nat)
    requires PlannedRange(start, end) && j + k == DayCount(start, end) - 1
    ensures j < |DaysNewestFirst(start, end)| && Fits(start, k)
    ensures DaysNewestFirst(start, end)[j] == DayName(AddDays(start, k))
  {
    DaysBetweenSign(start, end);
    DayCountFits(start, end);
    var m := DayCount(start, end) - 1;
    DaysNewestFirstIs(start, end, m);
    TabulateDownAt(DayAfterOf(start), m, j, k);
    DayInRange(start, m, k);
  }

  /** Within a range that fits, every day has a non-empty name and only day 0 is named as the start. */
  lemma DaysAfterNames(start: Date, m: nat)
    requires FourDigitYear(start) && Fits(start, m)
    ensures forall a: nat :: a <= m ==> DayAfterOf(start)(a) != []
    ensures forall a: nat :: 1 <= a <= m ==> DayAfterOf(start)(a) != DayName(start)
    ensures DayAfterOf(start)(0) == DayName(start)
  {
    assert DayAfter(start, 0) == DayName(start);
    forall a: nat | a <= m
      ensures DayAfter(start, a) != [] && (1 <= a ==> DayAfter(start, a) != DayName(start))
    {
      DayInRange(start, m, a);
      DayNameLength(AddDays(start, a));
      if 1 <= a && DayAfter(start, a) == DayName(start) {
        DayNamesDistinct(start, m, a, 0);
      }
    }
  }

  lemma DaysSnoc(h: seq<Handoff>, x: Handoff)
    ensures Days(h + [x]) == Days(h) + [x.day]
  {
    var l, r := Days(h + [x]), Days(h) + [x.day];
    forall j | 0 <= j < |l|
      ensures l[j] == r[j]
    {
      if j < |h| {
        assert (h + [x])[j] == h[j];
      }
    }
  }

  /** What the rotation reads off the name at position `k` of a planned list: the bucket's day,
      hour 23 opening it, hour 0 closing it, a first of month resetting, and the name of hour 0 of
      the start date only at the end. */
  lemma PlannedPosition(start: Date, end: Date, k: nat)
    requires PlannedRange(start, end) && k < |PlannedNames(start, end)|
    ensures var q := PlannedNames(start, end); var b := Planned(start, end)[k];
      && q[k] != []
      && DayOf(q[k]) == DayName(b.day)
      && (Opens(q[k]) <==> b.hour == 23)
      && (Closes(q[k]) <==> b.hour == 0)
      && (Resets(q[k]) <==> b.hour == 23 && b.day.day == 1)
      && (q[k] == BucketName(start, 0) <==> k == |q| - 1)
  {
    var q := PlannedNames(start, end);
    var b := Planned(start, end)[k];
    assert q[k] == Name(b);
    PlannedYears(start, end, k);
    BucketNameSlices(b.day, b.hour);
    HourTests(b.hour);
    FirstOfMonthTest(b.day);
    PlannedEnds(start, end);
    if q[k] == BucketName(start, 0) {
      PlannedNamesDistinct(start, end, k, |q| - 1);
    }
  }

  /** Within each day of a planned list the hours run 23 down to 0. */
  lemma PlannedHourAt(start: Date, end: Date, k: nat)
    requires Valid(start) && Valid(end) && k < |Planned(start, end)|
    ensures Planned(start, end)[k].hour == 23 - k % 24
  {
    var n := DayCount(start, end);
    DayCountFits(start, end);
    assert Planned(start, end)[k] == PlannedBucket(start, n, k);
  }

  /** The day part of the name at position `k` of a planned list is the day `d` days after the start,
      where `k / 24 + d` is one less than the number of days. */
  lemma PlannedDayAt(start: Date, end: Date, k: nat, d: nat)
    requires PlannedRange(start, end) && k < |PlannedNames(start, end)|
    requires k / 24 + d == DayCount(start, end) - 1
    ensures DayOf(PlannedNames(start, end)[k]) == DayAfter(start, d)
  {
    PlannedPosition(start, end, k);
    var n := DayCount(start, end);
    DayCountFits(start, end);
    var b := Planned(start, end)[k];
    assert b == PlannedBucket(start, n, k);
    PlannedBucketAt(start, n, k, d, 23 - k % 24);
    DayInRange(start, n - 1, d);
    OrdinalInjective(b.day, AddDays(start, d));
  }

  /** The hour-0 names of a planned list sit at positions 23, 47, ..., each stops nothing,
      and the name of hour 0 of the start date comes only at the end. */
  lemma PlannedClosings(start: Date, end: Date)
    requires PlannedRange(start, end)
    ensures var q := PlannedNames(start, end);
      && (forall k :: 0 <= k < |q| ==> !Stops(q[k]))
      && (forall k :: 0 <= k < |q| ==> (Closes(q[k]) <==> k % 24 == 23))
      && (forall k :: 0 <= k < |q| ==> (q[k] == BucketName(start, 0) <==> k == |q| - 1))
  {
    var q := PlannedNames(start, end);
    forall k | 0 <= k < |q|
      ensures q[k] != [] && (Closes(q[k]) <==> k % 24 == 23)
      ensures q[k] == BucketName(start, 0) <==> k == |q| - 1
    {
      PlannedPosition(start, end, k);
      PlannedHourAt(start, end, k);
    }
  }

  /** The hour-0 name at position `k` of a planned list names the day `d` days after the start,
      where `k / 24 + d` is one less than the number of days. */
  lemma PlannedClosingDays(start: Date, end: Date)
    requires PlannedRange(start, end)
    ensures var q := PlannedNames(start, end);
      forall k, d :: 0 <= k < |q| && Closes(q[k]) && k / 24 + d == DayCount(start, end) - 1 ==>
        DayOf(q[k]) == DayAfterOf(start)(d)
  {
    var q := PlannedNames(start, end);
    forall k, d | 0 <= k < |q| && Closes(q[k]) && k / 24 + d == DayCount(start, end) - 1
      ensures DayOf(q[k]) == DayAfterOf(start)(d)
    {
      PlannedDayAt(start, end, k, d);
    }
  }

  /** A planned list has the shape the rotation proof needs. */
  lemma PlannedShaped(start: Date, end: Date)
    requires PlannedRange(start, end)
    ensures DayCount(start, end) >= 1
    ensures Shaped(PlannedNames(start, end), DayCount(start, end) - 1, DayAfterOf(start), BucketName(start, 0),
                   Stops, Closes, DayOf)
  {
    DaysBetweenSign(start, end);
    PlannedLength(start, end);
    PlannedClosings(start, end);
    PlannedClosingDays(start, end);
  }

  /** Over a planned list every day of the range is handed on exactly once, newest first,
      and every bucket is written. */
  lemma PlannedHandoffs(start: Date, end: Date, bucket: string -> seq<Line>)
    requires PlannedRange(start, end) && BucketsTyped(bucket)
    ensures var r := WriteLoop(WriteState(InitialState(), [], 0), PlannedNames(start, end), BucketName(start, 0), bucket);
      Days(r.handed) == DaysNewestFirst(start, end)
      && r.written == |PlannedNames(start, end)|
  {
    PlannedHanded(start, end);
    WriteLoopFromStart(PlannedNames(start, end), BucketName(start, 0), bucket);
  }

  /** Read off the names of a planned list, the loop hands on the days of the range newest first
      and writes every bucket. */
  lemma PlannedHanded(start: Date, end: Date)
    requires PlannedRange(start, end)
    ensures Handed(PlannedNames(start, end), BucketName(start, 0)) == DaysNewestFirst(start, end)
    ensures Written(PlannedNames(start, end), BucketName(start, 0)) == |PlannedNames(start, end)|
  {
    PlannedShaped(start, end);
    var m := DayCount(start, end) - 1;
    HandedOfShaped(PlannedNames(start, end), m, DayAfterOf(start), BucketName(start, 0));
    DaysNewestFirstIs(start, end, m);
  }

  lemma DaysNewestFirstIs(start: Date, end: Date, m: nat)
    requires PlannedRange(start, end) && m + 1 == DayCount(start, end)
    ensures DaysNewestFirst(start, end) == TabulateDown(DayAfterOf(start), m)
  {
  }

  lemma HandedOfShaped(q: seq<string>, m: nat, day: nat -> string, last: string)
    requires Shaped(q, m, day, last, Stops, Closes, DayOf)
    ensures Handed(q, last) == TabulateDown(day, m)
    ensures Written(q, last) == |q|
  {
    HandoffsAll(q, m, day, last, Stops, Closes, DayOf);
  }

  /** Over a planned list writers are opened exactly at the hour-23 buckets, the seen-sets are
      reset exactly when opening a first of month, and days are handed on exactly at the hour-0 buckets. */
  lemma PlannedRotation(start: Date, end: Date, k: nat)
    requires PlannedRange(start, end) && k < |PlannedNames(start, end)|
    ensures Opens(PlannedNames(start, end)[k]) <==> Planned(start, end)[k].hour == 23
    ensures Resets(PlannedNames(start, end)[k]) <==> Planned(start, end)[k].hour == 23 && Planned(start, end)[k].day.day == 1
    ensures Closes(PlannedNames(start, end)[k]) <==> Planned(start, end)[k].hour == 0
  {
    PlannedPosition(start, end, k);
  }

  /** The first planned bucket opens a day, as `run_write_csvs` needs. */
  lemma PlannedStartsOpen(start: Date, end: Date)
    requires PlannedRange(start, end)
    ensures PlannedNames(start, end) != [] && Opens(PlannedNames(start, end)[0])
  {
    PlannedEnds(start, end);
    PlannedPosition(start, end, 0);
  }

  /** Over a planned list the decompress stage takes every bucket. */
  lemma PlannedDecompressTakesAll(start: Date, end: Date)
    requires PlannedRange(start, end)
    ensures Through(PlannedNames(start, end), BucketName(start, 0)) == PlannedNames(start, end)
  {
    var q := PlannedNames(start, end);
    PlannedEnds(start, end);
    forall k | 0 <= k < |q|
      ensures q[k] != [] && (k < |q| - 1 ==> q[k] != BucketName(start, 0))
    {
      PlannedPosition(start, end, k);
    }
    ThroughWhole(q, BucketName(start, 0));
  }

  /** Distinct days of the range have distinct names, so `last_day` comes only at the end. */
  lemma DaysNewestFirstDistinct(start: Date, end: Date, i: nat, j: nat)
    requires PlannedRange(start, end)
    requires i < |DaysNewestFirst(start, end)| && j < |DaysNewestFirst(start, end)|
    requires DaysNewestFirst(start, end)[i] == DaysNewestFirst(start, end)[j]
    ensures i == j
  {
    DaysBetweenSign(start, end);
    DayCountFits(start, end);
    var m := DayCount(start, end) - 1;
    DaysNewestFirstIs(start, end, m);
    DayAfterInjective(start, m);
    TabulateDownDistinct(DayAfterOf(start), m, i, j);
  }

  // ---------------------------------------------------------------------
  // run_copy_into_database.
  // ---------------------------------------------------------------------

  function RemoveAllDayCsvs(files: set<string>, days: seq<string>): set<string>
    decreases |days|
  {
    if days == [] then files else RemoveAllDayCsvs(WithoutDayCsvs(files, days[0]), days[1..])
  }

  lemma {:induction false} RemoveAllDayCsvsSnoc(files: set<string>, days: seq<string>, d: string)
    ensures RemoveAllDayCsvs(files, days + [d]) == WithoutDayCsvs(RemoveAllDayCsvs(files, days), d)
    decreases |days|
  {
    if days != [] {
      SnocTail(days, d);
      RemoveAllDayCsvsSnoc(WithoutDayCsvs(files, days[0]), days[1..], d);
    }
  }

  /** `run_copy_into_database`: each handed-on day is loaded and its CSV files removed,
      up to `last_day`. Whether the load of a day goes through is `loads(day)` (the load itself is
      `Loader.DatabaseLink.InsertCsvsIntoDb`); a load that raises ends the stage before that day's
      files are removed. */
  method RunCopyIntoDatabase(dir: DataDir, days: seq<string>, lastDay: string, loads: string -> bool)
    returns (copied: seq<string>, aborted: bool)
    modifies dir
    ensures copied <= Through(days, lastDay)
    ensures forall k :: 0 <= k < |copied| ==> loads(copied[k])
    ensures !aborted ==> copied == Through(days, lastDay)
    ensures aborted ==> |copied| < |Through(days, lastDay)| && !loads(Through(days, lastDay)[|copied|])
    ensures dir.files == RemoveAllDayCsvs(old(dir.files), copied)
  {
    copied := [];
    aborted := false;
    var i := 0;
    while i < |days| && days[i] != []
      invariant 0 <= i <= |days| && copied == days[..i]
      invariant forall k :: 0 <= k < i ==> days[k] != [] && days[k] != lastDay && loads(days[k])
      invariant dir.files == RemoveAllDayCsvs(old(dir.files), copied)
    {
      var day := days[i];
      if !loads(day) {
        ThroughFails(days, i, lastDay);
        aborted := true;
        return;
      }
      RemoveAllDayCsvsSnoc(old(dir.files), copied, day);
      dir.RemoveInsertedCsvs(day);
      TakeSnoc(days, i);
      copied := copied + [day];
      if day == lastDay {
        ThroughHits(days, i, lastDay);
        return;
      }
      i := i + 1;
    }
    ThroughEnds(days, i, lastDay);
  }

  /** The stop loop takes nothing exactly when the first item is already missing or falsy. */
  lemma ThroughEmpty(q: seq<string>, last: string)
    ensures Through(q, last) == [] <==> q == [] || q[0] == []
    ensures Through(q, last) != [] ==> Through(q, last)[0] == q[0]
  {
  }

  /** `run_copy_into_database` as written: `db.insert_csvs_into_db(day)` (manager.py:70) passes an
      argument that the method (database_link.py:35) does not take, so the call raises on the first
      day handed on. Nothing is then loaded, no CSV file is removed, and the stage ends aborted
      exactly when some day was handed on at all. */
  method RunCopyAsWritten(dir: DataDir, days: seq<string>, lastDay: string) returns (copied: seq<string>, aborted: bool)
    modifies dir
    ensures copied == []
    ensures aborted <==> days != [] && days[0] != []
    ensures dir.files == old(dir.files)
  {
    copied, aborted := RunCopyIntoDatabase(dir, days, lastDay, _ => false);
    ThroughEmpty(days, lastDay);
  }

  /** A stop loop takes a whole list `f(m), ..., f(0)` of non-empty items whose `last` comes only at the end. */
  lemma {:induction false} ThroughTabulateDown(f: nat -> string, m: nat, last: string)
    requires forall a: nat :: a <= m ==> f(a) != []
    requires forall a: nat :: 1 <= a <= m ==> f(a) != last
    requires f(0) == last
    ensures Through(TabulateDown(f, m), last) == TabulateDown(f, m)
  {
    if m > 0 {
      ThroughTabulateDown(f, m - 1, last);
      var t := TabulateDown(f, m);
      assert t[0] == f(m) && t[1..] == TabulateDown(f, m - 1);
    }
  }

  /** Over the days a planned list hands on, the copy stage takes every one of them. */
  lemma PlannedCopyTakesAll(start: Date, end: Date)
    requires PlannedRange(start, end)
    ensures Through(DaysNewestFirst(start, end), DayName(start)) == DaysNewestFirst(start, end)
  {
    DaysBetweenSign(start, end);
    DayCountFits(start, end);
    var m := DayCount(start, end) - 1;
    DaysNewestFirstIs(start, end, m);
    DaysAfterNames(start, m);
    ThroughTabulateDown(DayAfterOf(start), m, DayName(start));
  }
}
