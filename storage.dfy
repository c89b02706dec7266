/** The data directory as a set of file names, and the manager's
    file-existence logic on it: downloading `<date>.json.gz` unless
    `<date>.json` is already there, decompressing it into `<date>.json`,
    and the removals after a bucket or a day is done with. */
module Storage {
  import opened Wrappers

  function JsonFile(date: string): string {
    date + ".json"
  }

  function GzFile(date: string): string {
    date + ".json.gz"
  }

  predicate EndsWith(s: string, suffix: string) {
    |suffix| <= |s| && s[|s| - |suffix|..] == suffix
  }

  /** No decompressed name is the name of an archive: one ends in `n`, the other in `z`. */
  lemma JsonIsNotGz(a: string, b: string)
    ensures JsonFile(a) != GzFile(b)
  {
    var j, g := JsonFile(a), GzFile(b);
    assert j[|j| - 1] == 'n';
    assert g[|g| - 1] == 'z';
  }

  /** The files after `download_json(date)`: nothing happens when `<date>.json` exists. */
  function Downloaded(files: set<string>, date: string): set<string> {
    if JsonFile(date) in files then files else files + {GzFile(date)}
  }

  /** The files after `decompress_json(date)`, or `None` where opening the
      archive raises because neither file is there. */
  function Decompressed(files: set<string>, date: string): Option<set<string>> {
    if JsonFile(date) in files then Some(files)
    else if GzFile(date) !in files then None
    else Some(files + {JsonFile(date)} - {GzFile(date)})
  }

  /** The files left once every name ending in `-<day>.csv` is removed (`remove_inserted_csvs`). */
  function WithoutDayCsvs(files: set<string>, day: string): set<string> {
    set f | f in files && !EndsWith(f, "-" + day + ".csv")
  }

  /** After a download, the bucket is there in one of its two forms, and an existing decompressed file is kept. */
  lemma DownloadProvides(files: set<string>, date: string)
    ensures JsonFile(date) in Downloaded(files, date) || GzFile(date) in Downloaded(files, date)
    ensures JsonFile(date) in files ==> Downloaded(files, date) == files
    ensures files <= Downloaded(files, date)
  {
  }

  /** Decompressing succeeds exactly when one of the two forms is there, and then leaves the decompressed file,
      with the archive removed unless the decompressed file already existed. */
  lemma DecompressResult(files: set<string>, date: string)
    ensures Decompressed(files, date).Some? <==> JsonFile(date) in files || GzFile(date) in files
    ensures Decompressed(files, date).Some? ==> JsonFile(date) in Decompressed(files, date).value
    ensures JsonFile(date) !in files && GzFile(date) in files ==>
      GzFile(date) !in Decompressed(files, date).value
      && Decompressed(files, date).value - {JsonFile(date)} == files - {GzFile(date)}
  {
    JsonIsNotGz(date, date);
  }

  /** A bucket that was downloaded can be decompressed, and afterwards its decompressed file is there. */
  lemma DownloadThenDecompress(files: set<string>, date: string)
    ensures Decompressed(Downloaded(files, date), date).Some?
    ensures JsonFile(date) in Decompressed(Downloaded(files, date), date).value
  {
    DownloadProvides(files, date);
    DecompressResult(Downloaded(files, date), date);
  }

  /** The removal after a day's copy (`rm *-<day>.csv`) deletes that day's CSV files and nothing
      else the pipeline keeps in the directory: another day's CSV files (day names all have the
      same length) and every bucket file, in either form, survive it. */
  lemma WithoutDayCsvsKeepsOthers(files: set<string>, day: string, other: string, table: string, date: string)
    requires |other| == |day| && other != day
    ensures table + "-" + day + ".csv" !in WithoutDayCsvs(files, day)
    ensures table + "-" + other + ".csv" in files ==> table + "-" + other + ".csv" in WithoutDayCsvs(files, day)
    ensures JsonFile(date) in files ==> JsonFile(date) in WithoutDayCsvs(files, day)
    ensures GzFile(date) in files ==> GzFile(date) in WithoutDayCsvs(files, day)
    ensures WithoutDayCsvs(files, day) <= files
  {
    var suffix := "-" + day + ".csv";
    var own := table + suffix;
    assert own[|own| - |suffix|..] == suffix;
    var name := table + "-" + other + ".csv";
    var tail := "-" + other + ".csv";
    assert name == table + tail;
    assert name[|name| - |suffix|..] == tail;
    assert tail != suffix by {
      assert tail[1..1 + |other|] == other;
      assert suffix[1..1 + |day|] == day;
    }
    var j, g := JsonFile(date), GzFile(date);
    assert suffix[|suffix| - 1] == 'v';
    assert j[|j| - 1] == 'n';
    assert g[|g| - 1] == 'z';
  }

  /** The data directory. */
  class DataDir {
    var files: set<string>

    constructor (files: set<string>)
      ensures this.files == files
    {
      this.files := files;
    }

    /** `download_json`: the fetched archive is written as `<date>.json.gz`. */
    method DownloadJson(date: string)
      modifies this
      ensures files == Downloaded(old(files), date)
    {
      if JsonFile(date) in files {
        return;
      }
      files := files + {GzFile(date)};
    }

    /** `decompress_json`: `<date>.json` is created before `<date>.json.gz` is removed,
        so at every point one of the two is present (`between` is the state in between). */
    method DecompressJson(date: string) returns (ok: bool, ghost between: set<string>)
      modifies this
      ensures ok <==> Decompressed(old(files), date).Some?
      ensures ok ==> files == Decompressed(old(files), date).value
      ensures !ok ==> files == old(files)
      ensures ok && JsonFile(date) !in old(files) ==>
        between == old(files) + {JsonFile(date)} && files == between - {GzFile(date)}
        && JsonFile(date) in between && GzFile(date) in between
    {
      between := files;
      if JsonFile(date) in files {
        return true, between;
      }
      if GzFile(date) !in files {
        return false, between;
      }
      files := files + {JsonFile(date)};
      between := files;
      files := files - {GzFile(date)};
      ok := true;
    }

    /** `remove_json`: fails when the file is missing. */
    method RemoveJson(date: string) returns (ok: bool)
      modifies this
      ensures ok <==> JsonFile(date) in old(files)
      ensures files == old(files) - {JsonFile(date)}
    {
      ok := JsonFile(date) in files;
      files := files - {JsonFile(date)};
    }

    /** `remove_inserted_csvs`. */
    method RemoveInsertedCsvs(day: string)
      modifies this
      ensures files == WithoutDayCsvs(old(files), day)
    {
      files := WithoutDayCsvs(files, day);
    }
  }
}
