/** The bulk load of `DatabaseLink`: the tables are the `.csv` entries of the
    data directory, each is loaded with one `COPY`, a copy that fails on an
    illegal character is rolled back, the file is stripped of its null bytes
    and the copy is run once more, and every table whose copy went through is
    committed.  The database is an oracle `copy` that answers for a table and
    the current contents of its file; any other failure, and any failure of
    the retry, is not caught and aborts the remaining tables. */
module Loader {
  import opened Wrappers
  import opened Seqs
  import opened Storage

  newtype byte = x: int | 0 <= x < 256

  // ---------------------------------------------------------------------
  // get_csv_files.
  // ---------------------------------------------------------------------

  /** `[f.removesuffix('.csv') for f in files if f.endswith('.csv')]`. */
  function CsvTables(files: seq<string>): (r: seq<string>)
    ensures |r| <= |files|
    decreases |files|
  {
    if files == [] then []
    else (if EndsWith(files[0], ".csv") then [files[0][..|files[0]| - 4]] else []) + CsvTables(files[1..])
  }

  /** An entry names table `t` exactly when it is `t + ".csv"`. */
  lemma CsvEntry(f: string, t: string)
    ensures EndsWith(f, ".csv") && f[..|f| - 4] == t <==> f == t + ".csv"
  {
    if f == t + ".csv" {
      assert f[..|f| - 4] == t;
      assert f[|f| - 4..] == ".csv";
    }
    if EndsWith(f, ".csv") && f[..|f| - 4] == t {
      assert f == f[..|f| - 4] + f[|f| - 4..];
    }
  }

  /** A table is listed exactly when its CSV file is in the directory. */
  lemma {:induction false} CsvTablesExact(files: seq<string>, t: string)
    ensures t in CsvTables(files) <==> t + ".csv" in files
    decreases |files|
  {
    if files != [] {
      CsvTablesExact(files[1..], t);
      CsvEntry(files[0], t);
      assert files == [files[0]] + files[1..];
    }
  }

  /** The listing order is kept: the tables of two listings in a row are the tables of each, in a row. */
  lemma {:induction false} CsvTablesAppend(a: seq<string>, b: seq<string>)
    ensures CsvTables(a + b) == CsvTables(a) + CsvTables(b)
    decreases |a|
  {
    if a == [] {
      assert a + b == b;
    } else {
      assert (a + b)[1..] == a[1..] + b;
      assert (a + b)[0] == a[0];
      CsvTablesAppend(a[1..], b);
      var own := if EndsWith(a[0], ".csv") then [a[0][..|a[0]| - 4]] else [];
      AppendAssoc(own, CsvTables(a[1..]), CsvTables(b));
    }
  }

  // ---------------------------------------------------------------------
  // The null-byte strip (`sed -i 's/\x00//g'`).
  // ---------------------------------------------------------------------

  /** The bytes of `bs` other than 0x00, in order. */
  function StripNulls(bs: seq<byte>): (r: seq<byte>)
    ensures |r| <= |bs|
    ensures forall k :: 0 <= k < |r| ==> r[k] != 0
    decreases |bs|
  {
    if bs == [] then [] else (if bs[0] == 0 then [] else [bs[0]]) + StripNulls(bs[1..])
  }

  /** Stripping a file that has no null byte leaves it as it is, and only such a file. */
  lemma {:induction false} StripNullsUnchanged(bs: seq<byte>)
    ensures StripNulls(bs) == bs <==> 0 !in bs
    decreases |bs|
  {
    if bs != [] {
      StripNullsUnchanged(bs[1..]);
      assert bs == [bs[0]] + bs[1..];
      if bs[0] == 0 {
        assert |StripNulls(bs)| < |bs|;
      }
    }
  }

  /** Stripping twice strips no more than once. */
  lemma StripNullsIdempotent(bs: seq<byte>)
    ensures StripNulls(StripNulls(bs)) == StripNulls(bs)
  {
    StripNullsUnchanged(StripNulls(bs));
  }

  /** The strip works byte by byte: it distributes over concatenation. */
  lemma {:induction false} StripNullsAppend(a: seq<byte>, b: seq<byte>)
    ensures StripNulls(a + b) == StripNulls(a) + StripNulls(b)
    decreases |a|
  {
    if a == [] {
      assert a + b == b;
    } else {
      assert (a + b)[1..] == a[1..] + b;
      assert (a + b)[0] == a[0];
      StripNullsAppend(a[1..], b);
      var own := if a[0] == 0 then [] else [a[0]];
      AppendAssoc(own, StripNulls(a[1..]), StripNulls(b));
    }
  }

  /** Every byte other than 0x00 is kept as often as it occurs, and no 0x00 is left. */
  lemma {:induction false} StripNullsCounts(bs: seq<byte>, x: byte)
    ensures multiset(StripNulls(bs))[x] == if x == 0 then 0 else multiset(bs)[x]
    decreases |bs|
  {
    if bs != [] {
      StripNullsCounts(bs[1..], x);
      assert bs == [bs[0]] + bs[1..];
    }
  }

  // ---------------------------------------------------------------------
  // insert_csvs_into_db.
  // ---------------------------------------------------------------------

  /** What the database answers to a `COPY`. */
  datatype CopyResult = CopyOk | CharNotInRepertoire | OtherError

  /** The steps the loader takes on the connection and the data directory. */
  datatype Op = Execute(table: string, result: CopyResult) | Rollback | Sanitize(table: string) | Commit(table: string)

  datatype Outcome = Completed | Aborted(table: string)

  /** The file contents: table name to the bytes of `<table>.csv`. */
  type Files = map<string, seq<byte>>

  /** The database, answering a `COPY` of a table from the current contents of its file (none when it is missing). */
  type Copy = (string, Option<seq<byte>>) -> CopyResult

  function Contents(files: Files, t: string): Option<seq<byte>> {
    if t in files then Some(files[t]) else None
  }

  /** The file after the strip; `sed` on a missing file changes nothing. */
  function Sanitized(files: Files, t: string): (r: Files)
    ensures r.Keys == files.Keys
  {
    if t in files then files[t := StripNulls(files[t])] else files
  }

  /** The load of one table: whether it was committed, the steps, and the files afterwards. */
  datatype TableLoad = TableLoad(ok: bool, log: seq<Op>, files: Files)

  function LoadTable(t: string, files: Files, copy: Copy): TableLoad {
    var first := copy(t, Contents(files, t));
    if first == CopyOk then TableLoad(true, [Execute(t, CopyOk), Commit(t)], files)
    else if first == OtherError then TableLoad(false, [Execute(t, OtherError)], files)
    else
      var files' := Sanitized(files, t);
      var second := copy(t, Contents(files', t));
      var retried := [Execute(t, CharNotInRepertoire), Rollback, Sanitize(t), Execute(t, second)];
      if second == CopyOk then TableLoad(true, retried + [Commit(t)], files')
      else TableLoad(false, retried, files')
  }

  /** The load of all tables, in order, up to the first one that fails. */
  datatype Load = Load(outcome: Outcome, log: seq<Op>, files: Files)

  function LoadAll(tables: seq<string>, files: Files, copy: Copy): Load
    decreases |tables|
  {
    if tables == [] then Load(Completed, [], files)
    else
      var l := LoadTable(tables[0], files, copy);
      if !l.ok then Load(Aborted(tables[0]), l.log, l.files)
      else
        var rest := LoadAll(tables[1..], l.files, copy);
        Load(rest.outcome, l.log + rest.log, rest.files)
  }

  /** The tables committed, in commit order. */
  function Committed(log: seq<Op>): seq<string>
    decreases |log|
  {
    if log == [] then [] else (if log[0].Commit? then [log[0].table] else []) + Committed(log[1..])
  }

  /** The number of `COPY` executions of table `t`. */
  function Executions(log: seq<Op>, t: string): nat
    decreases |log|
  {
    if log == [] then 0 else (if log[0].Execute? && log[0].table == t then 1 else 0) + Executions(log[1..], t)
  }

  /** The number of times `t` is listed. */
  function Occurrences(tables: seq<string>, t: string): nat
    decreases |tables|
  {
    if tables == [] then 0 else (if tables[0] == t then 1 else 0) + Occurrences(tables[1..], t)
  }

  /** The tables whose files were stripped. */
  function SanitizedTables(log: seq<Op>): set<string>
    decreases |log|
  {
    if log == [] then {} else (if log[0].Sanitize? then {log[0].table} else {}) + SanitizedTables(log[1..])
  }

  /** The connection protocol: a commit comes right after a `COPY` of its table that went through, and a
      rollback comes right after a `COPY` that hit an illegal character and is followed by the strip of
      that table's file and one more `COPY` of it. */
  predicate Protocol(log: seq<Op>) {
    && (forall k :: 0 <= k < |log| && log[k].Commit? ==> 0 < k && log[k - 1] == Execute(log[k].table, CopyOk))
    && (forall k :: 0 <= k < |log| && log[k].Rollback? ==>
          && 0 < k && k + 2 < |log| && log[k - 1].Execute? && log[k - 1].result == CharNotInRepertoire
          && log[k + 1] == Sanitize(log[k - 1].table)
          && log[k + 2].Execute? && log[k + 2].table == log[k - 1].table)
  }

  lemma {:induction false} LogAppend(a: seq<Op>, b: seq<Op>, t: string)
    ensures Committed(a + b) == Committed(a) + Committed(b)
    ensures Executions(a + b, t) == Executions(a, t) + Executions(b, t)
    ensures SanitizedTables(a + b) == SanitizedTables(a) + SanitizedTables(b)
    decreases |a|
  {
    if a == [] {
      assert a + b == b;
    } else {
      assert (a + b)[1..] == a[1..] + b;
      assert (a + b)[0] == a[0];
      LogAppend(a[1..], b, t);
      var own := if a[0].Commit? then [a[0].table] else [];
      AppendAssoc(own, Committed(a[1..]), Committed(b));
    }
  }

  /** Two runs of the protocol in a row keep it, when the second begins with a `COPY`. */
  lemma ProtocolAppend(a: seq<Op>, b: seq<Op>)
    requires Protocol(a) && Protocol(b) && (b != [] ==> b[0].Execute?)
    ensures Protocol(a + b)
  {
    var ab := a + b;
    forall k | 0 <= k < |ab| && ab[k].Commit?
      ensures 0 < k && ab[k - 1] == Execute(ab[k].table, CopyOk)
    {
      if k >= |a| {
        assert ab[k] == b[k - |a|];
      } else {
        assert ab[k] == a[k];
      }
    }
    forall k | 0 <= k < |ab| && ab[k].Rollback?
      ensures && 0 < k && k + 2 < |ab| && ab[k - 1].Execute? && ab[k - 1].result == CharNotInRepertoire
              && ab[k + 1] == Sanitize(ab[k - 1].table)
              && ab[k + 2].Execute? && ab[k + 2].table == ab[k - 1].table
    {
      if k >= |a| {
        assert ab[k] == b[k - |a|];
      } else {
        assert ab[k] == a[k];
      }
    }
  }

  lemma LogOne(op: Op, u: string)
    ensures Committed([op]) == if op.Commit? then [op.table] else []
    ensures Executions([op], u) == if op.Execute? && op.table == u then 1 else 0
    ensures SanitizedTables([op]) == if op.Sanitize? then {op.table} else {}
  {
    assert [op][1..] == [];
  }

  lemma LogSnoc(a: seq<Op>, op: Op, u: string)
    ensures Committed(a + [op]) == Committed(a) + (if op.Commit? then [op.table] else [])
    ensures Executions(a + [op], u) == Executions(a, u) + (if op.Execute? && op.table == u then 1 else 0)
    ensures SanitizedTables(a + [op]) == SanitizedTables(a) + (if op.Sanitize? then {op.table} else {})
  {
    LogAppend(a, [op], u);
    LogOne(op, u);
  }

  /** The steps of the load of one table. */
  lemma LoadTableLog(t: string, files: Files, copy: Copy)
    ensures var l := LoadTable(t, files, copy);
      var first := copy(t, Contents(files, t));
      var second := copy(t, Contents(Sanitized(files, t), t));
      && (first == CopyOk ==> l.ok && l.log == [Execute(t, CopyOk)] + [Commit(t)] && l.files == files)
      && (first == OtherError ==> !l.ok && l.log == [Execute(t, OtherError)] && l.files == files)
      && (first == CharNotInRepertoire ==>
            && l.ok == (second == CopyOk) && l.files == Sanitized(files, t)
            && l.log == [Execute(t, CharNotInRepertoire)] + [Rollback] + [Sanitize(t)] + [Execute(t, second)]
                        + (if second == CopyOk then [Commit(t)] else []))
  {
    var second := copy(t, Contents(Sanitized(files, t), t));
    var retried := [Execute(t, CharNotInRepertoire), Rollback, Sanitize(t), Execute(t, second)];
    assert retried == [Execute(t, CharNotInRepertoire)] + [Rollback] + [Sanitize(t)] + [Execute(t, second)];
    assert retried + [] == retried;
  }

  /** The load of one table keeps the protocol, begins with the table's `COPY` and, when it fails, ends
      with a `COPY` of it that did not go through. */
  lemma LoadTableShape(t: string, files: Files, copy: Copy)
    ensures var l := LoadTable(t, files, copy);
      && l.log != [] && l.log[0].Execute? && l.log[0].table == t
      && Protocol(l.log)
      && (!l.ok ==> l.log[|l.log| - 1].Execute? && l.log[|l.log| - 1].table == t && l.log[|l.log| - 1].result != CopyOk)
  {
    LoadTableLog(t, files, copy);
    var first := copy(t, Contents(files, t));
    if first == CopyOk {
      OkProtocol(t);
    } else if first == CharNotInRepertoire {
      RetryProtocol(t, copy(t, Contents(Sanitized(files, t), t)));
    }
  }

  lemma OkProtocol(t: string)
    ensures Protocol([Execute(t, CopyOk)] + [Commit(t)])
  {
    var log := [Execute(t, CopyOk)] + [Commit(t)];
    assert log[0].Execute? && log[1].Commit?;
  }

  lemma RetryProtocol(t: string, second: CopyResult)
    ensures var retried := [Execute(t, CharNotInRepertoire)] + [Rollback] + [Sanitize(t)] + [Execute(t, second)];
      Protocol(retried) && (second == CopyOk ==> Protocol(retried + [Commit(t)]))
  {
    var retried := [Execute(t, CharNotInRepertoire), Rollback, Sanitize(t), Execute(t, second)];
    assert [Execute(t, CharNotInRepertoire)] + [Rollback] + [Sanitize(t)] + [Execute(t, second)] == retried;
    RetryProtocolOf(retried, t, second);
    if second == CopyOk {
      var committed := retried + [Commit(t)];
      assert committed[..4] == retried;
      RetryProtocolOf(committed, t, second);
    }
  }

  /** A log that starts with the retry of `t` and then at most commits. */
  lemma RetryProtocolOf(log: seq<Op>, t: string, second: CopyResult)
    requires 4 <= |log| <= 5
    requires log[..4] == [Execute(t, CharNotInRepertoire), Rollback, Sanitize(t), Execute(t, second)]
    requires |log| == 5 ==> second == CopyOk && log[4] == Commit(t)
    ensures Protocol(log)
  {
    assert log[0] == Execute(t, CharNotInRepertoire) && log[1] == Rollback;
    assert log[2] == Sanitize(t) && log[3] == Execute(t, second);
  }

  /** What the load of one table commits, copies and strips. */
  lemma LoadTableCounts(t: string, files: Files, copy: Copy, u: string)
    ensures var l := LoadTable(t, files, copy);
      var first := copy(t, Contents(files, t));
      && Committed(l.log) == (if l.ok then [t] else [])
      && Executions(l.log, u) == (if u != t then 0 else if first == CharNotInRepertoire then 2 else 1)
      && SanitizedTables(l.log) == (if first == CharNotInRepertoire then {t} else {})
      && l.files == (if first == CharNotInRepertoire then Sanitized(files, t) else files)
  {
    LoadTableLog(t, files, copy);
    var first := copy(t, Contents(files, t));
    var second := copy(t, Contents(Sanitized(files, t), t));
    var e1 := [Execute(t, first)];
    LogOne(Execute(t, first), u);
    if first == CopyOk {
      LogSnoc(e1, Commit(t), u);
    } else if first == CharNotInRepertoire {
      var a2 := e1 + [Rollback];
      var a3 := a2 + [Sanitize(t)];
      var a4 := a3 + [Execute(t, second)];
      LogSnoc(e1, Rollback, u);
      LogSnoc(a2, Sanitize(t), u);
      LogSnoc(a3, Execute(t, second), u);
      if second == CopyOk {
        LogSnoc(a4, Commit(t), u);
      } else {
        assert a4 + [] == a4;
      }
    }
  }

  lemma PrefixCons(t: string, tables: seq<string>, c: seq<string>)
    requires |c| <= |tables| && c == tables[..|c|]
    ensures |[t] + c| <= |[t] + tables| && [t] + c == ([t] + tables)[..|[t] + c|]
  {
  }

  /** The commits of a load, counted against the tables. */
  lemma {:induction false} LoadCommitsPrefix(tables: seq<string>, files: Files, copy: Copy)
    ensures var r := LoadAll(tables, files, copy);
      && |Committed(r.log)| <= |tables| && Committed(r.log) == tables[..|Committed(r.log)|]
      && (r.outcome == Completed ==> |Committed(r.log)| == |tables|)
      && (r.outcome.Aborted? ==> |Committed(r.log)| < |tables| && tables[|Committed(r.log)|] == r.outcome.table)
    decreases |tables|
  {
    if tables != [] {
      var t := tables[0];
      var l := LoadTable(t, files, copy);
      LoadTableCounts(t, files, copy, t);
      if l.ok {
        var rest := LoadAll(tables[1..], l.files, copy);
        LoadCommitsPrefix(tables[1..], l.files, copy);
        LogAppend(l.log, rest.log, t);
        PrefixCons(t, tables[1..], Committed(rest.log));
        assert [t] + tables[1..] == tables;
      }
    }
  }

  /** Tables are committed in listing order: the commits are a prefix of the tables, all of them exactly
      when the load completes, and when it aborts the next table in line is the one that failed. */
  lemma LoadCommitsInOrder(tables: seq<string>, files: Files, copy: Copy)
    ensures var r := LoadAll(tables, files, copy);
      && |Committed(r.log)| <= |tables| && Committed(r.log) == tables[..|Committed(r.log)|]
      && (r.outcome == Completed <==> Committed(r.log) == tables)
      && (r.outcome.Aborted? ==> |Committed(r.log)| < |tables| && tables[|Committed(r.log)|] == r.outcome.table)
  {
    LoadCommitsPrefix(tables, files, copy);
    assert tables[..|tables|] == tables;
  }

  /** The protocol holds for the whole load. */
  lemma {:induction false} LoadKeepsProtocol(tables: seq<string>, files: Files, copy: Copy)
    ensures var r := LoadAll(tables, files, copy);
      Protocol(r.log) && (r.log != [] ==> r.log[0].Execute?)
    decreases |tables|
  {
    if tables != [] {
      var t := tables[0];
      var l := LoadTable(t, files, copy);
      LoadTableShape(t, files, copy);
      if l.ok {
        LoadKeepsProtocol(tables[1..], l.files, copy);
        ProtocolAppend(l.log, LoadAll(tables[1..], l.files, copy).log);
      }
    }
  }

  /** An aborted load ends with the `COPY` of the failing table that did not go through. */
  lemma {:induction false} LoadAbortsOnFailure(tables: seq<string>, files: Files, copy: Copy)
    ensures var r := LoadAll(tables, files, copy);
      r.outcome.Aborted? ==>
        r.log != [] && r.log[|r.log| - 1].Execute? && r.log[|r.log| - 1].table == r.outcome.table
        && r.log[|r.log| - 1].result != CopyOk
    decreases |tables|
  {
    if tables != [] {
      var t := tables[0];
      var l := LoadTable(t, files, copy);
      LoadTableShape(t, files, copy);
      var rest := LoadAll(tables[1..], l.files, copy);
      if l.ok && rest.outcome.Aborted? {
        LoadAbortsOnFailure(tables[1..], l.files, copy);
        assert (l.log + rest.log)[|l.log + rest.log| - 1] == rest.log[|rest.log| - 1];
      }
    }
  }

  /** Each table is copied once per listing, and once more after an illegal character; a completed load
      copied every listed table at least once. */
  lemma {:induction false} LoadCopyCount(tables: seq<string>, files: Files, copy: Copy, t: string)
    ensures var r := LoadAll(tables, files, copy);
      && Executions(r.log, t) <= 2 * Occurrences(tables, t)
      && (r.outcome == Completed ==> Occurrences(tables, t) <= Executions(r.log, t))
    decreases |tables|
  {
    if tables != [] {
      var l := LoadTable(tables[0], files, copy);
      LoadTableCounts(tables[0], files, copy, t);
      if l.ok {
        LoadCopyCount(tables[1..], l.files, copy, t);
        LogAppend(l.log, LoadAll(tables[1..], l.files, copy).log, t);
      }
    }
  }

  /** Only listed tables have their files stripped. */
  lemma {:induction false} LoadStripsListed(tables: seq<string>, files: Files, copy: Copy)
    ensures forall t :: t in SanitizedTables(LoadAll(tables, files, copy).log) ==> t in tables
    decreases |tables|
  {
    if tables != [] {
      var l := LoadTable(tables[0], files, copy);
      LoadTableCounts(tables[0], files, copy, tables[0]);
      if l.ok {
        LoadStripsListed(tables[1..], l.files, copy);
        LogAppend(l.log, LoadAll(tables[1..], l.files, copy).log, tables[0]);
      }
    }
  }

  /** The load changes no file but by the null-byte strip: every file is there afterwards, stripped when its
      table hit an illegal character, and as it was otherwise. */
  lemma {:induction false} LoadStripsOnly(tables: seq<string>, files: Files, copy: Copy)
    ensures var r := LoadAll(tables, files, copy);
      && r.files.Keys == files.Keys
      && forall t :: t in files ==>
           r.files[t] == if t in SanitizedTables(r.log) then StripNulls(files[t]) else files[t]
    decreases |tables|
  {
    if tables != [] {
      var t0 := tables[0];
      var l := LoadTable(t0, files, copy);
      LoadTableCounts(t0, files, copy, t0);
      if l.ok {
        var rest := LoadAll(tables[1..], l.files, copy);
        LoadStripsOnly(tables[1..], l.files, copy);
        LogAppend(l.log, rest.log, t0);
        forall t | t in files
          ensures rest.files[t] == if t in SanitizedTables(l.log + rest.log) then StripNulls(files[t]) else files[t]
        {
          if t == t0 && t0 in SanitizedTables(l.log) {
            StripNullsIdempotent(files[t]);
          }
        }
      }
    }
  }

  /** The database connection and the data directory it loads from. */
  class DatabaseLink {
    /** The entries of the data directory, in the order the directory lists them. */
    var listing: seq<string>
    /** The contents of `<table>.csv`, by table. */
    var files: Files
    /** The steps taken so far. */
    var log: seq<Op>

    constructor (listing: seq<string>, files: Files)
      ensures this.listing == listing && this.files == files && log == []
    {
      this.listing := listing;
      this.files := files;
      log := [];
    }

    /** The body of the loop of `insert_csvs_into_db` for table `t`: whether the table was committed. */
    method LoadOne(t: string, copy: Copy) returns (ok: bool)
      modifies this
      ensures listing == old(listing)
      ensures var l := LoadTable(t, old(files), copy);
        ok == l.ok && log == old(log) + l.log && files == l.files
    {
      var steps: seq<Op> := [];
      var r := copy(t, Contents(files, t));
      steps := steps + [Execute(t, r)];
      if r == CharNotInRepertoire {
        steps := steps + [Rollback];
        if t in files {
          files := files[t := StripNulls(files[t])];
        }
        steps := steps + [Sanitize(t)];
        r := copy(t, Contents(files, t));
        steps := steps + [Execute(t, r)];
      }
      if r == CopyOk {
        steps := steps + [Commit(t)];
      }
      LoadTableLog(t, old(files), copy);
      log := log + steps;
      ok := r == CopyOk;
    }

    /** `insert_csvs_into_db`: the tables of the listing in order, each copied, retried once after an
        illegal character, and committed, up to the first failure that is not caught. */
    method InsertCsvsIntoDb(copy: Copy) returns (outcome: Outcome)
      modifies this
      ensures listing == old(listing)
      ensures var r := LoadAll(CsvTables(old(listing)), old(files), copy);
        outcome == r.outcome && log == old(log) + r.log && files == r.files
    {
      var tables := CsvTables(listing);
      ghost var done: seq<Op> := [];
      var i := 0;
      while i < |tables|
        invariant 0 <= i <= |tables|
        invariant listing == old(listing) && tables == CsvTables(listing)
        invariant log == old(log) + done
        invariant var rest := LoadAll(tables[i..], files, copy);
          LoadAll(tables, old(files), copy) == Load(rest.outcome, done + rest.log, rest.files)
        decreases |tables| - i
      {
        var t := tables[i];
        ghost var l := LoadTable(t, files, copy);
        assert tables[i..][0] == t && tables[i..][1..] == tables[i + 1..];
        var ok := LoadOne(t, copy);
        AppendAssoc(old(log), done, l.log);
        if !ok {
          return Aborted(t);
        }
        ghost var steps := l.log;
        AppendAssoc(done, steps, LoadAll(tables[i + 1..], files, copy).log);
        done := done + steps;
        i := i + 1;
      }
      assert tables[i..] == [];
      assert done + [] == done;
      outcome := Completed;
    }
  }
}
