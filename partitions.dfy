/**
 * The partition files of ftch_dta.py, held as lines in memory: a header line
 * followed by data rows carrying the columns timestamp, X1 .. Z2, mjd, id and
 * unique_id. `get_last_id`, the id assignment of one batch, and the append with
 * `to_csv(mode='a', header=not os.path.exists(file))`.
 */
module Partitions {
  import opened Calendar
  import opened FileNames
  import opened Store

  /** One data row of a partition file. */
  datatype CsvRow = CsvRow(reading: Reading, mjd: real, id: int, uniqueId: int)

  /** A line of a partition file: the column header or a data row. */
  datatype Line = Header | Data(row: CsvRow)

  /**
   * The working directory: the lines of every file that exists, by file name.
   * Files whose names are not partition names (the scripts, say) are never read
   * or written by the driver, and their contents are arbitrary.
   */
  type Files = map<string, seq<Line>>

  /** The data rows of a file, in file order. */
  function DataRows(lines: seq<Line>): (rows: seq<CsvRow>)
    ensures |rows| <= |lines|
  {
    if lines == [] then []
    else (if lines[0].Data? then [lines[0].row] else []) + DataRows(lines[1..])
  }

  function DataLines(rows: seq<CsvRow>): (lines: seq<Line>)
    ensures |lines| == |rows|
    ensures forall i :: 0 <= i < |rows| ==> lines[i] == Data(rows[i])
  {
    seq(|rows|, i requires 0 <= i < |rows| => Data(rows[i]))
  }

  /** The `id` column. */
  function IdColumn(rows: seq<CsvRow>): (ids: seq<int>)
    ensures |ids| == |rows| && forall i :: 0 <= i < |rows| ==> ids[i] == rows[i].id
  {
    seq(|rows|, i requires 0 <= i < |rows| => rows[i].id)
  }

  /** The `unique_id` column. */
  function UniqueIdColumn(rows: seq<CsvRow>): (ids: seq<int>)
    ensures |ids| == |rows| && forall i :: 0 <= i < |rows| ==> ids[i] == rows[i].uniqueId
  {
    seq(|rows|, i requires 0 <= i < |rows| => rows[i].uniqueId)
  }

  /**
   * A file that pandas reads back into a non-empty `id` column: one header line
   * first, then at least one data row and no further header.
   */
  predicate WellFormedFile(lines: seq<Line>) {
    && |lines| >= 2
    && lines[0] == Header
    && forall i :: 1 <= i < |lines| ==> lines[i].Data?
  }

  /** Every partition file of the directory reads back; other files may hold anything. */
  predicate AllWellFormed(files: Files) {
    forall name :: name in files && IsPartitionName(name) ==> WellFormedFile(files[name])
  }

  function MaxOf(xs: seq<int>): (m: int)
    requires |xs| > 0
    ensures m in xs && forall x :: x in xs ==> x <= m
  {
    if |xs| == 1 then xs[0]
    else
      var rest := MaxOf(xs[1..]);
      assert forall x :: x in xs ==> x == xs[0] || x in xs[1..];
      if xs[0] >= rest then xs[0] else rest
  }

  /**
   * `get_last_id(file)`: 0 when the file does not exist, otherwise the largest
   * value of its `id` column (for the monthly file too, whose ids are daily ids).
   */
  function LastId(files: Files, name: string): (last: int)
    requires name in files ==> WellFormedFile(files[name])
    ensures name !in files ==> last == 0
    ensures name in files ==> last in IdColumn(DataRows(files[name]))
    ensures name in files ==> forall x :: x in IdColumn(DataRows(files[name])) ==> x <= last
  {
    if name in files then
      WellFormedRows(files[name]);
      MaxOf(IdColumn(DataRows(files[name])))
    else 0
  }

  /** The values first, first + 1, ..., in this order. */
  predicate IsRun(xs: seq<int>, first: int) {
    forall i :: 0 <= i < |xs| ==> xs[i] == first + i
  }

  /**
   * The batch built from fetched records: each record with its Modified Julian
   * Date, `id` numbered on from `lastDaily` and `unique_id` from `lastMonthly`.
   */
  function Batch(records: seq<Reading>, lastDaily: int, lastMonthly: int): (batch: seq<CsvRow>)
    requires ValidReadings(records)
    ensures |batch| == |records|
    ensures forall i :: 0 <= i < |batch| ==>
      batch[i].reading == records[i] && batch[i].mjd == DatetimeToMjd(records[i].timestamp)
    ensures IsRun(IdColumn(batch), lastDaily + 1)
    ensures IsRun(UniqueIdColumn(batch), lastMonthly + 1)
  {
    seq(|records|, i requires 0 <= i < |records| =>
      CsvRow(records[i], DatetimeToMjd(records[i].timestamp), lastDaily + 1 + i, lastMonthly + 1 + i))
  }

  /**
   * `df.to_csv(name, mode='a', header=not os.path.exists(name))`: a new file gets a
   * header line and the rows, an existing one gets the rows at its end; no
   * other file changes.
   */
  function AppendBatch(files: Files, name: string, batch: seq<CsvRow>): (after: Files)
    ensures after.Keys == files.Keys + {name}
    ensures forall other :: other in files && other != name ==> after[other] == files[other]
    ensures name in files ==> after[name] == files[name] + DataLines(batch)
    ensures name !in files ==> after[name] == [Header] + DataLines(batch)
  {
    var existing := if name in files then files[name] else [];
    var header := if name in files then [] else [Header];
    files[name := existing + header + DataLines(batch)]
  }

  // ---------------------------------------------------------------------------
  // Lemmas

  lemma {:induction false} DataRowsAppend(a: seq<Line>, b: seq<Line>)
    ensures DataRows(a + b) == DataRows(a) + DataRows(b)
  {
    if a == [] {
      assert a + b == b;
    } else {
      assert (a + b)[0] == a[0];
      assert (a + b)[1..] == a[1..] + b;
      DataRowsAppend(a[1..], b);
    }
  }

  lemma {:induction false} DataRowsOfDataLines(rows: seq<CsvRow>)
    ensures DataRows(DataLines(rows)) == rows
  {
    if rows != [] {
      assert DataLines(rows)[1..] == DataLines(rows[1..]);
      DataRowsOfDataLines(rows[1..]);
    }
  }

  lemma {:induction false} DataRowsOfDataOnly(lines: seq<Line>)
    requires forall i :: 0 <= i < |lines| ==> lines[i].Data?
    ensures |DataRows(lines)| == |lines|
  {
    if lines != [] {
      DataRowsOfDataOnly(lines[1..]);
    }
  }

  /** A well-formed file has one data row per line after its header. */
  lemma WellFormedRows(lines: seq<Line>)
    requires WellFormedFile(lines)
    ensures |DataRows(lines)| == |lines| - 1 >= 1
  {
    DataRowsOfDataOnly(lines[1..]);
    assert lines == [lines[0]] + lines[1..];
  }

  /** The ids of a run ascend by one, never repeat, and lie above first - 1. */
  lemma RunProperties(xs: seq<int>, first: int)
    requires IsRun(xs, first)
    ensures forall i, j :: 0 <= i < j < |xs| ==> xs[i] < xs[j]
    ensures forall i :: 0 <= i < |xs| - 1 ==> xs[i + 1] == xs[i] + 1
    ensures forall x :: x in xs ==> first <= x < first + |xs|
    ensures |xs| > 0 ==> MaxOf(xs) == first + |xs| - 1
  {
    forall x | x in xs
      ensures first <= x < first + |xs|
    {
      var i :| 0 <= i < |xs| && xs[i] == x;
    }
    if |xs| > 0 {
      var m := MaxOf(xs);
      assert xs[|xs| - 1] in xs;
      assert m in xs;
    }
  }

  /**
   * Appending keeps what the file held as an unchanged prefix and adds exactly
   * the batch's rows; a header line is written exactly when the file is new.
   */
  lemma AppendExtends(files: Files, name: string, batch: seq<CsvRow>)
    ensures var before := if name in files then files[name] else [];
            var after := AppendBatch(files, name, batch)[name];
            && before <= after
            && |after| == |before| + |batch| + (if name in files then 0 else 1)
            && DataRows(after) == DataRows(before) + batch
            && (Header in after[|before|..] <==> name !in files)
  {
    AppendedTail(files, name, batch);
    var before := if name in files then files[name] else [];
    var header: seq<Line> := if name in files then [] else [Header];
    RowsOfTail(header, batch);
    DataRowsAppend(before, header + DataLines(batch));
  }

  /** The file after an append is its old contents followed by an optional header and the batch. */
  lemma AppendedTail(files: Files, name: string, batch: seq<CsvRow>)
    ensures var before := if name in files then files[name] else [];
            var header: seq<Line> := if name in files then [] else [Header];
            var after := AppendBatch(files, name, batch)[name];
            && after == before + (header + DataLines(batch))
            && after[|before|..] == header + DataLines(batch)
  {
  }

  /** What one append writes: an optional header line and one data line per row. */
  lemma RowsOfTail(header: seq<Line>, batch: seq<CsvRow>)
    requires header == [] || header == [Header]
    ensures DataRows(header + DataLines(batch)) == batch
    ensures Header in header + DataLines(batch) <==> header == [Header]
  {
    DataRowsAppend(header, DataLines(batch));
    DataRowsOfDataLines(batch);
    if header == [] {
      assert header + DataLines(batch) == DataLines(batch);
      assert Header !in DataLines(batch);
    } else {
      assert (header + DataLines(batch))[0] == Header;
    }
  }

  /** Appending a non-empty batch keeps a file well-formed, or creates a well-formed one. */
  lemma AppendWellFormed(files: Files, name: string, batch: seq<CsvRow>)
    requires AllWellFormed(files)
    ensures |batch| > 0 ==> AllWellFormed(AppendBatch(files, name, batch))
  {
    var after := AppendBatch(files, name, batch);
    if IsPartitionName(name) && |batch| > 0 {
      assert WellFormedFile(after[name]);
    }
  }

  /** Two appends of one non-empty batch leave every partition file readable. */
  lemma AppendTwiceWellFormed(files: Files, first: string, second: string, batch: seq<CsvRow>)
    requires AllWellFormed(files)
    ensures |batch| > 0 ==> AllWellFormed(AppendBatch(AppendBatch(files, first, batch), second, batch))
  {
    AppendWellFormed(files, first, batch);
    if |batch| > 0 {
      AppendWellFormed(AppendBatch(files, first, batch), second, batch);
    }
  }

  /**
   * After appending a batch whose ids continue the file's run, `get_last_id`
   * of that file has grown by exactly the batch size.
   */
  lemma LastIdAfterAppend(files: Files, name: string, batch: seq<CsvRow>)
    requires AllWellFormed(files) && IsPartitionName(name) && |batch| > 0
    requires IsRun(IdColumn(batch), LastId(files, name) + 1)
    ensures AllWellFormed(AppendBatch(files, name, batch))
    ensures LastId(AppendBatch(files, name, batch), name) == LastId(files, name) + |batch|
  {
    var last := LastId(files, name);
    AppendWellFormed(files, name, batch);
    AppendedIds(files, name, batch);
    var prior := if name in files then IdColumn(DataRows(files[name])) else [];
    assert forall x :: x in prior ==> x <= last;
    MaxAfterRun(prior, IdColumn(batch), last);
  }

  /** The id column of an appended file is the old column followed by the batch's ids. */
  lemma AppendedIds(files: Files, name: string, batch: seq<CsvRow>)
    ensures var prior := if name in files then IdColumn(DataRows(files[name])) else [];
            IdColumn(DataRows(AppendBatch(files, name, batch)[name])) == prior + IdColumn(batch)
  {
    AppendExtends(files, name, batch);
    var before := if name in files then files[name] else [];
    IdColumnAppend(DataRows(before), batch);
  }

  /** A run that starts just above every earlier id ends at the new largest id. */
  lemma MaxAfterRun(prior: seq<int>, added: seq<int>, last: int)
    requires |added| > 0 && IsRun(added, last + 1)
    requires forall x :: x in prior ==> x <= last
    ensures MaxOf(prior + added) == last + |added|
  {
    RunProperties(added, last + 1);
    assert added[|added| - 1] == last + |added|;
    MaxOfConcat(prior, added, last + |added|);
  }

  /** The largest of two columns joined is a bound of both that the second reaches. */
  lemma MaxOfConcat(xs: seq<int>, ys: seq<int>, top: int)
    requires |ys| > 0 && top in ys
    requires forall x :: x in xs ==> x <= top
    requires forall y :: y in ys ==> y <= top
    ensures MaxOf(xs + ys) == top
  {
    var m := MaxOf(xs + ys);
    assert top in xs + ys;
    assert m in xs || m in ys;
  }

  predicate StrictlyIncreasing(xs: seq<int>) {
    forall i, j :: 0 <= i < j < |xs| ==> xs[i] < xs[j]
  }

  /**
   * Ids stay strictly increasing through a file when the appended run starts
   * above the file's last id.
   */
  lemma AppendKeepsIdsIncreasing(files: Files, name: string, batch: seq<CsvRow>)
    requires AllWellFormed(files) && IsPartitionName(name)
    requires name in files ==> StrictlyIncreasing(IdColumn(DataRows(files[name])))
    requires IsRun(IdColumn(batch), LastId(files, name) + 1)
    ensures StrictlyIncreasing(IdColumn(DataRows(AppendBatch(files, name, batch)[name])))
  {
    var last := LastId(files, name);
    AppendExtends(files, name, batch);
    var before := if name in files then files[name] else [];
    var prior := IdColumn(DataRows(before));
    assert forall x :: x in prior ==> x <= last;
    assert StrictlyIncreasing(prior);
    IdColumnAppend(DataRows(before), batch);
    RunProperties(IdColumn(batch), last + 1);
    ConcatIncreasing(prior, IdColumn(batch), last);
  }

  lemma IdColumnAppend(a: seq<CsvRow>, b: seq<CsvRow>)
    ensures IdColumn(a + b) == IdColumn(a) + IdColumn(b)
  {
  }

  /** Two increasing runs, the second entirely above a bound the first stays under, concatenate to one. */
  lemma ConcatIncreasing(xs: seq<int>, ys: seq<int>, bound: int)
    requires StrictlyIncreasing(xs) && StrictlyIncreasing(ys)
    requires forall x :: x in xs ==> x <= bound
    requires forall y :: y in ys ==> bound < y
    ensures StrictlyIncreasing(xs + ys)
  {
    var zs := xs + ys;
    forall i, j | 0 <= i < j < |zs|
      ensures zs[i] < zs[j]
    {
      if j < |xs| {
        assert zs[i] == xs[i] && zs[j] == xs[j];
      } else if i < |xs| {
        assert xs[i] in xs && ys[j - |xs|] in ys;
      } else {
        assert zs[i] == ys[i - |xs|] && zs[j] == ys[j - |xs|];
      }
    }
  }
}
