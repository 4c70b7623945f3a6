/**
 * The polling loop of ftch_dta.py: the module-level variables `current_date`,
 * `current_month`, `csv_file_daily` and `csv_file_monthly`, and one pass of the
 * `while True` body (rollover, fetch, id recovery, transform, the two appends and
 * the delete). The store and the working directory are part of the state.
 */
module Driver {
  import opened Wrappers
  import opened Calendar
  import opened FileNames
  import opened Store
  import opened Partitions

  /** Everything one pass of the loop reads or changes. */
  datatype DrainState = DrainState(
    store: seq<Reading>,
    files: Files,
    currentDate: Date,
    currentMonth: string,
    csvFileDaily: string,
    csvFileMonthly: string)

  /** Every daily file (a name starting `live_data_`) holds strictly increasing ids. */
  predicate DailyIdsIncreasing(files: Files) {
    forall name :: name in files && IsDailyName(name) ==>
      StrictlyIncreasing(IdColumn(DataRows(files[name])))
  }

  /**
   * What a pass needs to run: the stored timestamps are real instants, every
   * partition file reads back, and the two current names are partition names.
   */
  predicate Routable(s: DrainState) {
    && ValidReadings(s.store)
    && AllWellFormed(s.files)
    && IsPartitionName(s.csvFileDaily)
    && IsPartitionName(s.csvFileMonthly)
  }

  /**
   * What holds between passes: a pass can run, the file names are those of the
   * current keys, and daily files never repeat an id.
   */
  predicate Healthy(s: DrainState) {
    && Routable(s)
    && ValidDate(s.currentDate)
    && s.csvFileDaily == DailyFileName(s.currentDate)
    && s.csvFileMonthly == MonthlyFileName(s.currentMonth)
    && DailyIdsIncreasing(s.files)
  }

  /** Lines 37-40: the keys and file names computed at start-up. */
  function Start(store: seq<Reading>, files: Files, today: Date, now: DateTime): (s: DrainState)
    requires ValidDate(today) && ValidDateTime(now)
    ensures s.store == store && s.files == files && s.currentDate == today
    ensures s.csvFileDaily == DailyFileName(today) && s.csvFileMonthly == MonthlyFileName(MonthTag(now))
    ensures ValidReadings(store) && AllWellFormed(files) ==> Routable(s)
    ensures ValidReadings(store) && AllWellFormed(files) && DailyIdsIncreasing(files) ==> Healthy(s)
  {
    DrainState(store, files, today, MonthTag(now), DailyFileName(today), MonthlyFileName(MonthTag(now)))
  }

  /**
   * Lines 45-50: when `date.today()` has moved, both keys and both file names are
   * recomputed from the clock; otherwise nothing changes.
   */
  function Rollover(s: DrainState, today: Date, now: DateTime): (r: DrainState)
    requires ValidDate(today) && ValidDateTime(now)
    ensures r.store == s.store && r.files == s.files && r.currentDate == today
    ensures today == s.currentDate ==> r == s
    ensures today != s.currentDate ==>
      && r.currentMonth == MonthTag(now)
      && r.csvFileDaily == DailyFileName(today)
      && r.csvFileMonthly == MonthlyFileName(MonthTag(now))
    ensures Routable(s) ==> Routable(r)
    ensures Healthy(s) ==> Healthy(r)
  {
    if today != s.currentDate then
      var month := MonthTag(now);
      s.(currentDate := today, currentMonth := month,
         csvFileDaily := DailyFileName(today), csvFileMonthly := MonthlyFileName(month))
    else s
  }

  /** The batch a pass writes: the current day's rows with ids after both files' last `id`. */
  function PendingBatch(s: DrainState): seq<CsvRow>
    requires Routable(s)
  {
    Batch(Fetch(s.store, s.currentDate), LastId(s.files, s.csvFileDaily), LastId(s.files, s.csvFileMonthly))
  }

  /**
   * Lines 53-75: fetch, transform, and append to the daily file and then to the
   * monthly file. Only the two current files are written, and with rows to
   * write the pass can run again.
   */
  function Appended(s: DrainState): (after: DrainState)
    requires Routable(s)
    ensures after == s.(files := after.files)
    ensures forall name :: name != s.csvFileDaily && name != s.csvFileMonthly ==>
      (name in after.files <==> name in s.files) && (name in s.files ==> after.files[name] == s.files[name])
    ensures Fetch(s.store, s.currentDate) != [] ==> Routable(after)
  {
    var batch := PendingBatch(s);
    var daily := AppendBatch(s.files, s.csvFileDaily, batch);
    AppendTwiceWellFormed(s.files, s.csvFileDaily, s.csvFileMonthly, batch);
    s.(files := AppendBatch(daily, s.csvFileMonthly, batch))
  }

  /**
   * Lines 53-72 alone: the state a stop between the daily append and the monthly
   * append leaves. Only the daily file is written.
   */
  function DailyAppended(s: DrainState): (after: DrainState)
    requires Routable(s)
    ensures after == s.(files := after.files)
    ensures forall name :: name != s.csvFileDaily ==>
      (name in after.files <==> name in s.files) && (name in s.files ==> after.files[name] == s.files[name])
    ensures Fetch(s.store, s.currentDate) != [] ==> Routable(after)
  {
    var batch := PendingBatch(s);
    AppendWellFormed(s.files, s.csvFileDaily, batch);
    s.(files := AppendBatch(s.files, s.csvFileDaily, batch))
  }

  /**
   * Lines 53-83: a pass with rows appends them and then deletes the day from the
   * store; a pass without rows changes nothing. Either way the store ends as
   * the DELETE of the current day leaves it.
   */
  function Drain(s: DrainState): (after: DrainState)
    requires Routable(s)
    ensures Routable(after)
    ensures after.store == Delete(s.store, s.currentDate)
    ensures after.currentDate == s.currentDate && after.currentMonth == s.currentMonth
    ensures after.csvFileDaily == s.csvFileDaily && after.csvFileMonthly == s.csvFileMonthly
    ensures Fetch(s.store, s.currentDate) == [] ==> after == s
  {
    if Fetch(s.store, s.currentDate) == [] then
      DeleteWithoutMatches(s.store, s.currentDate);
      s
    else Appended(s).(store := Delete(s.store, s.currentDate))
  }

  /** One iteration of the `while True` body (the sleep is not modelled). */
  function Cycle(s: DrainState, today: Date, now: DateTime): (after: DrainState)
    requires Routable(s)
    requires ValidDate(today) && ValidDateTime(now)
    ensures Routable(after)
    ensures after.currentDate == today
    ensures after.store == Delete(s.store, today)
  {
    Drain(Rollover(s, today, now))
  }

  /** The driver process: the module-level variables of ftch_dta.py with the store and the directory. */
  class Drainer {
    var store: seq<Reading>
    var files: Files
    var currentDate: Date
    var currentMonth: string
    var csvFileDaily: string
    var csvFileMonthly: string

    function State(): DrainState
      reads this
    {
      DrainState(store, files, currentDate, currentMonth, csvFileDaily, csvFileMonthly)
    }

    ghost predicate Valid()
      reads this
    {
      Healthy(State())
    }

    /** Start-up, lines 37-40, over a store and a directory found as they are. */
    constructor (initialStore: seq<Reading>, initialFiles: Files, today: Date, now: DateTime)
      requires ValidReadings(initialStore) && AllWellFormed(initialFiles)
      requires DailyIdsIncreasing(initialFiles)
      requires ValidDate(today) && ValidDateTime(now)
      ensures Valid()
      ensures State() == Start(initialStore, initialFiles, today, now)
    {
      store := initialStore;
      files := initialFiles;
      currentDate := today;
      currentMonth := MonthTag(now);
      csvFileDaily := DailyFileName(today);
      csvFileMonthly := MonthlyFileName(MonthTag(now));
    }

    /** One pass of the loop, lines 45-83: `today` stands for both `date.today()` reads and `now` for `datetime.now()`. */
    method Tick(today: Date, now: DateTime)
      requires Valid() && ValidDate(today) && ValidDateTime(now)
      modifies this
      ensures Valid()
      ensures State() == Cycle(old(State()), today, now)
    {
      ghost var before := State();
      if today != currentDate {
        currentDate := today;
        currentMonth := MonthTag(now);
        csvFileDaily := DailyFileName(currentDate);
        csvFileMonthly := MonthlyFileName(currentMonth);
      }
      ghost var rolled := State();
      assert rolled == Rollover(before, today, now);
      assert Healthy(rolled);
      var records := Fetch(store, currentDate);
      if records != [] {
        var lastIdDaily := LastId(files, csvFileDaily);
        var lastIdMonthly := LastId(files, csvFileMonthly);
        var batch := Batch(records, lastIdDaily, lastIdMonthly);
        assert batch == PendingBatch(rolled);
        files := AppendBatch(files, csvFileDaily, batch);
        files := AppendBatch(files, csvFileMonthly, batch);
        store := Delete(store, currentDate);
        assert State() == Appended(rolled).(store := Delete(rolled.store, rolled.currentDate));
      }
      assert State() == Drain(rolled);
      CycleHealthy(before, today, now);
    }
  }

  // ---------------------------------------------------------------------------
  // Lemmas about one pass

  /** After rollover the daily and monthly names differ, so the two appends touch different files. */
  lemma RolloverHealthy(s: DrainState, today: Date, now: DateTime)
    requires Healthy(s) && ValidDate(today) && ValidDateTime(now)
    ensures Healthy(Rollover(s, today, now))
    ensures Rollover(s, today, now).csvFileDaily != Rollover(s, today, now).csvFileMonthly
  {
    var r := Rollover(s, today, now);
    DailyIsNotMonthly(r.csvFileDaily, r.currentMonth);
  }

  /** The keys after a pass: the day is always today's; the month and both names move only on a new day. */
  lemma CycleKeys(s: DrainState, today: Date, now: DateTime)
    requires Healthy(s) && ValidDate(today) && ValidDateTime(now)
    ensures var r := Cycle(s, today, now);
      && r.currentDate == today
      && r.csvFileDaily == DailyFileName(today)
      && (today != s.currentDate ==> r.currentMonth == MonthTag(now) && r.csvFileMonthly == MonthlyFileName(MonthTag(now)))
      && (today == s.currentDate ==> r.currentMonth == s.currentMonth && r.csvFileDaily == s.csvFileDaily && r.csvFileMonthly == s.csvFileMonthly)
  {
  }

  /**
   * The pass drains exactly today's rows: the store keeps every other row and no
   * row of today, and what left the store is what was fetched.
   */
  lemma CycleStore(s: DrainState, today: Date, now: DateTime)
    requires Healthy(s) && ValidDate(today) && ValidDateTime(now)
    ensures var r := Cycle(s, today, now);
      && r.store == Delete(s.store, today)
      && Fetch(r.store, today) == []
      && multiset(s.store) == multiset(r.store) + multiset(Fetch(s.store, today))
  {
    var q := Rollover(s, today, now);
    assert q.store == s.store && q.currentDate == today;
    if Fetch(s.store, today) == [] {
      assert Cycle(s, today, now).store == s.store;
      DeleteWithoutMatches(s.store, today);
    } else {
      assert Cycle(s, today, now).store == Delete(s.store, today);
    }
    FetchDeletePartition(s.store, today);
    NothingLeftAfterDelete(s.store, today);
  }

  /** A pass that fetches nothing changes neither the files nor the store. */
  lemma CycleWithNothingFetched(s: DrainState, today: Date, now: DateTime)
    requires Healthy(s) && ValidDate(today) && ValidDateTime(now)
    requires Fetch(s.store, today) == []
    ensures Cycle(s, today, now).files == s.files
    ensures Cycle(s, today, now).store == s.store
  {
  }

  /**
   * Only the two current files are written, and every file that existed keeps
   * its contents as an unchanged prefix.
   */
  lemma CycleOnlyAppends(s: DrainState, today: Date, now: DateTime)
    requires Healthy(s) && ValidDate(today) && ValidDateTime(now)
    ensures var r := Cycle(s, today, now);
      && s.files.Keys <= r.files.Keys
      && (forall name :: name in s.files ==> s.files[name] <= r.files[name])
      && (forall name :: name != r.csvFileDaily && name != r.csvFileMonthly ==>
            (name in r.files <==> name in s.files) && (name in s.files ==> r.files[name] == s.files[name]))
  {
    var q := Rollover(s, today, now);
    var r := Cycle(s, today, now);
    assert q.files == s.files;
    assert r.csvFileDaily == q.csvFileDaily && r.csvFileMonthly == q.csvFileMonthly;
    if Fetch(q.store, q.currentDate) != [] {
      var batch := PendingBatch(q);
      var daily := AppendBatch(q.files, q.csvFileDaily, batch);
      assert r.files == AppendBatch(daily, q.csvFileMonthly, batch);
      AppendsOnlyExtend(q.files, q.csvFileDaily, q.csvFileMonthly, batch);
    }
  }

  /** Two appends in a row only extend files, and leave every other file as it was. */
  lemma AppendsOnlyExtend(files: Files, first: string, second: string, batch: seq<CsvRow>)
    ensures var daily := AppendBatch(files, first, batch);
      var both := AppendBatch(daily, second, batch);
      && files.Keys <= both.Keys
      && (forall name :: name in files ==> files[name] <= both[name])
      && (forall name :: name != first && name != second ==>
            (name in both <==> name in files) && (name in files ==> both[name] == files[name]))
  {
    var daily := AppendBatch(files, first, batch);
    var both := AppendBatch(daily, second, batch);
    forall name | name in files
      ensures files[name] <= both[name]
    {
      assert files[name] <= daily[name] by {
        if name == first {
          AppendExtends(files, first, batch);
        }
      }
      assert daily[name] <= both[name] by {
        if name == second {
          AppendExtends(daily, second, batch);
        }
      }
    }
  }

  /**
   * A pass with n fetched rows appends the same n-row batch to the daily and to
   * the monthly file. Its `id` run starts after `get_last_id` of the daily file
   * and its `unique_id` run after `get_last_id` of the monthly file, which reads
   * that file's `id` column; a header line is written exactly for a new file.
   */
  lemma CycleAppendsBatch(s: DrainState, today: Date, now: DateTime)
    requires Healthy(s) && ValidDate(today) && ValidDateTime(now)
    requires Fetch(s.store, today) != []
    ensures var q := Rollover(s, today, now);
      var r := Cycle(s, today, now);
      var records := Fetch(s.store, today);
      var batch := PendingBatch(q);
      && |batch| == |records|
      && (forall i :: 0 <= i < |batch| ==> batch[i].reading == records[i])
      && IsRun(IdColumn(batch), LastId(s.files, q.csvFileDaily) + 1)
      && IsRun(UniqueIdColumn(batch), LastId(s.files, q.csvFileMonthly) + 1)
      && DataRows(r.files[q.csvFileDaily]) == DataRows(if q.csvFileDaily in s.files then s.files[q.csvFileDaily] else []) + batch
      && DataRows(r.files[q.csvFileMonthly]) == DataRows(if q.csvFileMonthly in s.files then s.files[q.csvFileMonthly] else []) + batch
      && (r.files[q.csvFileDaily][0] == Header)
      && (q.csvFileDaily !in s.files ==> r.files[q.csvFileDaily] == [Header] + DataLines(batch))
      && (q.csvFileDaily in s.files ==> r.files[q.csvFileDaily] == s.files[q.csvFileDaily] + DataLines(batch))
      && (q.csvFileMonthly !in s.files ==> r.files[q.csvFileMonthly] == [Header] + DataLines(batch))
      && (q.csvFileMonthly in s.files ==> r.files[q.csvFileMonthly] == s.files[q.csvFileMonthly] + DataLines(batch))
  {
    CycleBatch(s, today, now);
    CycleFileContents(s, today, now);
  }

  /** The batch of a pass: the fetched rows in order, numbered on from both files' last `id`. */
  lemma CycleBatch(s: DrainState, today: Date, now: DateTime)
    requires Healthy(s) && ValidDate(today) && ValidDateTime(now)
    ensures var q := Rollover(s, today, now);
      var records := Fetch(s.store, today);
      var batch := PendingBatch(q);
      && |batch| == |records|
      && (forall i :: 0 <= i < |batch| ==> batch[i].reading == records[i])
      && IsRun(IdColumn(batch), LastId(s.files, q.csvFileDaily) + 1)
      && IsRun(UniqueIdColumn(batch), LastId(s.files, q.csvFileMonthly) + 1)
  {
    var q := Rollover(s, today, now);
    assert q.files == s.files && q.store == s.store && q.currentDate == today;
  }

  /** The two files a pass with rows writes: each is its old contents, or a header, followed by the batch. */
  lemma CycleFileContents(s: DrainState, today: Date, now: DateTime)
    requires Healthy(s) && ValidDate(today) && ValidDateTime(now)
    requires Fetch(s.store, today) != []
    ensures var q := Rollover(s, today, now);
      var r := Cycle(s, today, now);
      var batch := PendingBatch(q);
      && DataRows(r.files[q.csvFileDaily]) == DataRows(if q.csvFileDaily in s.files then s.files[q.csvFileDaily] else []) + batch
      && DataRows(r.files[q.csvFileMonthly]) == DataRows(if q.csvFileMonthly in s.files then s.files[q.csvFileMonthly] else []) + batch
      && (r.files[q.csvFileDaily][0] == Header)
      && (q.csvFileDaily !in s.files ==> r.files[q.csvFileDaily] == [Header] + DataLines(batch))
      && (q.csvFileDaily in s.files ==> r.files[q.csvFileDaily] == s.files[q.csvFileDaily] + DataLines(batch))
      && (q.csvFileMonthly !in s.files ==> r.files[q.csvFileMonthly] == [Header] + DataLines(batch))
      && (q.csvFileMonthly in s.files ==> r.files[q.csvFileMonthly] == s.files[q.csvFileMonthly] + DataLines(batch))
  {
    var q := Rollover(s, today, now);
    RolloverHealthy(s, today, now);
    var batch := PendingBatch(q);
    assert q.files == s.files && q.store == s.store && q.currentDate == today;
    assert Cycle(s, today, now).files == AppendBatch(AppendBatch(s.files, q.csvFileDaily, batch), q.csvFileMonthly, batch);
    TwoAppends(s.files, q.csvFileDaily, q.csvFileMonthly, batch);
  }

  /** Appending one batch to two different files: each gets its own header, when new, and the batch. */
  lemma TwoAppends(files: Files, first: string, second: string, batch: seq<CsvRow>)
    requires first != second
    requires first in files ==> |files[first]| > 0 && files[first][0] == Header
    ensures var both := AppendBatch(AppendBatch(files, first, batch), second, batch);
      && DataRows(both[first]) == DataRows(if first in files then files[first] else []) + batch
      && DataRows(both[second]) == DataRows(if second in files then files[second] else []) + batch
      && both[first][0] == Header
      && (first !in files ==> both[first] == [Header] + DataLines(batch))
      && (first in files ==> both[first] == files[first] + DataLines(batch))
      && (second !in files ==> both[second] == [Header] + DataLines(batch))
      && (second in files ==> both[second] == files[second] + DataLines(batch))
  {
    var daily := AppendBatch(files, first, batch);
    assert AppendBatch(daily, second, batch)[first] == daily[first];
    AppendExtends(files, first, batch);
    AppendExtends(daily, second, batch);
  }

  /** After a pass with n rows, `get_last_id` of the daily file has grown by exactly n. */
  lemma CycleDailyLastId(s: DrainState, today: Date, now: DateTime)
    requires Healthy(s) && ValidDate(today) && ValidDateTime(now)
    requires Fetch(s.store, today) != []
    ensures Healthy(Cycle(s, today, now))
    ensures LastId(Cycle(s, today, now).files, DailyFileName(today))
         == LastId(s.files, DailyFileName(today)) + |Fetch(s.store, today)|
  {
    var q := Rollover(s, today, now);
    RolloverHealthy(s, today, now);
    var batch := PendingBatch(q);
    var daily := AppendBatch(q.files, q.csvFileDaily, batch);
    LastIdAfterAppend(q.files, q.csvFileDaily, batch);
    AppendWellFormed(daily, q.csvFileMonthly, batch);
    CycleHealthy(s, today, now);
  }

  /** Every pass keeps the state healthy; in particular ids in a daily file never repeat or go backward. */
  lemma CycleHealthy(s: DrainState, today: Date, now: DateTime)
    requires Healthy(s) && ValidDate(today) && ValidDateTime(now)
    ensures Healthy(Cycle(s, today, now))
  {
    var q := Rollover(s, today, now);
    RolloverHealthy(s, today, now);
    if Fetch(q.store, q.currentDate) != [] {
      var batch := PendingBatch(q);
      var daily := AppendBatch(q.files, q.csvFileDaily, batch);
      var both := AppendBatch(daily, q.csvFileMonthly, batch);
      AppendWellFormed(q.files, q.csvFileDaily, batch);
      AppendWellFormed(daily, q.csvFileMonthly, batch);
      AppendsKeepDailyIdsIncreasing(q.files, q.csvFileDaily, q.currentMonth, batch);
      var r := Cycle(s, today, now);
      assert r == q.(files := both, store := Delete(q.store, q.currentDate));
    }
  }

  /** The two appends of a pass keep every daily file's ids strictly increasing. */
  lemma AppendsKeepDailyIdsIncreasing(files: Files, dailyName: string, tag: string, batch: seq<CsvRow>)
    requires AllWellFormed(files) && DailyIdsIncreasing(files) && IsDailyName(dailyName)
    requires IsRun(IdColumn(batch), LastId(files, dailyName) + 1)
    ensures DailyIdsIncreasing(AppendBatch(AppendBatch(files, dailyName, batch), MonthlyFileName(tag), batch))
  {
    var monthlyName := MonthlyFileName(tag);
    var daily := AppendBatch(files, dailyName, batch);
    var both := AppendBatch(daily, monthlyName, batch);
    forall name | name in both && IsDailyName(name)
      ensures StrictlyIncreasing(IdColumn(DataRows(both[name])))
    {
      DailyIsNotMonthly(name, tag);
      assert both[name] == daily[name];
      if name == dailyName {
        AppendKeepsIdsIncreasing(files, dailyName, batch);
      } else {
        assert daily[name] == files[name];
      }
    }
  }

  /** Files of any other day are never written, whatever the clock does. */
  lemma CycleLeavesOtherDays(s: DrainState, today: Date, now: DateTime, other: Date)
    requires Healthy(s) && ValidDate(today) && ValidDateTime(now)
    requires ValidDate(other) && other != today
    ensures var r := Cycle(s, today, now);
      var name := DailyFileName(other);
      && (name in r.files <==> name in s.files)
      && (name in s.files ==> r.files[name] == s.files[name])
  {
    var r := Cycle(s, today, now);
    CycleOnlyAppends(s, today, now);
    CycleKeys(s, today, now);
    RolloverHealthy(s, today, now);
    if DailyFileName(other) == DailyFileName(today) {
      DailyFileNameInjective(other, today);
    }
    DailyIsNotMonthly(DailyFileName(other), r.currentMonth);
  }

  /** After a new day begins, the file of any other month is never written. */
  lemma CycleLeavesOtherMonths(s: DrainState, today: Date, now: DateTime, other: DateTime)
    requires Healthy(s) && ValidDate(today) && ValidDateTime(now) && today != s.currentDate
    requires ValidDateTime(other)
    requires other.date.month != now.date.month || other.date.year != now.date.year
    ensures var r := Cycle(s, today, now);
      var name := MonthlyFileName(MonthTag(other));
      && (name in r.files <==> name in s.files)
      && (name in s.files ==> r.files[name] == s.files[name])
  {
    var r := Cycle(s, today, now);
    CycleOnlyAppends(s, today, now);
    var name := MonthlyFileName(MonthTag(other));
    if name == MonthlyFileName(MonthTag(now)) {
      MonthlyFileNameInjective(other, now);
    }
  }

  // ---------------------------------------------------------------------------
  // Scenarios over several passes

  /**
   * A store holding three readings of one day, one second apart, drained into an
   * empty directory: both files are created with a header and the three rows,
   * ids 1 to 3 in both id columns, Modified Julian Dates ascending, and the
   * store is left empty.
   */
  lemma ThreeReadingsIntoEmptyDirectory(store: seq<Reading>, today: Date, now: DateTime)
    requires ValidDate(today) && ValidDateTime(now)
    requires |store| == 3 && ValidReadings(store)
    requires forall i :: 0 <= i < 3 ==> DayOf(store[i]) == today
    requires forall i :: 0 <= i < 2 ==>
      Before(store[i].timestamp, store[i + 1].timestamp) && !SameSecond(store[i].timestamp, store[i + 1].timestamp)
    ensures var r := Cycle(Start(store, map[], today, now), today, now);
      var daily := DailyFileName(today);
      var monthly := MonthlyFileName(MonthTag(now));
      && r.files.Keys == {daily, monthly}
      && r.files[daily] == r.files[monthly]
      && r.files[daily][0] == Header && |r.files[daily]| == 4
      && IdColumn(DataRows(r.files[daily])) == [1, 2, 3]
      && UniqueIdColumn(DataRows(r.files[daily])) == [1, 2, 3]
      && (forall i :: 0 <= i < 3 ==> DataRows(r.files[daily])[i].reading == store[i])
      && (forall i :: 0 <= i < 2 ==> DataRows(r.files[daily])[i].mjd < DataRows(r.files[daily])[i + 1].mjd)
      && r.store == []
  {
    StoreOfOneDay(store, today);
    PassIntoEmptyDirectory(store, today, now);
    NewFileOfThreeRows(store);
  }

  /** The file a three-row batch numbered from 1 creates: a header, then ids 1 to 3 in order of time. */
  lemma NewFileOfThreeRows(store: seq<Reading>)
    requires |store| == 3 && ValidReadings(store)
    requires forall i :: 0 <= i < 2 ==>
      Before(store[i].timestamp, store[i + 1].timestamp) && !SameSecond(store[i].timestamp, store[i + 1].timestamp)
    ensures var lines := [Header] + DataLines(Batch(store, 0, 0));
      && lines[0] == Header && |lines| == 4
      && IdColumn(DataRows(lines)) == [1, 2, 3]
      && UniqueIdColumn(DataRows(lines)) == [1, 2, 3]
      && (forall i :: 0 <= i < 3 ==> DataRows(lines)[i].reading == store[i])
      && (forall i :: 0 <= i < 2 ==> DataRows(lines)[i].mjd < DataRows(lines)[i + 1].mjd)
  {
    var batch := Batch(store, 0, 0);
    var lines := [Header] + DataLines(batch);
    DataRowsOfDataLines(batch);
    assert lines[1..] == DataLines(batch);
    assert DataRows(lines) == batch;
    assert IdColumn(batch) == [1, 2, 3] && UniqueIdColumn(batch) == [1, 2, 3];
    BatchMjdsAscend(store, 0, 0);
  }

  /** A pass with rows over an empty directory creates exactly the two files, each a header and the batch numbered from 1. */
  lemma PassIntoEmptyDirectory(store: seq<Reading>, today: Date, now: DateTime)
    requires ValidDate(today) && ValidDateTime(now) && ValidReadings(store)
    requires Fetch(store, today) != []
    ensures var r := Cycle(Start(store, map[], today, now), today, now);
      var lines := [Header] + DataLines(Batch(Fetch(store, today), 0, 0));
      && r.files == map[DailyFileName(today) := lines, MonthlyFileName(MonthTag(now)) := lines]
      && r.store == Delete(store, today)
  {
    var s := Start(store, map[], today, now);
    assert Healthy(s);
    RolloverHealthy(s, today, now);
    CycleAppendsBatch(s, today, now);
    CycleKeys(s, today, now);
    CycleStore(s, today, now);
    assert PendingBatch(s) == Batch(Fetch(store, today), 0, 0);
  }

  /** Records in order and in different whole seconds get strictly ascending Modified Julian Dates. */
  lemma BatchMjdsAscend(records: seq<Reading>, lastDaily: int, lastMonthly: int)
    requires ValidReadings(records)
    requires forall i :: 0 <= i < |records| - 1 ==>
      Before(records[i].timestamp, records[i + 1].timestamp) && !SameSecond(records[i].timestamp, records[i + 1].timestamp)
    ensures var batch := Batch(records, lastDaily, lastMonthly);
      forall i :: 0 <= i < |batch| - 1 ==> batch[i].mjd < batch[i + 1].mjd
  {
    forall i | 0 <= i < |records| - 1
      ensures DatetimeToMjd(records[i].timestamp) < DatetimeToMjd(records[i + 1].timestamp)
    {
      MjdStrictIffDifferentSecond(records[i].timestamp, records[i + 1].timestamp);
    }
  }

  /**
   * One reading on day1 and one on day2 of the same month, drained into an empty
   * directory on their days: each daily file holds its reading with `id` 1, and
   * the monthly file holds both, with `id` 1, 1 and `unique_id` 1, 2.
   */
  lemma TwoDaysOfOneMonth(rs: seq<Reading>, day1: Date, day2: Date, now1: DateTime, now2: DateTime)
    requires |rs| == 3 && ValidReadings(rs)
    requires ValidDate(day1) && ValidDate(day2) && day1 != day2
    requires DayOf(rs[0]) == day1 && DayOf(rs[1]) == day2
    requires ValidDateTime(now1) && ValidDateTime(now2) && MonthTag(now1) == MonthTag(now2)
    ensures var s2 := Cycle(Cycle(Start(rs[..2], map[], day1, now1), day1, now1), day2, now2);
      var row1 := CsvRow(rs[0], DatetimeToMjd(rs[0].timestamp), 1, 1);
      var row2 := CsvRow(rs[1], DatetimeToMjd(rs[1].timestamp), 1, 2);
      && Healthy(s2) && s2.store == [] && s2.currentDate == day2
      && s2.csvFileMonthly == MonthlyFileName(MonthTag(now1))
      && s2.csvFileDaily in s2.files && s2.files[s2.csvFileDaily] == [Header, Data(row2)]
      && s2.csvFileMonthly in s2.files && s2.files[s2.csvFileMonthly] == [Header, Data(row1), Data(row2)]
  {
    DistinctNames(day1, day2, MonthTag(now1));
    var s1 := Cycle(Start(rs[..2], map[], day1, now1), day1, now1);
    FirstPass(rs, day1, now1);
    SecondPass(s1, rs, day2, now2);
  }

  lemma DistinctNames(day1: Date, day2: Date, tag: string)
    requires ValidDate(day1) && ValidDate(day2) && day1 != day2
    ensures DailyFileName(day1) != DailyFileName(day2)
    ensures DailyFileName(day1) != MonthlyFileName(tag) && DailyFileName(day2) != MonthlyFileName(tag)
  {
    DailyIsNotMonthly(DailyFileName(day1), tag);
    DailyIsNotMonthly(DailyFileName(day2), tag);
    if DailyFileName(day1) == DailyFileName(day2) {
      DailyFileNameInjective(day1, day2);
    }
  }

  /** First pass of the repeat scenario: the day-1 reading opens both files with ids 1. */
  lemma FirstPass(rs: seq<Reading>, day1: Date, now1: DateTime)
    requires |rs| == 3 && ValidReadings(rs)
    requires ValidDate(day1) && DayOf(rs[0]) == day1 && DayOf(rs[1]) != day1 && ValidDateTime(now1)
    requires DailyFileName(day1) != MonthlyFileName(MonthTag(now1))
    ensures var s1 := Cycle(Start(rs[..2], map[], day1, now1), day1, now1);
      var row1 := CsvRow(rs[0], DatetimeToMjd(rs[0].timestamp), 1, 1);
      && s1.files.Keys == {DailyFileName(day1), MonthlyFileName(MonthTag(now1))}
      && s1.files[DailyFileName(day1)] == [Header, Data(row1)]
      && s1.files[MonthlyFileName(MonthTag(now1))] == [Header, Data(row1)]
      && s1.store == [rs[1]]
      && s1.currentMonth == MonthTag(now1) && s1.currentDate == day1
      && Healthy(s1)
  {
    var s0 := Start(rs[..2], map[], day1, now1);
    assert s0.store == [rs[0], rs[1]];
    assert Healthy(s0);
    assert Fetch([rs[0], rs[1]], day1) == [rs[0]];
    assert Delete([rs[0], rs[1]], day1) == [rs[1]];
    assert Rollover(s0, day1, now1) == s0;
    var batch := PendingBatch(s0);
    assert batch == Batch([rs[0]], 0, 0);
    assert DataLines(batch) == [Data(CsvRow(rs[0], DatetimeToMjd(rs[0].timestamp), 1, 1))];
    CycleAppendsBatch(s0, day1, now1);
    CycleOnlyAppends(s0, day1, now1);
    CycleStore(s0, day1, now1);
    CycleHealthy(s0, day1, now1);
  }

  /** Second pass: the first day-2 reading gets daily id 1 and monthly id 1 + 1. */
  lemma SecondPass(s1: DrainState, rs: seq<Reading>, day2: Date, now2: DateTime)
    requires |rs| == 3 && ValidReadings(rs) && Healthy(s1)
    requires ValidDate(day2) && ValidDateTime(now2) && day2 != s1.currentDate
    requires DayOf(rs[1]) == day2 && MonthTag(now2) == s1.currentMonth
    requires s1.store == [rs[1]]
    requires DailyFileName(day2) !in s1.files
    requires var row1 := CsvRow(rs[0], DatetimeToMjd(rs[0].timestamp), 1, 1);
      s1.csvFileMonthly in s1.files && s1.files[s1.csvFileMonthly] == [Header, Data(row1)]
    ensures var s2 := Cycle(s1, day2, now2);
      var row1 := CsvRow(rs[0], DatetimeToMjd(rs[0].timestamp), 1, 1);
      var row2 := CsvRow(rs[1], DatetimeToMjd(rs[1].timestamp), 1, 2);
      && s2.files[DailyFileName(day2)] == [Header, Data(row2)]
      && s2.files[s1.csvFileMonthly] == [Header, Data(row1), Data(row2)]
      && s2.store == []
      && s2.currentDate == day2 && s2.csvFileMonthly == s1.csvFileMonthly
      && Healthy(s2)
  {
    var row1 := CsvRow(rs[0], DatetimeToMjd(rs[0].timestamp), 1, 1);
    var q := Rollover(s1, day2, now2);
    assert q.csvFileMonthly == s1.csvFileMonthly && q.csvFileDaily == DailyFileName(day2);
    assert q.files == s1.files && q.store == [rs[1]];
    assert Fetch([rs[1]], day2) == [rs[1]];
    assert Delete([rs[1]], day2) == [];
    assert DataRows([Header, Data(row1)]) == [row1];
    assert LastId(q.files, q.csvFileDaily) == 0;
    assert LastId(q.files, q.csvFileMonthly) == 1;
    var batch := PendingBatch(q);
    assert batch == Batch([rs[1]], 0, 1);
    assert DataLines(batch) == [Data(CsvRow(rs[1], DatetimeToMjd(rs[1].timestamp), 1, 2))];
    CycleAppendsBatch(s1, day2, now2);
    CycleStore(s1, day2, now2);
    CycleHealthy(s1, day2, now2);
  }

  /**
   * The monthly `unique_id` can repeat. From the state `TwoDaysOfOneMonth`
   * leaves, a second reading of day2 arrives: its daily `id` is 2, and its
   * `unique_id` is again 1 + 1, because `get_last_id` of the monthly file reads
   * its `id` column, whose largest value is 1. The monthly file ends with
   * `id` 1, 1, 2 and `unique_id` 1, 2, 2.
   */
  lemma MonthlyUniqueIdRepeats(s2: DrainState, rs: seq<Reading>, day2: Date, now2: DateTime, monthlyName: string)
    requires |rs| == 3 && ValidReadings(rs) && Healthy(s2) && ValidDateTime(now2)
    requires s2.currentDate == day2 && s2.csvFileMonthly == monthlyName
    requires DayOf(rs[2]) == day2 && s2.store == []
    requires var row1 := CsvRow(rs[0], DatetimeToMjd(rs[0].timestamp), 1, 1);
      var row2 := CsvRow(rs[1], DatetimeToMjd(rs[1].timestamp), 1, 2);
      && s2.csvFileDaily in s2.files && s2.files[s2.csvFileDaily] == [Header, Data(row2)]
      && s2.csvFileMonthly in s2.files && s2.files[s2.csvFileMonthly] == [Header, Data(row1), Data(row2)]
    ensures var s3 := Cycle(s2.(store := s2.store + rs[2..]), day2, now2);
      && monthlyName in s3.files
      && IdColumn(DataRows(s3.files[monthlyName])) == [1, 1, 2]
      && UniqueIdColumn(DataRows(s3.files[monthlyName])) == [1, 2, 2]
  {
    var t := s2.(store := s2.store + rs[2..]);
    assert t.store == [rs[2]];
    var row1 := CsvRow(rs[0], DatetimeToMjd(rs[0].timestamp), 1, 1);
    var row2 := CsvRow(rs[1], DatetimeToMjd(rs[1].timestamp), 1, 2);
    var row3 := CsvRow(rs[2], DatetimeToMjd(rs[2].timestamp), 2, 2);
    assert Rollover(t, t.currentDate, now2) == t;
    assert Fetch([rs[2]], t.currentDate) == [rs[2]];
    assert DataRows([Header, Data(row2)]) == [row2];
    assert DataRows([Header, Data(row1), Data(row2)]) == [row1, row2];
    assert LastId(t.files, t.csvFileDaily) == 1;
    assert LastId(t.files, t.csvFileMonthly) == 1;
    var batch := PendingBatch(t);
    assert batch == Batch([rs[2]], 1, 1);
    assert DataLines(batch) == [Data(row3)];
    CycleAppendsBatch(t, t.currentDate, now2);
    RepeatedColumns(row1, row2, row3);
  }

  lemma RepeatedColumns(row1: CsvRow, row2: CsvRow, row3: CsvRow)
    requires row1.id == 1 && row2.id == 1 && row3.id == 2
    requires row1.uniqueId == 1 && row2.uniqueId == 2 && row3.uniqueId == 2
    ensures IdColumn(DataRows([Header, Data(row1), Data(row2)] + [Data(row3)])) == [1, 1, 2]
    ensures UniqueIdColumn(DataRows([Header, Data(row1), Data(row2)] + [Data(row3)])) == [1, 2, 2]
  {
    var rows := [row1, row2, row3];
    assert [Header, Data(row1), Data(row2)] + [Data(row3)] == [Header] + DataLines(rows);
    DataRowsAppend([Header], DataLines(rows));
    DataRowsOfDataLines(rows);
    assert DataRows([Header]) == [];
  }

  /**
   * If the process stops after both appends and before the delete, and is
   * started again on the same day, the rows are fetched and appended a second
   * time: the daily file then holds every fetched reading twice, under one run
   * of 2n consecutive ids, so nothing is lost and no id repeats.
   */
  lemma RedeliveryAfterCrashBeforeDelete(s: DrainState, today: Date, now: DateTime)
    requires Healthy(s) && ValidDate(today) && ValidDateTime(now)
    requires Fetch(s.store, today) != []
    ensures var crashed := Appended(Rollover(s, today, now));
      var r := Cycle(Start(crashed.store, crashed.files, today, now), today, now);
      var name := DailyFileName(today);
      var records := Fetch(s.store, today);
      var before := DataRows(if name in s.files then s.files[name] else []);
      && name in r.files && |before| <= |DataRows(r.files[name])|
      && var added := DataRows(r.files[name])[|before|..];
      && DataRows(r.files[name])[..|before|] == before
      && |added| == 2 * |records|
      && (forall i :: 0 <= i < |records| ==> added[i].reading == records[i] && added[|records| + i].reading == records[i])
      && IsRun(IdColumn(added), LastId(s.files, name) + 1)
      && r.store == Delete(s.store, today)
  {
    var name := DailyFileName(today);
    var records := Fetch(s.store, today);
    var first := PendingBatch(Rollover(s, today, now));
    var before := DataRows(if name in s.files then s.files[name] else []);
    var crashed := Appended(Rollover(s, today, now));
    CrashLeavesHealthyRestart(s, today, now);
    var t := Start(crashed.store, crashed.files, today, now);
    var second := PendingBatch(t);
    RestartAppendsAgain(t, today, now);
    var r := Cycle(t, today, now);
    assert t.store == s.store && t.files == crashed.files;
    assert DataRows(t.files[name]) == before + first;
    assert DataRows(r.files[name]) == before + first + second;
    TwoBatchesInARow(DataRows(r.files[name]), before, first, second, records, LastId(s.files, name) + 1);
  }

  /** A file that gained two batches of the same records, numbered one after the other. */
  lemma TwoBatchesInARow(rows: seq<CsvRow>, before: seq<CsvRow>, first: seq<CsvRow>, second: seq<CsvRow>,
                         records: seq<Reading>, start: int)
    requires rows == before + first + second
    requires |first| == |records| && |second| == |records|
    requires forall i :: 0 <= i < |records| ==> first[i].reading == records[i] && second[i].reading == records[i]
    requires IsRun(IdColumn(first), start) && IsRun(IdColumn(second), start + |records|)
    ensures |before| <= |rows| && rows[..|before|] == before
    ensures var added := rows[|before|..];
      && |added| == 2 * |records|
      && (forall i :: 0 <= i < |records| ==> added[i].reading == records[i] && added[|records| + i].reading == records[i])
      && IsRun(IdColumn(added), start)
  {
    var added := rows[|before|..];
    assert added == first + second;
    ConsecutiveRuns(first, second, start);
    forall i | 0 <= i < |records|
      ensures added[i].reading == records[i] && added[|records| + i].reading == records[i]
    {
      assert added[|records| + i] == second[i];
    }
  }

  /**
   * The state a crash between the appends and the delete leaves behind: the
   * store is untouched, the daily file holds the first batch, and a restart on
   * the same day starts healthy.
   */
  lemma CrashLeavesHealthyRestart(s: DrainState, today: Date, now: DateTime)
    requires Healthy(s) && ValidDate(today) && ValidDateTime(now)
    requires Fetch(s.store, today) != []
    ensures var crashed := Appended(Rollover(s, today, now));
      var name := DailyFileName(today);
      var first := PendingBatch(Rollover(s, today, now));
      && crashed.store == s.store
      && Healthy(Start(crashed.store, crashed.files, today, now))
      && name in crashed.files
      && DataRows(crashed.files[name]) == DataRows(if name in s.files then s.files[name] else []) + first
      && LastId(crashed.files, name) == LastId(s.files, name) + |first|
      && |first| == |Fetch(s.store, today)|
      && (forall i :: 0 <= i < |first| ==> first[i].reading == Fetch(s.store, today)[i])
      && IsRun(IdColumn(first), LastId(s.files, name) + 1)
  {
    var q := Rollover(s, today, now);
    assert q.csvFileDaily == DailyFileName(today);
    assert Cycle(s, today, now).files == Appended(q).files;
    CycleHealthy(s, today, now);
    CycleAppendsBatch(s, today, now);
    CycleDailyLastId(s, today, now);
  }

  /** The restarted pass fetches the same rows again and appends them after what the crash left. */
  lemma RestartAppendsAgain(t: DrainState, today: Date, now: DateTime)
    requires Healthy(t) && ValidDate(today) && ValidDateTime(now) && t.currentDate == today
    requires Fetch(t.store, today) != [] && DailyFileName(today) in t.files
    ensures var r := Cycle(t, today, now);
      var name := DailyFileName(today);
      var second := PendingBatch(t);
      && name in r.files
      && DataRows(r.files[name]) == DataRows(t.files[name]) + second
      && r.store == Delete(t.store, today)
      && |second| == |Fetch(t.store, today)|
      && (forall i :: 0 <= i < |second| ==> second[i].reading == Fetch(t.store, today)[i])
      && IsRun(IdColumn(second), LastId(t.files, name) + 1)
  {
    assert Rollover(t, today, now) == t;
    CycleAppendsBatch(t, today, now);
    CycleStore(t, today, now);
  }

  /**
   * If the process stops between the daily and the monthly append (lines 72 and
   * 75), and is started again on the same day in the same month, the rows are
   * fetched again: the daily file then holds every fetched reading twice, under
   * one run of 2n consecutive ids, and the monthly file holds each reading once,
   * numbered on from its `get_last_id` as it was before the stop.
   */
  lemma RedeliveryAfterCrashBetweenAppends(s: DrainState, today: Date, now: DateTime)
    requires Healthy(s) && ValidDate(today) && ValidDateTime(now)
    requires Fetch(s.store, today) != []
    requires today == s.currentDate ==> s.currentMonth == MonthTag(now)
    ensures var q := Rollover(s, today, now);
      var crashed := DailyAppended(q);
      var t := Start(crashed.store, crashed.files, today, now);
      var r := Cycle(t, today, now);
      var records := Fetch(s.store, today);
      var first := PendingBatch(q);
      var second := PendingBatch(t);
      var daily := DailyFileName(today);
      var monthly := MonthlyFileName(MonthTag(now));
      && daily in r.files && monthly in r.files
      && DataRows(r.files[daily]) == DataRows(if daily in s.files then s.files[daily] else []) + first + second
      && DataRows(r.files[monthly]) == DataRows(if monthly in s.files then s.files[monthly] else []) + second
      && |first| == |records| && |second| == |records|
      && (forall i :: 0 <= i < |records| ==> first[i].reading == records[i] && second[i].reading == records[i])
      && IsRun(IdColumn(first + second), LastId(s.files, daily) + 1)
      && IsRun(UniqueIdColumn(second), LastId(s.files, monthly) + 1)
      && r.store == Delete(s.store, today)
  {
    var q := Rollover(s, today, now);
    var first := PendingBatch(q);
    var daily, monthly := q.csvFileDaily, q.csvFileMonthly;
    DailyOnlyCrashLeavesHealthyRestart(s, today, now);
    var t := Start(DailyAppended(q).store, DailyAppended(q).files, today, now);
    var second := PendingBatch(t);
    CycleAppendsBatch(t, today, now);
    ConsecutiveRuns(first, second, LastId(s.files, daily) + 1);
  }

  /**
   * The state a stop between the two appends leaves: the daily file holds the
   * first batch, the monthly file is as it was, and a restart on the same day
   * in the same month starts healthy, on the same two files.
   */
  lemma DailyOnlyCrashLeavesHealthyRestart(s: DrainState, today: Date, now: DateTime)
    requires Healthy(s) && ValidDate(today) && ValidDateTime(now)
    requires Fetch(s.store, today) != []
    requires today == s.currentDate ==> s.currentMonth == MonthTag(now)
    ensures var q := Rollover(s, today, now);
      var crashed := DailyAppended(q);
      var t := Start(crashed.store, crashed.files, today, now);
      var first := PendingBatch(q);
      && Healthy(t) && Rollover(t, today, now) == t
      && t.csvFileDaily == q.csvFileDaily && t.csvFileMonthly == q.csvFileMonthly
      && q.csvFileDaily in t.files
      && DataRows(t.files[q.csvFileDaily]) == DataRows(if q.csvFileDaily in s.files then s.files[q.csvFileDaily] else []) + first
      && LastId(t.files, q.csvFileDaily) == LastId(s.files, q.csvFileDaily) + |first|
      && (q.csvFileMonthly in t.files <==> q.csvFileMonthly in s.files)
      && (q.csvFileMonthly in s.files ==> t.files[q.csvFileMonthly] == s.files[q.csvFileMonthly])
      && LastId(t.files, q.csvFileMonthly) == LastId(s.files, q.csvFileMonthly)
  {
    var q := Rollover(s, today, now);
    var first := PendingBatch(q);
    var crashed := DailyAppended(q);
    var daily := q.csvFileDaily;
    AppendExtends(q.files, daily, first);
    LastIdAfterAppend(q.files, daily, first);
    AppendKeepsIdsIncreasing(q.files, daily, first);
    assert DailyIdsIncreasing(crashed.files) by {
      forall name | name in crashed.files && IsDailyName(name)
        ensures StrictlyIncreasing(IdColumn(DataRows(crashed.files[name])))
      {
        if name != daily {
          assert crashed.files[name] == s.files[name];
        }
      }
    }
  }

  /** Two batches numbered one after the other carry a single run of ids. */
  lemma ConsecutiveRuns(first: seq<CsvRow>, second: seq<CsvRow>, start: int)
    requires IsRun(IdColumn(first), start) && IsRun(IdColumn(second), start + |first|)
    ensures IsRun(IdColumn(first + second), start)
  {
    forall i | 0 <= i < |first + second|
      ensures IdColumn(first + second)[i] == start + i
    {
      if i >= |first| {
        assert (first + second)[i] == second[i - |first|];
      }
    }
  }
}
