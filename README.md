# Sensor logging pipeline: drain-to-CSV cycle and sampling loop

This project models the two pieces of sequential logic in a small sensor-logging
system, and proves properties of the model in Dafny.

- **`ftch_dta.py`** is a Python process. Every pass of its `while True` loop does the following:
  - it moves its keys to a new day when `date.today()` changes;
  - it fetches the day's rows from the MySQL table `sensordata`;
  - it recovers the last `id` of the daily file `live_data_<ISO date>.csv` and of the monthly file `month_<Month>_<Year>.csv`;
  - it gives each row a Modified Julian Date (MJD) and two runs of ids;
  - it appends the batch to both files, with a header only when a file is new;
  - it deletes the day from the table.
- **`arduinocode.cpp`** is the ESP8266 sketch whose `loop()` keeps a running minimum for each of eight converter channels. It alternates between a 50-second measuring phase and a send phase. The send phase waits 10 seconds and then posts the eight voltages.

## Modules

| file | module | what it holds |
|---|---|---|
| `wrappers.dfy` | `Wrappers` | `Option` |
| `calendar.dfy` | `Calendar` | proleptic Gregorian dates as Python's `date`/`datetime`, and `datetime_to_mjd` |
| `file_names.dfy` | `FileNames` | the daily and monthly file names, their parsers and round trips |
| `store.dfy` | `Store` | the `sensordata` table as a sequence of readings, with the SELECT and the DELETE of one day |
| `partitions.dfy` | `Partitions` | the CSV files as lines, `get_last_id`, the id runs of a batch, and the append |
| `driver.dfy` | `Driver` | the module-level variables of `ftch_dta.py` and one pass of its loop, as the specification function `Cycle` and the class `Drainer` whose `Tick` method is proved against it; lemmas over one pass and over several |
| `sampler.dfy` | `Sampler` | `loop()` of the sketch, as the specification function `Step` and the class `Sampler`, whose in-place `Loop` over the `minAdc` array is proved against it; lemmas over one pass and over a run of passes |

The file store of the Python process is a map from file name to lines. A line is
the header or a data row. The directory may hold any other files; the partition
files are those whose names start `live_data_` or `month_`, and only they must
read back as a header followed by data rows. The table is a sequence of readings
in the order the SELECT returns them. A pass reads the clock three times:
`date.today()` at lines 45 and 47 and `datetime.now()` at line 48. The parameter
`today` of `Tick` stands for both `date.today()` reads and `now` for the
`datetime.now()` read. `millis()`, the eight converter
readings and whether the server accepted the connection are parameters of `Loop`.

## Model

| member | source | states |
|---|---|---|
| Calendar.DatetimeToMjd | ftch_dta.py:8-12 | `delta.days + delta.seconds / 86400` equals the whole seconds since 1858-11-17 00:00:00 divided by 86400, exactly |
| Calendar.MjdOfEpoch | ftch_dta.py:10 | the reference instant has MJD 0 |
| Calendar.MjdOfMidnight | ftch_dta.py:8-12 | at midnight the MJD is the whole number of days since 1858-11-17 |
| Calendar.MjdOfUnixEpoch | ftch_dta.py:8-12 | 1970-01-01 00:00:00 has MJD 40587 |
| Calendar.MjdDropsMicroseconds | ftch_dta.py:11 | the microseconds of a timestamp do not change its MJD |
| Calendar.MjdMonotone | ftch_dta.py:11 | the MJD never decreases as the timestamp advances |
| Calendar.MjdStrictIffDifferentSecond | ftch_dta.py:11 | of two ordered timestamps, the later has a strictly larger MJD exactly when they lie in different whole seconds |
| Calendar.MjdEqualIffSameSecond | ftch_dta.py:11 | two timestamps have equal MJDs exactly when they share their whole second |
| Calendar.OrdinalIncreasing | ftch_dta.py:11 | the day count used for `dt - mjd_start` is strictly increasing in the date |
| FileNames.DailyFileName | ftch_dta.py:39 | `live_data_<ISO date>.csv` is 24 characters long and is a daily name, never a monthly one |
| FileNames.MonthTag | ftch_dta.py:38 | `%B_%Y` ends with an underscore and four digits |
| FileNames.MonthlyFileName | ftch_dta.py:40 | `month_<tag>.csv` is ten characters longer than the tag and is a monthly name, never a daily one |
| FileNames.MonthTagRoundTrip | ftch_dta.py:38 | the month and the year can be parsed back out of `%B_%Y` |
| FileNames.MonthlyFileNameParses | ftch_dta.py:40 | the tag can be parsed back out of `month_<tag>.csv` |
| FileNames.DailyFileNameRoundTrip | ftch_dta.py:39 | the date can be parsed back out of `live_data_<ISO date>.csv` |
| FileNames.MonthlyFileNameRoundTrip | ftch_dta.py:38-40 | the month and year can be parsed back out of `month_<%B_%Y>.csv` |
| FileNames.DailyFileNameInjective | ftch_dta.py:39 | different days never share a daily file |
| FileNames.MonthlyFileNameInjective | ftch_dta.py:38-40 | different months, or the same month of different years, never share a monthly file |
| FileNames.DailyIsNotMonthly | ftch_dta.py:39-40 | a daily file name is never a monthly one, so the two appends of a pass write different files |
| FileNames.ScenarioDailyFileName | ftch_dta.py:39 | the daily file of 2024-01-05 is `live_data_2024-01-05.csv` |
| FileNames.ScenarioMonthTag | ftch_dta.py:38 | `%B_%Y` of a January 2024 instant is `January_2024` |
| Store.Fetch | ftch_dta.py:24-27 | `fetch_data(d)` returns no more rows than the table holds, every one of date d, with valid timestamps |
| Store.Delete | ftch_dta.py:81-82 | the DELETE of d keeps no more rows than the table held, none of date d, with valid timestamps |
| Store.FetchMembers | ftch_dta.py:24-27 | `fetch_data(d)` returns exactly the stored rows whose date is d |
| Store.DeleteMembers | ftch_dta.py:81-82 | the DELETE keeps exactly the stored rows of other dates |
| Store.FetchDeletePartition | ftch_dta.py:24-27 | as a multiset, the fetched rows and the rows the DELETE keeps together make up the table, with none lost or duplicated |
| Store.NothingLeftAfterDelete | ftch_dta.py:81-82 | after the DELETE of d, fetching d gives nothing |
| Store.DeleteWithoutMatches | ftch_dta.py:81-82 | when d has no rows, the DELETE leaves the table unchanged |
| Store.DeleteKeepsOthersInOrder | ftch_dta.py:81-82 | rows of other dates keep their relative order |
| Store.StoreOfOneDay | ftch_dta.py:24-27 | a table holding only rows of d is fetched whole and deleted whole |
| Partitions.LastId | ftch_dta.py:30-34 | `get_last_id` is 0 for a missing file; otherwise it is a value of the file's `id` column that no other value exceeds |
| Partitions.Batch | ftch_dta.py:59-69 | row i of the batch is fetched record i with its MJD, `id` last_daily + 1 + i, and `unique_id` last_monthly + 1 + i |
| Partitions.RunProperties | ftch_dta.py:68-69 | an id run ascends by one with no repeats, lies in [first, first + n), and has largest value first + n - 1 |
| Partitions.AppendBatch | ftch_dta.py:72-75 | a new file gets a header line and the rows; an existing file gets the rows at its end; no other file changes |
| Partitions.AppendExtends | ftch_dta.py:72-75 | the old contents stay as an unchanged prefix, exactly the batch's rows are added, and a header is written exactly when the file did not exist |
| Partitions.AppendWellFormed | ftch_dta.py:72-75 | appending a non-empty batch leaves every partition file readable: one header line and then data rows |
| Partitions.AppendTwiceWellFormed | ftch_dta.py:72-75 | appending one non-empty batch to two files in turn leaves every partition file readable |
| Partitions.LastIdAfterAppend | ftch_dta.py:68-72 | after appending a run that continues the file's ids, `get_last_id` of that file has grown by exactly the batch size |
| Partitions.AppendKeepsIdsIncreasing | ftch_dta.py:68-72 | a file whose ids strictly increase still has strictly increasing ids after the append |
| Driver.Start | ftch_dta.py:37-40 | start-up keeps the table and the directory, takes today's date, names the daily file after it and the monthly file after the `%B_%Y` of now, and leaves a state a pass can run on |
| Driver.Rollover | ftch_dta.py:45-50 | on the same day nothing changes; on a new day the date, the month tag and both file names are recomputed from the clock reads; the table and the files are untouched, and a healthy state stays healthy |
| Driver.Appended | ftch_dta.py:53-75 | the appends write only the two current files and change nothing else; with rows fetched, every partition file stays readable |
| Driver.DailyAppended | ftch_dta.py:53-72 | a pass stopped between the two appends has written only the daily file |
| Driver.Drain | ftch_dta.py:53-83 | the table ends as the DELETE of the current day leaves it, the keys and names are kept, and a pass that fetches nothing changes nothing |
| Driver.Cycle | ftch_dta.py:45-83 | one pass keeps every stored timestamp valid and every partition file readable, ends on today's date, and leaves the table as the DELETE of today leaves it |
| Driver.Drainer.constructor | ftch_dta.py:37-40 | start-up computes the current date, the month tag and both file names |
| Driver.Drainer.Tick | ftch_dta.py:45-83 | one pass of the loop moves the state exactly as `Cycle`, and it keeps the state healthy |
| Driver.RolloverHealthy | ftch_dta.py:45-50 | after the rollover check the file names are those of the current keys, and the daily name differs from the monthly one |
| Driver.CycleKeys | ftch_dta.py:45-50 | the pass always ends on today's date; the month tag and both names change only when the day changed, and they are then recomputed from the clock reads |
| Driver.CycleStore | ftch_dta.py:53-83 | the pass deletes today's rows and nothing else, no row of today remains, and the removed rows are exactly the fetched ones |
| Driver.CycleWithNothingFetched | ftch_dta.py:54 | a pass that fetches nothing changes neither the files nor the table |
| Driver.CycleOnlyAppends | ftch_dta.py:72-75 | only the two current files are written, and every existing file keeps its contents as a prefix |
| Driver.CycleAppendsBatch | ftch_dta.py:53-75 | both files gain the same n-row batch of the fetched records; its `id` run starts after `get_last_id` of the daily file, and its `unique_id` run starts after `get_last_id` of the monthly file, which reads that file's `id` column |
| Driver.CycleBatch | ftch_dta.py:55-69 | the batch holds the fetched records in order, numbered on from both files' last `id` |
| Driver.CycleFileContents | ftch_dta.py:72-75 | after the pass, each current file is its old contents (or a header) followed by the batch |
| Driver.TwoAppends | ftch_dta.py:72-75 | appending one batch to two different files gives each its own header, when new, followed by the batch |
| Driver.CycleDailyLastId | ftch_dta.py:55-72 | after a pass with n rows, `get_last_id` of the daily file has grown by exactly n |
| Driver.CycleHealthy | ftch_dta.py:45-83 | every pass keeps the state healthy; in particular, ids in every daily file strictly increase |
| Driver.CycleLeavesOtherDays | ftch_dta.py:45-50 | the file of any other day is never written |
| Driver.CycleLeavesOtherMonths | ftch_dta.py:45-50 | once a new day has begun, the file of any other month is never written |
| Driver.ThreeReadingsIntoEmptyDirectory | ftch_dta.py:53-83 | three readings of one day, drained into an empty directory, give two identical files with a header, ids 1-3 in both id columns and ascending MJDs, and leave the table empty |
| Driver.TwoDaysOfOneMonth | ftch_dta.py:45-83 | one reading on each of two days of one month: each daily file holds its reading with id 1, and the monthly file holds both |
| Driver.MonthlyUniqueIdRepeats | ftch_dta.py:55-69 | a second reading on the second day is written to the monthly file with `id` column 1, 1, 2 and `unique_id` column 1, 2, 2, so `unique_id` repeats |
| Driver.PassIntoEmptyDirectory | ftch_dta.py:53-83 | a pass with rows over an empty directory creates exactly the two files, each a header followed by the batch numbered from 1 |
| Driver.NewFileOfThreeRows | ftch_dta.py:59-72 | a new file of a three-row batch is a header and ids 1 to 3, with the records in order and ascending MJDs |
| Driver.BatchMjdsAscend | ftch_dta.py:65 | records in order and in different whole seconds get strictly ascending MJDs |
| Driver.RedeliveryAfterCrashBetweenAppends | ftch_dta.py:72-75 | a stop between the daily and the monthly append, followed by a restart on the same day, writes every reading twice to the daily file under one run of 2n ids and once to the monthly file, numbered on from its old last `id` |
| Driver.DailyOnlyCrashLeavesHealthyRestart | ftch_dta.py:72-75 | after that stop the daily file has grown by the batch, the monthly file is as it was, and the restart starts healthy on the same two files |
| Driver.RedeliveryAfterCrashBeforeDelete | ftch_dta.py:72-83 | a stop after the appends and before the DELETE, followed by a restart on the same day, appends every fetched reading a second time under one unbroken run of 2n ids |
| Sampler.Elapsed | arduinocode.cpp:45 | `currentTime - measureStartTime` in 32-bit unsigned arithmetic is the count that takes the start around the clock to now |
| Sampler.ElapsedAcrossWrap | arduinocode.cpp:41-45 | for instants less than 2^32 ms apart, the unsigned difference of their clock values is the true elapsed time, even across a wrap of `millis()` |
| Sampler.ChannelReading | arduinocode.cpp:46-52 | channels 0-3 read inputs 0-3 of the first converter, channels 4-7 inputs 0-3 of the second |
| Sampler.Initial | arduinocode.cpp:35-40 | after start-up the sketch is measuring, timed from the `millis()` read, with all eight slots at `INT16_MAX` |
| Sampler.Lowered | arduinocode.cpp:46-55 | after a measuring pass each slot is at most its old value and at most its channel's reading, and equals one of the two |
| Sampler.Voltage | arduinocode.cpp:68 | a posted voltage lies between 0 and 6144 mV |
| Sampler.VoltageInSixteenths | arduinocode.cpp:68 | the voltage is 3/16 of the absolute minimum; it is 0 exactly for a minimum of 0 or `INT16_MAX`, so a genuine 32767 reads as 0 |
| Sampler.Voltages | arduinocode.cpp:66-69 | the `for` loop over the array gives the voltage of each slot, in channel order |
| Sampler.Step | arduinocode.cpp:39-118 | one call of `loop()` keeps eight slots |
| Sampler.Sampler.Setup | arduinocode.cpp:35-40 | the state after start-up is all slots at `INT16_MAX`, measuring, timed from the `millis()` read |
| Sampler.Sampler.Loop | arduinocode.cpp:39-118 | the in-place pass over `minAdc` leaves the array, the phase and the timer exactly as `Step` describes, and returns the voltages when a send succeeded |
| Sampler.MeasuringEndsAfterWindow | arduinocode.cpp:45-60 | a measuring phase that began at true time t0 ends on the pass at t1 exactly when t1 - t0 is at least 50000 ms |
| Sampler.SendWaitsForPause | arduinocode.cpp:63-66 | once the server accepts, a send phase posts exactly when 10000 ms have passed since it began |
| Sampler.MeasuringPass | arduinocode.cpp:45-56 | a measuring pass within the window lowers each slot to the minimum of its value and its reading, posts nothing, and keeps the timer |
| Sampler.EndOfMeasuring | arduinocode.cpp:57-60 | the pass that ends measuring takes no reading, clears `measuring`, and restarts the timer at the current time |
| Sampler.PauseChangesNothing | arduinocode.cpp:63-64 | during the 10-second pause a pass changes nothing |
| Sampler.SuccessfulSend | arduinocode.cpp:66-110 | a successful send posts the voltages of the minima, resets every slot to `INT16_MAX`, and measures again from now |
| Sampler.FailedConnectRetries | arduinocode.cpp:111-115 | a failed connect keeps the minima, the phase and the timer, so the next pass tries to send again |
| Sampler.MeasuringKeepsMinimum | arduinocode.cpp:40-55 | through a measuring phase each slot is the minimum of its starting value and every reading of its channel since: no larger than any of them, and equal to one of them |
| Sampler.FullScaleReadsAsZero | arduinocode.cpp:40-68 | a channel whose every reading since the reset was 32767 reports 0, like a channel that never read |

## Left out

- MySQL connection, cursor, and `commit`: the table is an in-memory sequence. The order of rows is the order the SELECT returns, which SQL does not fix.
- pandas `read_csv` and `to_csv` text formatting, and the `DataFrame` columns: a file is a sequence of lines, and a data line is a record with the row's fields.
- `time.sleep(240)` and the log `print`: one pass of the loop is one call of `Tick`.
- Driver.Cycle: every pass is modelled as completing. The source has no `try`, so an exception from MySQL, from `to_csv`, or from `pd.to_datetime` ends the process. `pd.to_datetime` raises for timestamps outside 1677-09-21 to 2262-04-11, while the model's dates span years 1 to 9999. A stop between the two appends is modelled by `DailyAppended` and `RedeliveryAfterCrashBetweenAppends`, and a stop before the DELETE by `RedeliveryAfterCrashBeforeDelete`.
- Driver.Rollover: the two `date.today()` reads at lines 45 and 47 are one value `today`. They differ only when the clock passes midnight between the two lines; the source would then compare one date and store the next.
- Partitions.LastId: requires that an existing file has a header and at least one data row. On an empty or header-only file, pandas raises an error or returns NaN, which the source does not handle. `Drainer.Tick` keeps this as part of its invariant.
- Calendar.DatetimeToMjd: the result is an exact real, not the rounded Python `float`.
- Rows inserted by another process between the SELECT and the DELETE, and readers of the files while they are appended: both are concurrency.
- `%B` is the English month name of the C locale, and `%Y` is written as four digits. Python writes years below 1000 without padding; those dates are outside what the logger can meet.
- `appwithexacttime.py` (the dashboard) and `save_data.php` (the HTTP handler that inserts rows) are not part of this model.
- In `arduinocode.cpp`:
  - WiFi setup, building the HTTP request and draining the response (lines 73-101), `String(float)` formatting, `Serial` logging, `delay()`, and the ADS1115 driver calls are left out.
  - The readings and the outcome of `client.connect` are inputs of each pass.
  - `setup()` is modelled only through the initial state it leaves.
- Sampler.Step: its own contract states only that the eight slots are kept. The lemmas MeasuringPass, EndOfMeasuring, PauseChangesNothing, SuccessfulSend and FailedConnectRetries state what each branch does.
- Sampler.Voltage: a real number of millivolts. Every value is a multiple of 1/16 below 2^13, which a `float` holds exactly, so nothing is lost.
