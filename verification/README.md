# Real-time system monitor: sampling, history window and process table

This project models the sequential logic of a system-performance dashboard.
A background loop samples the host once per second. It turns the cumulative
network byte counters into a throughput figure. It appends cpu, ram, disk,
swap ("memory"), network and a time label to six parallel series, and it
evicts the oldest entry of every series once the cpu series exceeds 50
entries. On every refresh the dashboard shows the latest value of four
series (0 while a series is empty). It also builds a process table: every
process read that raises is skipped, and each surviving process gets derived
disk, description and architecture columns. The rows are stably sorted by
cpu usage, highest first, and cut to 20.

Modules:

- `RollingWindow` (`rolling_window.dfy`): the `History` record of six
  sequences, `Tick`, and the reference `Window` (the last 50 values).
- `NetworkRate` (`network_rate.dfy`): the previous-counters state machine
  `Measure`, its fold `Replay`, and the reference `Rates`, where each rate
  depends only on the previous and current reading.
- `Sampling` (`sampling.dfy`): one iteration of the sampling loop (`Step`),
  its fold `Run`, and the loop as a method (`Monitor`).
- `ProcessRanking` (`process_ranking.dfy`): per-process derivation, failure
  skipping, the stable descending sort and the top-20 cut.
- `Dashboard` (`dashboard.dfy`): the latest-or-zero gauge reads.
- `Numbers` (`numbers.dfy`): `Min`.

Host calls are parameters. The psutil readings of one iteration are a
`Reading`. The network counters are a `Counters` pair. The clock label from
`time.strftime` is a string inside the `Reading`. Each enumerated process is a
`ProcessRead`: either the attributes that were read, or the exception that was
caught. `os.path.exists` and `platform.architecture` are the two functions of
a `Host` value.

## Behaviour as written

The model follows app.py where a cleaner design might differ:

- Outside the (0, 0) branch nothing clamps the throughput: a drop in sent
  plus received bytes yields a negative rate
  (`NetworkRate.RateNegativeIffTotalDrops`).
- The zero-throughput branch is taken whenever the remembered counters are
  both 0. That includes the first tick, and also any tick that follows a
  reading of (0, 0).
- The architecture fallback is the string `"Unknown"` (capital U).
- A failed metric read is not replaced by the last known value. The psutil
  calls of the sampling loop (app.py:63-70) are outside any `try`. An
  exception there ends the background thread, and from then on the history
  never changes again. The model does not include this early exit (see
  "## Left out").
- Only the cpu series is consulted for eviction. The series stay aligned
  because every tick appends to all six.

## Model

| member | source | states |
|---|---|---|
| RollingWindow.Tick | app.py:82-91 | a tick keeps the six series of equal length and never lets the cpu series exceed 50; from a well-formed history the length becomes min(old + 1, 50); the last element of every series is the value just appended |
| RollingWindow.TickEvictsOldest | app.py:89-91 | at capacity a tick removes exactly the oldest entry of every series and appends the new one; below capacity it only appends |
| RollingWindow.Record | app.py:82-91 | appending k samples to the empty history, one tick each, leaves aligned series of min(k, 50) values whose last cpu value is the last sample's |
| RollingWindow.RecordKeepsLastWindow | app.py:82-91 | after k ticks from the empty history every series equals the last min(k, 50) values appended to it, in order, and the history is well formed |
| NetworkRate.Measure | app.py:72-78 | previous counters (0, 0) give rate 0 whatever the current reading; otherwise rate x 1024 equals the growth of sent plus received bytes; the rate is non-negative when neither counter decreased; the remembered pair becomes the current reading |
| NetworkRate.RateNegativeIffTotalDrops | app.py:72-76 | outside the (0, 0) branch, the rate is negative exactly when sent plus received bytes dropped since the previous reading |
| NetworkRate.Replay | app.py:61-78 | the state machine run from (0, 0) reports one rate per reading, reports 0 on the first tick, and ends remembering the last reading |
| NetworkRate.ReplayMatchesRates | app.py:61-78 | running the state machine from (0, 0) reports, at each tick, 0 for the first tick or after a (0, 0) reading, and otherwise the delta between the previous and current reading; it ends remembering the last reading |
| NetworkRate.RatesTelescope | app.py:72-78 | when no reading before the last is (0, 0), the reported rates add up to the total counter growth between first and last reading, divided by 1024 |
| Sampling.Step | app.py:63-91 | one loop iteration remembers the current counters, keeps the history well formed with min(old + 1, 50) entries, and appends the reading's cpu, ram, disk, swap and time label and the computed rate (0 when the remembered counters were (0, 0)) |
| Sampling.Run | app.py:62-91 | after k iterations the six series are aligned and hold min(k, 50) values, and the remembered counters are the last reading's (or (0, 0) before the first) |
| Sampling.RunRecordsSamples | app.py:60-91 | the loop appends exactly the reading's figures with the reference throughput, and remembers the last reading's counters |
| Sampling.RunKeepsWindows | app.py:60-91 | after any number of iterations the history is the window of everything appended; the network series is the window of the reference rates |
| Sampling.Monitor | app.py:60-93 | the sampling loop over a finite run of readings ends with a well-formed history of min(k, 50) entries per series, equal to the last-50 window of the appended samples, and with the last reading's counters remembered |
| ProcessRanking.Contains | app.py:109 | the substring test holds exactly when the pattern occurs at some position of the string |
| ProcessRanking.HasPath | app.py:107 | the path counts as given exactly when it is present and non-empty (Python truthiness of `exe_path`, also used at app.py:119) |
| ProcessRanking.DiskMegabytes | app.py:103-104 | no I/O counters gives 0; otherwise megabytes x 1048576 equals read plus written bytes; never negative |
| ProcessRanking.Architecture | app.py:105-109 | "Unknown" exactly when the path is absent or empty or does not exist; otherwise "x64" exactly when the probed bitness contains "64", else "x86" |
| ProcessRanking.Derive | app.py:103-121 | pid, name, cpu, memory, status and user are carried over; disk is the megabyte figure of `DiskMegabytes` (0 without I/O counters); description is the path, or "N/A" without one; architecture is the case split of `Architecture` (Unknown without an existing path, else x64/x86 from the probe) |
| ProcessRanking.Kept | app.py:100-123 | the kept rows are no more than the processes enumerated, and each row is derived from a process whose read succeeded |
| ProcessRanking.KeptAppend | app.py:101-123 | the rows of two enumerations in sequence are the rows of the first followed by those of the second |
| ProcessRanking.KeptCount | app.py:101-123 | there is exactly one row per process whose read succeeded: failed reads add none |
| ProcessRanking.KeptWithoutFailures | app.py:101-121 | when no read fails there is one row per process, in enumeration order, each derived from its process |
| ProcessRanking.FailureIsSkipped | app.py:122-123 | inserting a failing process anywhere in the enumeration leaves the kept rows, and their order, unchanged |
| ProcessRanking.Insert | app.py:124 | inserting a row adds exactly that row (as a multiset) and keeps a descending sequence descending |
| ProcessRanking.SortByCpu | app.py:124 | the sort is a permutation of its input and is descending by cpu |
| ProcessRanking.SortIsStable | app.py:124 | for every cpu value, the rows with that value appear in the sorted output in enumeration order |
| ProcessRanking.Rank | app.py:124-125 | the table has min(20, rows) entries, is descending, is a prefix of the stable sort, is a sub-multiset of the rows, and no row left out has higher cpu than a row shown |
| ProcessRanking.RankIsStable | app.py:124-125 | rows of equal cpu in the table are a prefix of the rows with that cpu in enumeration order |
| ProcessRanking.TopProcesses | app.py:99-125 | the table has min(20, successful reads) entries, is descending, is a prefix of the stable sort of the kept rows, and every row comes from a process whose read succeeded |
| ProcessRanking.TopIgnoresFailure | app.py:101-125 | a failing process anywhere in the enumeration does not change the table |
| Dashboard.ReadGauges | app.py:144-147 | on an aligned history the four gauges all come from the same tick: the last element of each series, or all 0 when the history is empty |
| Dashboard.LatestOrZero | app.py:144-147 | an empty series reads as 0; otherwise the read is the series' last element |
| Dashboard.GaugesFollowTick | app.py:144-147 | right after a tick on an aligned history the gauges read exactly the values the tick appended |
| Dashboard.GaugesShowLastReading | app.py:144-147 | before any iteration all gauges read 0; afterwards they read the last reading's cpu, ram and disk and the last reference throughput |

## Left out

- Dash layout, callback wiring and figure construction (app.py:12-54, app.py:128-164): presentation only. The figures plot the stored series unchanged.
- The background thread, `time.sleep(1)` and the daemon start (app.py:93-96): the loop is modelled over a finite run of readings (`Sampling.Monitor`). Interleaving with the refresh callback is not modelled; app.py does no locking.
- psutil readings, `os.path.exists`, `platform.architecture` and `time.strftime`: foreign calls, taken as inputs (`Reading`, `ProcessRead`, `Host`).
- Floating-point percentages and `round(..., 2)`: values are exact reals. The table's sort key is the exact cpu figure, so two figures that only coincide after rounding are not treated as a tie.
- Which attributes make psutil raise for a process: an enumerated process is either its attributes or one caught exception (`ProcessRead`). An attribute psutil cannot read is stored as `None`; the model has that for the I/O counters and the executable path only.
- ProcessRanking.TopProcesses: does not model a `None` cpu or memory percentage. In app.py:114-115 `round(None, 2)` would raise `TypeError`, which the except clause at app.py:122 does not catch, so the whole table would fail. The model takes both percentages as always present, so `TopProcesses` is total where the source would abort.
- Graceful shutdown, counter-regression-to-zero and last-known-value substitution: app.py does not implement them.
- ProcessRanking.Kept: its contract bounds the row count by the enumeration length; the exact count is stated by `KeptCount`, and the per-row correspondence by `KeptWithoutFailures`, `KeptAppend` and `FailureIsSkipped`.
- Sampling.Monitor: does not model a failing host call in the sampling loop. In app.py:63-70 an exception from any psutil call, or an `AttributeError` at app.py:69 when `net_io_counters()` returns `None`, escapes `update_metrics` (app.py:60-93). That ends the daemon thread, so the history and the gauges stay frozen from then on. `Sampling.Run` and `Sampling.Monitor` always consume every reading.
