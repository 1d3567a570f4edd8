# performance_info: the sampling and recording core in Dafny

This project models the two React hooks behind the performance page of the
performance_info Electron app.

- **The sampling hook** (`useSystemInfo`) polls the system every 1000 ms. It
  works out the memory usage in percent. It turns the cumulative network byte
  counters into a per-tick rate in MB. It gives each GPU controller a key
  (`model || vendor`) and a placeholder usage. It pushes every value onto a
  rolling history of at most 60 samples.
- **The recording hook** (`usePerformanceRecorder`) records one entry per change
  of its inputs while a session is running. It exports the session as a CSV
  text and a file name.

Modules:

- `History`: the 60-sample rolling history (`[...prev, v]`, then
  `slice(length - 60)`).
- `Network`: `_.sumBy` of the byte counters and the MB delta between two ticks.
- `Gpu`: `model || vendor`, the usages object (as an ordered list of entries),
  the `forEach` that fills it, and the per-key history update.
- `Monitor`: the hook's state as one record (`MonitorState`), the static load,
  and the tick `Tick`. The tick is a method from one state to the next. Its
  invariant `Valid` is preserved: caps, equal lengths, the network histories
  lagging one sample behind, and distinct GPU keys.
- `Format`: integer `toString`, `padStart(2, '0')`, `toFixed(2)`, `formatTime`
  and `formatNetworkSpeed`. Each comes with a parser and round-trip lemmas.
- `Text`: `join`, as the export uses it. The splitter `Split` has no
  counterpart in the source: it only serves to state how many lines and cells
  the CSV export has.
- `Recorder`: the record built by the effect, the CSV text and file name of
  `handleExport`, and the session class `Recorder` with its state
  `isRecording`, `performanceData` and `recordingStartTime`.
- `Wrappers`: `Option` and `Result`.

Numbers are exact reals. The memory percent is the one value that can be `NaN`
or `Infinity` (a zero total), so it is the datatype `Number`. Dates are the
local fields that a `Date` reports; the month is zero-based.

Three rules of the code are modelled as the code behaves:

- `model || vendor` has no further fallback. A controller with an empty model
  and an empty vendor gets the key `""`.
- `handleExport` has no guard on the recording state. It can run while
  recording, and on an empty session it fails (`performanceData[0]` is
  undefined).
- The network rate is not divided by the elapsed time. The difference between
  two ticks is scaled to MB and shown as MB/s because the interval is 1000 ms
  (src/renderer/pages/PerformancePage/hooks/useSystemInfo.ts:138).

## Model

| member | source | states |
|---|---|---|
| History.Push | src/renderer/pages/PerformancePage/hooks/useSystemInfo.ts:63-68 | a push never yields more than 60 samples; it grows the history by one until 60, then keeps the length at 60 |
| History.PushShape | src/renderer/pages/PerformancePage/hooks/useSystemInfo.ts:63-68 | a push yields the last min(60, n + 1) elements of prev + [v]: a plain append below 60, otherwise the oldest sample is dropped; the new sample is always last |
| History.PushAllKeepsMostRecent | src/renderer/pages/PerformancePage/hooks/useSystemInfo.ts:99-104 | after any number of pushes, a history that started within the cap holds exactly the most recent 60 of all samples it was given, in arrival order |
| History.FromEmpty | src/renderer/pages/PerformancePage/hooks/useSystemInfo.ts:22 | a series that starts as `[]` holds all of its n samples while n < 60, and the last 60 after that |
| Network.SumBytes | src/renderer/pages/PerformancePage/hooks/useSystemInfo.ts:71-74 | `_.sumBy` is at least the counter of each interface it sums; see `Network.SumBytesAppend` |
| Network.DeltaMB | src/renderer/pages/PerformancePage/hooks/useSystemInfo.ts:71-81 | the rate times 1024 * 1024 is the summed counter now minus the summed counter of the previous snapshot; it is negative exactly when the counter went down (no clamping) and zero exactly when it did not move |
| Network.SumBytesAppend | src/renderer/pages/PerformancePage/hooks/useSystemInfo.ts:71-74 | `_.sumBy` over a list of interfaces is the sum over its parts |
| Network.DeltaSplit | src/renderer/pages/PerformancePage/hooks/useSystemInfo.ts:71-77 | the rate is additive over groups of interfaces: an interface that appears adds its whole counter, and one that disappears subtracts it |
| Gpu.Key | src/renderer/pages/PerformancePage/hooks/useSystemInfo.ts:109 | the key is the model, or the vendor when the model is empty. It is empty exactly when both are empty |
| Gpu.Assign | src/renderer/pages/PerformancePage/hooks/useSystemInfo.ts:110 | after `newUsages[key] = v` the entry (key, v) is present and the object grew by at most one entry; see `Gpu.AssignSpec` for the rest |
| Gpu.IndexOf | src/renderer/pages/PerformancePage/hooks/useSystemInfo.ts:110 | the lookup behind `newUsages[key]`: the first entry with the key, or none |
| Gpu.LookupAbsent | src/renderer/pages/PerformancePage/hooks/useSystemInfo.ts:117 | reading a key finds nothing exactly when the key was never assigned |
| Gpu.AssignSpec | src/renderer/pages/PerformancePage/hooks/useSystemInfo.ts:110 | after `newUsages[key] = v`, the key maps to v. Every other key keeps its value. Keys stay distinct. Existing keys keep their places, and a new key is added last |
| Gpu.UsagesOf | src/renderer/pages/PerformancePage/hooks/useSystemInfo.ts:107-111 | no more entries than controllers, and the last controller's key holds the last draw; see `Gpu.UsagesOfKeys` and `Gpu.UsagesOfLastWins` |
| Gpu.CollectUsages | src/renderer/pages/PerformancePage/hooks/useSystemInfo.ts:107-111 | the `forEach` loop fills the usages object controller by controller, as `UsagesOf` describes |
| Gpu.UsagesOfKeys | src/renderer/pages/PerformancePage/hooks/useSystemInfo.ts:108-111 | the usages have one entry per distinct key, and a key is present exactly when some controller resolves to it via `model || vendor` |
| Gpu.UsagesOfLastWins | src/renderer/pages/PerformancePage/hooks/useSystemInfo.ts:108-111 | when controllers share a key, the later controller's draw is the value kept |
| Gpu.SameVendorCollides | src/renderer/pages/PerformancePage/hooks/useSystemInfo.ts:109 | two controllers with an empty model and the same vendor collapse into one entry holding the second draw |
| Gpu.UpdatedSpec | src/renderer/pages/PerformancePage/hooks/useSystemInfo.ts:114-128 | handling the keys in order pushes each key's usage onto its history (a new key starts as `[usage]`). Keys not seen this tick keep their histories. The key set is the old keys plus the keys seen |
| Gpu.UpdatedStaysCapped | src/renderer/pages/PerformancePage/hooks/useSystemInfo.ts:121-125 | after the update no per-key history exceeds 60 samples |
| Gpu.UpdateHistories | src/renderer/pages/PerformancePage/hooks/useSystemInfo.ts:114-128 | the `forEach` over `Object.keys(newUsages)` produces exactly the update `HistoriesUpdated` describes |
| Monitor.MemUsagePercent | src/renderer/pages/PerformancePage/hooks/useSystemInfo.ts:60 | usage times total equals 100 times used, and it lies in [0, 100] when used <= total. A zero total gives NaN (nothing used) or Infinity |
| Monitor.NetworkLagStep | src/renderer/pages/PerformancePage/hooks/useSystemInfo.ts:83-104 | pushing one sample onto the CPU history and one onto a network history keeps the network history one sample behind until both are full, as on every tick after the first |
| Monitor.Initial | src/renderer/pages/PerformancePage/hooks/useSystemInfo.ts:6-37 | the initial state is loading, has no previous network snapshot, and satisfies the tick invariant |
| Monitor.LoadStatic | src/renderer/pages/PerformancePage/hooks/useSystemInfo.ts:40-51 | the CPU and graphics facts are stored only when both calls succeed. Loading ends either way, nothing else changes, and the invariant is kept |
| Monitor.Tick | src/renderer/pages/PerformancePage/hooks/useSystemInfo.ts:53-135 | a failing fetch leaves the whole state unchanged. Otherwise every field gets its new value: memory and CPU pushed, network rates pushed only if a previous snapshot existed, GPU usages and histories only if the graphics facts are known, and the snapshot kept for the next tick. The invariant is kept |
| Monitor.SampleMemory | src/renderer/pages/PerformancePage/hooks/useSystemInfo.ts:60-68 | the memory facts, the percent and its history change; nothing else does |
| Monitor.SampleNetwork | src/renderer/pages/PerformancePage/hooks/useSystemInfo.ts:70-97 | without a previous snapshot only the snapshot shown changes. With one, the speed and both rate histories get the MB deltas as well |
| Monitor.SampleCpu | src/renderer/pages/PerformancePage/hooks/useSystemInfo.ts:98-104 | the CPU load and its history change; nothing else does |
| Monitor.SampleGpu | src/renderer/pages/PerformancePage/hooks/useSystemInfo.ts:106-129 | without graphics facts nothing changes. With them, the usages are replaced by the collected ones (distinct keys), the histories are updated as `HistoriesUpdated` says, and they stay capped |
| Format.IntToString | src/renderer/pages/PerformancePage/hooks/usePerformanceRecorder.ts:26 | `getFullYear()` in a template: at least one character, a leading '-' exactly for a negative year, digits only otherwise |
| Format.TwoDigits | src/renderer/pages/PerformancePage/hooks/usePerformanceRecorder.ts:26-37 | `toString().padStart(2, '0')`: at least two characters, all digits; see `Format.TwoDigitsRoundTrip` |
| Format.DigitChar | src/renderer/pages/PerformancePage/hooks/usePerformanceRecorder.ts:26-37 | the character for a digit is a digit and reads back as that digit |
| Format.NatToString | src/renderer/pages/PerformancePage/hooks/usePerformanceRecorder.ts:26-37 | `toString` of an integer is a non-empty string of digits, with a leading zero only for 0 |
| Format.ParseNatToString | src/renderer/pages/PerformancePage/hooks/usePerformanceRecorder.ts:26-37 | the decimal digits of n read back as n |
| Format.PadStart2 | src/renderer/pages/PerformancePage/hooks/usePerformanceRecorder.ts:26-37 | `padStart(2, '0')` keeps the string as its suffix, adds only zeros, and gives length 2 or leaves a longer string untouched |
| Format.TwoDigitsRoundTrip | src/renderer/pages/PerformancePage/hooks/usePerformanceRecorder.ts:26-37 | a field below 100 is shown as exactly two digits that read back as the field |
| Format.TwoDigitsWide | src/renderer/pages/PerformancePage/hooks/usePerformanceRecorder.ts:26-37 | a field of 100 or more is not truncated |
| Format.FormatTimeRoundTrip | src/renderer/pages/PerformancePage/hooks/usePerformanceRecorder.ts:25-38 | for a valid date with a four-digit year, `formatTime` is 19 characters long in the `YYYY-MM-DD HH-MM-SS` layout and reads back as the same date (the month shown one-based) |
| Format.FormatTime | src/renderer/pages/PerformancePage/hooks/usePerformanceRecorder.ts:25-38 | a formatted time is at least 16 characters long and holds no comma and no line break; see `Format.FormatTimeRoundTrip` |
| Format.Hundredths | src/renderer/pages/PerformancePage/hooks/usePerformanceRecorder.ts:58 | the value `toFixed(2)` shows is within half a hundredth of x, with ties away from zero and the sign of x |
| Format.ToFixed2 | src/renderer/pages/PerformancePage/hooks/usePerformanceRecorder.ts:58 | a number shown to two decimals holds no comma and no line break |
| Format.NumberToFixed2 | src/renderer/pages/PerformancePage/hooks/usePerformanceRecorder.ts:58 | the same holds for `NaN` and `Infinity`, which print as words |
| Format.FixedDigitsRoundTrip | src/renderer/pages/PerformancePage/hooks/usePerformanceRecorder.ts:58 | digits, a point and two decimals read back as the count of hundredths |
| Format.ToFixed2RoundTrip | src/renderer/pages/PerformancePage/hooks/usePerformanceRecorder.ts:58 | `toFixed(2)` reads back as the rounded value in hundredths, sign included |
| Format.FormatNetworkSpeed | src/renderer/pages/PerformancePage/hooks/usePerformanceRecorder.ts:17-22 | a formatted speed holds no comma and no line break |
| Format.NetworkSpeedUnit | src/renderer/pages/PerformancePage/hooks/usePerformanceRecorder.ts:17-22 | the text ends in " KB/s" exactly when the speed is below 1 MB/s, and then shows the speed times 1024. Otherwise it ends in " MB/s" and shows the speed. Both are shown to two decimals |
| Text.Join | src/renderer/pages/PerformancePage/hooks/usePerformanceRecorder.ts:60-62 | one part joins to itself; two or more parts give a text that starts with the first part followed by the separator |
| Text.SplitJoin | src/renderer/pages/PerformancePage/hooks/usePerformanceRecorder.ts:60-62 | parts without the separator, once joined, split back into the same parts |
| Text.JoinAvoids | src/renderer/pages/PerformancePage/hooks/usePerformanceRecorder.ts:60-62 | joining parts that avoid a character (other than the separator) gives a text that avoids it |
| Recorder.MakeRecord | src/renderer/pages/PerformancePage/hooks/usePerformanceRecorder.ts:77-87 | the record has the GPU count plus five fields, the GPU fields sitting after the three leading ones; see `Recorder.RecordLayout` |
| Recorder.FieldNames | src/renderer/pages/PerformancePage/hooks/usePerformanceRecorder.ts:48 | `Object.keys` of a record: the GPU count plus five names, from `timestamp` to `networkTxSpeed` |
| Recorder.Cells | src/renderer/pages/PerformancePage/hooks/usePerformanceRecorder.ts:50-59 | `Object.values` of the formatted row: the GPU count plus five cells; see `Recorder.CellsSafe` |
| Recorder.RecordLayout | src/renderer/pages/PerformancePage/hooks/usePerformanceRecorder.ts:77-87 | a record has the fields `timestamp`, `cpuUsage`, `memUsage`, one `gpu_<key>_usage` per key in key order, `networkRxSpeed` and `networkTxSpeed`. The cell at each position is that field's formatted value |
| Recorder.GpuFieldInjective | src/renderer/pages/PerformancePage/hooks/usePerformanceRecorder.ts:82 | distinct GPU keys give distinct `gpu_<key>_usage` fields |
| Recorder.FieldNamesDistinct | src/renderer/pages/PerformancePage/hooks/usePerformanceRecorder.ts:77-87 | with distinct GPU keys all field names of a record are distinct, so the object spread loses no field |
| Recorder.CellsSafe | src/renderer/pages/PerformancePage/hooks/usePerformanceRecorder.ts:50-59 | every formatted value of a row holds no comma and no line break |
| Recorder.RowCells | src/renderer/pages/PerformancePage/hooks/usePerformanceRecorder.ts:49-60 | a data row splits at its commas into exactly the record's cells, as many as there are header fields |
| Recorder.FieldNamesAvoid | src/renderer/pages/PerformancePage/hooks/usePerformanceRecorder.ts:48 | a field name holds a comma or a line break only if its GPU key does |
| Recorder.HeaderFields | src/renderer/pages/PerformancePage/hooks/usePerformanceRecorder.ts:48 | the header splits back into the first record's field names when no GPU key holds a comma |
| Recorder.Csv | src/renderer/pages/PerformancePage/hooks/usePerformanceRecorder.ts:47-62 | the export fails exactly when there are no records |
| Recorder.LinesAvoidBreak | src/renderer/pages/PerformancePage/hooks/usePerformanceRecorder.ts:47-62 | no line of the body holds a line break of its own when the first record's GPU keys hold none |
| Recorder.CsvLines | src/renderer/pages/PerformancePage/hooks/usePerformanceRecorder.ts:47-62 | n records give exactly n + 1 lines: the first record's header, then each record's row in order |
| Recorder.DeviceName | src/renderer/pages/PerformancePage/hooks/usePerformanceRecorder.ts:42-44 | `UnknownDevice` without CPU facts; the name holds a space exactly when the CPU facts are known |
| Recorder.FileName | src/renderer/pages/PerformancePage/hooks/usePerformanceRecorder.ts:40-45 | the name ends in `-performance.csv`, is at least 35 characters long, and starts with the start time when there is one; see `Recorder.FileNameLayout` |
| Recorder.Export | src/renderer/pages/PerformancePage/hooks/usePerformanceRecorder.ts:40-62 | the export fails exactly for an empty session; otherwise it carries the body of `Csv` and the name of `FileName` |
| Recorder.FileNameLayout | src/renderer/pages/PerformancePage/hooks/usePerformanceRecorder.ts:40-45 | the file name is: the start time (or nothing), '-', the end time, '-', the device name (`UnknownDevice` without CPU facts), then `-performance.csv`. Both times read back |
| Recorder.ExportBodyOnlyFromRecords | src/renderer/pages/PerformancePage/hooks/usePerformanceRecorder.ts:24-62 | the export succeeds exactly for a non-empty session, and its body depends on the records alone, not on the clock, the start time or the device |
| Recorder.Recorder.constructor | src/renderer/pages/PerformancePage/hooks/usePerformanceRecorder.ts:11-15 | a new session is not recording and has no records and no start time |
| Recorder.Recorder.StartRecording | src/renderer/pages/PerformancePage/hooks/usePerformanceRecorder.ts:92-96 | recording starts now with no records. There is no guard, so a second start discards the records so far |
| Recorder.Recorder.StopRecording | src/renderer/pages/PerformancePage/hooks/usePerformanceRecorder.ts:98-100 | only the flag is cleared; the records and the start time stay |
| Recorder.Recorder.OnTrigger | src/renderer/pages/PerformancePage/hooks/usePerformanceRecorder.ts:75-90 | while recording, exactly one record built from the current inputs is appended at the end; otherwise nothing changes. Every record keeps distinct GPU keys |
| Recorder.Recorder.HandleExport | src/renderer/pages/PerformancePage/hooks/usePerformanceRecorder.ts:24-73 | the export changes nothing in the session and returns the file name and body of `Export` for its records, start time, the current time and the CPU facts. It succeeds exactly when there are records, and while recording the file name starts with the start time |

## Left out

- I/O and the IPC bridge: the fetches (`getMemInfo`, `getNetworkInfo`, `getCpuCurrentLoad`, `getCpuSpeed`, `getCpuInfo`, `getGraphicsInfo`) are inputs, and a rejected call is `None`. src/main/preload.ts is not part of this model. It exposes no `getCpuSpeed`, so as shipped the speed fetch would always fail, and since a tick stores nothing unless every fetch succeeds (`Monitor.Tick`), no tick would ever change the state.
- Timers, `await` ordering and React scheduling (`setInterval`, the functional state setters, effect re-runs) are left out. One tick and one trigger of the record effect are each one synchronous call. The `[gpuInfo]` dependency re-runs `getStaticInfo` and restarts the interval whenever the graphics facts change. That is scheduling and is not modelled. Two consequences, read from the code and not executed: each static load stores a new graphics object, so the effect re-runs after every load and clears the running interval; if the loads finish in under 1000 ms, no tick ever fires.
- `Math.random()` as the GPU usage: `draw(j)` is the j-th controller's draw, a parameter.
- Floating point: values are exact reals with no IEEE-754 rounding. `toFixed` of magnitudes of 10^21 or more (exponential form) is not modelled.
- `Date`, `toISOString`, time zones:
  - a date is the local fields it reports;
  - a record's timestamp is that date, so the ISO-string round trip through `new Date(row.timestamp)` is not modelled;
  - `Recorder.FileNameLayout` and `Format.FormatTimeRoundTrip` read times back only for four-digit years.
- The usages object is an ordered list of entries in insertion order. The engine's rule of listing integer-like keys first is not modelled. The per-key histories (`gpuUsageHistories`) are a Dafny `map`, which has no order; nothing in the core reads the order of that object.
- The CSV is not escaped in the source. `Recorder.HeaderFields` and `Recorder.CsvLines` assume GPU keys without commas or line breaks. A record whose keys differ from the first record's (another GPU set) still gets a row, and its cells then do not line up with the header. That is stated only through `Recorder.RecordLayout`.
- The Blob, the anchor element and the download click of `handleExport`. `Download` holds the file name and body it would save.
- Monitor.Tick: the hook's state is one immutable record that each setter replaces, not a class updated in place. The model therefore does not capture the aliasing or interleaving of separate state cells.
- Gpu.UpdateHistories and Gpu.UpdatedSpec require distinct keys, which every object key list has by construction.
- Rendering (index.tsx, Performance.tsx, RealTimeChart.tsx) and routing (App.tsx) are not modelled. The recorder hook is not wired into any page, so its inputs are parameters.
