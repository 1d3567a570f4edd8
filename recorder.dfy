/**
 * The recording session of the performance page (usePerformanceRecorder.ts):
 * start and stop, one record per trigger while recording, and the CSV export
 * with its file name.
 */
module Recorder {
  import opened Wrappers
  import opened Format
  import opened Text
  import Gpu
  import Monitor

  /**
   * One entry of `performanceData`. Its fields, in order, are `timestamp`,
   * `cpuUsage`, `memUsage`, one `gpu_<key>_usage` per GPU key in the order of
   * the usages object, `networkRxSpeed` and `networkTxSpeed`.
   */
  datatype Record = Record(timestamp: DateTime, cpuUsage: real, memUsage: Number, gpuUsages: Gpu.Usages,
                           networkRxSpeed: real, networkTxSpeed: real)

  /** The record the effect builds from the hook's current inputs (usePerformanceRecorder.ts:77-87). */
  function MakeRecord(now: DateTime, cpuUsage: real, memUsage: Number, gpuUsages: Gpu.Usages,
                      networkSpeed: Monitor.NetworkSpeed): (rec: Record)
    ensures |FieldNames(rec)| == |gpuUsages| + 5 && FieldNames(rec)[3..|gpuUsages| + 3] == GpuFieldNames(gpuUsages)
  {
    Record(now, cpuUsage, memUsage, gpuUsages, networkSpeed.rxSec, networkSpeed.txSec)
  }

  function GpuField(key: string): string
  {
    "gpu_" + key + "_usage"
  }

  /** `Object.keys(record)`. */
  function FieldNames(r: Record): (names: seq<string>)
    ensures |names| == |r.gpuUsages| + 5
    ensures names[0] == "timestamp" && names[|names| - 1] == "networkTxSpeed"
  {
    ["timestamp", "cpuUsage", "memUsage"] + GpuFieldNames(r.gpuUsages) + ["networkRxSpeed", "networkTxSpeed"]
  }

  /** The fields the reduce over `Object.keys(gpuUsages)` adds, in key order. */
  function GpuFieldNames(u: Gpu.Usages): (names: seq<string>)
    ensures |names| == |u| && forall i :: 0 <= i < |u| ==> names[i] == GpuField(u[i].0)
  {
    seq(|u|, i requires 0 <= i < |u| => GpuField(u[i].0))
  }

  /**
   * `Object.values(formattedRow)` with numbers shown by `toFixed(2)`: the
   * timestamp by formatTime, the two network speeds by formatNetworkSpeed.
   */
  function Cells(r: Record): (cells: seq<string>)
    ensures |cells| == |r.gpuUsages| + 5
  {
    [FormatTime(r.timestamp), ToFixed2(r.cpuUsage), NumberToFixed2(r.memUsage)]
    + GpuCells(r.gpuUsages)
    + [FormatNetworkSpeed(r.networkRxSpeed), FormatNetworkSpeed(r.networkTxSpeed)]
  }

  /** The GPU usages shown to two decimals, in key order. */
  function GpuCells(u: Gpu.Usages): (cells: seq<string>)
    ensures |cells| == |u| && forall i :: 0 <= i < |u| ==> cells[i] == ToFixed2(u[i].1)
  {
    seq(|u|, i requires 0 <= i < |u| => ToFixed2(u[i].1))
  }

  /** The header line: the first record's keys joined by commas. */
  function Header(r: Record): string
  {
    Join(FieldNames(r), ',')
  }

  /** One data line: the record's formatted values joined by commas. */
  function Row(r: Record): string
  {
    Join(Cells(r), ',')
  }

  function Lines(records: seq<Record>): seq<string>
    requires |records| > 0
  {
    [Header(records[0])] + seq(|records|, i requires 0 <= i < |records| => Row(records[i]))
  }

  /** Export of an empty session: `performanceData[0]` is undefined and `Object.keys` throws. */
  datatype ExportError = EmptyExport

  /** `csvContent`: the header and one row per record, joined by line breaks. */
  function Csv(records: seq<Record>): (r: Result<string, ExportError>)
    ensures r.Failure? <==> records == []
  {
    if |records| == 0 then Failure(EmptyExport) else Success(Join(Lines(records), '\n'))
  }

  /** `${manufacturer} ${brand}`, or `UnknownDevice` without CPU facts. */
  function DeviceName(cpu: Option<Monitor.CpuInfo>): (n: string)
    ensures cpu.None? ==> n == "UnknownDevice"
    ensures ' ' in n <==> cpu.Some?
  {
    match cpu
    case Some(c) => c.manufacturer + " " + c.brand
    case None => "UnknownDevice"
  }

  /** `${startTime}-${endTime}-${deviceName}-performance.csv`; no start time gives "". */
  function FileName(start: Option<DateTime>, end: DateTime, cpu: Option<Monitor.CpuInfo>): (n: string)
    ensures |n| >= 35 && n[|n| - 16..] == "-performance.csv"
    ensures start.Some? ==> FormatTime(start.value) <= n
  {
    (if start.Some? then FormatTime(start.value) else "") + "-" + FormatTime(end) + "-" + DeviceName(cpu) + "-performance.csv"
  }

  /** What the download would hold. */
  datatype Download = Download(fileName: string, csv: string)

  /** `handleExport` up to the download itself: the file name and body, or the failure. */
  function Export(records: seq<Record>, start: Option<DateTime>, now: DateTime, cpu: Option<Monitor.CpuInfo>)
    : (r: Result<Download, ExportError>)
    ensures r.Failure? <==> records == []
    ensures r.Success? ==> r.value.csv == Csv(records).value && r.value.fileName == FileName(start, now, cpu)
  {
    match Csv(records)
    case Failure(e) => Failure(e)
    case Success(csv) => Success(Download(FileName(start, now, cpu), csv))
  }

  // ---------------------------------------------------------------------------
  // The shape of the export

  /**
   * Header and rows line up: a record has its three leading fields, one field
   * per GPU key and two network fields, and the cell at each position is the
   * formatted value of the field at that position.
   */
  lemma RecordLayout(r: Record)
    ensures |FieldNames(r)| == |Cells(r)| == |r.gpuUsages| + 5
    ensures FieldNames(r)[..3] == ["timestamp", "cpuUsage", "memUsage"]
    ensures FieldNames(r)[|r.gpuUsages| + 3..] == ["networkRxSpeed", "networkTxSpeed"]
    ensures Cells(r)[..3] == [FormatTime(r.timestamp), ToFixed2(r.cpuUsage), NumberToFixed2(r.memUsage)]
    ensures Cells(r)[|r.gpuUsages| + 3..] == [FormatNetworkSpeed(r.networkRxSpeed), FormatNetworkSpeed(r.networkTxSpeed)]
    ensures forall i :: 0 <= i < |r.gpuUsages| ==>
      FieldNames(r)[3 + i] == GpuField(r.gpuUsages[i].0) && Cells(r)[3 + i] == ToFixed2(r.gpuUsages[i].1)
  {
    FieldNamesLayout(r);
    CellsLayout(r);
  }

  /** Three leading elements, a middle part and two trailing ones. */
  lemma Layout<T>(front: seq<T>, mid: seq<T>, back: seq<T>)
    requires |front| == 3 && |back| == 2
    ensures var s := front + mid + back;
      |s| == |mid| + 5 && s[..3] == front && s[|mid| + 3..] == back
      && forall i :: 0 <= i < |mid| ==> s[3 + i] == mid[i]
  {
    var s := front + mid + back;
    assert s[..3] == front;
    assert s[|mid| + 3..] == back;
  }

  lemma FieldNamesLayout(r: Record)
    ensures |FieldNames(r)| == |r.gpuUsages| + 5
    ensures FieldNames(r)[..3] == ["timestamp", "cpuUsage", "memUsage"]
    ensures FieldNames(r)[|r.gpuUsages| + 3..] == ["networkRxSpeed", "networkTxSpeed"]
    ensures forall i :: 0 <= i < |r.gpuUsages| ==> FieldNames(r)[3 + i] == GpuField(r.gpuUsages[i].0)
  {
    Layout(["timestamp", "cpuUsage", "memUsage"], GpuFieldNames(r.gpuUsages), ["networkRxSpeed", "networkTxSpeed"]);
  }

  lemma CellsLayout(r: Record)
    ensures |Cells(r)| == |r.gpuUsages| + 5
    ensures Cells(r)[..3] == [FormatTime(r.timestamp), ToFixed2(r.cpuUsage), NumberToFixed2(r.memUsage)]
    ensures Cells(r)[|r.gpuUsages| + 3..] == [FormatNetworkSpeed(r.networkRxSpeed), FormatNetworkSpeed(r.networkTxSpeed)]
    ensures forall i :: 0 <= i < |r.gpuUsages| ==> Cells(r)[3 + i] == ToFixed2(r.gpuUsages[i].1)
  {
    Layout([FormatTime(r.timestamp), ToFixed2(r.cpuUsage), NumberToFixed2(r.memUsage)], GpuCells(r.gpuUsages),
           [FormatNetworkSpeed(r.networkRxSpeed), FormatNetworkSpeed(r.networkTxSpeed)]);
  }

  lemma GpuFieldInjective(k1: string, k2: string)
    requires GpuField(k1) == GpuField(k2)
    ensures k1 == k2
  {
    var f := GpuField(k1);
    assert f[4..|f| - 6] == k1;
    assert GpuField(k2)[4..|f| - 6] == k2;
  }

  /**
   * With distinct GPU keys the record's field names are distinct: no GPU field
   * shadows a fixed field or another GPU field, so the object spread keeps all.
   */
  lemma FieldNamesDistinct(r: Record)
    requires Gpu.DistinctKeys(r.gpuUsages)
    ensures forall i, j :: 0 <= i < j < |FieldNames(r)| ==> FieldNames(r)[i] != FieldNames(r)[j]
  {
    var g := |r.gpuUsages|;
    var names := FieldNames(r);
    FieldNamesLayout(r);
    forall i, j | 0 <= i < j < |names| ensures names[i] != names[j] {
      if 3 <= i && j < 3 + g {
        if names[i] == names[j] {
          assert names[3 + (i - 3)] == GpuField(r.gpuUsages[i - 3].0);
          assert names[3 + (j - 3)] == GpuField(r.gpuUsages[j - 3].0);
          GpuFieldInjective(r.gpuUsages[i - 3].0, r.gpuUsages[j - 3].0);
        }
      } else if 3 <= i < 3 + g {
        assert names[3 + (i - 3)] == GpuField(r.gpuUsages[i - 3].0);
        assert names[j] == names[g + 3..][j - g - 3];
        assert names[i][0] == 'g' && names[j][0] == 'n';
      } else if 3 <= j < 3 + g {
        assert names[3 + (j - 3)] == GpuField(r.gpuUsages[j - 3].0);
        assert names[i] == names[..3][i];
        assert names[j][0] == 'g' && names[i][0] != 'g';
      } else if j < 3 {
        assert names[i] == names[..3][i] && names[j] == names[..3][j];
      } else if i >= g + 3 {
        assert names[i] == names[g + 3..][i - g - 3] && names[j] == names[g + 3..][j - g - 3];
      } else {
        assert names[i] == names[..3][i] && names[j] == names[g + 3..][j - g - 3];
      }
    }
  }

  lemma CellsSafe(r: Record)
    ensures forall i :: 0 <= i < |Cells(r)| ==> CellSafe(Cells(r)[i])
  {
    var g := |r.gpuUsages|;
    CellsLayout(r);
    var cs := Cells(r);
    forall i | 0 <= i < |cs| ensures CellSafe(cs[i]) {
      if i < 3 {
        assert cs[i] == cs[..3][i];
      } else if i >= g + 3 {
        assert cs[i] == cs[g + 3..][i - g - 3];
      } else {
        assert cs[3 + (i - 3)] == ToFixed2(r.gpuUsages[i - 3].1);
      }
    }
  }

  /** A data line splits at its commas into exactly the record's cells: no value holds a comma. */
  lemma RowCells(r: Record)
    ensures Split(Row(r), ',') == Cells(r)
    ensures |Split(Row(r), ',')| == |FieldNames(r)|
  {
    CellsSafe(r);
    RecordLayout(r);
    SplitJoin(Cells(r), ',');
  }

  /** A field name holds a comma or a line break only if its GPU key does. */
  lemma FieldNamesAvoid(r: Record, c: char)
    requires c == ',' || c == '\n'
    requires forall i :: 0 <= i < |r.gpuUsages| ==> c !in r.gpuUsages[i].0
    ensures forall i :: 0 <= i < |FieldNames(r)| ==> c !in FieldNames(r)[i]
  {
    var g := |r.gpuUsages|;
    var names := FieldNames(r);
    FieldNamesLayout(r);
    forall i | 0 <= i < |names| ensures c !in names[i] {
      if i < 3 {
        assert names[i] in names[..3];
      } else if i >= g + 3 {
        assert names[i] in names[g + 3..];
      } else {
        assert names[3 + (i - 3)] == GpuField(r.gpuUsages[i - 3].0);
        GpuFieldAvoids(r.gpuUsages[i - 3].0, c);
      }
    }
  }

  lemma GpuFieldAvoids(k: string, c: char)
    requires c == ',' || c == '\n'
    requires c !in k
    ensures c !in GpuField(k)
  {
    assert GpuField(k) == "gpu_" + k + "_usage";
  }

  /** The header splits back into the field names when no GPU key holds a comma. */
  lemma HeaderFields(r: Record)
    requires forall i :: 0 <= i < |r.gpuUsages| ==> ',' !in r.gpuUsages[i].0
    ensures Split(Header(r), ',') == FieldNames(r)
  {
    FieldNamesAvoid(r, ',');
    SplitJoin(FieldNames(r), ',');
  }

  lemma RowAvoidsBreak(r: Record)
    ensures '\n' !in Row(r)
  {
    CellsSafe(r);
    JoinAvoids(Cells(r), ',', '\n');
  }

  /**
   * The export of n records has exactly n + 1 lines: the first record's header,
   * then each record's row in order (given that the GPU keys of the first
   * record, which appear in the header, hold no line break).
   */
  lemma CsvLines(records: seq<Record>)
    requires |records| > 0
    requires forall i :: 0 <= i < |records[0].gpuUsages| ==> '\n' !in records[0].gpuUsages[i].0
    ensures Csv(records).Success?
    ensures Split(Csv(records).value, '\n') == Lines(records)
    ensures |Split(Csv(records).value, '\n')| == |records| + 1
    ensures forall i :: 0 <= i < |records| ==> Split(Csv(records).value, '\n')[i + 1] == Row(records[i])
  {
    LinesAvoidBreak(records);
    SplitJoin(Lines(records), '\n');
  }

  /** No line of the body holds a line break of its own. */
  lemma LinesAvoidBreak(records: seq<Record>)
    requires |records| > 0
    requires forall i :: 0 <= i < |records[0].gpuUsages| ==> '\n' !in records[0].gpuUsages[i].0
    ensures forall i :: 0 <= i < |Lines(records)| ==> '\n' !in Lines(records)[i]
  {
    var lines := Lines(records);
    FieldNamesAvoid(records[0], '\n');
    JoinAvoids(FieldNames(records[0]), ',', '\n');
    forall i | 0 <= i < |lines| ensures '\n' !in lines[i] {
      if i > 0 {
        RowAvoidsBreak(records[i - 1]);
      }
    }
  }

  /**
   * The file name is the start time (or nothing), the end time, the device name
   * and `-performance.csv`, separated by hyphens; both times can be read back
   * from it when they have four-digit years.
   */
  lemma FileNameLayout(start: Option<DateTime>, end: DateTime, cpu: Option<Monitor.CpuInfo>)
    requires start.Some? ==> ValidDate(start.value) && 1000 <= start.value.year <= 9999
    requires ValidDate(end) && 1000 <= end.year <= 9999
    ensures var n, k := FileName(start, end, cpu), if start.Some? then 19 else 0;
      |n| == k + 21 + |DeviceName(cpu)| + 16
      && (start.Some? ==> ParseTime(n[..19]) == start)
      && n[k] == '-' && ParseTime(n[k + 1..k + 20]) == Some(end) && n[k + 20] == '-'
      && n[k + 21..|n| - 16] == DeviceName(cpu) && n[|n| - 16..] == "-performance.csv"
    ensures cpu.None? ==> DeviceName(cpu) == "UnknownDevice"
  {
    if start.Some? { FormatTimeRoundTrip(start.value); }
    FormatTimeRoundTrip(end);
    NameLayout(if start.Some? then FormatTime(start.value) else "", FormatTime(end), DeviceName(cpu));
  }

  /** Where the parts of a file name sit, for a 19-character end time. */
  lemma NameLayout(st: string, e: string, d: string)
    requires |e| == 19
    ensures var n, k := st + "-" + e + "-" + d + "-performance.csv", |st|;
      |n| == k + 21 + |d| + 16 && n[..k] == st
      && n[k] == '-' && n[k + 1..k + 20] == e && n[k + 20] == '-'
      && n[k + 21..|n| - 16] == d && n[|n| - 16..] == "-performance.csv"
  {
    var tail := "-" + e + "-" + d + "-performance.csv";
    assert st + "-" + e + "-" + d + "-performance.csv" == st + tail;
    assert tail[1..20] == e && tail[20] == '-' && tail[21..|tail| - 16] == d;
  }

  /** The body depends on the records alone, not on the clock, the start time or the device. */
  lemma ExportBodyOnlyFromRecords(records: seq<Record>, s1: Option<DateTime>, s2: Option<DateTime>,
                                  n1: DateTime, n2: DateTime, c1: Option<Monitor.CpuInfo>, c2: Option<Monitor.CpuInfo>)
    ensures Export(records, s1, n1, c1).Success? <==> records != []
    ensures records != [] ==> Export(records, s1, n1, c1).value.csv == Export(records, s2, n2, c2).value.csv
  {
  }

  // ---------------------------------------------------------------------------
  // The session

  /** The hook's session state: `isRecording`, `performanceData`, `recordingStartTime`. */
  class Recorder {
    var isRecording: bool
    var performanceData: seq<Record>
    var recordingStartTime: Option<DateTime>

    /**
     * A session that is recording has a start time, and every record keeps one
     * entry per GPU key.
     */
    ghost predicate Valid()
      reads this
    {
      (isRecording ==> recordingStartTime.Some?)
      && forall i :: 0 <= i < |performanceData| ==> Gpu.DistinctKeys(performanceData[i].gpuUsages)
    }

    /** The initial `useState` values: not recording, no records, no start time. */
    constructor ()
      ensures Valid() && !isRecording && performanceData == [] && recordingStartTime == None
    {
      isRecording := false;
      performanceData := [];
      recordingStartTime := None;
    }

    /**
     * `startRecording`: recording, started now, with no records. There is no
     * guard; calling it while recording discards the records so far.
     */
    method StartRecording(now: DateTime)
      modifies this
      ensures Valid()
      ensures isRecording && recordingStartTime == Some(now) && performanceData == []
    {
      isRecording := true;
      recordingStartTime := Some(now);
      performanceData := [];
    }

    /** `stopRecording`: only the flag is cleared; the records and start time stay. */
    method StopRecording()
      requires Valid()
      modifies this`isRecording
      ensures Valid() && !isRecording
      ensures performanceData == old(performanceData) && recordingStartTime == old(recordingStartTime)
    {
      isRecording := false;
    }

    /**
     * The record-append effect, run once per change of its inputs: while
     * recording exactly one record is appended at the end, earlier records
     * unchanged; otherwise nothing changes.
     */
    method OnTrigger(now: DateTime, cpuUsage: real, memUsage: Number, gpuUsages: Gpu.Usages,
                     networkSpeed: Monitor.NetworkSpeed)
      requires Valid() && Gpu.DistinctKeys(gpuUsages)
      modifies this`performanceData
      ensures Valid()
      ensures isRecording ==>
        performanceData == old(performanceData) + [MakeRecord(now, cpuUsage, memUsage, gpuUsages, networkSpeed)]
      ensures !isRecording ==> performanceData == old(performanceData)
    {
      if isRecording {
        var record := MakeRecord(now, cpuUsage, memUsage, gpuUsages, networkSpeed);
        performanceData := performanceData + [record];
      }
    }

    /**
     * `handleExport`: reads the session and changes nothing, so exporting again
     * gives the same body. An export while recording names the file after the
     * start of the session.
     */
    method HandleExport(now: DateTime, cpuInfo: Option<Monitor.CpuInfo>) returns (r: Result<Download, ExportError>)
      requires Valid()
      ensures r == Export(performanceData, recordingStartTime, now, cpuInfo)
      ensures r.Success? <==> performanceData != []
      ensures isRecording && r.Success? ==> FormatTime(recordingStartTime.value) <= r.value.fileName
    {
      r := Export(performanceData, recordingStartTime, now, cpuInfo);
    }
  }

  /**
   * A session of two samples: a trigger after stopping adds nothing, a second
   * export equals the first, and the body has one header line and two rows.
   */
  method RecordingScenario(t0: DateTime, t1: DateTime, t2: DateTime, t3: DateTime)
  {
    var speed := Monitor.NetworkSpeed(0.5, 2.0);
    var rec := RecordTwoSamples(t0, t1, t2, t3, speed);
    ghost var r1 := MakeRecord(t1, 10.0, Finite(50.0), [("GPU", 7.0)], speed);
    ghost var r2 := MakeRecord(t2, 20.0, Finite(55.0), [("GPU", 9.0)], speed);
    var first := rec.HandleExport(t3, None);
    var again := rec.HandleExport(t3, None);
    assert first == again && first.Success?;
    TwoRecordLines(r1, r2);
    assert |Split(first.value.csv, '\n')| == 3;
  }

  /** Start, two triggers, stop, and one more trigger that is ignored. */
  method RecordTwoSamples(t0: DateTime, t1: DateTime, t2: DateTime, t3: DateTime, speed: Monitor.NetworkSpeed)
    returns (rec: Recorder)
    ensures fresh(rec) && rec.Valid() && !rec.isRecording && rec.recordingStartTime == Some(t0)
    ensures rec.performanceData == [MakeRecord(t1, 10.0, Finite(50.0), [("GPU", 7.0)], speed),
                                    MakeRecord(t2, 20.0, Finite(55.0), [("GPU", 9.0)], speed)]
  {
    rec := new Recorder();
    rec.StartRecording(t0);
    rec.OnTrigger(t1, 10.0, Finite(50.0), [("GPU", 7.0)], speed);
    rec.OnTrigger(t2, 20.0, Finite(55.0), [("GPU", 9.0)], speed);
    rec.StopRecording();
    rec.OnTrigger(t3, 30.0, Finite(60.0), [("GPU", 11.0)], speed);
  }

  /** The body of a two-record session with one GPU key has a header line and two rows. */
  lemma TwoRecordLines(r1: Record, r2: Record)
    requires r1.gpuUsages == [("GPU", 7.0)]
    ensures Csv([r1, r2]).Success? && |Split(Csv([r1, r2]).value, '\n')| == 3
  {
    assert [r1, r2][0].gpuUsages[0].0 == "GPU";
    CsvLines([r1, r2]);
  }
}
