/**
 * The sampling state of the performance page (useSystemInfo.ts) and the two
 * operations that change it: the static load of CPU and GPU facts, and the
 * 1000 ms tick that samples memory, network, CPU load and speed and pushes the
 * values onto the rolling histories.
 */
module Monitor {
  import opened Wrappers
  import opened Format
  import History
  import Network
  import Gpu

  /** The part of `getCpuInfo()` the core reads. */
  datatype CpuInfo = CpuInfo(manufacturer: string, brand: string)

  /** The part of `getMemInfo()` the core reads, in bytes. */
  datatype MemInfo = MemInfo(total: nat, used: nat)

  /** `networkSpeed`: the last network rates, in MB per tick. */
  datatype NetworkSpeed = NetworkSpeed(rxSec: real, txSec: real)

  /**
   * The outcome of the four provider calls of one tick (`getMemInfo`,
   * `getNetworkInfo`, `getCpuCurrentLoad().currentLoad`, `getCpuSpeed().avg`);
   * None stands for a call that rejected.
   */
  datatype Fetch = Fetch(mem: Option<MemInfo>, network: Option<seq<Network.NetStat>>,
                         load: Option<real>, speed: Option<real>)
  {
    predicate Succeeded() { mem.Some? && network.Some? && load.Some? && speed.Some? }
  }

  /** `(mem.used / mem.total) * 100`, with JavaScript's results for a zero total. */
  function MemUsagePercent(m: MemInfo): (p: Number)
    ensures m.total > 0 ==> p.Finite? && p.value * m.total as real == 100.0 * m.used as real
    ensures m.total > 0 && m.used <= m.total ==> 0.0 <= p.value <= 100.0
    ensures m.total == 0 ==> (p == NaN <==> m.used == 0) && (p == PosInfinity <==> m.used > 0)
  {
    if m.total == 0 then (if m.used == 0 then NaN else PosInfinity)
    else Finite(m.used as real / m.total as real * 100.0)
  }

  /**
   * After k >= 1 successful ticks a CPU history has min(60, k) samples and a
   * network history min(60, k - 1): one shorter until both are full.
   */
  predicate NetworkLag(cpu: nat, net: nat)
  {
    0 < cpu <= History.Cap && (cpu < History.Cap ==> net + 1 == cpu) && (cpu == History.Cap ==> History.Cap - 1 <= net <= History.Cap)
  }

  /** One push onto each history keeps the lag. */
  lemma NetworkLagStep(cpu: seq<real>, net: seq<real>, x: real, y: real)
    requires NetworkLag(|cpu|, |net|)
    ensures NetworkLag(|History.Push(cpu, x)|, |History.Push(net, y)|)
  {
  }

  /**
   * The state the hook keeps, its `useState` values and `lastNetworkInfoRef`.
   * React state is a snapshot that the setters replace, so a tick is a step from
   * one state record to the next.
   */
  datatype MonitorState = MonitorState(
    isLoading: bool,
    cpuInfo: Option<CpuInfo>,
    gpuInfo: Option<seq<Gpu.Controller>>,
    memInfo: Option<MemInfo>,
    networkInfo: Option<seq<Network.NetStat>>,
    cpuUsage: real,
    memUsage: Number,
    gpuUsages: Gpu.Usages,
    cpuUsageHistory: seq<real>,
    gpuUsageHistories: map<string, seq<real>>,
    memUsageHistory: seq<Number>,
    networkRxSpeedHistory: seq<real>,
    networkTxSpeedHistory: seq<real>,
    cpuSpeed: real,
    networkSpeed: NetworkSpeed,
    lastNetworkInfo: Option<seq<Network.NetStat>>)

  /**
   * The invariant every tick keeps: no history exceeds 60 samples; the CPU and
   * memory histories grow together; the network histories, which get no sample
   * on the first successful tick, lag one behind until they are full; the
   * previous snapshot exists exactly after the first successful tick and is the
   * snapshot shown; the usages object has distinct keys.
   */
  predicate Valid(s: MonitorState)
  {
    |s.cpuUsageHistory| <= History.Cap && |s.memUsageHistory| == |s.cpuUsageHistory|
    && |s.networkRxSpeedHistory| <= History.Cap && |s.networkTxSpeedHistory| == |s.networkRxSpeedHistory|
    && Gpu.CappedHistories(s.gpuUsageHistories)
    && Gpu.DistinctKeys(s.gpuUsages)
    && (s.lastNetworkInfo.Some? <==> |s.cpuUsageHistory| > 0)
    && (s.lastNetworkInfo.Some? ==> s.networkInfo == s.lastNetworkInfo)
    && (s.lastNetworkInfo.None? ==> s.networkRxSpeedHistory == [] && s.networkSpeed == NetworkSpeed(0.0, 0.0))
    && (s.lastNetworkInfo.Some? ==> NetworkLag(|s.cpuUsageHistory|, |s.networkRxSpeedHistory|))
  }

  /** The initial `useState` values (useSystemInfo.ts:6-37): empty, zero or null, and loading. */
  function Initial(): (s: MonitorState)
    ensures Valid(s) && s.isLoading && s.lastNetworkInfo == None
  {
    MonitorState(true, None, None, None, None, 0.0, Finite(0.0), [], [], map[], [], [], [], 0.0,
                 NetworkSpeed(0.0, 0.0), None)
  }

  /**
   * `getStaticInfo`: the CPU facts, then the graphics facts; both are stored
   * only when both calls succeed (a failing CPU call means the graphics call is
   * never made), and loading ends either way. Nothing else changes.
   */
  method LoadStatic(s: MonitorState, cpu: Option<CpuInfo>, graphics: Option<seq<Gpu.Controller>>)
    returns (s': MonitorState)
    requires Valid(s)
    ensures Valid(s')
    ensures s' == if cpu.Some? && graphics.Some?
                  then s.(isLoading := false, cpuInfo := cpu, gpuInfo := graphics)
                  else s.(isLoading := false)
  {
    s' := s;
    if cpu.Some? && graphics.Some? {
      s' := s'.(cpuInfo := cpu);
      s' := s'.(gpuInfo := graphics);
    }
    s' := s'.(isLoading := false);
  }

  /**
   * `getDynamicInfo`, one tick. All four fetches come before the first state
   * update, so a failing fetch leaves the state as it was. Otherwise: memory
   * usage is computed and pushed; the network rates are computed and pushed only
   * when a previous snapshot exists; the CPU load is pushed; when the graphics
   * facts are known, the controllers' usages replace `gpuUsages` and are pushed
   * onto the per-key histories; finally the snapshot becomes the previous one.
   * `draw(j)` is the placeholder usage of controller j.
   */
  method Tick(s: MonitorState, fetch: Fetch, draw: nat -> real) returns (s': MonitorState)
    requires Valid(s)
    ensures Valid(s')
    ensures !fetch.Succeeded() ==> s' == s
    ensures s'.isLoading == s.isLoading && s'.cpuInfo == s.cpuInfo && s'.gpuInfo == s.gpuInfo
    ensures fetch.Succeeded() ==>
      var mem, network := fetch.mem.value, fetch.network.value;
      s'.memInfo == Some(mem) && s'.memUsage == MemUsagePercent(mem)
      && s'.memUsageHistory == History.Push(s.memUsageHistory, MemUsagePercent(mem))
      && s'.networkInfo == Some(network) && s'.lastNetworkInfo == Some(network)
      && s'.cpuUsage == fetch.load.value && s'.cpuUsageHistory == History.Push(s.cpuUsageHistory, fetch.load.value)
      && s'.cpuSpeed == fetch.speed.value
    ensures fetch.Succeeded() && s.lastNetworkInfo.Some? ==>
      var rx := Network.DeltaMB(fetch.network.value, s.lastNetworkInfo.value, Network.Rx);
      var tx := Network.DeltaMB(fetch.network.value, s.lastNetworkInfo.value, Network.Tx);
      s'.networkSpeed == NetworkSpeed(rx, tx)
      && s'.networkRxSpeedHistory == History.Push(s.networkRxSpeedHistory, rx)
      && s'.networkTxSpeedHistory == History.Push(s.networkTxSpeedHistory, tx)
    ensures s.lastNetworkInfo.None? ==>
      s'.networkSpeed == s.networkSpeed && s'.networkRxSpeedHistory == s.networkRxSpeedHistory
      && s'.networkTxSpeedHistory == s.networkTxSpeedHistory
    ensures fetch.Succeeded() && s.gpuInfo.Some? ==>
      s'.gpuUsages == Gpu.UsagesOf(s.gpuInfo.value, draw)
      && Gpu.HistoriesUpdated(s.gpuUsageHistories, s'.gpuUsages, s'.gpuUsageHistories)
    ensures s.gpuInfo.None? ==>
      s'.gpuUsages == s.gpuUsages && s'.gpuUsageHistories == s.gpuUsageHistories
  {
    if !fetch.Succeeded() {
      return s;
    }
    var network := fetch.network.value;
    s' := SampleMemory(s, fetch.mem.value);
    s' := SampleNetwork(s', network);
    s' := SampleCpu(s', fetch.load.value);
    s' := SampleGpu(s', draw);
    s' := s'.(cpuSpeed := fetch.speed.value);
    s' := s'.(lastNetworkInfo := Some(network));
    if s.lastNetworkInfo.Some? {
      NetworkLagStep(s.cpuUsageHistory, s.networkRxSpeedHistory, fetch.load.value,
                     Network.DeltaMB(network, s.lastNetworkInfo.value, Network.Rx));
    }
  }

  /** useSystemInfo.ts:60-68: the memory usage and its history; nothing else changes. */
  method SampleMemory(s: MonitorState, mem: MemInfo) returns (s': MonitorState)
    ensures s' == s.(memInfo := Some(mem), memUsage := MemUsagePercent(mem),
                     memUsageHistory := History.Push(s.memUsageHistory, MemUsagePercent(mem)))
  {
    var currentMemUsage := MemUsagePercent(mem);
    s' := s.(memInfo := Some(mem));
    s' := s'.(memUsage := currentMemUsage);
    s' := s'.(memUsageHistory := History.Push(s'.memUsageHistory, currentMemUsage));
  }

  /**
   * useSystemInfo.ts:70-97: the rates against the previous snapshot, only if
   * there is one, and the snapshot shown; nothing else changes.
   */
  method SampleNetwork(s: MonitorState, network: seq<Network.NetStat>) returns (s': MonitorState)
    ensures s.lastNetworkInfo.None? ==> s' == s.(networkInfo := Some(network))
    ensures s.lastNetworkInfo.Some? ==>
      var rx := Network.DeltaMB(network, s.lastNetworkInfo.value, Network.Rx);
      var tx := Network.DeltaMB(network, s.lastNetworkInfo.value, Network.Tx);
      s' == s.(networkSpeed := NetworkSpeed(rx, tx),
               networkRxSpeedHistory := History.Push(s.networkRxSpeedHistory, rx),
               networkTxSpeedHistory := History.Push(s.networkTxSpeedHistory, tx),
               networkInfo := Some(network))
  {
    s' := s;
    if s.lastNetworkInfo.Some? {
      var last := s.lastNetworkInfo.value;
      var rxSec := Network.DeltaMB(network, last, Network.Rx);
      var txSec := Network.DeltaMB(network, last, Network.Tx);
      s' := s'.(networkSpeed := NetworkSpeed(rxSec, txSec));
      s' := s'.(networkRxSpeedHistory := History.Push(s'.networkRxSpeedHistory, rxSec));
      s' := s'.(networkTxSpeedHistory := History.Push(s'.networkTxSpeedHistory, txSec));
    }
    s' := s'.(networkInfo := Some(network));
  }

  /** useSystemInfo.ts:98-104: the CPU load and its history; nothing else changes. */
  method SampleCpu(s: MonitorState, load: real) returns (s': MonitorState)
    ensures s' == s.(cpuUsage := load, cpuUsageHistory := History.Push(s.cpuUsageHistory, load))
  {
    s' := s.(cpuUsage := load);
    s' := s'.(cpuUsageHistory := History.Push(s'.cpuUsageHistory, load));
  }

  /**
   * useSystemInfo.ts:106-129: when the graphics facts are known, the usages
   * replace `gpuUsages` and every key seen is pushed onto its history while the
   * other histories stay; without them nothing changes. All histories stay capped.
   */
  method SampleGpu(s: MonitorState, draw: nat -> real) returns (s': MonitorState)
    requires Gpu.CappedHistories(s.gpuUsageHistories)
    ensures Gpu.CappedHistories(s'.gpuUsageHistories)
    ensures s.gpuInfo.None? ==> s' == s
    ensures s.gpuInfo.Some? ==>
      s' == s.(gpuUsages := s'.gpuUsages, gpuUsageHistories := s'.gpuUsageHistories)
      && s'.gpuUsages == Gpu.UsagesOf(s.gpuInfo.value, draw) && Gpu.DistinctKeys(s'.gpuUsages)
      && Gpu.HistoriesUpdated(s.gpuUsageHistories, s'.gpuUsages, s'.gpuUsageHistories)
  {
    s' := s;
    if s.gpuInfo.Some? {
      var newUsages := Gpu.CollectUsages(s.gpuInfo.value, draw);
      Gpu.UsagesOfKeys(s.gpuInfo.value, draw);
      s' := s'.(gpuUsages := newUsages);
      var updated := Gpu.UpdateHistories(s.gpuUsageHistories, newUsages);
      Gpu.UpdatedStaysCapped(s.gpuUsageHistories, newUsages, updated);
      s' := s'.(gpuUsageHistories := updated);
    }
  }

  /**
   * Three successful ticks whose single interface has received 0, 1048576 and
   * 2097152 bytes: the first tick yields no rate, the next two 1.0 MB each; a
   * fourth tick whose network fetch fails changes nothing.
   */
  method NetworkRateScenario()
  {
    var noGpu := (j: nat) => 0.0;
    var mem := Some(MemInfo(8, 2));
    var s := Tick(Initial(), Fetch(mem, Some([Network.NetStat("eth0", 0, 0)]), Some(10.0), Some(3.0)), noGpu);
    assert s.networkRxSpeedHistory == [] && s.memUsage == Finite(25.0);
    s := Tick(s, Fetch(mem, Some([Network.NetStat("eth0", 1048576, 0)]), Some(20.0), Some(3.0)), noGpu);
    History.PushShape([], 1.0);
    assert s.networkRxSpeedHistory == [1.0];
    s := Tick(s, Fetch(mem, Some([Network.NetStat("eth0", 2097152, 0)]), Some(30.0), Some(3.0)), noGpu);
    History.PushShape([1.0], 1.0);
    assert s.networkRxSpeedHistory == [1.0, 1.0];
    var s4 := Tick(s, Fetch(mem, None, Some(40.0), Some(3.0)), noGpu);
    assert s4 == s;
  }
}
