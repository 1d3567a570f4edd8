/**
 * The network rate of one tick (useSystemInfo.ts): the cumulative byte
 * counters of every interface are summed (`_.sumBy`) and the previous tick's
 * sum is subtracted; the difference is scaled to MB and taken as MB/s because
 * the tick interval is one second. There is no division by the elapsed time
 * and no clamping: a counter that went down gives a negative rate.
 */
module Network {

  /** One interface's counters as `getNetworkInfo` reports them. */
  datatype NetStat = NetStat(iface: string, rxBytes: nat, txBytes: nat)

  datatype Direction = Rx | Tx

  function Bytes(n: NetStat, d: Direction): nat
  {
    match d
    case Rx => n.rxBytes
    case Tx => n.txBytes
  }

  /** `_.sumBy(list, 'rx_bytes')` (or 'tx_bytes'); an empty list sums to 0. */
  function SumBytes(ns: seq<NetStat>, d: Direction): (total: nat)
    ensures forall i :: 0 <= i < |ns| ==> Bytes(ns[i], d) <= total
  {
    if ns == [] then 0 else Bytes(ns[0], d) + SumBytes(ns[1..], d)
  }

  const BytesPerMB: nat := 1024 * 1024

  /** `(current - last) / 1024 / 1024`: the change of the summed counter, in MB. */
  function DeltaMB(current: seq<NetStat>, last: seq<NetStat>, d: Direction): (r: real)
    ensures r * BytesPerMB as real == (SumBytes(current, d) - SumBytes(last, d)) as real
    ensures r < 0.0 <==> SumBytes(current, d) < SumBytes(last, d)
    ensures r == 0.0 <==> SumBytes(current, d) == SumBytes(last, d)
  {
    (SumBytes(current, d) - SumBytes(last, d)) as real / 1024.0 / 1024.0
  }

  /** The sum over a list of interfaces is the sum over its parts. */
  lemma {:induction false} SumBytesAppend(a: seq<NetStat>, b: seq<NetStat>, d: Direction)
    ensures SumBytes(a + b, d) == SumBytes(a, d) + SumBytes(b, d)
  {
    if a == [] {
      assert a + b == b;
    } else {
      SumBytesAppend(a[1..], b, d);
      assert (a + b)[1..] == a[1..] + b;
    }
  }

  /**
   * The rate is additive over interfaces: the rate of two groups of interfaces
   * is the sum of their rates. In particular an interface that appears between
   * two ticks adds its whole counter, and one that disappears subtracts it.
   */
  lemma DeltaSplit(c1: seq<NetStat>, c2: seq<NetStat>, l1: seq<NetStat>, l2: seq<NetStat>, d: Direction)
    ensures DeltaMB(c1 + c2, l1 + l2, d) == DeltaMB(c1, l1, d) + DeltaMB(c2, l2, d)
  {
    SumBytesAppend(c1, c2, d);
    SumBytesAppend(l1, l2, d);
  }
}
