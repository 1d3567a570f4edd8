/**
 * The rolling histories of the performance page (useSystemInfo.ts): every
 * series keeps its most recent samples, oldest first, and never more than Cap.
 */
module History {

  /** Number of samples a history keeps: one minute at the 1000 ms tick. */
  const Cap: nat := 60

  /** The last n elements of s (all of s when it is shorter). */
  function LastN<T>(s: seq<T>, n: nat): (r: seq<T>)
    ensures |r| == if |s| < n then |s| else n
  {
    if |s| > n then s[|s| - n..] else s
  }

  /** `[...prev, v]`, then `slice(length - 60)` when that is longer than 60. */
  function Push<T>(prev: seq<T>, v: T): (r: seq<T>)
    ensures |r| <= Cap && |r| == if |prev| < Cap then |prev| + 1 else Cap
  {
    LastN(prev + [v], Cap)
  }

  /**
   * A push yields the last min(60, |prev| + 1) elements of prev + [v]: a plain
   * append while prev is not full, otherwise the oldest sample is dropped; the
   * new sample is always the last one.
   */
  lemma PushShape<T>(prev: seq<T>, v: T)
    ensures Push(prev, v) == LastN(prev + [v], Cap)
    ensures Push(prev, v)[|Push(prev, v)| - 1] == v
    ensures |prev| < Cap ==> Push(prev, v) == prev + [v]
    ensures |prev| == Cap ==> Push(prev, v) == prev[1..] + [v]
  {
    if |prev| == Cap {
      assert (prev + [v])[1..] == prev[1..] + [v];
    }
  }

  /** The history after pushing the samples vs one per tick, in order. */
  function PushAll<T>(h: seq<T>, vs: seq<T>): seq<T>
    decreases |vs|
  {
    if vs == [] then h else PushAll(Push(h, vs[0]), vs[1..])
  }

  /** Trimming twice to the same length is trimming once. */
  lemma LastNOfLastN<T>(s: seq<T>, t: seq<T>, n: nat)
    ensures LastN(LastN(s, n) + t, n) == LastN(s + t, n)
  {
    if |s| > n {
      var u := LastN(s, n) + t;
      var a, b := LastN(u, n), LastN(s + t, n);
      assert |a| == |b|;
      forall j | 0 <= j < |a| ensures a[j] == b[j] {
        assert a[j] == u[|u| - |a| + j];
        assert b[j] == (s + t)[|s| + |t| - |b| + j];
      }
    }
  }

  /**
   * However many ticks pass, a history that started within its cap holds
   * exactly the most recent Cap values of everything it was given, in order.
   */
  lemma {:induction false} PushAllKeepsMostRecent<T>(h: seq<T>, vs: seq<T>)
    requires |h| <= Cap
    ensures PushAll(h, vs) == LastN(h + vs, Cap)
    decreases |vs|
  {
    if vs == [] {
      assert h + vs == h;
    } else {
      var h' := Push(h, vs[0]);
      PushAllKeepsMostRecent(h', vs[1..]);
      PushShape(h, vs[0]);
      LastNOfLastN(h + [vs[0]], vs[1..], Cap);
      assert h + [vs[0]] + vs[1..] == h + vs;
    }
  }

  /** A series that starts empty holds the last min(60, n) of its n samples. */
  lemma FromEmpty<T>(vs: seq<T>)
    ensures |PushAll([], vs)| == if |vs| < Cap then |vs| else Cap
    ensures PushAll([], vs) == if |vs| < Cap then vs else vs[|vs| - Cap..]
  {
    PushAllKeepsMostRecent([], vs);
    assert [] + vs == vs;
  }
}
