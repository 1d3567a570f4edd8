/**
 * The GPU part of one tick (useSystemInfo.ts): each controller gets a key
 * (`model || vendor`) and a usage value; controllers with the same key collapse
 * into one entry, the later one's value winning; then every key seen this tick
 * has the usage pushed onto its history, and the other histories stay as they were.
 */
module Gpu {
  import opened Wrappers
  import History

  /** One entry of `graphics.controllers`. */
  datatype Controller = Controller(model: string, vendor: string, vramMB: int)

  /** `controller.model || controller.vendor`: an empty model falls back to the vendor. */
  function Key(c: Controller): (k: string)
    ensures k == c.model || (c.model == "" && k == c.vendor)
    ensures k == "" <==> c.model == "" && c.vendor == ""
  {
    if c.model != "" then c.model else c.vendor
  }

  /**
   * A `{ [key: string]: number }` object as an ordered list of entries: the
   * order is that in which keys were first assigned, as `Object.keys` reports it.
   */
  type Usages = seq<(string, real)>

  predicate DistinctKeys(u: Usages)
  {
    forall i, j :: 0 <= i < j < |u| ==> u[i].0 != u[j].0
  }

  function KeySet(u: Usages): set<string>
  {
    set i | 0 <= i < |u| :: u[i].0
  }

  /** The position of the first entry for k, or |u| when there is none. */
  function IndexOf(u: Usages, k: string): (i: nat)
    ensures i <= |u|
    ensures i < |u| ==> u[i].0 == k
    ensures forall j :: 0 <= j < i ==> u[j].0 != k
  {
    if u == [] then 0 else if u[0].0 == k then 0 else 1 + IndexOf(u[1..], k)
  }

  /** `obj[k]`: the value of the entry for k, if any. */
  function Lookup(u: Usages, k: string): Option<real>
  {
    var i := IndexOf(u, k);
    if i < |u| then Some(u[i].1) else None
  }

  /** `obj[k] = v`: overwrite the entry for k where it stands, or add one at the end. */
  function Assign(u: Usages, k: string, v: real): (w: Usages)
    ensures (k, v) in w
    ensures |u| <= |w| <= |u| + 1
  {
    var i := IndexOf(u, k);
    if i < |u| then assert u[i := (k, v)][i] == (k, v); u[i := (k, v)] else u + [(k, v)]
  }

  lemma KeySetHas(u: Usages, i: nat)
    requires i < |u|
    ensures u[i].0 in KeySet(u)
  {
  }

  lemma KeySetAppend(u: Usages, x: (string, real))
    ensures KeySet(u + [x]) == KeySet(u) + {x.0}
  {
    var w := u + [x];
    forall y | y in KeySet(w) ensures y in KeySet(u) + {x.0} {
      var j :| 0 <= j < |w| && w[j].0 == y;
      if j < |u| { assert w[j] == u[j]; KeySetHas(u, j); } else { assert w[j] == x; }
    }
    forall y | y in KeySet(u) ensures y in KeySet(w) {
      var j :| 0 <= j < |u| && u[j].0 == y;
      assert w[j] == u[j];
      KeySetHas(w, j);
    }
    assert w[|u|] == x;
    KeySetHas(w, |u|);
  }

  /** IndexOf is the one position its contract describes. */
  lemma IndexOfIs(u: Usages, k: string, i: nat)
    requires i <= |u| && (i < |u| ==> u[i].0 == k)
    requires forall j :: 0 <= j < i ==> u[j].0 != k
    ensures IndexOf(u, k) == i
  {
  }

  lemma LookupAbsent(u: Usages, k: string)
    ensures Lookup(u, k) == None <==> k !in KeySet(u)
  {
    if k in KeySet(u) {
      var j :| 0 <= j < |u| && u[j].0 == k;
      assert IndexOf(u, k) <= j;
    }
  }

  /**
   * After `obj[k] = v`, k maps to v, every other key is unchanged, and keys stay
   * distinct; existing keys keep their places and a new key comes last.
   */
  lemma AssignSpec(u: Usages, k: string, v: real)
    requires DistinctKeys(u)
    ensures DistinctKeys(Assign(u, k, v))
    ensures |Assign(u, k, v)| == if k in KeySet(u) then |u| else |u| + 1
    ensures forall j :: 0 <= j < |u| ==> Assign(u, k, v)[j].0 == u[j].0
    ensures k !in KeySet(u) ==> Assign(u, k, v)[|u|] == (k, v)
    ensures KeySet(Assign(u, k, v)) == KeySet(u) + {k}
    ensures Lookup(Assign(u, k, v), k) == Some(v)
    ensures forall k' :: k' != k ==> Lookup(Assign(u, k, v), k') == Lookup(u, k')
  {
    var i := IndexOf(u, k);
    var w := Assign(u, k, v);
    if i == |u| {
      assert w == u + [(k, v)];
      IndexOfIs(w, k, |u|);
      KeySetAppend(u, (k, v));
      forall k' | k' != k ensures Lookup(w, k') == Lookup(u, k') {
        var j := IndexOf(u, k');
        assert j < |u| ==> w[j] == u[j];
        IndexOfIs(w, k', if j < |u| then j else |w|);
      }
    } else {
      assert w == u[i := (k, v)];
      IndexOfIs(w, k, i);
      forall k' | k' != k ensures Lookup(w, k') == Lookup(u, k') {
        var j := IndexOf(u, k');
        assert j < |u| ==> j != i && w[j] == u[j];
        IndexOfIs(w, k', j);
      }
      forall x | x in KeySet(w) ensures x in KeySet(u) {
        var j :| 0 <= j < |w| && w[j].0 == x;
        assert u[j].0 == x;
      }
      forall x | x in KeySet(u) ensures x in KeySet(w) {
        var j :| 0 <= j < |u| && u[j].0 == x;
        assert w[j].0 == x;
      }
    }
  }

  /** Reading one key after `obj[k] = v`. */
  lemma AssignLookup(u: Usages, k: string, v: real, k': string)
    requires DistinctKeys(u)
    ensures Lookup(Assign(u, k, v), k') == if k' == k then Some(v) else Lookup(u, k')
  {
    AssignSpec(u, k, v);
  }

  /**
   * `newUsages` after the `forEach` over the first n controllers: controller
   * number j assigns `draw(j)`, the j-th `Math.random() * 100` of the tick.
   */
  function UsagesOf(cs: seq<Controller>, draw: nat -> real): (u: Usages)
    ensures |u| <= |cs|
    ensures cs != [] ==> (Key(cs[|cs| - 1]), draw(|cs| - 1)) in u
  {
    if cs == [] then []
    else Assign(UsagesOf(cs[..|cs| - 1], draw), Key(cs[|cs| - 1]), draw(|cs| - 1))
  }

  /** The `forEach` of useSystemInfo.ts:108-111, filling `newUsages` one controller at a time. */
  method CollectUsages(controllers: seq<Controller>, draw: nat -> real) returns (u: Usages)
    ensures u == UsagesOf(controllers, draw)
  {
    u := [];
    var i := 0;
    while i < |controllers|
      invariant 0 <= i <= |controllers|
      invariant u == UsagesOf(controllers[..i], draw)
    {
      u := Assign(u, Key(controllers[i]), draw(i));
      assert controllers[..i + 1][..i] == controllers[..i];
      i := i + 1;
    }
    assert controllers[..|controllers|] == controllers;
  }

  /** The keys the controllers resolve to. */
  function ControllerKeys(cs: seq<Controller>): set<string>
  {
    set j | 0 <= j < |cs| :: Key(cs[j])
  }

  lemma ControllerKeysSnoc(cs: seq<Controller>)
    requires cs != []
    ensures ControllerKeys(cs) == ControllerKeys(cs[..|cs| - 1]) + {Key(cs[|cs| - 1])}
  {
    var init := cs[..|cs| - 1];
    forall x | x in ControllerKeys(cs) ensures x in ControllerKeys(init) + {Key(cs[|cs| - 1])} {
      var j :| 0 <= j < |cs| && Key(cs[j]) == x;
      if j < |init| { assert Key(init[j]) == x; }
    }
    forall x | x in ControllerKeys(init) ensures x in ControllerKeys(cs) {
      var j :| 0 <= j < |init| && Key(init[j]) == x;
      assert Key(cs[j]) == x;
    }
  }

  /**
   * The collapsed usages have one entry per distinct key, and a key is present
   * exactly when some controller resolves to it.
   */
  lemma {:induction false} UsagesOfKeys(cs: seq<Controller>, draw: nat -> real)
    ensures DistinctKeys(UsagesOf(cs, draw))
    ensures KeySet(UsagesOf(cs, draw)) == ControllerKeys(cs)
  {
    if cs != [] {
      var n := |cs| - 1;
      UsagesOfKeys(cs[..n], draw);
      AssignSpec(UsagesOf(cs[..n], draw), Key(cs[n]), draw(n));
      ControllerKeysSnoc(cs);
    }
  }

  /** Each key holds the draw of the last controller that resolves to it. */
  lemma {:induction false} UsagesOfLastWins(cs: seq<Controller>, draw: nat -> real, j: nat)
    requires j < |cs|
    requires forall j' :: j < j' < |cs| ==> Key(cs[j']) != Key(cs[j])
    ensures Lookup(UsagesOf(cs, draw), Key(cs[j])) == Some(draw(j))
  {
    var n := |cs| - 1;
    var init := cs[..n];
    assert UsagesOf(cs, draw) == Assign(UsagesOf(init, draw), Key(cs[n]), draw(n));
    UsagesOfKeys(init, draw);
    AssignLookup(UsagesOf(init, draw), Key(cs[n]), draw(n), Key(cs[j]));
    if j < n {
      assert init[j] == cs[j];
      UsagesOfLastWins(init, draw, j);
      assert Key(cs[n]) != Key(cs[j]);
    }
  }

  /** Two controllers with an empty model and the same vendor collapse into one key. */
  lemma SameVendorCollides(vendor: string, v1: int, v2: int, draw: nat -> real)
    ensures UsagesOf([Controller("", vendor, v1), Controller("", vendor, v2)], draw) == [(vendor, draw(1))]
  {
    var cs := [Controller("", vendor, v1), Controller("", vendor, v2)];
    assert cs[..1][..0] == [];
    assert UsagesOf(cs[..1], draw) == [(vendor, draw(0))];
    assert IndexOf([(vendor, draw(0))], vendor) == 0;
  }

  /** The history of k, or the empty history for a key never seen. */
  function HistoryOf(m: map<string, seq<real>>, k: string): seq<real>
  {
    if k in m then m[k] else []
  }

  /**
   * What a tick does to the per-GPU histories: the keys are the old ones plus
   * those seen this tick, each key seen gets its usage pushed (a key seen for the
   * first time starts as [usage]), and every other history is unchanged.
   */
  predicate HistoriesUpdated(prev: map<string, seq<real>>, u: Usages, h: map<string, seq<real>>)
  {
    h.Keys == prev.Keys + KeySet(u)
    && (forall i :: 0 <= i < |u| ==> u[i].0 in h && h[u[i].0] == History.Push(HistoryOf(prev, u[i].0), u[i].1))
    && (forall k :: k in prev && k !in KeySet(u) ==> h[k] == prev[k])
  }

  /** Every history within the cap. */
  predicate CappedHistories(m: map<string, seq<real>>)
  {
    forall k :: k in m ==> |m[k]| <= History.Cap
  }

  /** The histories after handling the usages of u in order, each pushed onto its key's history. */
  function Updated(prev: map<string, seq<real>>, u: Usages): map<string, seq<real>>
  {
    if u == [] then prev
    else
      var m := Updated(prev, u[..|u| - 1]);
      var x := u[|u| - 1];
      m[x.0 := History.Push(HistoryOf(m, x.0), x.1)]
  }

  /** With distinct keys, handling the usages in order is the update HistoriesUpdated describes. */
  lemma {:induction false} UpdatedSpec(prev: map<string, seq<real>>, u: Usages)
    requires DistinctKeys(u)
    ensures HistoriesUpdated(prev, u, Updated(prev, u))
  {
    if u != [] {
      var n := |u| - 1;
      var init, x := u[..n], u[n];
      assert u == init + [x];
      UpdatedSpec(prev, init);
      KeySetAppend(init, x);
      var m := Updated(prev, init);
      assert x.0 !in KeySet(init);
      assert HistoryOf(m, x.0) == HistoryOf(prev, x.0);
      var h := Updated(prev, u);
      forall j | 0 <= j < |u|
        ensures u[j].0 in h && h[u[j].0] == History.Push(HistoryOf(prev, u[j].0), u[j].1)
      {
        if j < n {
          assert u[j] == init[j];
          assert u[j].0 != x.0;
        }
      }
    }
  }

  /** The lengths of all histories stay within the cap. */
  lemma UpdatedStaysCapped(prev: map<string, seq<real>>, u: Usages, h: map<string, seq<real>>)
    requires HistoriesUpdated(prev, u, h) && CappedHistories(prev)
    ensures CappedHistories(h)
  {
    forall k | k in h ensures |h[k]| <= History.Cap {
      if k in KeySet(u) {
        var i :| 0 <= i < |u| && u[i].0 == k;
      }
    }
  }

  /** Handling one more entry is one more map update. */
  lemma UpdatedStep(prev: map<string, seq<real>>, u: Usages, i: nat)
    requires i < |u|
    ensures Updated(prev, u[..i + 1])
      == Updated(prev, u[..i])[u[i].0 := History.Push(HistoryOf(Updated(prev, u[..i]), u[i].0), u[i].1)]
  {
    assert u[..i + 1][..i] == u[..i];
  }

  /** The `forEach` of useSystemInfo.ts:114-128 over `Object.keys(newUsages)`. */
  method UpdateHistories(prev: map<string, seq<real>>, u: Usages) returns (h: map<string, seq<real>>)
    requires DistinctKeys(u)
    ensures HistoriesUpdated(prev, u, h)
  {
    h := prev;
    var i := 0;
    while i < |u|
      invariant 0 <= i <= |u|
      invariant h == Updated(prev, u[..i])
    {
      var key, usage := u[i].0, u[i].1;
      h := h[key := History.Push(HistoryOf(h, key), usage)];
      UpdatedStep(prev, u, i);
      i := i + 1;
    }
    assert u[..|u|] == u;
    UpdatedSpec(prev, u);
  }
}
