/**
  The weighted least-recently-used cache (reuleauxcoder-tui/renderer/cache.js:1-30).

  A JavaScript map keeps its keys in insertion order, so the entries are a sequence
  without repeated keys, the least recently used one first.
 */
module BoundedCache {
  import opened Prelude

  datatype Entry<K, V> = Entry(key: K, value: V, weight: nat)

  ghost predicate Distinct<K, V>(es: seq<Entry<K, V>>) {
    forall i, j :: 0 <= i < j < |es| ==> es[i].key != es[j].key
  }

  function Find<K(==), V>(es: seq<Entry<K, V>>, key: K, from: nat): (k: nat)
    requires from <= |es|
    ensures from <= k <= |es| && (k < |es| ==> es[k].key == key)
    ensures forall i :: from <= i < k ==> es[i].key != key
    decreases |es| - from
  {
    if from == |es| || es[from].key == key then from else Find(es, key, from + 1)
  }

  function Lookup<K(==), V>(es: seq<Entry<K, V>>, key: K): Option<V> {
    var k := Find(es, key, 0);
    if k < |es| then Some(es[k].value) else None
  }

  /** The sequence without its element at `k`. */
  function Cut<K, V>(es: seq<Entry<K, V>>, k: nat): (r: seq<Entry<K, V>>)
    requires k < |es|
    ensures |r| == |es| - 1 && forall i :: 0 <= i < |r| ==> r[i] == if i < k then es[i] else es[i + 1]
  {
    es[..k] + es[k + 1..]
  }

  function Without<K(==), V>(es: seq<Entry<K, V>>, key: K): seq<Entry<K, V>> {
    var k := Find(es, key, 0);
    if k < |es| then Cut(es, k) else es
  }

  /** `get`: a hit moves to the end. */
  function Touched<K(==), V>(es: seq<Entry<K, V>>, key: K): seq<Entry<K, V>> {
    var k := Find(es, key, 0);
    if k < |es| then Without(es, key) + [es[k]] else es
  }

  function Total<K, V>(es: seq<Entry<K, V>>): nat {
    if es == [] then 0 else es[0].weight + Total(es[1..])
  }

  predicate Fits<K, V>(es: seq<Entry<K, V>>, maxEntries: nat, maxWeight: nat) {
    |es| <= maxEntries && Total(es) <= maxWeight
  }

  function Evicted<K, V>(es: seq<Entry<K, V>>, maxEntries: nat, maxWeight: nat): seq<Entry<K, V>> {
    if es == [] || Fits(es, maxEntries, maxWeight) then es else Evicted(es[1..], maxEntries, maxWeight)
  }

  /** `set`: the old entry leaves even when the new one is too heavy to keep. */
  function Stored<K(==), V>(es: seq<Entry<K, V>>, e: Entry<K, V>, maxEntries: nat, maxWeight: nat): seq<Entry<K, V>> {
    if e.weight > maxWeight then Without(es, e.key)
    else Evicted(Without(es, e.key) + [e], maxEntries, maxWeight)
  }

  // ----- Weights -----

  lemma {:induction false} TotalSplit<K, V>(a: seq<Entry<K, V>>, b: seq<Entry<K, V>>)
    ensures Total(a + b) == Total(a) + Total(b)
  {
    if a == [] {
      assert a + b == b;
    } else {
      assert (a + b)[0] == a[0] && (a + b)[1..] == a[1..] + b;
      TotalSplit(a[1..], b);
    }
  }

  lemma {:induction false} CutTotal<K, V>(es: seq<Entry<K, V>>, k: nat)
    requires k < |es|
    ensures Total(Cut(es, k)) == Total(es) - es[k].weight
  {
    if k == 0 {
      assert Cut(es, 0) == es[1..];
    } else {
      CutTotal(es[1..], k - 1);
      assert Cut(es, k)[0] == es[0] && Cut(es, k)[1..] == Cut(es[1..], k - 1);
    }
  }

  lemma WithoutTotal<K, V>(es: seq<Entry<K, V>>, key: K)
    requires Find(es, key, 0) < |es|
    ensures Total(Without(es, key)) == Total(es) - es[Find(es, key, 0)].weight
  {
    CutTotal(es, Find(es, key, 0));
  }

  lemma WithoutFits<K, V>(es: seq<Entry<K, V>>, key: K, maxEntries: nat, maxWeight: nat)
    requires Fits(es, maxEntries, maxWeight)
    ensures Fits(Without(es, key), maxEntries, maxWeight)
  {
    if Find(es, key, 0) < |es| {
      WithoutTotal(es, key);
    }
  }

  // ----- Keys -----

  lemma CutDistinct<K, V>(es: seq<Entry<K, V>>, k: nat)
    requires Distinct(es) && k < |es|
    ensures Distinct(Cut(es, k))
    ensures forall i :: 0 <= i < |es| - 1 ==> Cut(es, k)[i].key != es[k].key
  {
    var w := Cut(es, k);
    forall i, j | 0 <= i < j < |w| ensures w[i].key != w[j].key {
      var i', j' := if i < k then i else i + 1, if j < k then j else j + 1;
      assert w[i] == es[i'] && w[j] == es[j'];
    }
    forall i | 0 <= i < |w| ensures w[i].key != es[k].key {
      var i' := if i < k then i else i + 1;
      assert w[i] == es[i'];
    }
  }

  lemma WithoutKeys<K, V>(es: seq<Entry<K, V>>, key: K)
    requires Distinct(es)
    ensures Distinct(Without(es, key))
    ensures forall i :: 0 <= i < |Without(es, key)| ==> Without(es, key)[i].key != key
  {
    var k := Find(es, key, 0);
    if k < |es| {
      CutDistinct(es, k);
    }
  }

  lemma SnocDistinct<K, V>(es: seq<Entry<K, V>>, e: Entry<K, V>)
    requires Distinct(es) && forall i :: 0 <= i < |es| ==> es[i].key != e.key
    ensures Distinct(es + [e])
  {
  }

  // ----- Eviction -----

  /** Eviction keeps the longest stretch of recent entries that fits. */
  lemma {:induction false} EvictedIsLongest<K, V>(es: seq<Entry<K, V>>, maxEntries: nat, maxWeight: nat)
    ensures var r := Evicted(es, maxEntries, maxWeight); var k := |es| - |r|;
      && 0 <= k && r == es[k..] && Fits(r, maxEntries, maxWeight)
      && forall j :: 0 <= j < k ==> !Fits(es[j..], maxEntries, maxWeight)
  {
    if es != [] && !Fits(es, maxEntries, maxWeight) {
      EvictedIsLongest(es[1..], maxEntries, maxWeight);
      var k := |es| - |Evicted(es, maxEntries, maxWeight)|;
      assert es[1..][k - 1..] == es[k..];
      forall j | 0 <= j < k ensures !Fits(es[j..], maxEntries, maxWeight) {
        if j > 0 {
          assert es[1..][j - 1..] == es[j..];
        } else {
          assert es[0..] == es;
        }
      }
    } else {
      assert es[0..] == es;
    }
  }

  lemma LastStays<K, V>(es: seq<Entry<K, V>>, e: Entry<K, V>, maxEntries: nat, maxWeight: nat)
    requires maxEntries > 0 && e.weight <= maxWeight
    ensures var r := Evicted(es + [e], maxEntries, maxWeight); r != [] && r[|r| - 1] == e
  {
    var all := es + [e];
    EvictedIsLongest(all, maxEntries, maxWeight);
    assert all[|es|..] == [e];
    assert Total([e]) == e.weight;
    assert Fits(all[|es|..], maxEntries, maxWeight);
  }

  // ----- The cache itself -----

  class BoundedCache<K(==), V> {
    const maxEntries: nat
    const maxWeight: nat
    const weigh: (K, V) -> nat
    var entries: seq<Entry<K, V>>
    var weight: int

    /** The weight is exact and no key occurs twice. */
    ghost predicate Exact()
      reads this
    {
      && Distinct(entries) && weight == Total(entries)
      && forall i :: 0 <= i < |entries| ==> entries[i].weight == weigh(entries[i].key, entries[i].value)
    }

    ghost predicate Valid()
      reads this
    {
      Exact() && Fits(entries, maxEntries, maxWeight)
    }

    constructor (maxEntries: nat, maxWeight: nat, weigh: (K, V) -> nat)
      ensures Valid() && entries == []
      ensures this.maxEntries == maxEntries && this.maxWeight == maxWeight && this.weigh == weigh
    {
      this.maxEntries, this.maxWeight, this.weigh := maxEntries, maxWeight, weigh;
      entries, weight := [], 0;
    }

    method Get(key: K) returns (r: Option<V>)
      requires Valid()
      modifies this`entries
      ensures Valid()
      ensures r == Lookup(old(entries), key) && entries == Touched(old(entries), key)
    {
      var k := Find(entries, key, 0);
      if k == |entries| {
        return None;
      }
      var e := entries[k];
      WithoutTotal(entries, key);
      WithoutKeys(entries, key);
      SnocDistinct(Without(entries, key), e);
      TotalSplit(Without(entries, key), [e]);
      entries := Without(entries, key) + [e];
      r := Some(e.value);
    }

    /** The previous entry of a key leaves. */
    method Delete(key: K)
      requires Exact()
      modifies this
      ensures Exact() && entries == Without(old(entries), key)
    {
      var k := Find(entries, key, 0);
      WithoutKeys(entries, key);
      if k < |entries| {
        WithoutTotal(entries, key);
        weight := weight - entries[k].weight;
        entries := Cut(entries, k);
      }
    }

    /** The eviction loop. */
    method Evict()
      requires Exact()
      modifies this
      ensures Valid() && entries == Evicted(old(entries), maxEntries, maxWeight)
    {
      while |entries| > maxEntries || weight > maxWeight
        invariant Exact()
        invariant Evicted(entries, maxEntries, maxWeight) == Evicted(old(entries), maxEntries, maxWeight)
        decreases |entries|
      {
        var oldest := entries[0];
        weight := weight - oldest.weight;
        entries := entries[1..];
      }
    }

    method Set(key: K, value: V)
      requires Valid()
      modifies this
      ensures Valid()
      ensures entries == Stored(old(entries), Entry(key, value, weigh(key, value)), maxEntries, maxWeight)
    {
      WithoutFits(entries, key, maxEntries, maxWeight);
      WithoutKeys(entries, key);
      Delete(key);
      var w := weigh(key, value);
      if w > maxWeight {
        return;
      }
      var e := Entry(key, value, w);
      SnocDistinct(entries, e);
      TotalSplit(entries, [e]);
      entries := entries + [e];
      weight := weight + w;
      Evict();
    }
  }

  lemma TouchedFits<K, V>(es: seq<Entry<K, V>>, key: K, maxEntries: nat, maxWeight: nat)
    requires Fits(es, maxEntries, maxWeight)
    ensures Fits(Touched(es, key), maxEntries, maxWeight)
  {
    var k := Find(es, key, 0);
    if k < |es| {
      WithoutTotal(es, key);
      TotalSplit(Without(es, key), [es[k]]);
    }
  }

  lemma TouchedDistinct<K, V>(es: seq<Entry<K, V>>, key: K)
    requires Distinct(es)
    ensures Distinct(Touched(es, key))
  {
    var k := Find(es, key, 0);
    if k < |es| {
      WithoutKeys(es, key);
      SnocDistinct(Without(es, key), es[k]);
    }
  }

  // ----- Order of use -----

  /** Every entry was used, before `now`, and later than the entries in front of it. */
  ghost predicate Rising<K, V>(es: seq<Entry<K, V>>, use: K -> int, now: int) {
    && (forall i :: 0 <= i < |es| ==> 0 <= use(es[i].key) < now)
    && (forall i, j :: 0 <= i < j < |es| ==> use(es[i].key) < use(es[j].key))
  }

  ghost predicate Has<K, V>(es: seq<Entry<K, V>>, key: K) {
    exists i :: 0 <= i < |es| && es[i].key == key
  }

  /** The key was used before every entry. */
  ghost predicate Before<K, V>(es: seq<Entry<K, V>>, use: K -> int, key: K) {
    forall i :: 0 <= i < |es| ==> use(key) < use(es[i].key)
  }

  /** The entries stand in order of use, and a key without an entry was used before every key that has one. */
  ghost predicate InOrder<K(!new), V>(es: seq<Entry<K, V>>, use: K -> int, now: int) {
    Rising(es, use, now) && forall key :: !Has(es, key) ==> Before(es, use, key)
  }

  lemma HasFind<K, V>(es: seq<Entry<K, V>>, key: K)
    ensures Has(es, key) <==> Find(es, key, 0) < |es|
  {
  }

  /** Nothing but the use of `key` changes, from `use` to `use'`. */
  ghost predicate Changes<K(!new)>(use: K -> int, use': K -> int, key: K) {
    forall k :: k != key ==> use'(k) == use(k)
  }

  lemma CutRises<K(!new), V>(es: seq<Entry<K, V>>, use: K -> int, use': K -> int, now: int, at: nat)
    requires Distinct(es) && Rising(es, use, now) && at < |es| && Changes(use, use', es[at].key)
    ensures Rising(Cut(es, at), use', now)
  {
    var w := Cut(es, at);
    CutDistinct(es, at);
    forall i | 0 <= i < |w| ensures use'(w[i].key) == use(es[if i < at then i else i + 1].key) {
      assert w[i].key != es[at].key;
    }
  }

  lemma CutHas<K, V>(es: seq<Entry<K, V>>, at: nat, k: K)
    requires at < |es| && !Has(Cut(es, at), k)
    ensures k == es[at].key || !Has(es, k)
  {
    var w := Cut(es, at);
    if k != es[at].key {
      forall i | 0 <= i < |es| ensures es[i].key != k {
        if i < at {
          assert w[i] == es[i];
        } else if i > at {
          assert w[i - 1] == es[i];
        }
      }
    }
  }

  lemma CutBefore<K(!new), V>(es: seq<Entry<K, V>>, use: K -> int, use': K -> int, at: nat, k: K)
    requires Distinct(es) && at < |es| && Changes(use, use', es[at].key) && k != es[at].key && Before(es, use, k)
    ensures Before(Cut(es, at), use', k)
  {
    var w := Cut(es, at);
    CutDistinct(es, at);
    forall i | 0 <= i < |w| ensures use'(k) < use'(w[i].key) {
      var j := if i < at then i else i + 1;
      assert w[i] == es[j];
    }
  }

  /** One key is forgotten. */
  lemma ForgetKeepsOrder<K(!new), V>(es: seq<Entry<K, V>>, use: K -> int, use': K -> int, now: int, key: K)
    requires Distinct(es) && InOrder(es, use, now) && use'(key) == -1 && Changes(use, use', key)
    ensures InOrder(Without(es, key), use', now)
  {
    var w, at := Without(es, key), Find(es, key, 0);
    HasFind(es, key);
    if at < |es| {
      CutRises(es, use, use', now, at);
      forall k | !Has(w, k) ensures Before(w, use', k) {
        CutHas(es, at, k);
        if k != key {
          CutBefore(es, use, use', at, k);
        }
      }
    } else {
      assert forall i :: 0 <= i < |es| ==> es[i].key != key;
      forall k | !Has(w, k) ensures Before(w, use', k) {
        assert Before(es, use, k);
      }
    }
  }

  /** A new entry is the last used. */
  lemma AddKeepsOrder<K(!new), V>(es: seq<Entry<K, V>>, use: K -> int, use': K -> int, now: nat, e: Entry<K, V>)
    requires InOrder(es, use, now) && !Has(es, e.key) && use'(e.key) == now && Changes(use, use', e.key)
    requires forall k :: use(k) < now
    ensures InOrder(es + [e], use', now + 1)
  {
    var all := es + [e];
    assert forall i :: 0 <= i < |es| ==> all[i] == es[i] && es[i].key != e.key;
    forall k | !Has(all, k) ensures Before(all, use', k) {
      assert all[|es|].key != k;
      assert !Has(es, k) by {
        assert forall i :: 0 <= i < |es| ==> all[i].key != k;
      }
      assert Before(es, use, k);
    }
  }

  /** The least recently used entries leave. */
  lemma DropKeepsOrder<K(!new), V>(es: seq<Entry<K, V>>, use: K -> int, now: int, k: nat)
    requires InOrder(es, use, now) && k <= |es|
    ensures InOrder(es[k..], use, now)
  {
    var r := es[k..];
    assert forall i :: 0 <= i < |r| ==> r[i] == es[k + i];
    forall key | !Has(r, key) ensures Before(r, use, key) {
      forall j | k <= j < |es| ensures es[j].key != key {
        assert r[j - k] == es[j];
      }
      if Has(es, key) {
        var j :| 0 <= j < |es| && es[j].key == key;
        assert j < k;
      } else {
        assert Before(es, use, key);
      }
    }
  }

  /** A key is used: its entry, if there is one, goes to the end. */
  lemma UseKeepsOrder<K(!new), V>(es: seq<Entry<K, V>>, use: K -> int, use': K -> int, now: nat, e: Entry<K, V>)
    requires Distinct(es) && InOrder(es, use, now) && use'(e.key) == now && Changes(use, use', e.key)
    requires forall k :: use(k) < now
    ensures InOrder(Without(es, e.key) + [e], use', now + 1)
  {
    var between := k => if k == e.key then -1 else use(k);
    ForgetKeepsOrder(es, use, between, now, e.key);
    WithoutKeys(es, e.key);
    assert !Has(Without(es, e.key), e.key);
    AddKeepsOrder(Without(es, e.key), between, use', now, e);
  }

  // ----- All runs -----

  datatype Op<K, V> = GetOp(key: K) | SetOp(entry: Entry<K, V>)

  function Next<K(==), V>(es: seq<Entry<K, V>>, op: Op<K, V>, maxEntries: nat, maxWeight: nat): seq<Entry<K, V>> {
    match op
    case GetOp(key) => Touched(es, key)
    case SetOp(e) => Stored(es, e, maxEntries, maxWeight)
  }

  function Run<K(==), V>(ops: seq<Op<K, V>>, maxEntries: nat, maxWeight: nat): seq<Entry<K, V>> {
    if ops == [] then []
    else Next(Run(ops[..|ops| - 1], maxEntries, maxWeight), ops[|ops| - 1], maxEntries, maxWeight)
  }

  /** What the log says of a key: the value it was last set to, whether or not that was kept. */
  function LastSet<K(==), V>(ops: seq<Op<K, V>>, key: K): Option<V> {
    if ops == [] then None
    else
      var last := ops[|ops| - 1];
      if last.SetOp? && last.entry.key == key then Some(last.entry.value) else LastSet(ops[..|ops| - 1], key)
  }

  /**
    When a key was last used: set, or got with a hit. A set that is too heavy to keep ends
    the use of its key; -1 stands for never.
   */
  function LastUse<K(==), V>(ops: seq<Op<K, V>>, key: K, maxEntries: nat, maxWeight: nat): (i: int)
    ensures -1 <= i < |ops|
  {
    if ops == [] then -1
    else
      var front, last := ops[..|ops| - 1], ops[|ops| - 1];
      if last.SetOp? && last.entry.key == key then (if last.entry.weight > maxWeight then -1 else |front|)
      else if last.GetOp? && last.key == key && Lookup(Run(front, maxEntries, maxWeight), key).Some? then |front|
      else LastUse(front, key, maxEntries, maxWeight)
  }

  /** The state of a cache after a log: both bounds, no key twice, order of use, and the values last set. */
  ghost predicate Faithful<K(!new), V>(es: seq<Entry<K, V>>, ops: seq<Op<K, V>>, maxEntries: nat, maxWeight: nat) {
    && Distinct(es) && Fits(es, maxEntries, maxWeight)
    && InOrder(es, Uses(ops, maxEntries, maxWeight), |ops|)
    && Current(es, ops)
  }

  ghost predicate Current<K, V>(es: seq<Entry<K, V>>, ops: seq<Op<K, V>>) {
    forall i :: 0 <= i < |es| ==> LastSet(ops, es[i].key) == Some(es[i].value)
  }

  lemma {:induction false} CurrentKept<K, V>(es: seq<Entry<K, V>>, ops: seq<Op<K, V>>, op: Op<K, V>,
                                             maxEntries: nat, maxWeight: nat)
    requires Distinct(es) && Current(es, ops)
    ensures Current(Next(es, op, maxEntries, maxWeight), ops + [op])
  {
    var r, longer := Next(es, op, maxEntries, maxWeight), ops + [op];
    assert longer[..|ops|] == ops;
    match op
    case GetOp(key) =>
      TouchedFrom(es, key);
      forall i | 0 <= i < |r| ensures LastSet(longer, r[i].key) == Some(r[i].value) {
        assert r[i] in es;
      }
    case SetOp(e) =>
      StoredFrom(es, e, maxEntries, maxWeight);
      StoredKeys(es, e, maxEntries, maxWeight);
      forall i | 0 <= i < |r| ensures LastSet(longer, r[i].key) == Some(r[i].value) {
        assert r[i] in es || r[i] == e;
      }
  }

  /** After a set, the key has no entry but the one just set. */
  lemma StoredKeys<K, V>(es: seq<Entry<K, V>>, e: Entry<K, V>, maxEntries: nat, maxWeight: nat)
    requires Distinct(es)
    ensures var r := Stored(es, e, maxEntries, maxWeight);
      Distinct(r) && forall i :: 0 <= i < |r| && r[i].key == e.key ==> r[i] == e
  {
    var w := Without(es, e.key);
    WithoutKeys(es, e.key);
    if e.weight <= maxWeight {
      var all := w + [e];
      SnocDistinct(w, e);
      EvictedIsLongest(all, maxEntries, maxWeight);
      var r := Evicted(all, maxEntries, maxWeight);
      forall i | 0 <= i < |r| ensures r[i] == all[|all| - |r| + i] {
      }
    }
  }

  lemma LastUseSnoc<K, V>(ops: seq<Op<K, V>>, op: Op<K, V>, k: K, maxEntries: nat, maxWeight: nat)
    ensures var es, before := Run(ops, maxEntries, maxWeight), LastUse(ops, k, maxEntries, maxWeight);
      LastUse(ops + [op], k, maxEntries, maxWeight) == match op
        case GetOp(key) => if key == k && Find(es, k, 0) < |es| then |ops| else before
        case SetOp(e) => if e.key != k then before else if e.weight > maxWeight then -1 else |ops|
  {
    assert (ops + [op])[..|ops|] == ops;
  }

  /** When keys were last used, as a function of the key. */
  ghost function Uses<K, V>(ops: seq<Op<K, V>>, maxEntries: nat, maxWeight: nat): K -> int {
    k => LastUse(ops, k, maxEntries, maxWeight)
  }

  lemma GetKeepsOrder<K(!new), V>(es: seq<Entry<K, V>>, ops: seq<Op<K, V>>, key: K, maxEntries: nat, maxWeight: nat)
    requires Distinct(es) && es == Run(ops, maxEntries, maxWeight)
    requires InOrder(es, Uses(ops, maxEntries, maxWeight), |ops|)
    ensures InOrder(Touched(es, key), Uses(ops + [GetOp(key)], maxEntries, maxWeight), |ops| + 1)
  {
    var before, after := Uses(ops, maxEntries, maxWeight), Uses(ops + [GetOp(key)], maxEntries, maxWeight);
    var at := Find(es, key, 0);
    forall k ensures after(k) == if k == key && at < |es| then |ops| else before(k) {
      LastUseSnoc(ops, GetOp(key), k, maxEntries, maxWeight);
    }
    if at < |es| {
      UseKeepsOrder(es, before, after, |ops|, es[at]);
    } else {
      SameOrder(es, before, after, |ops|);
    }
  }

  lemma SameOrder<K(!new), V>(es: seq<Entry<K, V>>, use: K -> int, use': K -> int, now: int)
    requires InOrder(es, use, now) && forall k :: use'(k) == use(k)
    ensures InOrder(es, use', now + 1)
  {
    forall k | !Has(es, k) ensures Before(es, use', k) {
      assert Before(es, use, k);
    }
  }

  lemma SetKeepsOrder<K(!new), V>(es: seq<Entry<K, V>>, ops: seq<Op<K, V>>, e: Entry<K, V>,
                                  maxEntries: nat, maxWeight: nat)
    requires Distinct(es) && InOrder(es, Uses(ops, maxEntries, maxWeight), |ops|)
    ensures InOrder(Stored(es, e, maxEntries, maxWeight), Uses(ops + [SetOp(e)], maxEntries, maxWeight), |ops| + 1)
  {
    var before, after := Uses(ops, maxEntries, maxWeight), Uses(ops + [SetOp(e)], maxEntries, maxWeight);
    forall k ensures after(k) == if k != e.key then before(k) else if e.weight > maxWeight then -1 else |ops| {
      LastUseSnoc(ops, SetOp(e), k, maxEntries, maxWeight);
    }
    if e.weight > maxWeight {
      ForgetKeepsOrder(es, before, after, |ops|, e.key);
      SameOrder(Without(es, e.key), after, after, |ops|);
    } else {
      var all := Without(es, e.key) + [e];
      UseKeepsOrder(es, before, after, |ops|, e);
      EvictedIsLongest(all, maxEntries, maxWeight);
      DropKeepsOrder(all, after, |ops| + 1, |all| - |Evicted(all, maxEntries, maxWeight)|);
    }
  }

  lemma StoredFits<K, V>(es: seq<Entry<K, V>>, e: Entry<K, V>, maxEntries: nat, maxWeight: nat)
    requires Fits(es, maxEntries, maxWeight)
    ensures Fits(Stored(es, e, maxEntries, maxWeight), maxEntries, maxWeight)
  {
    if e.weight > maxWeight {
      WithoutFits(es, e.key, maxEntries, maxWeight);
    } else {
      EvictedIsLongest(Without(es, e.key) + [e], maxEntries, maxWeight);
    }
  }

  lemma StepKeeps<K(!new), V>(ops: seq<Op<K, V>>, op: Op<K, V>, maxEntries: nat, maxWeight: nat)
    requires Faithful(Run(ops, maxEntries, maxWeight), ops, maxEntries, maxWeight)
    ensures Faithful(Next(Run(ops, maxEntries, maxWeight), op, maxEntries, maxWeight), ops + [op],
                     maxEntries, maxWeight)
  {
    var es := Run(ops, maxEntries, maxWeight);
    CurrentKept(es, ops, op, maxEntries, maxWeight);
    match op
    case GetOp(key) =>
      TouchedDistinct(es, key);
      TouchedFits(es, key, maxEntries, maxWeight);
      GetKeepsOrder(es, ops, key, maxEntries, maxWeight);
    case SetOp(e) =>
      StoredKeys(es, e, maxEntries, maxWeight);
      StoredFits(es, e, maxEntries, maxWeight);
      SetKeepsOrder(es, ops, e, maxEntries, maxWeight);
  }

  /** Over every run, against what the log of operations says. */
  lemma {:induction false} RunKeeps<K(!new), V>(ops: seq<Op<K, V>>, maxEntries: nat, maxWeight: nat)
    ensures Faithful(Run(ops, maxEntries, maxWeight), ops, maxEntries, maxWeight)
  {
    if ops != [] {
      var front, last := ops[..|ops| - 1], ops[|ops| - 1];
      RunKeeps(front, maxEntries, maxWeight);
      StepKeeps(front, last, maxEntries, maxWeight);
      assert ops == front + [last];
    }
  }

  /** A hit is the value of the last set of that key. */
  lemma HitsAreExact<K(!new), V>(ops: seq<Op<K, V>>, maxEntries: nat, maxWeight: nat, key: K)
    ensures var found := Lookup(Run(ops, maxEntries, maxWeight), key); found.None? || found == LastSet(ops, key)
  {
    RunKeeps(ops, maxEntries, maxWeight);
  }

  /** A key that was dropped was used before every key that was kept. */
  lemma DroppedBeforeKept<K(!new), V>(ops: seq<Op<K, V>>, maxEntries: nat, maxWeight: nat, dropped: K, i: nat)
    requires var es := Run(ops, maxEntries, maxWeight); i < |es| && Lookup(es, dropped).None?
    ensures var es := Run(ops, maxEntries, maxWeight);
      LastUse(ops, dropped, maxEntries, maxWeight) < LastUse(ops, es[i].key, maxEntries, maxWeight)
  {
    var es := Run(ops, maxEntries, maxWeight);
    RunKeeps(ops, maxEntries, maxWeight);
    HasFind(es, dropped);
    assert Before(es, Uses(ops, maxEntries, maxWeight), dropped);
  }

  /** One operation on a cache without bounds. */
  function NextUnbounded<K(==), V>(un: seq<Entry<K, V>>, op: Op<K, V>): seq<Entry<K, V>> {
    match op
    case GetOp(key) => Touched(un, key)
    case SetOp(e) => Without(un, e.key) + [e]
  }

  /** A cache without bounds, for comparison. */
  function Unbounded<K(==), V>(ops: seq<Op<K, V>>): seq<Entry<K, V>> {
    if ops == [] then [] else NextUnbounded(Unbounded(ops[..|ops| - 1]), ops[|ops| - 1])
  }

  /**
    The entries need not be the most recent ones of a cache without bounds, because a get
    that misses is a use there and none here: with room for one entry, set 1, set 2, get 1.
   */
  lemma MissIsNoUse(a: Entry<nat, nat>, b: Entry<nat, nat>)
    requires a.key == 1 && b.key == 2 && a.weight <= 10 && b.weight <= 10
    ensures Run([SetOp(a), SetOp(b), GetOp(1)], 1, 10) == [b]
    ensures Unbounded([SetOp(a), SetOp(b), GetOp(1)]) == [b, a]
  {
    var ops := [SetOp(a), SetOp(b), GetOp(1)];
    var two, one := [SetOp(a), SetOp(b)], [SetOp(a)];
    assert ops[..2] == two && two[..1] == one && one[..0] == [];
    assert [] + [a] == [a] && [a] + [b] == [a, b] && [a, b][1..] == [b];
    assert Total([a]) == a.weight && Total([b]) == b.weight;
    assert Run(one, 1, 10) == [a];
    assert Unbounded(one) == Without(Unbounded(one[..0]), 1) + [a] == [a];
    assert Run(two, 1, 10) == Evicted([a, b], 1, 10) == [b] && Unbounded(two) == [a, b];
    assert Find([a, b], 1, 0) == 0;
    assert Cut([a, b], 0) + [a] == [b, a];
  }

  // ----- Against a cache without bounds -----

  ghost predicate Suffix<K, V>(b: seq<Entry<K, V>>, u: seq<Entry<K, V>>) {
    |b| <= |u| && forall i :: 0 <= i < |b| ==> b[i] == u[|u| - |b| + i]
  }

  lemma SuffixSnoc<K, V>(b: seq<Entry<K, V>>, u: seq<Entry<K, V>>, e: Entry<K, V>)
    requires Suffix(b, u)
    ensures Suffix(b + [e], u + [e])
  {
  }

  lemma SuffixTrans<K, V>(a: seq<Entry<K, V>>, b: seq<Entry<K, V>>, c: seq<Entry<K, V>>)
    requires Suffix(a, b) && Suffix(b, c)
    ensures Suffix(a, c)
  {
    forall i | 0 <= i < |a| ensures a[i] == c[|c| - |a| + i] {
      assert a[i] == b[|b| - |a| + i];
    }
  }

  lemma FindInSuffix<K, V>(b: seq<Entry<K, V>>, u: seq<Entry<K, V>>, key: K)
    requires Suffix(b, u) && Distinct(u)
    ensures var k := Find(b, key, 0);
      if k < |b| then Find(u, key, 0) == |u| - |b| + k
      else Find(u, key, 0) == |u| || Find(u, key, 0) < |u| - |b|
  {
    var k, n := Find(b, key, 0), |u| - |b|;
    if k < |b| {
      assert b[k] == u[n + k];
    } else {
      forall m | n <= m < |u| ensures u[m].key != key {
        assert b[m - n] == u[m];
      }
    }
  }

  lemma CutBoth<K, V>(b: seq<Entry<K, V>>, u: seq<Entry<K, V>>, k: nat)
    requires Suffix(b, u) && k < |b|
    ensures Suffix(Cut(b, k), Cut(u, |u| - |b| + k))
  {
    var n := |u| - |b|;
    var b', u' := Cut(b, k), Cut(u, n + k);
    forall i | 0 <= i < |b'| ensures b'[i] == u'[n + i] {
      var j := if i < k then i else i + 1;
      assert b'[i] == b[j] && u'[n + i] == u[n + j];
    }
  }

  lemma CutFront<K, V>(b: seq<Entry<K, V>>, u: seq<Entry<K, V>>, j: nat)
    requires Suffix(b, u) && j < |u| - |b|
    ensures Suffix(b, Cut(u, j))
  {
    var n := |u| - |b|;
    forall i | 0 <= i < |b| ensures b[i] == Cut(u, j)[n - 1 + i] {
      assert Cut(u, j)[n - 1 + i] == u[n + i];
    }
  }

  lemma SuffixWithout<K, V>(b: seq<Entry<K, V>>, u: seq<Entry<K, V>>, key: K)
    requires Suffix(b, u) && Distinct(u)
    ensures Suffix(Without(b, key), Without(u, key))
  {
    FindInSuffix(b, u, key);
    var k, j := Find(b, key, 0), Find(u, key, 0);
    if k < |b| {
      CutBoth(b, u, k);
    } else if j < |u| {
      CutFront(b, u, j);
    }
  }

  lemma SuffixTouched<K, V>(b: seq<Entry<K, V>>, u: seq<Entry<K, V>>, key: K)
    requires Suffix(b, u) && Distinct(u) && Find(b, key, 0) < |b|
    ensures Suffix(Touched(b, key), Touched(u, key))
  {
    var k := Find(b, key, 0);
    FindInSuffix(b, u, key);
    SuffixWithout(b, u, key);
    SuffixSnoc(Without(b, key), Without(u, key), b[k]);
  }

  /**
    The operation does not part the two caches: a get hits here, or misses there, or
    finds nothing here to be in the wrong place; a set is kept, or nothing else is.
   */
  predicate InStep<K(==), V>(es: seq<Entry<K, V>>, un: seq<Entry<K, V>>, op: Op<K, V>, maxWeight: nat) {
    match op
    case GetOp(key) => Lookup(es, key).Some? || Lookup(un, key).None? || |es| == 0
    case SetOp(e) => e.weight <= maxWeight || |Without(es, e.key)| == 0
  }

  lemma GetInStep<K, V>(es: seq<Entry<K, V>>, un: seq<Entry<K, V>>, key: K)
    requires Suffix(es, un) && Distinct(un)
    ensures Suffix(Touched(es, key), Touched(un, key)) <==>
      Lookup(es, key).Some? || Lookup(un, key).None? || |es| == 0
  {
    var k, j := Find(es, key, 0), Find(un, key, 0);
    if k < |es| {
      SuffixTouched(es, un, key);
    } else if j < |un| && es != [] {
      LastDiffers(es, Touched(un, key));
    }
  }

  lemma LastDiffers<K, V>(es: seq<Entry<K, V>>, un: seq<Entry<K, V>>)
    requires es != [] && un != [] && es[|es| - 1].key != un[|un| - 1].key
    ensures !Suffix(es, un)
  {
    if |es| <= |un| {
      var i := |es| - 1;
      assert es[i] != un[|un| - |es| + i];
    }
  }

  lemma SetInStep<K, V>(es: seq<Entry<K, V>>, un: seq<Entry<K, V>>, e: Entry<K, V>, maxEntries: nat, maxWeight: nat)
    requires Suffix(es, un) && Distinct(un) && Distinct(es)
    ensures Suffix(Stored(es, e, maxEntries, maxWeight), Without(un, e.key) + [e]) <==>
      e.weight <= maxWeight || |Without(es, e.key)| == 0
  {
    var w, all := Without(es, e.key), Without(un, e.key) + [e];
    SuffixWithout(es, un, e.key);
    if e.weight <= maxWeight {
      SuffixSnoc(w, Without(un, e.key), e);
      EvictedIsLongest(w + [e], maxEntries, maxWeight);
      SuffixTrans(Evicted(w + [e], maxEntries, maxWeight), w + [e], all);
    } else if w != [] {
      WithoutKeys(es, e.key);
      LastDiffers(w, all);
    }
  }

  lemma StepInStep<K, V>(es: seq<Entry<K, V>>, un: seq<Entry<K, V>>, op: Op<K, V>, maxEntries: nat, maxWeight: nat)
    requires Suffix(es, un) && Distinct(un) && Distinct(es)
    ensures Suffix(Next(es, op, maxEntries, maxWeight), NextUnbounded(un, op)) <==> InStep(es, un, op, maxWeight)
  {
    match op
    case GetOp(key) => GetInStep(es, un, key);
    case SetOp(e) => SetInStep(es, un, e, maxEntries, maxWeight);
  }

  lemma NextDistinct<K, V>(un: seq<Entry<K, V>>, op: Op<K, V>)
    requires Distinct(un)
    ensures Distinct(NextUnbounded(un, op))
  {
    match op
    case GetOp(key) => TouchedDistinct(un, key);
    case SetOp(e) =>
      WithoutKeys(un, e.key);
      SnocDistinct(Without(un, e.key), e);
  }

  /** At every point of the log the entries are the most recent ones of a cache without bounds. */
  ghost predicate AlwaysRecent<K, V>(ops: seq<Op<K, V>>, maxEntries: nat, maxWeight: nat) {
    ops == [] ||
    (&& AlwaysRecent(ops[..|ops| - 1], maxEntries, maxWeight)
     && Suffix(Run(ops, maxEntries, maxWeight), Unbounded(ops)))
  }

  /** No operation of the log parts the two caches. */
  ghost predicate AllInStep<K, V>(ops: seq<Op<K, V>>, maxEntries: nat, maxWeight: nat) {
    ops == [] ||
    var front := ops[..|ops| - 1];
    && AllInStep(front, maxEntries, maxWeight)
    && InStep(Run(front, maxEntries, maxWeight), Unbounded(front), ops[|ops| - 1], maxWeight)
  }

  lemma {:induction false} RecentNow<K, V>(ops: seq<Op<K, V>>, maxEntries: nat, maxWeight: nat)
    requires AlwaysRecent(ops, maxEntries, maxWeight)
    ensures Suffix(Run(ops, maxEntries, maxWeight), Unbounded(ops))
  {
  }

  lemma {:induction false} UnboundedDistinct<K, V>(ops: seq<Op<K, V>>)
    ensures Distinct(Unbounded(ops))
  {
    if ops != [] {
      UnboundedDistinct(ops[..|ops| - 1]);
      NextDistinct(Unbounded(ops[..|ops| - 1]), ops[|ops| - 1]);
    }
  }

  /** The entries are always the most recent ones of a cache without bounds iff no operation parts the two. */
  lemma {:induction false} AlwaysRecentIff<K(!new), V>(ops: seq<Op<K, V>>, maxEntries: nat, maxWeight: nat)
    ensures AlwaysRecent(ops, maxEntries, maxWeight) <==> AllInStep(ops, maxEntries, maxWeight)
  {
    if ops != [] {
      var front, op := ops[..|ops| - 1], ops[|ops| - 1];
      AlwaysRecentIff(front, maxEntries, maxWeight);
      if AlwaysRecent(front, maxEntries, maxWeight) {
        RecentNow(front, maxEntries, maxWeight);
        UnboundedDistinct(front);
        RunKeeps(front, maxEntries, maxWeight);
        StepInStep(Run(front, maxEntries, maxWeight), Unbounded(front), op, maxEntries, maxWeight);
      }
    }
  }

  /** What was just set is there, unless it is too heavy or nothing may be kept. */
  lemma JustSetIffFits<K, V>(es: seq<Entry<K, V>>, e: Entry<K, V>, maxEntries: nat, maxWeight: nat)
    requires Distinct(es)
    ensures Lookup(Stored(es, e, maxEntries, maxWeight), e.key) == Some(e.value)
            <==> e.weight <= maxWeight && maxEntries > 0
    ensures Lookup(Stored(es, e, maxEntries, maxWeight), e.key) in {None, Some(e.value)}
  {
    var r := Stored(es, e, maxEntries, maxWeight);
    StoredKeys(es, e, maxEntries, maxWeight);
    if e.weight > maxWeight {
      WithoutKeys(es, e.key);
    } else if maxEntries > 0 {
      LastStays(Without(es, e.key), e, maxEntries, maxWeight);
      assert r[|r| - 1].key == e.key;
    } else {
      EvictedIsLongest(Without(es, e.key) + [e], maxEntries, maxWeight);
      assert r == [];
    }
  }

  /** No operation makes an entry up. */
  lemma TouchedFrom<K, V>(es: seq<Entry<K, V>>, key: K)
    ensures forall i :: 0 <= i < |Touched(es, key)| ==> Touched(es, key)[i] in es
  {
    var k := Find(es, key, 0);
    if k < |es| {
      WithoutFrom(es, key);
      forall i | 0 <= i < |Touched(es, key)| ensures Touched(es, key)[i] in es {
        if i < |es| - 1 {
          assert Touched(es, key)[i] == Without(es, key)[i];
        }
      }
    }
  }

  lemma WithoutFrom<K, V>(es: seq<Entry<K, V>>, key: K)
    ensures forall i :: 0 <= i < |Without(es, key)| ==> Without(es, key)[i] in es
  {
    var k := Find(es, key, 0);
    var w := Without(es, key);
    if k < |es| {
      forall i | 0 <= i < |w| ensures w[i] in es {
        assert w[i] == if i < k then es[i] else es[i + 1];
      }
    }
  }

  lemma StoredFrom<K, V>(es: seq<Entry<K, V>>, e: Entry<K, V>, maxEntries: nat, maxWeight: nat)
    ensures forall i :: 0 <= i < |Stored(es, e, maxEntries, maxWeight)| ==>
      Stored(es, e, maxEntries, maxWeight)[i] in es || Stored(es, e, maxEntries, maxWeight)[i] == e
  {
    var r := Stored(es, e, maxEntries, maxWeight);
    WithoutFrom(es, e.key);
    if e.weight <= maxWeight {
      var all := Without(es, e.key) + [e];
      EvictedIsLongest(all, maxEntries, maxWeight);
      forall i | 0 <= i < |r| ensures r[i] in es || r[i] == e {
        assert r[i] == all[|all| - |r| + i];
        if |all| - |r| + i < |all| - 1 {
          assert r[i] == Without(es, e.key)[|all| - |r| + i];
        }
      }
    }
  }
}
