/**
 First-in-first-out pairing through a dictionary of queues, and the reference it
 refines: each taker is paired with the earliest earlier record of the same key
 that no earlier taker used.
 */
module Pairing {
  import opened Text

  /** What one log line does to one dictionary of queues. */
  datatype Event<K> = Put(key: K) | Take(key: K) | Skip

  type Partners = seq<Option<nat>>

  /** Record `j` has key `k`, comes before line `n`, and no taker before `n` used it. */
  ghost predicate Free<K>(es: seq<Event<K>>, p: Partners, n: nat, k: K, j: nat) {
    j < n <= |es| && n <= |p| && es[j] == Put(k) && forall m | 0 <= m < n :: p[m] != Some(j)
  }

  /** Line `i` has the partner the reference asks for. */
  ghost predicate PairedAt<K>(es: seq<Event<K>>, p: Partners, i: nat)
    requires i < |es| && i < |p|
  {
    match es[i]
    case Take(k) =>
      (match p[i]
       case None => forall j: nat :: !Free(es, p, i, k, j)
       case Some(j) => Free(es, p, i, k, j) && forall l: nat | l < j :: !Free(es, p, i, k, l))
    case _ => p[i] == None
  }

  ghost predicate PairedUpTo<K>(es: seq<Event<K>>, p: Partners, n: nat) {
    n <= |es| && n <= |p| && forall i | 0 <= i < n :: PairedAt(es, p, i)
  }

  /** The reference pairing of a whole log. */
  ghost predicate IsPairing<K>(es: seq<Event<K>>, p: Partners) {
    |p| == |es| && PairedUpTo(es, p, |es|)
  }

  lemma PairedAtPrefix<K>(es: seq<Event<K>>, p: Partners, q: Partners, i: nat)
    requires i < |es| && i < |p| && i < |q| && p[..i + 1] == q[..i + 1]
    requires PairedAt(es, p, i)
    ensures PairedAt(es, q, i)
  {
    assert p[i] == p[..i + 1][i] == q[i];
    forall k: K, j: nat ensures Free(es, p, i, k, j) <==> Free(es, q, i, k, j) {
      assert forall m | 0 <= m < i :: p[m] == p[..i + 1][m] == q[m];
    }
  }

  /** There is only one reference pairing. */
  lemma {:induction false} PairingUnique<K>(es: seq<Event<K>>, p: Partners, q: Partners, n: nat)
    requires PairedUpTo(es, p, n) && PairedUpTo(es, q, n)
    ensures p[..n] == q[..n]
  {
    if n > 0 {
      PairingUnique(es, p, q, n - 1);
      var i := n - 1;
      assert PairedAt(es, p, i) && PairedAt(es, q, i);
      if es[i].Take? {
        forall j: nat ensures Free(es, p, i, es[i].key, j) <==> Free(es, q, i, es[i].key, j) {
          assert forall m | 0 <= m < i :: p[m] == p[..i][m] == q[..i][m] == q[m];
        }
      }
      assert p[..n] == p[..i] + [p[i]];
      assert q[..n] == q[..i] + [q[i]];
    }
  }

  /**
   What the reference promises: partners come earlier and share the key, no record
   is used twice, and takers of one key get their records in order.
   */
  lemma PairingLaws<K>(es: seq<Event<K>>, p: Partners, i: nat, m: nat)
    requires IsPairing(es, p) && i < m < |es| && p[i].Some? && p[m].Some?
    ensures p[i].value < i && es[i].Take? && es[p[i].value] == Put(es[i].key)
    ensures p[i].value != p[m].value
    ensures es[i] == es[m] ==> p[i].value < p[m].value
  {
    assert PairedAt(es, p, i) && PairedAt(es, p, m);
    if es[i] == es[m] {
      assert p[m].value < i ==> Free(es, p, i, es[i].key, p[m].value);
    }
  }

  // ---- The dictionary of queues ----

  /** `queue_map.setdefault(key, []).append(value)` */
  function Push<K, V>(q: map<K, seq<V>>, k: K, v: V): map<K, seq<V>> {
    q[k := (if k in q then q[k] else []) + [v]]
  }

  /** `pop_first`: the first value under the key, if any, and what remains. */
  function PopFirst<K, V>(q: map<K, seq<V>>, k: K): (r: (map<K, seq<V>>, Option<V>)) {
    if k !in q || q[k] == [] then (q, None)
    else if |q[k]| == 1 then (q - {k}, Some(q[k][0]))
    else (q[k := q[k][1..]], Some(q[k][0]))
  }

  ghost predicate Increasing(s: seq<nat>) {
    forall a, b | 0 <= a < b < |s| :: s[a] < s[b]
  }

  /** The queue of a key lists, in order, the free records of that key; no queue is empty. */
  ghost predicate QueueOf<K>(es: seq<Event<K>>, p: Partners, n: nat, k: K, s: seq<nat>) {
    Increasing(s) && forall j: nat :: j in s <==> Free(es, p, n, k, j)
  }

  ghost predicate QueuesOk<K(!new)>(es: seq<Event<K>>, p: Partners, n: nat, q: map<K, seq<nat>>) {
    && n == |p| <= |es|
    && (forall k | k in q :: q[k] != [])
    && (forall k :: QueueOf(es, p, n, k, if k in q then q[k] else []))
  }

  lemma FreeStep<K>(es: seq<Event<K>>, p: Partners, x: Option<nat>, k: K, j: nat)
    requires |p| < |es|
    ensures Free(es, p + [x], |p| + 1, k, j) <==>
      || (Free(es, p, |p|, k, j) && x != Some(j))
      || (j == |p| && es[j] == Put(k) && x != Some(j) && forall m | 0 <= m < |p| :: p[m] != Some(j))
  {
    var q := p + [x];
    assert q[|p|] == x;
    assert forall m | 0 <= m < |p| :: q[m] == p[m];
  }

  /** Partners always lie before the taker. */
  ghost predicate Backward(p: Partners) {
    forall i | 0 <= i < |p| && p[i].Some? :: p[i].value < i
  }

  lemma PutStep<K(!new)>(es: seq<Event<K>>, p: Partners, q: map<K, seq<nat>>)
    requires |p| < |es| && QueuesOk(es, p, |p|, q) && Backward(p) && es[|p|].Put?
    ensures QueuesOk(es, p + [None], |p| + 1, Push(q, es[|p|].key, |p|)) && Backward(p + [None])
    ensures PairedAt(es, p + [None], |p|)
  {
    var n := |p|;
    var r := Push(q, es[n].key, n);
    forall k ensures QueueOf(es, p + [None], n + 1, k, if k in r then r[k] else []) {
      var s := if k in q then q[k] else [];
      var t := if k in r then r[k] else [];
      assert QueueOf(es, p, n, k, s);
      PutQueue(es, p, k, s, t);
    }
  }

  lemma PutQueue<K>(es: seq<Event<K>>, p: Partners, k: K, s: seq<nat>, t: seq<nat>)
    requires |p| < |es| && es[|p|].Put? && Backward(p) && QueueOf(es, p, |p|, k, s)
    requires t == if k == es[|p|].key then s + [|p|] else s
    ensures QueueOf(es, p + [None], |p| + 1, k, t)
  {
    forall j: nat ensures j in t <==> Free(es, p + [None], |p| + 1, k, j) {
      FreeStep(es, p, None, k, j);
      assert j in s <==> Free(es, p, |p|, k, j);
    }
    forall a | 0 <= a < |s| ensures s[a] < |p| {
      assert s[a] in s;
    }
  }

  lemma SkipStep<K(!new)>(es: seq<Event<K>>, p: Partners, q: map<K, seq<nat>>)
    requires |p| < |es| && QueuesOk(es, p, |p|, q) && Backward(p) && es[|p|].Skip?
    ensures QueuesOk(es, p + [None], |p| + 1, q) && Backward(p + [None])
    ensures PairedAt(es, p + [None], |p|)
  {
    var n := |p|;
    forall k ensures QueueOf(es, p + [None], n + 1, k, if k in q then q[k] else []) {
      var s := if k in q then q[k] else [];
      assert QueueOf(es, p, n, k, s);
      forall j: nat ensures j in s <==> Free(es, p + [None], n + 1, k, j) {
        FreeStep(es, p, None, k, j);
        assert j in s <==> Free(es, p, n, k, j);
      }
    }
  }

  /** Popping yields the earliest free record of the key. */
  lemma TakeStep<K(!new)>(es: seq<Event<K>>, p: Partners, q: map<K, seq<nat>>)
    requires |p| < |es| && QueuesOk(es, p, |p|, q) && Backward(p) && es[|p|].Take?
    ensures
      var (r, x) := PopFirst(q, es[|p|].key);
      QueuesOk(es, p + [x], |p| + 1, r) && Backward(p + [x]) && PairedAt(es, p + [x], |p|)
  {
    var n := |p|;
    var key := es[n].key;
    var (r, x) := PopFirst(q, key);
    var head := if key in q then q[key] else [];
    assert QueueOf(es, p, n, key, head);
    assert x == if head == [] then None else Some(head[0]);
    if x.Some? {
      assert head[0] in head;
    }
    forall k ensures QueueOf(es, p + [x], n + 1, k, if k in r then r[k] else []) {
      var s := if k in q then q[k] else [];
      var t := if k in r then r[k] else [];
      assert QueueOf(es, p, n, k, s);
      assert t == if k == key && s != [] then s[1..] else s;
      TakeQueue(es, p, x, k, s, t);
    }
    TakePaired(es, p, x, head);
  }

  lemma TakeQueue<K>(es: seq<Event<K>>, p: Partners, x: Option<nat>, k: K, s: seq<nat>, t: seq<nat>)
    requires |p| < |es| && es[|p|].Take? && QueueOf(es, p, |p|, k, s)
    requires x.Some? ==> Free(es, p, |p|, es[|p|].key, x.value)
    requires k == es[|p|].key ==> x == (if s == [] then None else Some(s[0]))
    requires t == if k == es[|p|].key && s != [] then s[1..] else s
    ensures QueueOf(es, p + [x], |p| + 1, k, t)
  {
    forall j: nat ensures j in t <==> Free(es, p + [x], |p| + 1, k, j) {
      FreeStep(es, p, x, k, j);
      assert j in s <==> Free(es, p, |p|, k, j);
      if t != s {
        assert s == [s[0]] + t;
        assert forall a | 0 <= a < |t| :: t[a] == s[a + 1];
      }
    }
  }

  lemma TakePaired<K>(es: seq<Event<K>>, p: Partners, x: Option<nat>, head: seq<nat>)
    requires |p| < |es| && es[|p|].Take? && QueueOf(es, p, |p|, es[|p|].key, head)
    requires x == if head == [] then None else Some(head[0])
    ensures PairedAt(es, p + [x], |p|)
  {
    var n := |p|;
    var k := es[n].key;
    var q := p + [x];
    forall j: nat ensures Free(es, q, n, k, j) <==> j in head {
      assert forall m | 0 <= m < n :: q[m] == p[m];
      assert j in head <==> Free(es, p, n, k, j);
    }
    if head != [] {
      assert head[0] in head;
    }
  }

  // ---- Queues of records, against queues of line numbers ----

  /** The queues hold the records of the lines that the numbered queues name. */
  ghost predicate Mirrors<K, V>(qv: map<K, seq<V>>, qi: map<K, seq<nat>>, records: seq<V>) {
    && qv.Keys == qi.Keys
    && forall k | k in qi ::
         && |qv[k]| == |qi[k]|
         && forall t | 0 <= t < |qi[k]| :: qi[k][t] < |records| && qv[k][t] == records[qi[k][t]]
  }

  /** The pairing so far is the reference's, and the queues hold exactly the free records. */
  ghost predicate Tracks<K(!new), V>(
    es: seq<Event<K>>, p: Partners, qi: map<K, seq<nat>>, qv: map<K, seq<V>>, records: seq<V>)
  {
    |p| == |records| && PairedUpTo(es, p, |p|) && QueuesOk(es, p, |p|, qi) && Backward(p) && Mirrors(qv, qi, records)
  }

  lemma PairedExtend<K>(es: seq<Event<K>>, p: Partners, x: Option<nat>)
    requires PairedUpTo(es, p, |p|) && |p| < |es| && PairedAt(es, p + [x], |p|)
    ensures PairedUpTo(es, p + [x], |p| + 1)
  {
    var q := p + [x];
    forall i | 0 <= i < |p| ensures PairedAt(es, q, i) {
      assert p[..i + 1] == q[..i + 1];
      PairedAtPrefix(es, p, q, i);
    }
  }

  lemma TrackSkip<K(!new), V>(
    es: seq<Event<K>>, p: Partners, qi: map<K, seq<nat>>, qv: map<K, seq<V>>, records: seq<V>, v: V)
    requires Tracks(es, p, qi, qv, records) && |p| < |es| && es[|p|].Skip?
    ensures Tracks(es, p + [None], qi, qv, records + [v])
  {
    SkipStep(es, p, qi);
    PairedExtend(es, p, None);
  }

  lemma TrackPut<K(!new), V>(
    es: seq<Event<K>>, p: Partners, qi: map<K, seq<nat>>, qv: map<K, seq<V>>, records: seq<V>, v: V)
    requires Tracks(es, p, qi, qv, records) && |p| < |es| && es[|p|].Put?
    ensures Tracks(es, p + [None], Push(qi, es[|p|].key, |p|), Push(qv, es[|p|].key, v), records + [v])
  {
    PutStep(es, p, qi);
    PairedExtend(es, p, None);
    MirrorPush(qv, qi, records, es[|p|].key, v);
  }

  lemma MirrorPush<K, V>(qv: map<K, seq<V>>, qi: map<K, seq<nat>>, records: seq<V>, key: K, v: V)
    requires Mirrors(qv, qi, records)
    ensures Mirrors(Push(qv, key, v), Push(qi, key, |records|), records + [v])
  {
  }

  lemma TrackTake<K(!new), V>(
    es: seq<Event<K>>, p: Partners, qi: map<K, seq<nat>>, qv: map<K, seq<V>>, records: seq<V>, v: V)
    requires Tracks(es, p, qi, qv, records) && |p| < |es| && es[|p|].Take?
    ensures
      var k := es[|p|].key;
      var x := PopFirst(qi, k).1;
      var y := PopFirst(qv, k).1;
      && Tracks(es, p + [x], PopFirst(qi, k).0, PopFirst(qv, k).0, records + [v])
      && (x.None? <==> y.None?)
      && (x.Some? ==> x.value < |p| && y.value == records[x.value] && es[x.value] == Put(k))
  {
    var k := es[|p|].key;
    var x := PopFirst(qi, k).1;
    TakeStep(es, p, qi);
    PairedExtend(es, p, x);
    MirrorPop(qv, qi, records, k, v);
    if x.Some? {
      assert QueueOf(es, p, |p|, k, qi[k]);
      assert qi[k][0] in qi[k];
    }
  }

  lemma MirrorPop<K, V>(qv: map<K, seq<V>>, qi: map<K, seq<nat>>, records: seq<V>, key: K, v: V)
    requires Mirrors(qv, qi, records)
    ensures
      var x, y := PopFirst(qi, key).1, PopFirst(qv, key).1;
      && Mirrors(PopFirst(qv, key).0, PopFirst(qi, key).0, records + [v])
      && (x.None? <==> y.None?)
      && (x.Some? ==> x.value < |records| && y.value == records[x.value])
  {
  }
}
