/** Shared vocabulary: optional values, finite collections and Redis stream identifiers. */
module Basics {

  datatype Option<+T> = None | Some(value: T)

  /** Adds a binding, or removes the key when there is nothing to bind. */
  function Put<K(!new), V>(m: map<K, V>, k: K, v: Option<V>): (r: map<K, V>)
    ensures Find(r, k) == v
    ensures forall j :: j != k ==> Find(r, j) == Find(m, j)
  {
    match v
    case None => m - {k}
    case Some(x) => m[k := x]
  }

  function Find<K, V>(m: map<K, V>, k: K): Option<V>
  {
    if k in m then Some(m[k]) else None
  }
}

/** Finite sets and sequences without repetition. */
module Collections {

  predicate Distinct<T(==)>(s: seq<T>) {
    forall i, j :: 0 <= i < j < |s| ==> s[i] != s[j]
  }

  lemma {:induction false} DistinctCount<T>(s: seq<T>, elements: set<T>)
    requires Distinct(s) && forall x :: x in s <==> x in elements
    ensures |s| == |elements|
  {
    if s != [] {
      var n := |s| - 1;
      assert s == s[..n] + [s[n]];
      DistinctCount(s[..n], elements - {s[n]});
    }
  }

  lemma SubsetSize<T>(a: set<T>, b: set<T>)
    requires a <= b
    ensures |a| <= |b|
    ensures |a| == |b| <==> a == b
  {
    assert b == a + (b - a);
    if |a| == |b| { assert b - a == {}; }
  }

  lemma Pick<T>(s: set<T>) returns (x: T)
    requires s != {}
    ensures x in s
  {
    x :| x in s;
  }
}

/** Redis stream identifiers: a millisecond clock reading and a sequence number,
    ordered lexicographically and generated in strictly increasing order. */
module StreamIds {

  datatype StreamId = StreamId(ms: nat, sequence: nat)

  const ZERO := StreamId(0, 0)

  predicate Before(a: StreamId, b: StreamId) {
    a.ms < b.ms || (a.ms == b.ms && a.sequence < b.sequence)
  }

  predicate AtOrBefore(a: StreamId, b: StreamId) {
    a == b || Before(a, b)
  }

  /** The identifier XADD assigns for "*" when the stream last generated `last`:
      never at or before `last`, never earlier than the clock, and never 0-0. */
  function NextId(last: StreamId, now: nat): (id: StreamId)
    ensures Before(last, id) && id != ZERO && now <= id.ms
  {
    if last.ms < now then StreamId(now, 0) else StreamId(last.ms, last.sequence + 1)
  }
}
